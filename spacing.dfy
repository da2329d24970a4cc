/**
 * Wake-turbulence spacing and the conversion of a spacing distance into a
 * landing-time interval, shared by every sequencer of the client.
 *
 * Distances are in tenths of a nautical mile (the client's `Double` NM values
 * all have one decimal), durations in whole seconds.
 */
module Spacing {
  import opened Wrappers

  /** A landing speed in knots; the conversion divides by it. */
  type Knots = k: int | k > 0 witness 140

  /** The spacing used when the wake table has no entry for a pair: 3.0 NM. */
  const DefaultSpacingTenths: nat := 30

  /** The wake-turbulence table of the client, keyed by (leader, follower) category. */
  function WakeTable(leader: char, follower: char): (r: Option<nat>)
    ensures r.Some? <==>
              (leader, follower) in {('H', 'H'), ('H', 'M'), ('H', 'L'), ('M', 'L'), ('J', 'H'), ('J', 'M'), ('J', 'L')}
    ensures r.Some? ==> 40 <= r.value <= 80
  {
    match (leader, follower)
    case ('H', 'H') => Some(40)
    case ('H', 'M') => Some(50)
    case ('H', 'L') => Some(60)
    case ('M', 'L') => Some(50)
    case ('J', 'H') => Some(60)
    case ('J', 'M') => Some(70)
    case ('J', 'L') => Some(80)
    case _ => None
  }

  /** Table spacing with the 3.0 NM default for pairs the table does not list. */
  function WakeSpacing(leader: char, follower: char): (r: nat)
    ensures WakeTable(leader, follower).None? ==> r == DefaultSpacingTenths
    ensures WakeTable(leader, follower).Some? ==> r == WakeTable(leader, follower).value
    ensures r >= DefaultSpacingTenths
  {
    WakeTable(leader, follower).GetOr(DefaultSpacingTenths)
  }

  /** Time to fly `tenths` tenths of a NM at `ias` knots, in whole seconds (rounded down). */
  function NmToSeconds(tenths: nat, ias: Knots): nat
  {
    tenths * 360 / ias
  }

  /** The conversion rounds the exact time `tenths * 360 / ias` down to whole seconds. */
  lemma {:induction false} NmToSecondsRoundsDown(tenths: nat, ias: Knots)
    ensures NmToSeconds(tenths, ias) * ias <= tenths * 360 < (NmToSeconds(tenths, ias) + 1) * ias
  {
  }

  lemma {:induction false} MulMonotone(a: int, b: int, c: nat)
    requires a <= b
    ensures a * c <= b * c
  {
    if c > 0 {
      MulMonotone(a, b, c - 1);
      assert a * c == a * (c - 1) + a;
      assert b * c == b * (c - 1) + b;
    }
  }

  /** A longer distance never takes less time. */
  lemma {:induction false} NmToSecondsMonotone(a: nat, b: nat, ias: Knots)
    requires a <= b
    ensures NmToSeconds(a, ias) <= NmToSeconds(b, ias)
  {
    var ra, rb := NmToSeconds(a, ias), NmToSeconds(b, ias);
    NmToSecondsRoundsDown(a, ias);
    NmToSecondsRoundsDown(b, ias);
    if ra > rb {
      MulMonotone(rb + 1, ra, ias);
    }
  }

  /** The same distance takes no longer at a higher speed. */
  lemma {:induction false} NmToSecondsAntitone(tenths: nat, slow: Knots, fast: Knots)
    requires slow <= fast
    ensures NmToSeconds(tenths, fast) <= NmToSeconds(tenths, slow)
  {
    var rf, rs := NmToSeconds(tenths, fast), NmToSeconds(tenths, slow);
    NmToSecondsRoundsDown(tenths, fast);
    NmToSecondsRoundsDown(tenths, slow);
    if rf > rs {
      MulMonotone(rs + 1, rf, slow);
      assert rf * slow == slow * rf;
      assert rf * fast == fast * rf;
      MulMonotone(slow, fast, rf);
    }
  }
}
