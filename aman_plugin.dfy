/**
 * The EuroScope plug-in of the arrival manager (AmanPlugIn.cpp): the
 * registry of inbound and outbound subscriptions, the route fix lookups,
 * the selection of the aircraft inbound to a fix and the seconds each one
 * is behind the one before, the 5000 ft vertical-profile sampling,
 * `splitString` and the HHMM departure time reader.
 *
 * EuroScope's radar targets, flight plans and trajectory predictions are
 * given as values (`Target`); the geodesic distances and the time to the
 * fix computed from them are inputs, and the clock is a parameter.
 */
module AmanPlugInModel {
  import opened Wrappers
  import Search
  import Sorting
  import Strings
  import Decimal

  // ---------------------------------------------------------------------
  // Subscriptions
  // ---------------------------------------------------------------------

  datatype InboundsSubscription = InboundsSubscription(
    requestId: int, viaFixes: seq<string>, destinationFixes: seq<string>, destinationAirports: seq<string>)

  datatype OutboundsSubscription = OutboundsSubscription(requestId: int, airport: string)

  function InboundId(sub: InboundsSubscription): int { sub.requestId }

  function OutboundId(sub: OutboundsSubscription): int { sub.requestId }

  /** Where the first subscription with a given request id is. */
  function Find<T>(subs: seq<T>, id: T -> int, requestId: int): Option<nat>
  {
    Search.FirstIndex(subs, (s: T) => id(s) == requestId)
  }

  /** A subscribe request: the first subscription with the same id is replaced, or the new one is appended. */
  function Upsert<T>(subs: seq<T>, sub: T, id: T -> int): seq<T>
  {
    match Find(subs, id, id(sub))
    case Some(i) => subs[i := sub]
    case None => subs + [sub]
  }

  /** `onUnsubscribe`: the first subscription with the id is erased, if there is one. */
  function RemoveFirst<T>(subs: seq<T>, id: T -> int, requestId: int): seq<T>
  {
    match Find(subs, id, requestId)
    case Some(i) => subs[..i] + subs[i + 1..]
    case None => subs
  }

  predicate HasId<T>(subs: seq<T>, id: T -> int, requestId: int)
  {
    exists k | 0 <= k < |subs| :: id(subs[k]) == requestId
  }

  predicate DistinctIds<T>(subs: seq<T>, id: T -> int)
  {
    forall j, k | 0 <= j < k < |subs| :: id(subs[j]) != id(subs[k])
  }

  /**
   * A known id has its subscription replaced where it stands, and nothing
   * is added; an unknown id is appended at the end.
   */
  lemma {:induction false} UpsertSpec<T>(subs: seq<T>, sub: T, id: T -> int)
    ensures var r := Upsert(subs, sub, id);
      && (HasId(subs, id, id(sub)) ==>
            |r| == |subs|
            && exists i | 0 <= i < |subs| ::
                 id(subs[i]) == id(sub) && r[i] == sub
                 && (forall j | 0 <= j < i :: id(subs[j]) != id(sub))
                 && (forall j | 0 <= j < |subs| && j != i :: r[j] == subs[j]))
      && (!HasId(subs, id, id(sub)) ==> r == subs + [sub])
  {
    var f := Find(subs, id, id(sub));
    if f.Some? {
      var i := f.value;
      assert id(subs[i]) == id(sub);
    }
  }

  /** After a subscribe request the id is registered, once when ids were distinct before. */
  lemma {:induction false} UpsertKeepsIdsDistinct<T>(subs: seq<T>, sub: T, id: T -> int)
    requires DistinctIds(subs, id)
    ensures HasId(Upsert(subs, sub, id), id, id(sub))
    ensures DistinctIds(Upsert(subs, sub, id), id)
  {
    var r := Upsert(subs, sub, id);
    var f := Find(subs, id, id(sub));
    if f.Some? {
      assert r[f.value] == sub;
    } else {
      assert r[|subs|] == sub;
      forall j, k | 0 <= j < k < |r| ensures id(r[j]) != id(r[k]) {
        if k < |subs| {
          assert r[j] == subs[j] && r[k] == subs[k];
        }
      }
    }
  }

  /**
   * Unsubscribing erases the first subscription with the id and keeps the
   * order of the others; an unknown id changes nothing, and with distinct
   * ids the id is gone afterwards.
   */
  lemma {:induction false} RemoveFirstSpec<T>(subs: seq<T>, id: T -> int, requestId: int)
    ensures var r := RemoveFirst(subs, id, requestId);
      && (!HasId(subs, id, requestId) ==> r == subs)
      && (HasId(subs, id, requestId) ==>
            |r| == |subs| - 1
            && exists i | 0 <= i < |subs| ::
                 id(subs[i]) == requestId && (forall j | 0 <= j < i :: id(subs[j]) != requestId)
                 && r == subs[..i] + subs[i + 1..])
      && (DistinctIds(subs, id) ==> !HasId(r, id, requestId) && DistinctIds(r, id))
  {
    FindSpec(subs, id, requestId);
    if Find(subs, id, requestId).Some? {
      var i := Find(subs, id, requestId).value;
      RemoveFirstDistinct(subs, id, requestId, i);
      assert id(subs[i]) == requestId && (forall j | 0 <= j < i :: id(subs[j]) != requestId)
        && RemoveFirst(subs, id, requestId) == subs[..i] + subs[i + 1..];
    }
  }

  /** `Find` answers the first index with the id, and nothing when no subscription has it. */
  lemma {:induction false} FindSpec<T>(subs: seq<T>, id: T -> int, requestId: int)
    ensures Find(subs, id, requestId).None? <==> !HasId(subs, id, requestId)
    ensures Find(subs, id, requestId).Some? ==>
      var i := Find(subs, id, requestId).value;
      i < |subs| && id(subs[i]) == requestId && forall j | 0 <= j < i :: id(subs[j]) != requestId
  {
  }

  /** Erasing the subscription at `i` keeps distinct ids distinct and, the id being unique, removes it. */
  lemma {:induction false} RemoveFirstDistinct<T>(subs: seq<T>, id: T -> int, requestId: int, i: nat)
    requires i < |subs| && id(subs[i]) == requestId
    ensures var r := subs[..i] + subs[i + 1..];
      DistinctIds(subs, id) ==> !HasId(r, id, requestId) && DistinctIds(r, id)
  {
    var r := subs[..i] + subs[i + 1..];
    assert forall k | 0 <= k < |r| :: r[k] == if k < i then subs[k] else subs[k + 1];
  }

  lemma {:induction false} FindAt<T>(subs: seq<T>, id: T -> int, requestId: int, i: nat)
    requires i < |subs| && id(subs[i]) == requestId
    requires forall j | 0 <= j < i :: id(subs[j]) != requestId
    ensures Find(subs, id, requestId) == Some(i)
  {
  }

  lemma {:induction false} FindNone<T>(subs: seq<T>, id: T -> int, requestId: int)
    requires forall j | 0 <= j < |subs| :: id(subs[j]) != requestId
    ensures Find(subs, id, requestId) == None
  {
  }

  /** The subscription registry of the plug-in: the two vectors of subscriptions. */
  class AmanPlugIn {
    var inboundsSubscriptions: seq<InboundsSubscription>
    var outboundsSubscriptions: seq<OutboundsSubscription>

    constructor()
      ensures inboundsSubscriptions == [] && outboundsSubscriptions == []
    {
      inboundsSubscriptions := [];
      outboundsSubscriptions := [];
    }

    /** `onRequestInboundsForFix` (lines 120-139). */
    method OnRequestInboundsForFix(requestId: int, viaFixes: seq<string>, destinationFixes: seq<string>,
                                   destinationAirports: seq<string>)
      modifies this
      ensures inboundsSubscriptions
        == Upsert(old(inboundsSubscriptions),
                  InboundsSubscription(requestId, viaFixes, destinationFixes, destinationAirports), InboundId)
      ensures outboundsSubscriptions == old(outboundsSubscriptions)
    {
      var sub := InboundsSubscription(requestId, viaFixes, destinationFixes, destinationAirports);
      var i := 0;
      while i < |inboundsSubscriptions|
        invariant 0 <= i <= |inboundsSubscriptions|
        invariant forall j | 0 <= j < i :: inboundsSubscriptions[j].requestId != requestId
        invariant inboundsSubscriptions == old(inboundsSubscriptions)
        invariant outboundsSubscriptions == old(outboundsSubscriptions)
      {
        if inboundsSubscriptions[i].requestId == requestId {
          FindAt(inboundsSubscriptions, InboundId, requestId, i);
          inboundsSubscriptions := inboundsSubscriptions[i := sub];
          return;
        }
        i := i + 1;
      }
      FindNone(inboundsSubscriptions, InboundId, requestId);
      inboundsSubscriptions := inboundsSubscriptions + [sub];
    }

    /** `onRequestOutboundsFromAirport` (lines 141-154). */
    method OnRequestOutboundsFromAirport(requestId: int, icao: string)
      modifies this
      ensures outboundsSubscriptions
        == Upsert(old(outboundsSubscriptions), OutboundsSubscription(requestId, icao), OutboundId)
      ensures inboundsSubscriptions == old(inboundsSubscriptions)
    {
      var sub := OutboundsSubscription(requestId, icao);
      var i := 0;
      while i < |outboundsSubscriptions|
        invariant 0 <= i <= |outboundsSubscriptions|
        invariant forall j | 0 <= j < i :: outboundsSubscriptions[j].requestId != requestId
        invariant inboundsSubscriptions == old(inboundsSubscriptions)
        invariant outboundsSubscriptions == old(outboundsSubscriptions)
      {
        if outboundsSubscriptions[i].requestId == requestId {
          FindAt(outboundsSubscriptions, OutboundId, requestId, i);
          outboundsSubscriptions := outboundsSubscriptions[i := sub];
          return;
        }
        i := i + 1;
      }
      FindNone(outboundsSubscriptions, OutboundId, requestId);
      outboundsSubscriptions := outboundsSubscriptions + [sub];
    }

    /** `onUnsubscribe` (lines 156-163): only inbound subscriptions are looked at. */
    method OnUnsubscribe(requestId: int)
      modifies this
      ensures inboundsSubscriptions == RemoveFirst(old(inboundsSubscriptions), InboundId, requestId)
      ensures outboundsSubscriptions == old(outboundsSubscriptions)
    {
      var i := 0;
      while i < |inboundsSubscriptions|
        invariant 0 <= i <= |inboundsSubscriptions|
        invariant forall j | 0 <= j < i :: inboundsSubscriptions[j].requestId != requestId
        invariant inboundsSubscriptions == old(inboundsSubscriptions)
        invariant outboundsSubscriptions == old(outboundsSubscriptions)
      {
        if inboundsSubscriptions[i].requestId == requestId {
          FindAt(inboundsSubscriptions, InboundId, requestId, i);
          inboundsSubscriptions := inboundsSubscriptions[..i] + inboundsSubscriptions[i + 1..];
          return;
        }
        i := i + 1;
      }
      FindNone(inboundsSubscriptions, InboundId, requestId);
    }
  }

  // ---------------------------------------------------------------------
  // Route lookups
  // ---------------------------------------------------------------------

  /** A point of an extracted route, with EuroScope's minutes to it (-1 once it is passed). */
  datatype RoutePoint = RoutePoint(name: string, minutesToPoint: int)

  /** `getFixIndexByName` (lines 61-68): the first point with the name, or -1. */
  function FixIndexByName(route: seq<RoutePoint>, fixName: string): (r: int)
    ensures -1 <= r < |route|
    ensures r >= 0 ==> route[r].name == fixName && forall j | 0 <= j < r :: route[j].name != fixName
    ensures r == -1 <==> forall j | 0 <= j < |route| :: route[j].name != fixName
  {
    if route == [] then -1
    else if route[0].name == fixName then 0
    else
      var r := FixIndexByName(route[1..], fixName);
      assert forall j | 1 <= j < |route| :: route[j] == route[1..][j - 1];
      if r == -1 then -1 else r + 1
  }

  predicate OnRoute(route: seq<RoutePoint>, fixName: string)
  {
    exists j | 0 <= j < |route| :: route[j].name == fixName
  }

  /**
   * `getFirstViaFixIndex` (lines 70-77): an index into the via fixes (not
   * into the route) of the first one on the route, or -1.
   */
  function FirstViaFixIndex(route: seq<RoutePoint>, viaFixes: seq<string>): (r: int)
    ensures -1 <= r < |viaFixes|
    ensures r >= 0 ==> OnRoute(route, viaFixes[r]) && forall j | 0 <= j < r :: !OnRoute(route, viaFixes[j])
    ensures r == -1 <==> forall j | 0 <= j < |viaFixes| :: !OnRoute(route, viaFixes[j])
  {
    if viaFixes == [] then -1
    else if FixIndexByName(route, viaFixes[0]) != -1 then 0
    else
      var r := FirstViaFixIndex(route, viaFixes[1..]);
      assert forall j | 1 <= j < |viaFixes| :: viaFixes[j] == viaFixes[1..][j - 1];
      if r == -1 then -1 else r + 1
  }

  /**
   * `viaFixes.at(getFirstViaFixIndex(..))` (line 284): the via fix, or None
   * where `at(-1)` throws `std::out_of_range`.
   */
  function ViaFix(route: seq<RoutePoint>, viaFixes: seq<string>): (r: Option<string>)
    ensures r.None? <==> forall j | 0 <= j < |viaFixes| :: !OnRoute(route, viaFixes[j])
    ensures r.Some? ==> OnRoute(route, r.value) && r.value in viaFixes
  {
    var i := FirstViaFixIndex(route, viaFixes);
    if i == -1 then None else Some(viaFixes[i])
  }

  /** `hasCorrectDestination` (lines 56-59): an empty allow-list allows every destination. */
  predicate HasCorrectDestination(destination: string, destinationAirports: seq<string>)
  {
    |destinationAirports| == 0 || destination in destinationAirports
  }

  // ---------------------------------------------------------------------
  // splitString
  // ---------------------------------------------------------------------

  function Is(delim: char): char -> bool
  {
    c => c == delim
  }

  /** The tokens of `splitString`: the non-empty runs between delimiters. */
  function Tokens(s: string, delim: char): seq<string>
  {
    Strings.NonEmpty(Strings.SplitWhere(s, Is(delim)))
  }

  function Concat(parts: seq<string>): string
  {
    if parts == [] then [] else parts[0] + Concat(parts[1..])
  }

  /** The string with every delimiter taken out. */
  function Without(s: string, delim: char): (r: string)
  {
    if s == [] then [] else (if s[0] == delim then [] else [s[0]]) + Without(s[1..], delim)
  }

  /**
   * The tokens are non-empty and free of the delimiter, and together, in
   * order, they are the string with its delimiters taken out.
   */
  lemma {:induction false} TokensSpec(s: string, delim: char)
    ensures forall k | 0 <= k < |Tokens(s, delim)| ::
      Tokens(s, delim)[k] != [] && delim !in Tokens(s, delim)[k]
    ensures Concat(Tokens(s, delim)) == Without(s, delim)
  {
    var pieces := Strings.SplitWhere(s, Is(delim));
    var tokens := Tokens(s, delim);
    Strings.NonEmptyFrom(pieces);
    forall k | 0 <= k < |tokens| ensures tokens[k] != [] && delim !in tokens[k] {
      var m :| 0 <= m < |pieces| && pieces[m] == tokens[k];
      assert Strings.NoneSatisfy(pieces[m], Is(delim));
    }
    ConcatNonEmpty(s, delim);
  }

  lemma {:induction false} ConcatNonEmpty(s: string, delim: char)
    ensures Concat(Strings.NonEmpty(Strings.SplitWhere(s, Is(delim)))) == Without(s, delim)
  {
    if s != [] {
      ConcatNonEmpty(s[1..], delim);
      if s[0] != delim {
        ConcatKeepsHead(s, delim);
      } else {
        ConcatDropsDelimiter(s, delim);
      }
    }
  }

  /** A leading character that is not the delimiter starts the first token. */
  lemma {:induction false} ConcatKeepsHead(s: string, delim: char)
    requires s != [] && s[0] != delim
    requires Concat(Strings.NonEmpty(Strings.SplitWhere(s[1..], Is(delim)))) == Without(s[1..], delim)
    ensures Concat(Strings.NonEmpty(Strings.SplitWhere(s, Is(delim)))) == Without(s, delim)
  {
    var rest := Strings.SplitWhere(s[1..], Is(delim));
    assert Strings.SplitWhere(s, Is(delim)) == [[s[0]] + rest[0]] + rest[1..];
    ConcatJoinedHead(s[0], rest, Without(s[1..], delim));
    assert Without(s, delim) == [s[0]] + Without(s[1..], delim);
  }

  /** Prefixing the first piece with `c` prefixes the concatenated tokens with `c`. */
  lemma {:induction false} ConcatJoinedHead(c: char, rest: seq<string>, joined: string)
    requires rest != [] && Concat(Strings.NonEmpty(rest)) == joined
    ensures Concat(Strings.NonEmpty([[c] + rest[0]] + rest[1..])) == [c] + joined
  {
    var more := Strings.NonEmpty(rest[1..]);
    NonEmptyHead(rest);
    NonEmptyHead([[c] + rest[0]] + rest[1..]);
    assert ([[c] + rest[0]] + rest[1..])[1..] == rest[1..];
    assert ([c] + rest[0]) + Concat(more) == [c] + (rest[0] + Concat(more));
  }

  /** A leading delimiter only ends an (empty) token. */
  lemma {:induction false} ConcatDropsDelimiter(s: string, delim: char)
    requires s != [] && s[0] == delim
    requires Concat(Strings.NonEmpty(Strings.SplitWhere(s[1..], Is(delim)))) == Without(s[1..], delim)
    ensures Concat(Strings.NonEmpty(Strings.SplitWhere(s, Is(delim)))) == Without(s, delim)
  {
    var rest := Strings.SplitWhere(s[1..], Is(delim));
    assert Strings.SplitWhere(s, Is(delim)) == [""] + rest;
    NonEmptyHead([""] + rest);
    assert ([""] + rest)[1..] == rest;
  }

  lemma {:induction false} NonEmptyHead(pieces: seq<string>)
    requires pieces != []
    ensures Concat(Strings.NonEmpty(pieces)) == pieces[0] + Concat(Strings.NonEmpty(pieces[1..]))
  {
    var rest := Strings.NonEmpty(pieces[1..]);
    if pieces[0] == [] {
      assert Strings.NonEmpty(pieces) == [] + rest == rest;
      assert pieces[0] + Concat(rest) == Concat(rest);
    } else {
      assert Strings.NonEmpty(pieces) == [pieces[0]] + rest;
      assert ([pieces[0]] + rest)[1..] == rest;
    }
  }

  /** `string.find_first_not_of(delim, from)`, with `npos` as the length. */
  function FindFirstNotOf(s: string, delim: char, from: nat): (r: nat)
    requires from <= |s|
    ensures from <= r <= |s|
    ensures forall i | from <= i < r :: s[i] == delim
    ensures r < |s| ==> s[r] != delim
    decreases |s| - from
  {
    if from == |s| || s[from] != delim then from else FindFirstNotOf(s, delim, from + 1)
  }

  /** `string.find(delim, from)`, with `npos` as the length. */
  function FindFrom(s: string, delim: char, from: nat): (r: nat)
    requires from <= |s|
    ensures from <= r <= |s|
    ensures forall i | from <= i < r :: s[i] != delim
    ensures r < |s| ==> s[r] == delim
    decreases |s| - from
  {
    if from == |s| || s[from] == delim then from else FindFrom(s, delim, from + 1)
  }

  /** `splitString` (lines 109-118). */
  method SplitString(s: string, delim: char) returns (output: seq<string>)
    ensures output == Tokens(s, delim)
  {
    output := [];
    var end := 0;
    var start := FindFirstNotOf(s, delim, end);
    while start < |s|
      invariant end <= start <= |s| && start == FindFirstNotOf(s, delim, end)
      invariant Tokens(s, delim) == output + Tokens(s[end..], delim)
      decreases |s| - start
    {
      TokensNext(s, delim, end);
      end := FindFrom(s, delim, start);
      output := output + [s[start..end]];
      start := FindFirstNotOf(s, delim, end);
    }
    TokensDone(s, delim, end);
  }

  /** Past the delimiters after `end`, the next token runs up to the next delimiter. */
  lemma {:induction false} TokensNext(s: string, delim: char, end: nat)
    requires end <= |s| && FindFirstNotOf(s, delim, end) < |s|
    ensures var start := FindFirstNotOf(s, delim, end);
      var next := FindFrom(s, delim, start);
      Tokens(s[end..], delim) == [s[start..next]] + Tokens(s[next..], delim)
  {
    var start := FindFirstNotOf(s, delim, end);
    SkipDelimiters(s, delim, end, start);
    TokenAt(s, delim, start, FindFrom(s, delim, start));
  }

  /** Nothing but delimiters after `end` holds no token. */
  lemma {:induction false} TokensDone(s: string, delim: char, end: nat)
    requires end <= |s| && FindFirstNotOf(s, delim, end) == |s|
    ensures Tokens(s[end..], delim) == []
  {
    SkipDelimiters(s, delim, end, |s|);
    assert s[|s|..] == [];
    assert [""][1..] == [];
  }

  /** Delimiters in front of a string add no token. */
  lemma {:induction false} SkipDelimiters(s: string, delim: char, from: nat, to: nat)
    requires from <= to <= |s|
    requires forall i | from <= i < to :: s[i] == delim
    ensures Tokens(s[from..], delim) == Tokens(s[to..], delim)
    decreases (to as int) - (from as int)
  {
    if from < to {
      SkipDelimiters(s, delim, from + 1, to);
      var t := s[from..];
      assert t[0] == delim && t[1..] == s[from + 1..];
      assert Strings.SplitWhere(t, Is(delim)) == [""] + Strings.SplitWhere(t[1..], Is(delim));
      assert ([""] + Strings.SplitWhere(t[1..], Is(delim)))[1..] == Strings.SplitWhere(t[1..], Is(delim));
    }
  }

  /** A run of non-delimiters ended by a delimiter or the end of the string is one token. */
  lemma {:induction false} TokenAt(s: string, delim: char, start: nat, end: nat)
    requires start < end <= |s|
    requires forall i | start <= i < end :: s[i] != delim
    requires end < |s| ==> s[end] == delim
    ensures Tokens(s[start..], delim) == [s[start..end]] + Tokens(s[end..], delim)
  {
    var token := s[start..end];
    assert Strings.NoneSatisfy(token, Is(delim));
    Strings.SplitNoSeparator(token, Is(delim));
    if end == |s| {
      assert s[start..] == token && s[end..] == [];
      assert Strings.NonEmpty([token]) == [token] by {
        assert [token][1..] == [];
      }
      assert Tokens([], delim) == [] by {
        assert [""][1..] == [];
      }
    } else {
      assert s[start..] == token + [delim] + s[end + 1..];
      Strings.SplitConcat(token, delim, s[end + 1..], Is(delim));
      SkipDelimiters(s, delim, end, end + 1);
      assert ([token] + Strings.SplitWhere(s[end + 1..], Is(delim)))[1..] == Strings.SplitWhere(s[end + 1..], Is(delim));
    }
  }

  // ---------------------------------------------------------------------
  // Vertical profile (lines 233-272)
  // ---------------------------------------------------------------------

  /** A 5000 ft altitude band and the seconds credited to it. */
  datatype Section = Section(upperAltitude: int, lowerAltitude: int, secDuration: int)

  /** `(alt / 5000) * 5000`: the floor of the band of a (non-negative) predicted altitude. */
  function Band(alt: nat): (b: nat)
    ensures b <= alt < b + 5000 && b % 5000 == 0
  {
    (alt / 5000) * 5000
  }

  /** Adds seconds to a band, creating its section with bounds [floor, floor + 5000] the first time. */
  function Credit(sections: map<int, Section>, band: int, seconds: int): map<int, Section>
  {
    if band in sections then sections[band := sections[band].(secDuration := sections[band].secDuration + seconds)]
    else sections[band := Section(band + 5000, band, seconds)]
  }

  /**
   * `ratio * 60.0` for a step that leaves the band: the part of the minute
   * spent above the band floor, truncated to whole seconds.
   */
  function SecondsInBand(alt: nat, nextAlt: nat): (s: int)
    requires nextAlt < Band(alt)
    ensures 0 <= s < 60
  {
    var above, width := alt - Band(alt), alt - nextAlt;
    MinuteFraction(above, width);
    above * 60 / width
  }

  /** A part of a step, scaled to the step's minute, is less than a minute. */
  lemma {:induction false} MinuteFraction(part: int, whole: int)
    requires 0 <= part < whole
    ensures 0 <= part * 60 / whole < 60
  {
    var q := part * 60 / whole;
    assert whole * q <= part * 60 < whole * 60;
  }

  /** The sections so far and `altIntervalRestTime`. */
  datatype Sampler = Sampler(sections: map<int, Section>, restTime: int)

  /** One step of the loop, as written. */
  function StepAsWritten(st: Sampler, alt: nat, nextAlt: nat): Sampler
  {
    var band := Band(alt);
    if nextAlt < band then
      var s := SecondsInBand(alt, nextAlt);
      Sampler(Credit(st.sections, band, s), 60 - s)
    else if st.restTime > 0 then
      Sampler(Credit(st.sections, band, st.restTime), -1)
    else
      Sampler(Credit(st.sections, band, 60), st.restTime)
  }

  /** The number of one-minute steps between the predicted points. */
  function Steps(alts: seq<nat>): nat
  {
    if alts == [] then 0 else |alts| - 1
  }

  function SampledAsWritten(alts: seq<nat>, k: nat): Sampler
    requires k <= Steps(alts)
  {
    if k == 0 then Sampler(map[], -1)
    else StepAsWritten(SampledAsWritten(alts, k - 1), alts[k - 1], alts[k])
  }

  /** The `altitudesAndDuration` map the code builds for a predicted altitude profile. */
  function ProfileAsWritten(alts: seq<nat>): map<int, Section>
  {
    SampledAsWritten(alts, Steps(alts)).sections
  }

  /** Every section is keyed by its floor, a multiple of 5000 ft, and spans [floor, floor + 5000]. */
  predicate Banded(sections: map<int, Section>)
  {
    forall b | b in sections :: b % 5000 == 0 && sections[b].lowerAltitude == b && sections[b].upperAltitude == b + 5000
  }

  /**
   * The sections are those of the bands the steps start in: each band
   * credited by some step, and no other.
   */
  lemma {:induction false} ProfileBands(alts: seq<nat>, k: nat)
    requires k <= Steps(alts)
    ensures Banded(SampledAsWritten(alts, k).sections)
    ensures SampledAsWritten(alts, k).sections.Keys == BandsOf(alts, k)
  {
    if k > 0 {
      ProfileBands(alts, k - 1);
      StepAsWrittenBands(SampledAsWritten(alts, k - 1), alts[k - 1], alts[k]);
      BandsSnoc(alts, k);
    }
  }

  /**
   * As written every step credits at most one minute, so the bands together
   * never hold more than the trajectory lasts; the rest carried is at most a minute.
   */
  lemma {:induction false} SampledAsWrittenBounded(alts: seq<nat>, k: nat)
    requires k <= Steps(alts)
    ensures var st := SampledAsWritten(alts, k);
      0 <= Total(st.sections) <= 60 * k && st.restTime <= 60
  {
    if k > 0 {
      SampledAsWrittenBounded(alts, k - 1);
      var st := SampledAsWritten(alts, k - 1);
      var band := Band(alts[k - 1]);
      if alts[k] < band {
        TotalCredit(st.sections, band, SecondsInBand(alts[k - 1], alts[k]));
      } else if st.restTime > 0 {
        TotalCredit(st.sections, band, st.restTime);
      } else {
        TotalCredit(st.sections, band, 60);
      }
    }
  }

  /** A step as written keeps the sections banded and adds exactly the band of its first point. */
  lemma {:induction false} StepAsWrittenBands(st: Sampler, alt: nat, nextAlt: nat)
    requires Banded(st.sections)
    ensures Banded(StepAsWritten(st, alt, nextAlt).sections)
    ensures StepAsWritten(st, alt, nextAlt).sections.Keys == st.sections.Keys + {Band(alt)}
  {
  }

  /** The bands the first `k` steps start in. */
  function BandsOf(alts: seq<nat>, k: nat): set<nat>
    requires k <= |alts|
  {
    set p | 0 <= p < k :: Band(alts[p])
  }

  lemma {:induction false} BandsSnoc(alts: seq<nat>, k: nat)
    requires 0 < k <= Steps(alts)
    ensures BandsOf(alts, k) == BandsOf(alts, k - 1) + {Band(alts[k - 1])}
  {
  }

  /** The seconds credited to all bands together. */
  ghost function Total(sections: map<int, Section>): int
    decreases |sections.Keys|
  {
    if exists b :: b in sections then
      var b :| b in sections;
      assert (sections - {b}).Keys == sections.Keys - {b};
      sections[b].secDuration + Total(sections - {b})
    else 0
  }

  /** The total does not depend on the order the bands are added up in: any band can come first. */
  lemma {:induction false} TotalRemove(sections: map<int, Section>, b: int)
    requires b in sections
    ensures Total(sections) == sections[b].secDuration + Total(sections - {b})
    decreases |sections.Keys|
  {
    var c :| c in sections && Total(sections) == sections[c].secDuration + Total(sections - {c});
    if c != b {
      var both := sections - {b} - {c};
      assert (sections - {c}) - {b} == both && (sections - {b}) - {c} == both;
      assert (sections - {c}).Keys == sections.Keys - {c};
      assert (sections - {b}).Keys == sections.Keys - {b};
      TotalRemove(sections - {c}, b);
      TotalRemove(sections - {b}, c);
    }
  }

  /** Crediting a band adds exactly the seconds credited to the total. */
  lemma {:induction false} TotalCredit(sections: map<int, Section>, band: int, seconds: int)
    ensures Total(Credit(sections, band, seconds)) == Total(sections) + seconds
  {
    var credited := Credit(sections, band, seconds);
    TotalRemove(credited, band);
    if band in sections {
      TotalRemove(sections, band);
      assert credited - {band} == sections - {band};
    } else {
      assert credited - {band} == sections;
    }
  }

  /**
   * As written, time goes missing after a step that leaves its band. A step
   * that stays in its band after one that left is credited the carried rest
   * of the minute instead of its own minute: a descent 6000, 4000, 3000 ft,
   * two minutes long, is credited 30 s to the 5000 ft band and 30 s to the
   * 0 ft band, one minute in all. A second crossing overwrites the rest the
   * first one carried, and the rest left after the last step is dropped: a
   * descent 11000, 9000, 4000 ft is credited 30 s and 48 s, 78 s of two minutes.
   */
  lemma {:induction false} CrossingLosesAMinute()
    ensures ProfileAsWritten([6000, 4000, 3000]) == map[5000 := Section(10000, 5000, 30), 0 := Section(5000, 0, 30)]
    ensures Total(ProfileAsWritten([6000, 4000, 3000])) == 60
    ensures ProfileAsWritten([11000, 9000, 4000]) == map[10000 := Section(15000, 10000, 30), 5000 := Section(10000, 5000, 48)]
    ensures Total(ProfileAsWritten([11000, 9000, 4000])) == 78
  {
    var alts: seq<nat> := [6000, 4000, 3000];
    assert SecondsInBand(6000, 4000) == 30;
    var first := Credit(map[], 5000, 30);
    assert SampledAsWritten(alts, 1) == Sampler(first, 30);
    assert SampledAsWritten(alts, 2) == Sampler(Credit(first, 0, 30), -1);
    TotalCredit(map[], 5000, 30);
    TotalCredit(first, 0, 30);
    var twice: seq<nat> := [11000, 9000, 4000];
    assert SecondsInBand(11000, 9000) == 30 && SecondsInBand(9000, 4000) == 48;
    var upper := Credit(map[], 10000, 30);
    assert SampledAsWritten(twice, 1) == Sampler(upper, 30);
    assert SampledAsWritten(twice, 2) == Sampler(Credit(upper, 5000, 48), 12);
    TotalCredit(map[], 10000, 30);
    TotalCredit(upper, 5000, 48);
  }

  /**
   * The intended step: each step credits its own band with the part of its
   * minute spent there plus what the step before carried into the band,
   * and a step leaving its band carries the rest of its minute on.
   */
  function StepCorrected(st: Sampler, alt: nat, nextAlt: nat): Sampler
  {
    var band := Band(alt);
    var carried := if st.restTime > 0 then st.restTime else 0;
    if nextAlt < band then
      var s := SecondsInBand(alt, nextAlt);
      Sampler(Credit(st.sections, band, s + carried), 60 - s)
    else
      Sampler(Credit(st.sections, band, 60 + carried), -1)
  }

  function SampledCorrected(alts: seq<nat>, k: nat): Sampler
    requires k <= Steps(alts)
  {
    if k == 0 then Sampler(map[], -1)
    else StepCorrected(SampledCorrected(alts, k - 1), alts[k - 1], alts[k])
  }

  /** The intended profile: the rest carried out of the last step goes to the band of the last point. */
  function CorrectedProfile(alts: seq<nat>): map<int, Section>
  {
    var st := SampledCorrected(alts, Steps(alts));
    if alts != [] && st.restTime > 0 then Credit(st.sections, Band(alts[|alts| - 1]), st.restTime)
    else st.sections
  }

  lemma {:induction false} SampledCorrectedTotal(alts: seq<nat>, k: nat)
    requires k <= Steps(alts)
    ensures var st := SampledCorrected(alts, k);
      Total(st.sections) + (if st.restTime > 0 then st.restTime else 0) == 60 * k
  {
    if k > 0 {
      SampledCorrectedTotal(alts, k - 1);
      StepCorrectedTotal(SampledCorrected(alts, k - 1), alts[k - 1], alts[k]);
    }
  }

  /** Each corrected step adds one minute to the bands and the carried rest together. */
  lemma {:induction false} StepCorrectedTotal(st: Sampler, alt: nat, nextAlt: nat)
    ensures var next := StepCorrected(st, alt, nextAlt);
      Total(next.sections) + (if next.restTime > 0 then next.restTime else 0)
      == Total(st.sections) + (if st.restTime > 0 then st.restTime else 0) + 60
  {
    var carried := if st.restTime > 0 then st.restTime else 0;
    var band := Band(alt);
    if nextAlt < band {
      TotalCredit(st.sections, band, SecondsInBand(alt, nextAlt) + carried);
    } else {
      TotalCredit(st.sections, band, 60 + carried);
    }
  }

  /** With the correction the bands together hold the whole trajectory, one minute per step. */
  lemma {:induction false} CorrectedProfileTotal(alts: seq<nat>)
    ensures Total(CorrectedProfile(alts)) == 60 * Steps(alts)
  {
    SampledCorrectedTotal(alts, Steps(alts));
    var st := SampledCorrected(alts, Steps(alts));
    if alts != [] && st.restTime > 0 {
      TotalCredit(st.sections, Band(alts[|alts| - 1]), st.restTime);
    }
  }

  /**
   * The loop over the predicted points that fills `altitudesAndDuration`
   * (lines 233-272), as written: each section keyed by its band and spanning
   * it, one for every band a step starts in, and never more seconds in all
   * than the trajectory lasts.
   */
  method SampleVerticalProfile(alts: seq<nat>) returns (sections: map<int, Section>)
    ensures sections == ProfileAsWritten(alts)
    ensures Banded(sections) && sections.Keys == BandsOf(alts, Steps(alts))
    ensures 0 <= Total(sections) <= 60 * Steps(alts)
  {
    sections := map[];
    var restTime := -1;
    var p := 0;
    while p < Steps(alts)
      invariant 0 <= p <= Steps(alts)
      invariant Sampler(sections, restTime) == SampledAsWritten(alts, p)
    {
      var alt := alts[p];
      var nextAlt := alts[p + 1];
      var band := Band(alt);
      var secondsToNext := 60;
      if nextAlt < band {
        secondsToNext := SecondsInBand(alt, nextAlt);
        restTime := 60 - secondsToNext;
      } else if restTime > 0 {
        secondsToNext := restTime;
        restTime := -1;
      }
      sections := Credit(sections, band, secondsToNext);
      p := p + 1;
    }
    ProfileBands(alts, Steps(alts));
    SampledAsWrittenBounded(alts, Steps(alts));
  }

  // ---------------------------------------------------------------------
  // Aircraft inbound to a fix (lines 180-314)
  // ---------------------------------------------------------------------

  /**
   * A radar target with its correlated flight plan: the reported ground
   * speed, the extracted route, the destination, the seconds to the fix as
   * computed from the trajectory prediction, the age in seconds of the last
   * radar report (EuroScope's `GetReceivedTime`, which `Make` subtracts from
   * the estimate) and the predicted altitude of each minute ahead.
   */
  datatype Target = Target(
    callsign: string, groundSpeed: int, route: seq<RoutePoint>, destination: string,
    timeToFix: int, receivedTime: int, altitudes: seq<nat>)

  /** The part of an `AmanAircraft` the plug-in computes here. */
  datatype Aircraft = Aircraft(
    callsign: string, finalFix: string, viaFix: string, targetFixEta: int,
    secondsBehindPreceding: int, profile: map<int, Section>)

  /**
   * A target is reported when it moves at 60 kt or more (lines 188-191), its
   * route holds the fix and has not passed it, it is bound for one of the
   * destinations (lines 199-201), and it is still before the fix (line 274).
   */
  predicate Included(t: Target, fixName: string, destinationAirports: seq<string>)
  {
    var i := FixIndexByName(t.route, fixName);
    t.groundSpeed >= 60 && i > -1 && t.route[i].minutesToPoint > -1
    && HasCorrectDestination(t.destination, destinationAirports) && t.timeToFix > 0
  }

  function IncludedBy(fixName: string, destinationAirports: seq<string>): Target -> bool
  {
    t => Included(t, fixName, destinationAirports)
  }

  /** An included target that none of the via fixes lies on: `viaFixes.at(-1)` throws. */
  predicate LacksViaFix(t: Target, fixName: string, viaFixes: seq<string>, destinationAirports: seq<string>)
  {
    Included(t, fixName, destinationAirports) && ViaFix(t.route, viaFixes).None?
  }

  /**
   * The aircraft reported for an included target (lines 280-297): its ETA at
   * the fix is the time to the fix counted from now, less the age of the
   * radar report, and its spacing is not yet known.
   */
  function Make(t: Target, fixName: string, viaFixes: seq<string>, now: int): Aircraft
  {
    var via := match ViaFix(t.route, viaFixes) case Some(v) => v case None => "";
    Aircraft(t.callsign, fixName, via, now + t.timeToFix - t.receivedTime, 0, ProfileAsWritten(t.altitudes))
  }

  function MakeFor(fixName: string, viaFixes: seq<string>, now: int): Target -> Aircraft
  {
    t => Make(t, fixName, viaFixes, now)
  }

  /** The loop over the radar targets: None where it throws, else the aircraft in target order. */
  function Collect(targets: seq<Target>, fixName: string, viaFixes: seq<string>,
                   destinationAirports: seq<string>, now: int): Option<seq<Aircraft>>
  {
    if targets == [] then Some([])
    else
      var t := targets[|targets| - 1];
      var before := Collect(targets[..|targets| - 1], fixName, viaFixes, destinationAirports, now);
      if before.None? || !Included(t, fixName, destinationAirports) then before
      else if ViaFix(t.route, viaFixes).None? then None
      else Some(before.value + [Make(t, fixName, viaFixes, now)])
  }

  /** The loop fails exactly when some included target has no via fix on its route. */
  lemma {:induction false} CollectFails(targets: seq<Target>, fixName: string, viaFixes: seq<string>,
                                        destinationAirports: seq<string>, now: int)
    ensures Collect(targets, fixName, viaFixes, destinationAirports, now).None?
      <==> exists k | 0 <= k < |targets| :: LacksViaFix(targets[k], fixName, viaFixes, destinationAirports)
  {
    if targets != [] {
      CollectFails(targets[..|targets| - 1], fixName, viaFixes, destinationAirports, now);
      LacksSnoc(targets, fixName, viaFixes, destinationAirports);
    }
  }

  /** Some target lacks a via fix exactly when one before the last does, or the last does. */
  lemma {:induction false} LacksSnoc(targets: seq<Target>, fixName: string, viaFixes: seq<string>, destinationAirports: seq<string>)
    requires targets != []
    ensures var init := targets[..|targets| - 1];
      (exists k | 0 <= k < |targets| :: LacksViaFix(targets[k], fixName, viaFixes, destinationAirports))
      <==> (exists k | 0 <= k < |init| :: LacksViaFix(init[k], fixName, viaFixes, destinationAirports))
           || LacksViaFix(targets[|targets| - 1], fixName, viaFixes, destinationAirports)
  {
    var init := targets[..|targets| - 1];
    assert forall k | 0 <= k < |init| :: init[k] == targets[k];
  }

  /** Where the loop does not fail, it reports the included targets, in order. */
  lemma {:induction false} CollectReports(targets: seq<Target>, fixName: string, viaFixes: seq<string>,
                                          destinationAirports: seq<string>, now: int)
    ensures var r := Collect(targets, fixName, viaFixes, destinationAirports, now);
      r.Some? ==> r.value == Sorting.Map(Search.Filter(targets, IncludedBy(fixName, destinationAirports)),
                                         MakeFor(fixName, viaFixes, now))
  {
    if targets != [] {
      var init := targets[..|targets| - 1];
      CollectReports(init, fixName, viaFixes, destinationAirports, now);
      CollectReportsStep(targets, fixName, viaFixes, destinationAirports, now);
    }
  }

  lemma {:induction false} CollectReportsStep(targets: seq<Target>, fixName: string, viaFixes: seq<string>,
                           destinationAirports: seq<string>, now: int)
    requires targets != []
    requires var init := targets[..|targets| - 1];
      var r := Collect(init, fixName, viaFixes, destinationAirports, now);
      r.Some? ==> r.value == Sorting.Map(Search.Filter(init, IncludedBy(fixName, destinationAirports)),
                                         MakeFor(fixName, viaFixes, now))
    ensures var r := Collect(targets, fixName, viaFixes, destinationAirports, now);
      r.Some? ==> r.value == Sorting.Map(Search.Filter(targets, IncludedBy(fixName, destinationAirports)),
                                         MakeFor(fixName, viaFixes, now))
  {
    var inc := IncludedBy(fixName, destinationAirports);
    var init, t := targets[..|targets| - 1], targets[|targets| - 1];
    FilterLast(targets, inc);
    if Collect(init, fixName, viaFixes, destinationAirports, now).Some? && inc(t)
       && ViaFix(t.route, viaFixes).Some? {
      MapSnoc(Search.Filter(init, inc), t, MakeFor(fixName, viaFixes, now));
    }
  }

  /** Filtering a list is filtering all but its last element, then keeping the last if it passes. */
  lemma {:induction false} FilterLast<T(!new)>(s: seq<T>, p: T -> bool)
    requires s != []
    ensures Search.Filter(s, p) == Search.Filter(s[..|s| - 1], p) + if p(s[|s| - 1]) then [s[|s| - 1]] else []
  {
    var init, x := s[..|s| - 1], s[|s| - 1];
    assert s == init + [x];
    Search.FilterConcat(init, [x], p);
    assert [x][1..] == [];
    assert Search.Filter([x], p) == (if p(x) then [x] else []) + Search.Filter([], p);
  }

  lemma {:induction false} MapSnoc<T, U>(s: seq<T>, x: T, f: T -> U)
    ensures Sorting.Map(s + [x], f) == Sorting.Map(s, f) + [f(x)]
  {
  }

  function Reverse<T>(s: seq<T>): (r: seq<T>)
    ensures |r| == |s| && forall i | 0 <= i < |s| :: r[i] == s[|s| - 1 - i]
  {
    seq(|s|, i requires 0 <= i < |s| => s[|s| - 1 - i])
  }

  /** Each aircraft is behind the next in the list by the difference of their ETAs; the last by 0. */
  function Spaced(list: seq<Aircraft>): (r: seq<Aircraft>)
    ensures |r| == |list|
  {
    seq(|list|, i requires 0 <= i < |list| =>
      if i + 1 < |list| then list[i].(secondsBehindPreceding := list[i].targetFixEta - list[i + 1].targetFixEta)
      else list[i])
  }

  /** Spacing changes only the seconds behind, of every aircraft but the last. */
  lemma {:induction false} SpacedSpec(list: seq<Aircraft>)
    ensures forall i | 0 <= i < |list| :: Spaced(list)[i] == list[i].(secondsBehindPreceding := Spaced(list)[i].secondsBehindPreceding)
    ensures forall i | 0 <= i < |list| - 1 ::
      Spaced(list)[i].secondsBehindPreceding == list[i].targetFixEta - list[i + 1].targetFixEta
    ensures list != [] ==> Spaced(list)[|list| - 1] == list[|list| - 1]
  {
    forall i | 0 <= i < |list|
      ensures Spaced(list)[i] == list[i].(secondsBehindPreceding := Spaced(list)[i].secondsBehindPreceding)
      ensures i < |list| - 1 ==> Spaced(list)[i].secondsBehindPreceding == list[i].targetFixEta - list[i + 1].targetFixEta
      ensures i == |list| - 1 ==> Spaced(list)[i] == list[i]
    {
      SpacedAt(list, i);
    }
  }

  lemma {:induction false} SpacedAt(list: seq<Aircraft>, i: nat)
    requires i < |list|
    ensures i + 1 < |list| ==>
      Spaced(list)[i] == list[i].(secondsBehindPreceding := list[i].targetFixEta - list[i + 1].targetFixEta)
    ensures i + 1 == |list| ==> Spaced(list)[i] == list[i]
  {
  }

  /** Sorted by `le`, reversed, then spaced (lines 302-311). */
  function Arrange(list: seq<Aircraft>, le: (Aircraft, Aircraft) -> bool): seq<Aircraft>
  {
    Spaced(Reverse(Sorting.Sort(list, le)))
  }

  /**
   * `getInboundsForFix`: the included aircraft sorted by `le` (the
   * `operator<` of `AmanAircraft`), latest first, each with its spacing to
   * the one after it; None where the code throws.
   */
  function InboundsForFix(targets: seq<Target>, fixName: string, viaFixes: seq<string>,
                          destinationAirports: seq<string>, now: int,
                          le: (Aircraft, Aircraft) -> bool): Option<seq<Aircraft>>
  {
    match Collect(targets, fixName, viaFixes, destinationAirports, now)
    case None => None
    case Some(list) => Some(Arrange(list, le))
  }

  function Callsign(a: Aircraft): string { a.callsign }

  function TargetCallsign(t: Target): string { t.callsign }

  /**
   * Arranging keeps the aircraft, each once; each ends up behind the next by
   * the difference of their ETAs, and the last keeps its 0.
   */
  lemma {:induction false} ArrangeSpec(list: seq<Aircraft>, le: (Aircraft, Aircraft) -> bool)
    requires forall i | 0 <= i < |list| :: list[i].secondsBehindPreceding == 0
    ensures var out := Arrange(list, le);
      |out| == |list|
      && multiset(Sorting.Map(out, Callsign)) == multiset(Sorting.Map(list, Callsign))
      && (forall i | 0 <= i < |out| - 1 ::
            out[i].secondsBehindPreceding == out[i].targetFixEta - out[i + 1].targetFixEta)
      && (out != [] ==> out[|out| - 1].secondsBehindPreceding == 0)
  {
    SpacedSpec(Reverse(Sorting.Sort(list, le)));
    ArrangeCallsigns(list, le);
    if list != [] {
      ArrangeLast(list, le);
    }
  }

  lemma {:induction false} ArrangeCallsigns(list: seq<Aircraft>, le: (Aircraft, Aircraft) -> bool)
    ensures multiset(Sorting.Map(Arrange(list, le), Callsign)) == multiset(Sorting.Map(list, Callsign))
  {
    var sorted := Sorting.Sort(list, le);
    SpacedCallsigns(Reverse(sorted));
    ReverseCallsigns(sorted);
    ReverseMultiset(Sorting.Map(sorted, Callsign));
    Sorting.SortMap(list, le, Callsign);
  }

  /** The last aircraft after arranging is the first after sorting, which is one of the input. */
  lemma {:induction false} ArrangeLast(list: seq<Aircraft>, le: (Aircraft, Aircraft) -> bool)
    requires list != []
    ensures Arrange(list, le)[|list| - 1] in list
  {
    var sorted := Sorting.Sort(list, le);
    SpacedSpec(Reverse(sorted));
    assert Arrange(list, le)[|list| - 1] == sorted[0];
    assert sorted[0] in multiset(list) by {
      assert sorted[0] in multiset(sorted);
    }
  }

  lemma {:induction false} SpacedCallsigns(list: seq<Aircraft>)
    ensures Sorting.Map(Spaced(list), Callsign) == Sorting.Map(list, Callsign)
  {
    SpacedSpec(list);
  }

  lemma {:induction false} ReverseCallsigns(s: seq<Aircraft>)
    ensures Sorting.Map(Reverse(s), Callsign) == Reverse(Sorting.Map(s, Callsign))
  {
  }

  /**
   * The inbounds are the included targets, each once; each is behind the
   * next by the difference of their ETAs and the last by 0; the call fails
   * exactly when an included target has no via fix on its route.
   */
  lemma {:induction false} InboundsSpec(targets: seq<Target>, fixName: string, viaFixes: seq<string>,
                     destinationAirports: seq<string>, now: int, le: (Aircraft, Aircraft) -> bool)
    ensures var r := InboundsForFix(targets, fixName, viaFixes, destinationAirports, now, le);
      (r.None? <==> exists k | 0 <= k < |targets| :: LacksViaFix(targets[k], fixName, viaFixes, destinationAirports))
      && (r.Some? ==>
        var included := Search.Filter(targets, IncludedBy(fixName, destinationAirports));
        |r.value| == |included|
        && multiset(Sorting.Map(r.value, Callsign)) == multiset(Sorting.Map(included, TargetCallsign))
        && (forall i | 0 <= i < |r.value| - 1 ::
              r.value[i].secondsBehindPreceding == r.value[i].targetFixEta - r.value[i + 1].targetFixEta)
        && (r.value != [] ==> r.value[|r.value| - 1].secondsBehindPreceding == 0))
  {
    CollectFails(targets, fixName, viaFixes, destinationAirports, now);
    var c := Collect(targets, fixName, viaFixes, destinationAirports, now);
    if c.Some? {
      CollectReports(targets, fixName, viaFixes, destinationAirports, now);
      var included := Search.Filter(targets, IncludedBy(fixName, destinationAirports));
      MadeCallsigns(included, fixName, viaFixes, now);
      ArrangeSpec(c.value, le);
    }
  }

  /** The aircraft made for targets keep their callsigns and are not yet spaced. */
  lemma {:induction false} MadeCallsigns(included: seq<Target>, fixName: string, viaFixes: seq<string>, now: int)
    ensures var list := Sorting.Map(included, MakeFor(fixName, viaFixes, now));
      && Sorting.Map(list, Callsign) == Sorting.Map(included, TargetCallsign)
      && forall i | 0 <= i < |list| :: list[i].secondsBehindPreceding == 0
  {
  }

  lemma {:induction false} ReverseMultiset<T>(s: seq<T>)
    ensures multiset(Reverse(s)) == multiset(s)
  {
    if s != [] {
      var init := s[..|s| - 1];
      ReverseMultiset(init);
      assert Reverse(s) == [s[|s| - 1]] + Reverse(init);
      assert s == init + [s[|s| - 1]];
    }
  }

  function Eta(a: Aircraft): int { a.targetFixEta }

  /**
   * Where aircraft are ordered by their ETA at the fix, they are arranged
   * latest first, and none is a negative number of seconds behind.
   */
  lemma {:induction false} ArrangeByEta(list: seq<Aircraft>)
    requires forall i | 0 <= i < |list| :: list[i].secondsBehindPreceding == 0
    ensures var out := Arrange(list, Sorting.ByKey(Eta));
      (forall i, j | 0 <= i < j < |out| :: out[i].targetFixEta >= out[j].targetFixEta)
      && (forall i | 0 <= i < |out| :: out[i].secondsBehindPreceding >= 0)
  {
    var sorted := Sorting.Sort(list, Sorting.ByKey(Eta));
    Sorting.SortByKeyIsSorted(list, Eta);
    ReverseSortedByEta(sorted);
    ArrangeEtas(list, Sorting.ByKey(Eta));
    ArrangeSpacingByEta(list);
  }

  /** Spacing keeps every ETA of the sorted and reversed list. */
  lemma {:induction false} ArrangeEtas(list: seq<Aircraft>, le: (Aircraft, Aircraft) -> bool)
    ensures var out, reversed := Arrange(list, le), Reverse(Sorting.Sort(list, le));
      |out| == |reversed| && forall i | 0 <= i < |out| :: out[i].targetFixEta == reversed[i].targetFixEta
  {
    SpacedSpec(Reverse(Sorting.Sort(list, le)));
  }

  lemma {:induction false} ArrangeSpacingByEta(list: seq<Aircraft>)
    requires forall i | 0 <= i < |list| :: list[i].secondsBehindPreceding == 0
    ensures var out := Arrange(list, Sorting.ByKey(Eta));
      forall i | 0 <= i < |out| :: out[i].secondsBehindPreceding >= 0
  {
    var sorted := Sorting.Sort(list, Sorting.ByKey(Eta));
    Sorting.SortByKeyIsSorted(list, Eta);
    ReverseSortedByEta(sorted);
    var reversed := Reverse(sorted);
    SpacedSpec(reversed);
    if list != [] {
      ArrangeLast(list, Sorting.ByKey(Eta));
    }
  }

  /** An ascending order by ETA, reversed, is descending. */
  lemma {:induction false} ReverseSortedByEta(sorted: seq<Aircraft>)
    requires Sorting.SortedBy(sorted, Sorting.ByKey(Eta))
    ensures forall i, j | 0 <= i < j < |sorted| :: Reverse(sorted)[i].targetFixEta >= Reverse(sorted)[j].targetFixEta
  {
    forall i, j | 0 <= i < j < |sorted| ensures Reverse(sorted)[i].targetFixEta >= Reverse(sorted)[j].targetFixEta {
      var a, b := |sorted| - 1 - j, |sorted| - 1 - i;
      assert 0 <= a < b < |sorted|;
      assert Sorting.ByKey(Eta)(sorted[a], sorted[b]);
      assert Eta(sorted[a]) <= Eta(sorted[b]);
      assert Reverse(sorted)[i] == sorted[b] && Reverse(sorted)[j] == sorted[a];
    }
  }

  /** The loop of lines 304-311 over the sorted and reversed list. */
  method SpacingPass(list: seq<Aircraft>) returns (spaced: seq<Aircraft>)
    ensures spaced == Spaced(list)
  {
    spaced := list;
    if |spaced| > 0 {
      var i := 0;
      while i < |spaced| - 1
        invariant 0 <= i <= |list| - 1 && |spaced| == |list|
        invariant spaced[..i] == Spaced(list)[..i] && spaced[i..] == list[i..]
      {
        spaced := spaced[i := spaced[i].(secondsBehindPreceding := spaced[i].targetFixEta - spaced[i + 1].targetFixEta)];
        i := i + 1;
      }
      assert spaced[i..] == Spaced(list)[i..];
      assert spaced == spaced[..i] + spaced[i..];
      assert Spaced(list) == Spaced(list)[..i] + Spaced(list)[i..];
    }
  }

  /** The loop over the radar targets (lines 187-300), target by target. */
  method CollectAircraft(targets: seq<Target>, fixName: string, viaFixes: seq<string>,
                         destinationAirports: seq<string>, now: int) returns (r: Option<seq<Aircraft>>)
    ensures r == Collect(targets, fixName, viaFixes, destinationAirports, now)
  {
    var aircraftList: seq<Aircraft> := [];
    var n := 0;
    while n < |targets|
      invariant 0 <= n <= |targets|
      invariant Collect(targets[..n], fixName, viaFixes, destinationAirports, now) == Some(aircraftList)
    {
      var t := targets[n];
      CollectStep(targets, n, fixName, viaFixes, destinationAirports, now);
      if Included(t, fixName, destinationAirports) {
        var viaFixIndex := FirstViaFixIndex(t.route, viaFixes);
        if viaFixIndex == -1 {
          NoneStaysNone(targets, n + 1, fixName, viaFixes, destinationAirports, now);
          return None;
        }
        var profile := SampleVerticalProfile(t.altitudes);
        var ac := Aircraft(t.callsign, fixName, viaFixes[viaFixIndex], now + t.timeToFix - t.receivedTime, 0, profile);
        assert ac == Make(t, fixName, viaFixes, now);
        aircraftList := aircraftList + [ac];
      }
      n := n + 1;
    }
    assert targets[..n] == targets;
    r := Some(aircraftList);
  }

  /**
   * `getInboundsForFix`: None where `viaFixes.at(-1)` throws, and the
   * spaced, sorted list otherwise.
   */
  method GetInboundsForFix(targets: seq<Target>, fixName: string, viaFixes: seq<string>,
                           destinationAirports: seq<string>, now: int,
                           le: (Aircraft, Aircraft) -> bool) returns (r: Option<seq<Aircraft>>)
    ensures r == InboundsForFix(targets, fixName, viaFixes, destinationAirports, now, le)
  {
    r := CollectAircraft(targets, fixName, viaFixes, destinationAirports, now);
    if r.Some? {
      var aircraftList := r.value;
      if |aircraftList| > 0 {
        var sorted := Sorting.Sort(aircraftList, le);
        aircraftList := SpacingPass(Reverse(sorted));
      } else {
        assert Arrange(aircraftList, le) == [];
      }
      r := Some(aircraftList);
    }
  }

  /** One more target of the loop. */
  lemma {:induction false} CollectStep(targets: seq<Target>, n: nat, fixName: string, viaFixes: seq<string>,
                    destinationAirports: seq<string>, now: int)
    requires n < |targets|
    ensures var t := targets[n];
      var before := Collect(targets[..n], fixName, viaFixes, destinationAirports, now);
      Collect(targets[..n + 1], fixName, viaFixes, destinationAirports, now)
        == if before.None? || !Included(t, fixName, destinationAirports) then before
           else if ViaFix(t.route, viaFixes).None? then None
           else Some(before.value + [Make(t, fixName, viaFixes, now)])
  {
    assert targets[..n + 1][..n] == targets[..n];
  }

  /** Once the loop has thrown, it stays thrown. */
  lemma {:induction false} NoneStaysNone(targets: seq<Target>, n: nat, fixName: string, viaFixes: seq<string>,
                                         destinationAirports: seq<string>, now: int)
    requires n <= |targets|
    requires Collect(targets[..n], fixName, viaFixes, destinationAirports, now).None?
    ensures Collect(targets, fixName, viaFixes, destinationAirports, now).None?
    decreases |targets| - n
  {
    if n < |targets| {
      assert targets[..n + 1][..n] == targets[..n];
      NoneStaysNone(targets, n + 1, fixName, viaFixes, destinationAirports, now);
    } else {
      assert targets[..n] == targets;
    }
  }

  // ---------------------------------------------------------------------
  // Estimated departure times (lines 345-381)
  // ---------------------------------------------------------------------

  /** The length of the run of digits `s` starts with. */
  function LeadingDigits(s: string): (n: nat)
    ensures n <= |s| && Decimal.AllDigits(s[..n])
    ensures n < |s| ==> !Decimal.IsDigit(s[n])
  {
    if s == [] || !Decimal.IsDigit(s[0]) then 0
    else
      var n := LeadingDigits(s[1..]);
      assert s[..n + 1] == [s[0]] + s[1..][..n];
      n + 1
  }

  /**
   * `std::stoi`: white space is skipped, then an optional sign and at least
   * one digit are read and the rest ignored; None where it throws, for want
   * of a digit or for a value outside 32 bits.
   */
  function Stoi(s: string): (r: Option<int>)
    ensures r.Some? ==> -0x8000_0000 <= r.value <= 0x7FFF_FFFF
  {
    ReadSigned(Strings.TrimStart(s))
  }

  /** An optional sign and at least one digit, read as a 32-bit number. */
  function ReadSigned(t: string): (r: Option<int>)
    ensures r.Some? ==> -0x8000_0000 <= r.value <= 0x7FFF_FFFF
  {
    var negative := t != [] && t[0] == '-';
    var rest := if t != [] && (t[0] == '-' || t[0] == '+') then t[1..] else t;
    var n := LeadingDigits(rest);
    if n == 0 then None
    else
      var magnitude: int := Decimal.Value(rest[..n]);
      var v := if negative then -magnitude else magnitude;
      if v < -0x8000_0000 || v > 0x7FFF_FFFF then None else Some(v)
  }

  /** Midnight UTC of the day of `now`, in seconds since the epoch. */
  function DayStart(now: int): (d: int)
    ensures d <= now < d + 86400 && d % 86400 == 0
  {
    now - now % 86400
  }

  /**
   * `processDepartureTime`: an "HHMM" estimated departure time as the
   * seconds since the epoch of that time on the current UTC day, or -1 for
   * text that is not four characters, that `stoi` rejects, or whose hour or
   * minute is out of range.
   */
  function ProcessDepartureTime(departureTime: string, now: int): int
  {
    if |departureTime| != 4 then -1
    else
      var hour, minute := Stoi(departureTime[..2]), Stoi(departureTime[2..]);
      if hour.None? || minute.None? then -1
      else if hour.value < 0 || hour.value > 23 || minute.value < 0 || minute.value > 59 then -1
      else DayStart(now) + 3600 * hour.value + 60 * minute.value
  }

  /** A time that is read lies on the current UTC day, on a whole minute. */
  lemma {:induction false} DepartureTimeInDay(departureTime: string, now: int)
    ensures var r := ProcessDepartureTime(departureTime, now);
      r == -1 || (DayStart(now) <= r < DayStart(now) + 86400 && r % 60 == 0)
  {
    var r := ProcessDepartureTime(departureTime, now);
    if r != -1 {
      var hour, minute := Stoi(departureTime[..2]).value, Stoi(departureTime[2..]).value;
      assert r == DayStart(now) + 3600 * hour + 60 * minute;
      MinuteOfDay(DayStart(now), hour, minute, r);
    }
  }

  lemma {:induction false} MinuteOfDay(d: int, hour: int, minute: int, t: int)
    requires d % 86400 == 0 && 0 <= hour < 24 && 0 <= minute < 60
    requires t == d + 3600 * hour + 60 * minute
    ensures d <= t < d + 86400 && t % 60 == 0
  {
    var days := d / 86400;
    assert d + 3600 * hour + 60 * minute == 60 * (1440 * days + 60 * hour + minute);
  }

  /** The two digits of a number below a hundred. */
  function Pad2(n: nat): (s: string)
    requires n < 100
    ensures |s| == 2 && Decimal.AllDigits(s)
  {
    [Decimal.DigitChar(n / 10), Decimal.DigitChar(n % 10)]
  }

  /** The digits of a signed number: `stoi` once the white space is skipped. */
  lemma {:induction false} LeadingDigitsAll(s: string)
    requires Decimal.AllDigits(s)
    ensures LeadingDigits(s) == |s|
  {
    if s != [] {
      LeadingDigitsAll(s[1..]);
    }
  }

  /** `stoi` reads the digits a string starts with as their number where it fits, and ignores the rest. */
  lemma {:induction false} StoiOfDigits(s: string)
    requires s != [] && Decimal.IsDigit(s[0]) && Decimal.Value(s[..LeadingDigits(s)]) <= 0x7FFF_FFFF
    ensures Stoi(s) == Some(Decimal.Value(s[..LeadingDigits(s)]))
  {
    assert Strings.TrimStart(s) == s;
    ReadDigits(s);
  }

  lemma {:induction false} ReadDigits(t: string)
    requires t != [] && Decimal.IsDigit(t[0]) && Decimal.Value(t[..LeadingDigits(t)]) <= 0x7FFF_FFFF
    ensures ReadSigned(t) == Some(Decimal.Value(t[..LeadingDigits(t)]))
  {
  }

  /** `stoi` reads a digit followed by anything but a digit as that digit. */
  lemma {:induction false} StoiDigit(d: nat, rest: string)
    requires d < 10 && (rest == [] || !Decimal.IsDigit(rest[0]))
    ensures Stoi([Decimal.DigitChar(d)] + rest) == Some(d)
  {
    var s := [Decimal.DigitChar(d)] + rest;
    assert LeadingDigits(s) == 1 by {
      assert s[1..] == rest;
    }
    assert Decimal.Value(s[..1]) == d by {
      assert s[..1] == [s[0]] && [s[0]][..0] == [];
    }
    StoiOfDigits(s);
  }

  lemma {:induction false} ValuePad2(n: nat)
    requires n < 100
    ensures Decimal.Value(Pad2(n)) == n
  {
    var s := Pad2(n);
    assert Decimal.Value([s[0]]) == n / 10 by {
      assert [s[0]][..0] == [];
    }
    assert s[..1] == [s[0]];
  }

  /** `stoi` reads two digits as their number. */
  lemma {:induction false} Pad2Reads(n: nat)
    requires n < 100
    ensures Stoi(Pad2(n)) == Some(n)
  {
    ValuePad2(n);
    LeadingDigitsAll(Pad2(n));
    assert Pad2(n)[..2] == Pad2(n);
    StoiOfDigits(Pad2(n));
  }

  /** Any time of the day written as four digits reads back as that time of the current day. */
  lemma {:induction false} DepartureTimeOfDigits(hour: nat, minute: nat, now: int)
    requires hour < 24 && minute < 60
    ensures ProcessDepartureTime(Pad2(hour) + Pad2(minute), now) == DayStart(now) + 3600 * hour + 60 * minute
  {
    var s := Pad2(hour) + Pad2(minute);
    assert s[..2] == Pad2(hour) && s[2..] == Pad2(minute);
    Pad2Reads(hour);
    Pad2Reads(minute);
  }

  /** Hours past 23 are rejected. */
  lemma {:induction false} DepartureTimeRejectsHour(hour: nat, minute: nat, now: int)
    requires 24 <= hour < 100 && minute < 100
    ensures ProcessDepartureTime(Pad2(hour) + Pad2(minute), now) == -1
  {
    var s := Pad2(hour) + Pad2(minute);
    assert s[..2] == Pad2(hour) && s[2..] == Pad2(minute);
    Pad2Reads(hour);
    Pad2Reads(minute);
  }

  /**
   * The four characters are not checked to be digits: `stoi` stops at the
   * first character that is not one, so an hour written as one digit and
   * any other character (as in "1a30") is read as that digit.
   */
  lemma {:induction false} DepartureTimeLenient(hour: nat, c: char, minute: nat, now: int)
    requires hour < 10 && !Decimal.IsDigit(c) && minute < 60
    ensures ProcessDepartureTime([Decimal.DigitChar(hour), c] + Pad2(minute), now)
      == DayStart(now) + 3600 * hour + 60 * minute
  {
    var s := [Decimal.DigitChar(hour), c] + Pad2(minute);
    assert s[..2] == [Decimal.DigitChar(hour)] + [c] && s[2..] == Pad2(minute);
    StoiDigit(hour, [c]);
    Pad2Reads(minute);
  }
}
