/**
 * The value helpers of the timeline's `ArrivalLabel`: minutes to lose or
 * gain, their colour, the time behind the preceding aircraft, the wake
 * category colour and the ground speed rounded to tens. Durations are whole
 * seconds.
 */
module ArrivalLabelModel {
  import opened Wrappers
  import opened Decimal

  /** `TTL_TTG_THRESHOLD`: ten seconds. */
  const TtlTtgThreshold: int := 10

  datatype Color = Orange | Yellow | Green

  /** Kotlin's `/` on `Int`, which truncates toward zero. */
  function Quot(a: int, b: int): (q: int)
    requires b > 0
    ensures a >= 0 ==> q == a / b
    ensures a < 0 ==> q == -((-a) / b)
  {
    if a >= 0 then a / b else -((-a) / b)
  }

  /** Kotlin's `%` on `Int`, whose result has the sign of the dividend. */
  function Rem(a: int, b: int): (r: int)
    requires b > 0
    ensures a == Quot(a, b) * b + r
    ensures a >= 0 ==> 0 <= r < b
    ensures a < 0 ==> -b < r <= 0
  {
    a - Quot(a, b) * b
  }

  /** `toNormalizedMinutes`: whole seconds to minutes, rounded away from zero. */
  function NormalizedMinutes(seconds: int): (m: int)
    ensures seconds > 0 ==> (m - 1) * 60 < seconds <= m * 60
    ensures seconds < 0 ==> m * 60 <= seconds < (m + 1) * 60
    ensures seconds == 0 <==> m == 0
    ensures seconds > 0 <==> m > 0
  {
    if seconds > 0 then (seconds + 59) / 60
    else if seconds < 0 then seconds / 60
    else 0
  }

  /** Rounding away from zero is symmetric. */
  lemma {:induction false} NormalizedMinutesOdd(seconds: int)
    ensures NormalizedMinutes(-seconds) == -NormalizedMinutes(seconds)
  {
    var m := NormalizedMinutes(seconds);
    var n := NormalizedMinutes(-seconds);
    if seconds > 0 {
      assert n * 60 <= -seconds < (n + 1) * 60;
      assert (m - 1) * 60 < seconds <= m * 60;
      assert -n - 1 < m && m - 1 < -n by {
        assert (m - 1) * 60 < (-n) * 60;
        assert (-n - 1) * 60 < m * 60;
      }
    } else if seconds < 0 {
      assert (n - 1) * 60 < -seconds <= n * 60;
      assert m * 60 <= seconds < (m + 1) * 60;
      assert -m - 1 < n && n - 1 < -m by {
        assert (n - 1) * 60 < (-m) * 60;
        assert (-m - 1) * 60 < n * 60;
      }
    }
  }

  /**
   * `formatTtlTtgValue`, for the time to lose (positive) or gain (negative)
   * `scheduled - estimated`: "+minutes" to lose, "-minutes" to gain, and
   * nothing within ten seconds either way.
   */
  function FormatTtlTtgValue(scheduledTime: int, estimatedTime: int): (s: string)
    ensures var d := scheduledTime - estimatedTime;
            && (s == "" <==> -TtlTtgThreshold <= d <= TtlTtgThreshold)
            && (d > TtlTtgThreshold ==> s == "+" + NatToString(NormalizedMinutes(d)))
            && (d < -TtlTtgThreshold ==> s == "-" + NatToString(-NormalizedMinutes(d)))
  {
    var timeToLoseOrGain := scheduledTime - estimatedTime;
    var minutes := NormalizedMinutes(timeToLoseOrGain);
    if timeToLoseOrGain > TtlTtgThreshold then "+" + IntToString(minutes)
    else if timeToLoseOrGain < -TtlTtgThreshold then IntToString(minutes)
    else ""
  }

  /** `ttlTtgColor`: yellow to lose, green to gain, none within the threshold. */
  function TtlTtgColor(timeToLoseOrGain: int): (c: Option<Color>)
    ensures c == Some(Yellow) <==> timeToLoseOrGain > TtlTtgThreshold
    ensures c == Some(Green) <==> timeToLoseOrGain < -TtlTtgThreshold
  {
    if timeToLoseOrGain > TtlTtgThreshold then Some(Yellow)
    else if timeToLoseOrGain < -TtlTtgThreshold then Some(Green)
    else None
  }

  /** The colour and the text agree: a coloured value is exactly a non-empty one, and its sign says which colour. */
  lemma {:induction false} ColorMatchesText(scheduledTime: int, estimatedTime: int)
    ensures var s := FormatTtlTtgValue(scheduledTime, estimatedTime);
            var c := TtlTtgColor(scheduledTime - estimatedTime);
            && (c.None? <==> s == "")
            && (c == Some(Yellow) <==> s != "" && s[0] == '+')
            && (c == Some(Green) <==> s != "" && s[0] == '-')
  {
  }

  /** `"%02d"`: at least two characters, padded with a zero after any sign. */
  function TwoDigits(n: int): (s: string)
    ensures |s| >= 2 && IsDigit(s[|s| - 1])
    ensures 0 <= n ==> s == (if n < 10 then "0" else "") + NatToString(n)
  {
    if 0 <= n < 10 then "0" + NatToString(n)
    else
      var t := IntToString(n);
      assert |t| >= 2 by {
        if n < 0 { assert t == "-" + NatToString(-n); } else { assert NatToString(n) == NatToString(n / 10) + [DigitChar(n % 10)]; }
      }
      t
  }

  /** `toHhMm`: minutes and seconds of a duration, truncated toward zero, as "mm:ss". */
  function ToHhMm(seconds: int): (s: string)
    ensures seconds >= 0 ==> s == TwoDigits(seconds / 60) + ":" + TwoDigits(seconds % 60)
    ensures |s| >= 5 && IsDigit(s[|s| - 1])
  {
    TwoDigits(Quot(seconds, 60)) + ":" + TwoDigits(Rem(seconds, 60))
  }

  /** A number below a hundred is printed with exactly two digits that read back to it. */
  lemma {:induction false} TwoDigitsReadsBack(n: nat)
    requires n < 100
    ensures var t := TwoDigits(n);
            |t| == 2 && AllDigits(t) && Value(t) == n
  {
    var t := TwoDigits(n);
    ValueOfNatToString(n);
    if n < 10 {
      assert t == ['0', DigitChar(n)];
      assert t[..1] == ['0'] && ['0'][..0] == [];
    } else {
      assert NatToString(n) == NatToString(n / 10) + [DigitChar(n % 10)];
    }
  }

  /** A non-negative duration prints as minutes, a colon, and two digits that read back to its seconds. */
  lemma {:induction false} ToHhMmReadsBack(seconds: nat)
    ensures var s := ToHhMm(seconds);
            && s[|s| - 3] == ':'
            && AllDigits(s[|s| - 2..])
            && Value(s[|s| - 2..]) == seconds % 60
  {
    var tail := TwoDigits(seconds % 60);
    TwoDigitsReadsBack(seconds % 60);
    EndsWith(TwoDigits(seconds / 60), tail);
    var s := ToHhMm(seconds);
    assert s == TwoDigits(seconds / 60) + ":" + tail;
    assert s[|s| - 2..] == tail;
  }

  lemma {:induction false} EndsWith(head: string, tail: string)
    requires |tail| == 2
    ensures var s := head + ":" + tail;
            s[|s| - 3] == ':' && s[|s| - 2..] == tail && s[|s| - 2] == tail[0] && s[|s| - 1] == tail[1]
  {
  }

  /** The TIME_BEHIND_PRECEDING field: "mm:ss", or "--:--" with no preceding aircraft. */
  function TimeBehindPrecedingText(timeToPreceding: Option<int>): (s: string)
    ensures timeToPreceding.None? <==> s == "--:--"
  {
    if timeToPreceding.Some? then ToHhMm(timeToPreceding.value) else "--:--"
  }

  /** The TIME_BEHIND_PRECEDING_ROUNDED field: rounded minutes, or "0" with no preceding aircraft. */
  function TimeBehindPrecedingRoundedText(timeToPreceding: Option<int>): (s: string)
    ensures timeToPreceding.None? ==> s == "0"
    ensures timeToPreceding.Some? ==> s == IntToString(NormalizedMinutes(timeToPreceding.value))
  {
    if timeToPreceding.Some? then IntToString(NormalizedMinutes(timeToPreceding.value)) else "0"
  }

  /** `wakeCatColor`: light aircraft orange, heavy and super yellow, the rest plain. */
  function WakeCatColor(wakeCategory: char): (c: Option<Color>)
    ensures c == Some(Orange) <==> wakeCategory == 'L'
    ensures c == Some(Yellow) <==> wakeCategory in {'H', 'J'}
    ensures c.None? <==> wakeCategory !in {'L', 'H', 'J'}
  {
    match wakeCategory
    case 'L' => Some(Orange)
    case 'H' => Some(Yellow)
    case 'J' => Some(Yellow)
    case _ => None
  }

  /** The GROUND_SPEED_10 field: the ground speed rounded toward zero to a multiple of ten. */
  function GroundSpeed10(groundSpeed: int): (r: int)
    ensures Rem(r, 10) == 0
    ensures groundSpeed >= 0 ==> 0 <= groundSpeed - r < 10
    ensures groundSpeed < 0 ==> -10 < groundSpeed - r <= 0
  {
    Quot(groundSpeed, 10) * 10
  }
}
