/**
 * `CdmClient.parseHhMmSsTimestamp`: a CDM time "HHMMSS" (UTC) read as the
 * next occurrence of that time of day, where "next" tolerates one hour in
 * the past. Instants are whole seconds since the Unix epoch, and the clock
 * reading is the parameter `now`.
 */
module CdmClientModel {
  import opened Wrappers
  import opened Decimal

  const SecondsPerDay: int := 24 * 60 * 60
  const SecondsPerHour: int := 60 * 60

  /**
   * Kotlin's `String.toInt()` on a two-character field: two digits, or a
   * sign followed by one digit; anything else throws.
   */
  function ParseField(field: string): (r: Option<int>)
    requires |field| == 2
    ensures r.Some? ==> -9 <= r.value <= 99
    ensures IsDigit(field[0]) && IsDigit(field[1]) ==> r == Some(10 * DigitValue(field[0]) + DigitValue(field[1]))
    ensures !IsDigit(field[1]) ==> r.None?
  {
    if IsDigit(field[0]) && IsDigit(field[1]) then Some(10 * DigitValue(field[0]) + DigitValue(field[1]))
    else if field[0] == '+' && IsDigit(field[1]) then Some(DigitValue(field[1]))
    else if field[0] == '-' && IsDigit(field[1]) then Some(-(DigitValue(field[1]) as int))
    else None
  }

  /** The UTC midnight that starts the day of instant `t`. */
  function StartOfDay(t: int): (r: int)
    ensures r <= t < r + SecondsPerDay && r % SecondsPerDay == 0
  {
    t - t % SecondsPerDay
  }

  /**
   * `parseHhMmSsTimestamp`: characters [0,2), [2,4) and [4,6) are hour,
   * minute and second and the rest is ignored; a short string, a field that
   * is not a number, or a time of day that does not exist gives None. The
   * time is placed on today's UTC date, and one day later when that is more
   * than an hour before `now`.
   */
  function ParseHhMmSsTimestamp(value: string, now: int): (r: Option<int>)
    ensures r.Some? ==> now - SecondsPerHour <= r.value < now + SecondsPerDay
    ensures r.Some? ==> && |value| >= 6
                        && ParseField(value[0..2]).Some? && 0 <= ParseField(value[0..2]).value <= 23
                        && ParseField(value[2..4]).Some? && 0 <= ParseField(value[2..4]).value <= 59
                        && ParseField(value[4..6]).Some? && 0 <= ParseField(value[4..6]).value <= 59
  {
    if |value| < 6 then None
    else
      var hour := ParseField(value[0..2]);
      var minute := ParseField(value[2..4]);
      var second := ParseField(value[4..6]);
      if hour.None? || minute.None? || second.None? then None
      else if !(0 <= hour.value <= 23 && 0 <= minute.value <= 59 && 0 <= second.value <= 59) then None
      else
        var parsed := StartOfDay(now) + hour.value * 3600 + minute.value * 60 + second.value;
        if parsed < now - SecondsPerHour then Some(parsed + SecondsPerDay) else Some(parsed)
  }

  /** The time of day of the result is the one written in the string. */
  lemma {:induction false} ParsedTimeOfDay(value: string, now: int)
    requires |value| >= 6 && forall i | 0 <= i < 6 :: IsDigit(value[i])
    requires var h := 10 * DigitValue(value[0]) + DigitValue(value[1]);
             var m := 10 * DigitValue(value[2]) + DigitValue(value[3]);
             var s := 10 * DigitValue(value[4]) + DigitValue(value[5]);
             h <= 23 && m <= 59 && s <= 59
    ensures ParseHhMmSsTimestamp(value, now).Some?
    ensures ParseHhMmSsTimestamp(value, now).value % SecondsPerDay
            == (10 * DigitValue(value[0]) + DigitValue(value[1])) * 3600
               + (10 * DigitValue(value[2]) + DigitValue(value[3])) * 60
               + 10 * DigitValue(value[4]) + DigitValue(value[5])
  {
    assert value[0..2][0] == value[0] && value[0..2][1] == value[1];
    assert value[2..4][0] == value[2] && value[2..4][1] == value[3];
    assert value[4..6][0] == value[4] && value[4..6][1] == value[5];
    var h := 10 * DigitValue(value[0]) + DigitValue(value[1]);
    var m := 10 * DigitValue(value[2]) + DigitValue(value[3]);
    var s := 10 * DigitValue(value[4]) + DigitValue(value[5]);
    assert ParseField(value[0..2]) == Some(h) && ParseField(value[2..4]) == Some(m) && ParseField(value[4..6]) == Some(s);
    var t := h * 3600 + m * 60 + s;
    var r := ParseHhMmSsTimestamp(value, now).value;
    assert r == StartOfDay(now) + t || r == StartOfDay(now) + t + SecondsPerDay;
    OnDayOffset(StartOfDay(now), t, r);
  }

  lemma {:induction false} OnDayOffset(midnight: int, t: int, r: int)
    requires midnight % SecondsPerDay == 0 && 0 <= t < SecondsPerDay
    requires r == midnight + t || r == midnight + t + SecondsPerDay
    ensures r % SecondsPerDay == t
  {
    var k := midnight / SecondsPerDay;
    assert midnight == k * SecondsPerDay;
    ModOfDayOffset(k, t);
    ModOfDayOffset(k + 1, t);
  }

  lemma {:induction false} ModOfDayOffset(k: int, t: int)
    requires 0 <= t < SecondsPerDay
    ensures (k * SecondsPerDay + t) % SecondsPerDay == t
  {
  }

  /** Anything after the sixth character is ignored. */
  lemma {:induction false} TrailingIgnored(value: string, rest: string, now: int)
    requires |value| == 6
    ensures ParseHhMmSsTimestamp(value + rest, now) == ParseHhMmSsTimestamp(value, now)
  {
    assert (value + rest)[0..2] == value[0..2];
    assert (value + rest)[2..4] == value[2..4];
    assert (value + rest)[4..6] == value[4..6];
  }

  /** A CDM record as the client builds it; the times are parsed only when present. */
  datatype CdmData = CdmData(callsign: string, ttot: Option<int>, ctot: Option<int>)

  /** Building a record from its optional strings: an absent string stays absent without being parsed. */
  function ToCdmData(callsign: string, ttot: Option<string>, ctot: Option<string>, now: int): (r: CdmData)
    ensures ttot.None? ==> r.ttot.None?
    ensures ctot.None? ==> r.ctot.None?
    ensures ttot.Some? ==> r.ttot == ParseHhMmSsTimestamp(ttot.value, now)
    ensures ctot.Some? ==> r.ctot == ParseHhMmSsTimestamp(ctot.value, now)
  {
    CdmData(
      callsign,
      if ttot.Some? then ParseHhMmSsTimestamp(ttot.value, now) else None,
      if ctot.Some? then ParseHhMmSsTimestamp(ctot.value, now) else None)
  }
}
