/**
  Wall-clock time of day and the "15:04" layout the window predicate
  parses range bounds with. The grammar is the part of Go's layout
  parser that this one layout uses: an hour of one or two digits, a
  colon, a minute of exactly two digits, and nothing after it; the hour
  must be below 24 and the minute below 60. Any other string is a parse
  error, which the caller turns into the zero time, 00:00.
 */
module Clock {
  import opened Wrappers

  const NanosPerSecond: int := 1_000_000_000
  const NanosPerMinute: int := 60 * NanosPerSecond
  const NanosPerDay: int := 24 * 60 * NanosPerMinute

  /** The current instant, as nanoseconds since local midnight of today. */
  type TimeOfDay = n: int | 0 <= n < NanosPerDay

  /** An hour and a minute as `time.Parse` reads them from "15:04". */
  datatype HourMinute = HourMinute(hour: nat, minute: nat)

  predicate IsDigit(c: char) {
    '0' <= c <= '9'
  }

  function DigitValue(c: char): nat
    requires IsDigit(c)
  {
    c as int - '0' as int
  }

  function DigitChar(d: nat): (c: char)
    requires d < 10
    ensures IsDigit(c) && DigitValue(c) == d
  {
    ('0' as int + d) as char
  }

  /** Two-digit, zero-padded rendering, as the layout "15" or "04" prints. */
  function Pad2(n: nat): (s: string)
    requires n < 100
    ensures |s| == 2 && IsDigit(s[0]) && IsDigit(s[1])
    ensures 10 * DigitValue(s[0]) + DigitValue(s[1]) == n
  {
    [DigitChar(n / 10), DigitChar(n % 10)]
  }

  /** What is left once the hour has been read: ":" and exactly two digits. */
  function ParseMinute(rest: string): (r: Option<nat>)
    ensures r.Some? <==>
              && |rest| == 3 && rest[0] == ':' && IsDigit(rest[1]) && IsDigit(rest[2])
              && 10 * DigitValue(rest[1]) + DigitValue(rest[2]) < 60
    ensures r.Some? ==> r.value == 10 * DigitValue(rest[1]) + DigitValue(rest[2])
  {
    if |rest| == 3 && rest[0] == ':' && IsDigit(rest[1]) && IsDigit(rest[2]) then
      var minute := 10 * DigitValue(rest[1]) + DigitValue(rest[2]);
      if minute < 60 then Some(minute) else None
    else
      None
  }

  /**
    Parses `s` with the layout "15:04". The hour takes two digits when
    two are present and one otherwise.
   */
  function ParseHourMinute(s: string): (r: Option<HourMinute>)
    ensures r.Some? ==> r.value.hour < 24 && r.value.minute < 60
  {
    if |s| == 0 || !IsDigit(s[0]) then None
    else
      var twoDigits := |s| >= 2 && IsDigit(s[1]);
      var hour := if twoDigits then 10 * DigitValue(s[0]) + DigitValue(s[1]) else DigitValue(s[0]);
      var rest := if twoDigits then s[2..] else s[1..];
      match ParseMinute(rest)
      case None => None
      case Some(minute) => if hour < 24 then Some(HourMinute(hour, minute)) else None
  }

  /** The canonical "HH:MM" text of a valid hour and minute. */
  function Format(hour: nat, minute: nat): (s: string)
    requires hour < 24 && minute < 60
    ensures |s| == 5 && s[2] == ':'
  {
    Pad2(hour) + ":" + Pad2(minute)
  }

  /**
    The instant a range bound denotes today: the parsed hour and minute
    with zero seconds and zero nanoseconds, or midnight when the string
    does not parse (the zero `time.Time` has hour 0 and minute 0).
   */
  function BoundNanos(s: string): (r: int)
    ensures 0 <= r < NanosPerDay
    ensures r % NanosPerMinute == 0
    ensures ParseHourMinute(s).None? ==> r == 0
    ensures ParseHourMinute(s).Some? ==>
      r / NanosPerMinute == ParseHourMinute(s).value.hour * 60 + ParseHourMinute(s).value.minute
  {
    match ParseHourMinute(s)
    case None => 0
    case Some(hm) => (hm.hour * 60 + hm.minute) * NanosPerMinute
  }

  /** Every valid hour and minute written as "HH:MM" parses back to itself. */
  lemma ParseFormat(hour: nat, minute: nat)
    requires hour < 24 && minute < 60
    ensures ParseHourMinute(Format(hour, minute)) == Some(HourMinute(hour, minute))
  {
    var s := Format(hour, minute);
    assert s[..2] == Pad2(hour);
    assert s[2..] == ":" + Pad2(minute);
  }

  /** A single-digit hour is accepted too: "9:30" means 09:30. */
  lemma ParseShortHour(hour: nat, minute: nat)
    requires hour < 10 && minute < 60
    ensures ParseHourMinute([DigitChar(hour)] + ":" + Pad2(minute)) == Some(HourMinute(hour, minute))
  {
    var s := [DigitChar(hour)] + ":" + Pad2(minute);
    assert !IsDigit(s[1]);
    assert s[1..] == ":" + Pad2(minute);
  }

  /**
    Conversely, the parser accepts nothing else: a string that parses is
    the canonical "HH:MM" text of its result, or the same with a single
    digit for an hour below ten.
   */
  lemma ParsedIsFormatted(s: string)
    requires ParseHourMinute(s).Some?
    ensures var hm := ParseHourMinute(s).value;
      s == Format(hm.hour, hm.minute) || (hm.hour < 10 && s == [DigitChar(hm.hour)] + ":" + Pad2(hm.minute))
  {
    var hm := ParseHourMinute(s).value;
    var m := Pad2(hm.minute);
    if |s| >= 2 && IsDigit(s[1]) {
      var h := Pad2(hm.hour);
      assert s[2..] == ":" + m;
      assert s[..2] == h;
      assert s == s[..2] + s[2..];
    } else {
      assert s[1..] == ":" + m;
      assert s[..1] == [DigitChar(hm.hour)];
      assert s == s[..1] + s[1..];
    }
  }
}
