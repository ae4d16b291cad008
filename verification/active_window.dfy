/**
  The active-window predicate: is "now" strictly inside some configured
  range of today? Each range's bounds are parsed with the "15:04" layout,
  placed on today's date with zero seconds, and compared strictly on both
  sides. Parse errors are ignored, so a bound that does not parse is
  midnight; the range itself is kept.
 */
module ActiveWindow {
  import opened Clock
  import opened Model

  /** One range is active when now is strictly after its start and strictly before its end. */
  predicate RangeActive(now: TimeOfDay, tr: TimeRange) {
    BoundNanos(tr.start) < now < BoundNanos(tr.end)
  }

  /** The loop over the configured ranges, returning at the first active one. */
  predicate InActiveTime(now: TimeOfDay, ranges: seq<TimeRange>)
    decreases |ranges|
  {
    if ranges == [] then false
    else RangeActive(now, ranges[0]) || InActiveTime(now, ranges[1..])
  }

  /** The predicate is the union of the ranges: true iff some listed range is active. */
  lemma {:induction false} InActiveTimeIsUnion(now: TimeOfDay, ranges: seq<TimeRange>)
    ensures InActiveTime(now, ranges) <==> exists tr :: tr in ranges && RangeActive(now, tr)
    decreases |ranges|
  {
    if ranges != [] {
      InActiveTimeIsUnion(now, ranges[1..]);
      assert forall tr :: tr in ranges <==> tr == ranges[0] || tr in ranges[1..];
    }
  }

  /** No range means never active. */
  lemma NoRangesNeverActive(now: TimeOfDay)
    ensures !InActiveTime(now, [])
  {
  }

  /** Concatenating two lists of ranges takes the union of their answers. */
  lemma AppendIsOr(now: TimeOfDay, a: seq<TimeRange>, b: seq<TimeRange>)
    ensures InActiveTime(now, a + b) <==> InActiveTime(now, a) || InActiveTime(now, b)
  {
    InActiveTimeIsUnion(now, a + b);
    InActiveTimeIsUnion(now, a);
    InActiveTimeIsUnion(now, b);
    assert forall tr :: tr in a + b <==> tr in a || tr in b;
  }

  /** Adding a range never turns an active answer into an inactive one. */
  lemma AppendKeepsActive(now: TimeOfDay, ranges: seq<TimeRange>, tr: TimeRange)
    requires InActiveTime(now, ranges)
    ensures InActiveTime(now, ranges + [tr]) && InActiveTime(now, [tr] + ranges)
  {
    AppendIsOr(now, ranges, [tr]);
    AppendIsOr(now, [tr], ranges);
  }

  /** Any listed active range makes the predicate true. */
  lemma MemberActiveMakesActive(now: TimeOfDay, ranges: seq<TimeRange>, tr: TimeRange)
    requires tr in ranges && RangeActive(now, tr)
    ensures InActiveTime(now, ranges)
  {
    InActiveTimeIsUnion(now, ranges);
  }

  /** The order of the ranges, and their multiplicity, do not matter. */
  lemma {:induction false} ReorderInvariant(now: TimeOfDay, a: seq<TimeRange>, b: seq<TimeRange>)
    requires multiset(a) == multiset(b)
    ensures InActiveTime(now, a) == InActiveTime(now, b)
  {
    InActiveTimeIsUnion(now, a);
    InActiveTimeIsUnion(now, b);
    assert forall tr :: tr in a <==> tr in multiset(a);
    assert forall tr :: tr in b <==> tr in multiset(b);
  }

  /**
    For bounds written as "HH:MM", the range is active exactly strictly
    between the two wall-clock instants of today.
   */
  lemma FormattedRangeActive(now: TimeOfDay, h1: nat, m1: nat, h2: nat, m2: nat)
    requires h1 < 24 && m1 < 60 && h2 < 24 && m2 < 60
    ensures RangeActive(now, TimeRange(Format(h1, m1), Format(h2, m2))) <==>
              (h1 * 60 + m1) * NanosPerMinute < now < (h2 * 60 + m2) * NanosPerMinute
  {
    ParseFormat(h1, m1);
    ParseFormat(h2, m2);
  }

  /** At the exact instant of either bound the range is not active. */
  lemma BoundsAreExclusive(now: TimeOfDay, tr: TimeRange)
    requires now == BoundNanos(tr.start) || now == BoundNanos(tr.end)
    ensures !RangeActive(now, tr)
  {
  }

  /**
    A range whose end is not after its start is never active. This
    covers ranges meant to cross midnight, such as 22:00-02:00.
   */
  lemma EmptyRangeNeverActive(now: TimeOfDay, tr: TimeRange)
    requires BoundNanos(tr.end) <= BoundNanos(tr.start)
    ensures !RangeActive(now, tr)
  {
  }

  /** An end that does not parse is midnight, so the range is never active. */
  lemma UnparsedEndNeverActive(now: TimeOfDay, tr: TimeRange)
    requires ParseHourMinute(tr.end).None?
    ensures !RangeActive(now, tr)
  {
  }

  /** A start that does not parse is midnight: the range runs from 00:00 to its end. */
  lemma UnparsedStartIsMidnight(now: TimeOfDay, tr: TimeRange)
    requires ParseHourMinute(tr.start).None?
    ensures RangeActive(now, tr) <==> 0 < now < BoundNanos(tr.end)
  {
  }

  /** A range crossing midnight is never active. */
  lemma MidnightCrossingNeverActive(now: TimeOfDay)
    ensures !InActiveTime(now, [TimeRange("22:00", "02:00")])
  {
    ParseFormat(22, 0);
    ParseFormat(2, 0);
    assert Format(22, 0) == "22:00";
    assert Format(2, 0) == "02:00";
  }

  /**
    For a well-formed range, the predicate holds exactly strictly between
    the two wall-clock instants: 09:00-17:00 is active at noon, inactive
    at 20:00, and inactive at 09:00:00.000 itself.
   */
  lemma OfficeHours()
    ensures InActiveTime(12 * 60 * NanosPerMinute, [TimeRange("09:00", "17:00")])
    ensures !InActiveTime(20 * 60 * NanosPerMinute, [TimeRange("09:00", "17:00")])
    ensures !InActiveTime(9 * 60 * NanosPerMinute, [TimeRange("09:00", "17:00")])
    ensures InActiveTime(9 * 60 * NanosPerMinute + 1, [TimeRange("09:00", "17:00")])
  {
    ParseFormat(9, 0);
    ParseFormat(17, 0);
    assert Format(9, 0) == "09:00";
    assert Format(17, 0) == "17:00";
  }
}
