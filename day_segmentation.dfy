/**
 * `findDates` and the per-day windows of the baseline method in
 * notebooks/pollutant_cal_utils.py. Timestamps are whole hours, so a day is
 * 24 units and midnight is a multiple of 24.
 */
module DaySegmentation {
  import opened TimeIndex

  const Day: int := 24

  /** `Timestamp.floor('D')`: the midnight at or before `t`. */
  function FloorDay(t: int): int {
    (t / Day) * Day
  }

  /** `Timestamp.ceil('D')`: the midnight at or after `t`. */
  function CeilDay(t: int): int {
    if t % Day == 0 then t else (t / Day + 1) * Day
  }

  /** What `findDates` returns: rounded-up first day, rounded-down last day, whole days spanned. */
  datatype DateRange = DateRange(minDay: int, maxDay: int, rangeDays: nat)

  /**
   * `findDates`: the first midnight at or after the earliest sample, the last
   * midnight at or before the latest one, and the number of whole days between
   * the earliest and the latest sample (`timedelta.days`, rounded down).
   */
  function FindDates(index: set<int>): (d: DateRange)
    requires index != {}
    ensures var lo, hi := SetMin(index), SetMax(index);
            lo <= d.minDay < lo + Day && d.minDay % Day == 0 &&
            hi - Day < d.maxDay <= hi && d.maxDay % Day == 0 &&
            d.rangeDays * Day <= hi - lo < (d.rangeDays + 1) * Day
  {
    var lo, hi := SetMin(index), SetMax(index);
    DateRange(CeilDay(lo), FloorDay(hi), (hi - lo) / Day)
  }

  /** `min_date_df + DateOffset(days=day)`: the midnight that opens day `day`. */
  function DayStart(d: DateRange, day: nat): int {
    d.minDay + day * Day
  }

  /** `min_date_novl`. */
  function NonOverlapStart(d: DateRange, day: nat): int {
    if d.minDay >= DayStart(d, day) then d.minDay else DayStart(d, day)
  }

  /** `max_date_novl`. */
  function NonOverlapEnd(d: DateRange, day: nat): int {
    var e := NonOverlapStart(d, day) + Day;
    if d.maxDay <= e then d.maxDay else e
  }

  /** Whether a timestamp falls in day `day`'s window `(min_date_novl, max_date_novl]`. */
  predicate InNonOverlap(d: DateRange, day: nat, t: int) {
    NonOverlapStart(d, day) < t <= NonOverlapEnd(d, day)
  }

  /**
   * `relativedelta(later, earlier).hours`: the hours component of the
   * difference, which keeps its sign and drops whole days.
   */
  function HoursComponent(later: int, earlier: int): int {
    var diff := later - earlier;
    if diff >= 0 then diff % Day else -((-diff) % Day)
  }

  /** `min_date_ovl`: the day start moved back by the overlap, but not before the first sample. */
  function OverlapStart(index: set<int>, day: nat, overlapHours: nat): int
    requires index != {}
  {
    var lo := SetMin(index);
    var s := DayStart(FindDates(index), day) - overlapHours;
    if lo >= s then lo else s
  }

  /** `max_date_ovl`: one day plus the overlap plus the hours component, but not after the last sample. */
  function OverlapEnd(index: set<int>, day: nat, overlapHours: nat): int
    requires index != {}
  {
    var hi := SetMax(index);
    var s := OverlapStart(index, day, overlapHours);
    var e := s + Day + overlapHours + HoursComponent(DayStart(FindDates(index), day), s);
    if hi <= e then hi else e
  }

  /** Whether a timestamp falls in day `day`'s overlap window `(min_date_ovl, max_date_ovl]`. */
  predicate InOverlap(index: set<int>, day: nat, overlapHours: nat, t: int)
    requires index != {}
  {
    OverlapStart(index, day, overlapHours) < t <= OverlapEnd(index, day, overlapHours)
  }

  /** A multiple of a day that does not pass `hi` does not pass `FloorDay(hi)`. */
  lemma MidnightBelow(k: int, hi: int)
    requires k * Day <= hi
    ensures k * Day <= FloorDay(hi)
  {
    var q := hi / Day;
    assert hi < (q + 1) * Day;
    assert k <= q;
  }

  /**
   * Every day the loop visits opens at its own midnight, which is no later
   * than the last midnight: the window bounds are ordered.
   */
  lemma {:induction false} NonOverlapOrdered(index: set<int>, day: nat)
    requires index != {}
    requires day < FindDates(index).rangeDays
    ensures var d := FindDates(index);
            NonOverlapStart(d, day) == DayStart(d, day) &&
            NonOverlapStart(d, day) <= NonOverlapEnd(d, day) <= NonOverlapStart(d, day) + Day
  {
    var d := FindDates(index);
    var lo, hi := SetMin(index), SetMax(index);
    var c := d.minDay / Day;
    assert d.minDay == c * Day;
    assert DayStart(d, day) == (c + day) * Day;
    assert (c + day) * Day <= hi by {
      assert (day + 1) * Day <= d.rangeDays * Day;
    }
    MidnightBelow(c + day, hi);
  }

  /** Each visited day's window ends where the next one starts. */
  lemma {:induction false} ConsecutiveWindowsAdjacent(index: set<int>, day: nat)
    requires index != {}
    requires day + 1 < FindDates(index).rangeDays
    ensures var d := FindDates(index);
            NonOverlapEnd(d, day) == NonOverlapStart(d, day + 1)
  {
    var d := FindDates(index);
    NonOverlapOrdered(index, day);
    NonOverlapOrdered(index, day + 1);
  }

  /** A later visited day's window starts no earlier than an earlier day's window ends. */
  lemma {:induction false} WindowsDisjoint(index: set<int>, d1: nat, d2: nat)
    requires index != {}
    requires d1 < d2 < FindDates(index).rangeDays
    ensures NonOverlapEnd(FindDates(index), d1) <= NonOverlapStart(FindDates(index), d2)
  {
    var d := FindDates(index);
    NonOverlapOrdered(index, d1);
    NonOverlapOrdered(index, d2);
    assert DayStart(d, d1) + Day <= DayStart(d, d2);
  }

  /** A timestamp lies in the window of at most one visited day. */
  lemma WindowOfTimestampUnique(index: set<int>, d1: nat, d2: nat, t: int)
    requires index != {}
    requires d1 < FindDates(index).rangeDays && d2 < FindDates(index).rangeDays && d1 != d2
    requires InNonOverlap(FindDates(index), d1, t)
    ensures !InNonOverlap(FindDates(index), d2, t)
  {
    if d1 < d2 {
      WindowsDisjoint(index, d1, d2);
    } else {
      WindowsDisjoint(index, d2, d1);
    }
  }

  /** The visited windows together cover exactly `(minDay, end of the last window]`. */
  lemma {:induction false} WindowsCover(index: set<int>, t: int)
    requires index != {}
    requires FindDates(index).rangeDays > 0
    ensures var d := FindDates(index);
            (exists day: nat :: day < d.rangeDays && InNonOverlap(d, day, t)) <==>
            d.minDay < t <= NonOverlapEnd(d, d.rangeDays - 1)
  {
    var d := FindDates(index);
    var last := d.rangeDays - 1;
    NonOverlapOrdered(index, last);
    if d.minDay < t <= NonOverlapEnd(d, last) {
      var day: nat := (t - d.minDay - 1) / Day;
      assert day <= last;
      NonOverlapOrdered(index, day);
      if day < last {
        ConsecutiveWindowsAdjacent(index, day);
        assert NonOverlapEnd(d, day) == DayStart(d, day) + Day by {
          NonOverlapOrdered(index, day + 1);
        }
      }
      assert InNonOverlap(d, day, t);
    }
    if exists day: nat :: day < d.rangeDays && InNonOverlap(d, day, t) {
      var day: nat :| day < d.rangeDays && InNonOverlap(d, day, t);
      NonOverlapOrdered(index, day);
      if day < last {
        assert NonOverlapEnd(d, day) <= DayStart(d, day) + Day <= DayStart(d, last) <= NonOverlapEnd(d, last);
      }
    }
  }

  /**
   * The earliest sample never falls in a visited window: the windows start at
   * the first midnight, which is not before it, and exclude their start.
   */
  lemma FirstSampleNeverCovered(index: set<int>, day: nat)
    requires index != {}
    requires day < FindDates(index).rangeDays
    ensures !InNonOverlap(FindDates(index), day, SetMin(index))
  {
    NonOverlapOrdered(index, day);
  }

  /**
   * With an overlap shorter than a day and a day that starts after the first
   * sample plus the overlap, the overlap window is the day widened by the
   * overlap on both sides (clipped to the last sample).
   */
  lemma {:induction false} OverlapWindowIntegerForm(index: set<int>, day: nat, overlapHours: nat)
    requires index != {}
    requires overlapHours < Day
    ensures var ds := DayStart(FindDates(index), day);
            var hi := SetMax(index);
            OverlapEnd(index, day, overlapHours) == if hi <= ds + Day + overlapHours then hi else ds + Day + overlapHours
  {
    var ds := DayStart(FindDates(index), day);
    var s := OverlapStart(index, day, overlapHours);
    assert ds - s <= overlapHours;
    assert 0 <= ds - s;
    assert HoursComponent(ds, s) == ds - s;
  }

  /** Each visited day's overlap window contains its non-overlap window. */
  lemma {:induction false} OverlapContainsWindow(index: set<int>, day: nat, overlapHours: nat, t: int)
    requires index != {}
    requires day < FindDates(index).rangeDays
    requires InNonOverlap(FindDates(index), day, t)
    ensures InOverlap(index, day, overlapHours, t)
  {
    var d := FindDates(index);
    NonOverlapOrdered(index, day);
    var ds := DayStart(d, day);
    var s := OverlapStart(index, day, overlapHours);
    assert s <= ds;
    assert HoursComponent(ds, s) >= 0;
    assert t <= SetMax(index);
  }
}
