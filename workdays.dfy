/** The working-day calendar of gantt/gantt.py: the weekly days off
    (NOT_WORKED_DAYS), the vacation list (VACATIONS), and the day-cursor
    loops that roll a date onto a working day or count working days from it.
    The two process-wide globals of the source become one explicit Calendar
    value. */
module Workdays {
  import opened Wrappers

  /** A date is its proleptic Gregorian ordinal, as Python's
      date.toordinal(): day 1 is 0001-01-01, a Monday. */
  type Day = int

  /** datetime.date(9999, 1, 1), the start of an empty project. */
  const FarFuture: Day := 3651695
  /** datetime.date(1970, 1, 1), the end of an empty project. */
  const Epoch: Day := 719163

  /** date.weekday(): 0 is Monday ... 6 is Sunday. */
  function Weekday(d: Day): (w: int)
    ensures 0 <= w < 7
  {
    (d + 6) % 7
  }

  /** NOT_WORKED_DAYS and VACATIONS, in list form as the source keeps them. */
  datatype Calendar = Calendar(notWorked: seq<int>, vacations: seq<Day>)

  /** The module's initial state: Saturday and Sunday off, no vacation. */
  const DefaultCalendar := Calendar([5, 6], [])

  /** The test every roll loop of the source repeats. */
  predicate IsWorkingDay(cal: Calendar, d: Day) {
    Weekday(d) !in cal.notWorked && d !in cal.vacations
  }

  /** Without at least one working weekday the source's roll loops never
      end; every operation that rolls a date requires this. */
  predicate HasWorkingWeekday(cal: Calendar) {
    exists w :: 0 <= w < 7 && w !in cal.notWorked
  }

  /** define_not_worked_days: replaces the list of weekly days off. */
  function DefineNotWorkedDays(cal: Calendar, days: seq<int>): (r: Calendar)
    ensures r.vacations == cal.vacations
    ensures forall d :: IsWorkingDay(r, d) <==> Weekday(d) !in days && d !in cal.vacations
  {
    cal.(notWorked := days)
  }

  /** Whether day d is covered by add_vacations(start, end). */
  predicate InVacationRange(d: Day, start: Day, end: Option<Day>) {
    if end.None? then d == start else start <= d <= end.value
  }

  /** add_vacations: appends every day of [start, end] (only start when end
      is None) that the list does not hold yet, in increasing order. */
  method AddVacations(cal: Calendar, start: Day, end: Option<Day>) returns (r: Calendar)
    ensures r.notWorked == cal.notWorked
    ensures |r.vacations| >= |cal.vacations| && r.vacations[..|cal.vacations|] == cal.vacations
    ensures forall d :: d in r.vacations <==> d in cal.vacations || InVacationRange(d, start, end)
    ensures forall k :: |cal.vacations| <= k < |r.vacations| ==>
              r.vacations[k] !in cal.vacations && InVacationRange(r.vacations[k], start, end)
    ensures forall k, k' :: |cal.vacations| <= k < k' < |r.vacations| ==> r.vacations[k] < r.vacations[k']
  {
    var vac := cal.vacations;
    if end.None? {
      if start !in vac {
        vac := vac + [start];
      }
    } else {
      var d := start;
      while d <= end.value
        invariant |vac| >= |cal.vacations| && vac[..|cal.vacations|] == cal.vacations
        invariant d == start || start < d <= end.value + 1
        invariant forall x :: x in vac <==> x in cal.vacations || start <= x < d
        invariant forall k :: |cal.vacations| <= k < |vac| ==>
                    vac[k] !in cal.vacations && start <= vac[k] < d
        invariant forall k, k' :: |cal.vacations| <= k < k' < |vac| ==> vac[k] < vac[k']
        decreases end.value - d
      {
        if d !in vac {
          vac := vac + [d];
        }
        d := d + 1;
      }
    }
    r := cal.(vacations := vac);
  }

  // ---------------------------------------------------------------------
  // Rolling a date onto a working day

  /** A number no element of s exceeds. */
  function UpperBound(s: seq<int>, lo: int): (m: int)
    ensures m >= lo && forall k :: 0 <= k < |s| ==> s[k] <= m
  {
    if s == [] then lo
    else
      var m := UpperBound(s[1..], lo);
      assert forall k :: 1 <= k < |s| ==> s[k] == s[1..][k - 1];
      if s[0] > m then s[0] else m
  }

  /** A number no element of s is below. */
  function LowerBound(s: seq<int>, hi: int): (m: int)
    ensures m <= hi && forall k :: 0 <= k < |s| ==> m <= s[k]
  {
    if s == [] then hi
    else
      var m := LowerBound(s[1..], hi);
      assert forall k :: 1 <= k < |s| ==> s[k] == s[1..][k - 1];
      if s[0] < m then s[0] else m
  }

  /** Moving forward from m by the right number of days in [0, 7) reaches
      any weekday k. */
  lemma WeekdayReach(m: Day, k: int)
    requires 0 <= k < 7
    ensures 0 <= (k - Weekday(m)) % 7 < 7
    ensures Weekday(m + (k - Weekday(m)) % 7) == k
  {
    var a := Weekday(m);
    var j := (k - a) % 7;
    assert m + 6 == 7 * ((m + 6) / 7) + a;
    assert k - a == 7 * ((k - a) / 7) + j;
    assert m + j + 6 == 7 * ((m + 6) / 7 - (k - a) / 7) + k;
  }

  /** Some working day on or after d: a day with a working weekday past
      every vacation. */
  ghost function WorkingDayAtOrAfter(cal: Calendar, d: Day): (w: Day)
    requires HasWorkingWeekday(cal)
    ensures w >= d && IsWorkingDay(cal, w)
  {
    var k :| 0 <= k < 7 && k !in cal.notWorked;
    var m := UpperBound(cal.vacations, d) + 1;
    WeekdayReach(m, k);
    m + (k - Weekday(m)) % 7
  }

  /** Some working day on or before d. */
  ghost function WorkingDayAtOrBefore(cal: Calendar, d: Day): (w: Day)
    requires HasWorkingWeekday(cal)
    ensures w <= d && IsWorkingDay(cal, w)
  {
    var k :| 0 <= k < 7 && k !in cal.notWorked;
    var m := LowerBound(cal.vacations, d) - 7;
    WeekdayReach(m, k);
    m + (k - Weekday(m)) % 7
  }

  /** The first working day in [d, w], given that w is one. */
  function FirstWorkingUpTo(cal: Calendar, d: Day, w: Day): (r: Day)
    requires d <= w && IsWorkingDay(cal, w)
    ensures d <= r <= w && IsWorkingDay(cal, r)
    ensures forall x :: d <= x < r ==> !IsWorkingDay(cal, x)
    decreases w - d
  {
    if IsWorkingDay(cal, d) then d else FirstWorkingUpTo(cal, d + 1, w)
  }

  /** The last working day in [w, d], given that w is one. */
  function LastWorkingDownTo(cal: Calendar, d: Day, w: Day): (r: Day)
    requires w <= d && IsWorkingDay(cal, w)
    ensures w <= r <= d && IsWorkingDay(cal, r)
    ensures forall x :: r < x <= d ==> !IsWorkingDay(cal, x)
    decreases d - w
  {
    if IsWorkingDay(cal, d) then d else LastWorkingDownTo(cal, d - 1, w)
  }

  /** The earliest working day on or after d. */
  ghost function NextWorking(cal: Calendar, d: Day): (r: Day)
    requires HasWorkingWeekday(cal)
    ensures d <= r && IsWorkingDay(cal, r)
    ensures forall x :: d <= x < r ==> !IsWorkingDay(cal, x)
  {
    FirstWorkingUpTo(cal, d, WorkingDayAtOrAfter(cal, d))
  }

  /** The latest working day on or before d. */
  ghost function PrevWorking(cal: Calendar, d: Day): (r: Day)
    requires HasWorkingWeekday(cal)
    ensures r <= d && IsWorkingDay(cal, r)
    ensures forall x :: r < x <= d ==> !IsWorkingDay(cal, x)
  {
    LastWorkingDownTo(cal, d, WorkingDayAtOrBefore(cal, d))
  }

  /** `while start.weekday() in _not_worked_days() or start in VACATIONS:
      start += 1 day`, the forward roll of start_date. */
  method RollForward(cal: Calendar, d: Day) returns (r: Day)
    requires HasWorkingWeekday(cal)
    ensures r == NextWorking(cal, d)
  {
    r := d;
    while !IsWorkingDay(cal, r)
      invariant d <= r <= NextWorking(cal, d)
      decreases NextWorking(cal, d) - r
    {
      r := r + 1;
    }
  }

  /** The backward roll of end_date over days off. */
  method RollBackward(cal: Calendar, d: Day) returns (r: Day)
    requires HasWorkingWeekday(cal)
    ensures r == PrevWorking(cal, d)
  {
    r := d;
    while !IsWorkingDay(cal, r)
      invariant PrevWorking(cal, d) <= r <= d
      decreases r - PrevWorking(cal, d)
    {
      r := r - 1;
    }
  }

  // ---------------------------------------------------------------------
  // Counting working days

  /** The number of working days in the inclusive range [a, b]. */
  function WorkingCount(cal: Calendar, a: Day, b: Day): (r: nat)
    ensures r <= if b < a then 0 else b - a + 1
    decreases b - a
  {
    if b < a then 0 else WorkingCount(cal, a, b - 1) + (if IsWorkingDay(cal, b) then 1 else 0)
  }

  lemma {:induction false} CountSplit(cal: Calendar, a: Day, m: Day, b: Day)
    requires a - 1 <= m <= b
    ensures WorkingCount(cal, a, b) == WorkingCount(cal, a, m) + WorkingCount(cal, m + 1, b)
    decreases b - m
  {
    if m < b {
      CountSplit(cal, a, m, b - 1);
    }
  }

  lemma {:induction false} CountNone(cal: Calendar, a: Day, b: Day)
    requires forall x :: a <= x <= b ==> !IsWorkingDay(cal, x)
    ensures WorkingCount(cal, a, b) == 0
    decreases b - a
  {
    if a <= b {
      CountNone(cal, a, b - 1);
    }
  }

  /** A working day x at or after s with exactly n working days in [s, x]. */
  predicate IsNthWorkingFrom(cal: Calendar, s: Day, n: int, x: Day) {
    x >= s && IsWorkingDay(cal, x) && WorkingCount(cal, s, x) == n
  }

  /** A working day x at or before e with exactly n working days in [x, e]. */
  predicate IsNthWorkingBack(cal: Calendar, e: Day, n: int, x: Day) {
    x <= e && IsWorkingDay(cal, x) && WorkingCount(cal, x, e) == n
  }

  /** The n-th working day counted forward from s (s counts if it works). */
  ghost function NthWorkingFrom(cal: Calendar, s: Day, n: int): (r: Day)
    requires HasWorkingWeekday(cal) && n >= 1
    ensures IsNthWorkingFrom(cal, s, n, r)
    decreases n
  {
    var x := NextWorking(cal, s);
    CountNone(cal, s, x - 1);
    CountSplit(cal, s, x - 1, x);
    if n == 1 then x
    else
      var r := NthWorkingFrom(cal, x + 1, n - 1);
      CountSplit(cal, s, x, r);
      r
  }

  /** The n-th working day counted backward from e (e counts if it works). */
  ghost function NthWorkingBack(cal: Calendar, e: Day, n: int): (r: Day)
    requires HasWorkingWeekday(cal) && n >= 1
    ensures IsNthWorkingBack(cal, e, n, r)
    decreases n
  {
    var x := PrevWorking(cal, e);
    CountNone(cal, x + 1, e);
    CountSplit(cal, x, x, e);
    if n == 1 then x
    else
      var r := NthWorkingBack(cal, x - 1, n - 1);
      CountSplit(cal, r, x - 1, e);
      r
  }

  lemma ForwardUnique(cal: Calendar, s: Day, n: int, x: Day, y: Day)
    requires IsNthWorkingFrom(cal, s, n, x) && IsNthWorkingFrom(cal, s, n, y)
    ensures x == y
  {
    if x < y {
      CountSplit(cal, s, x, y);
      CountSplit(cal, x + 1, y - 1, y);
    } else if y < x {
      CountSplit(cal, s, y, x);
      CountSplit(cal, y + 1, x - 1, x);
    }
  }

  lemma BackUnique(cal: Calendar, e: Day, n: int, x: Day, y: Day)
    requires IsNthWorkingBack(cal, e, n, x) && IsNthWorkingBack(cal, e, n, y)
    ensures x == y
  {
    if x < y {
      CountSplit(cal, x, y - 1, e);
      CountSplit(cal, x, x, y - 1);
    } else if y < x {
      CountSplit(cal, y, x - 1, e);
      CountSplit(cal, y, y, x - 1);
    }
  }

  /** The last day of a task of `duration` working days starting on s: the
      loop of end_date counts at least one working day. */
  ghost function SpanEnd(cal: Calendar, s: Day, duration: int): (r: Day)
    requires HasWorkingWeekday(cal)
    ensures IsNthWorkingFrom(cal, s, if duration >= 1 then duration else 1, r)
  {
    NthWorkingFrom(cal, s, if duration >= 1 then duration else 1)
  }

  /** The first day of a task of `duration` working days ending on stop, as
      the backward loop of start_date finds it; with no day to count the
      loop leaves the cursor one day past stop. */
  ghost function SpanStart(cal: Calendar, stop: Day, duration: int): (r: Day)
    requires HasWorkingWeekday(cal)
    ensures duration >= 1 ==> IsNthWorkingBack(cal, stop, duration, r)
    ensures duration < 1 ==> r == stop + 1
  {
    if duration >= 1 then NthWorkingBack(cal, stop, duration) else stop + 1
  }

  /** The forward loop of end_date: `while duration > 1 or <day off>`, one
      working day consumed per step, the cursor always advancing. */
  method CountForward(cal: Calendar, s: Day, duration: int) returns (r: Day)
    requires HasWorkingWeekday(cal)
    ensures r == SpanEnd(cal, s, duration)
    ensures IsNthWorkingFrom(cal, s, if duration >= 1 then duration else 1, r)
  {
    ghost var n := if duration >= 1 then duration else 1;
    ghost var target := NthWorkingFrom(cal, s, n);
    var realDuration := 0;
    var left := duration;
    var current := s;
    while left > 1 || !IsWorkingDay(cal, current)
      invariant current == s + realDuration && realDuration >= 0
      invariant (duration >= 1 ==> 1 <= left <= duration) && (duration < 1 ==> left == duration)
      invariant (if left >= 1 then left else 1) + WorkingCount(cal, s, current - 1) == n
      invariant current <= target
      decreases target - current
    {
      if current == target {
        CountSplit(cal, s, target - 1, target);
      }
      if IsWorkingDay(cal, current) {
        realDuration := realDuration + 1;
        left := left - 1;
      } else {
        realDuration := realDuration + 1;
      }
      current := s + realDuration;
    }
    r := s + realDuration;
    CountSplit(cal, s, r - 1, r);
    ForwardUnique(cal, s, n, r, target);
  }

  /** The backward loop of start_date for a task given by stop and
      duration: `while duration > 0`, then the cursor is moved back by one
      day. */
  method CountBackward(cal: Calendar, stop: Day, duration: int) returns (r: Day)
    requires HasWorkingWeekday(cal)
    ensures r == SpanStart(cal, stop, duration)
    ensures duration >= 1 ==> IsNthWorkingBack(cal, stop, duration, r)
  {
    var realDuration := 0;
    var left := duration;
    var current := stop;
    ghost var target := if duration >= 1 then NthWorkingBack(cal, stop, duration) else stop + 1;
    while left > 0
      invariant current == stop - realDuration && realDuration >= 0
      invariant left <= duration && (duration >= 1 ==> 0 <= left)
      invariant left + WorkingCount(cal, current + 1, stop) == duration
      invariant left == 0 && duration >= 1 ==> IsWorkingDay(cal, current + 1)
      invariant current >= target - 1 && (left > 0 ==> current >= target)
      decreases current - target + 1
    {
      if IsWorkingDay(cal, current) {
        realDuration := realDuration + 1;
        left := left - 1;
      } else {
        realDuration := realDuration + 1;
      }
      CountSplit(cal, current, current, stop);
      current := stop - realDuration;
      if left > 0 && current < target {
        CountSplit(cal, target, current, stop);
      }
    }
    if duration >= 1 {
      CountSplit(cal, current + 1, current + 1, stop);
      BackUnique(cal, stop, duration, current + 1, target);
    }
    r := stop - (realDuration - 1);
  }
}
