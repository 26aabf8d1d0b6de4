/** What start_date and end_date promise, proved about their specification
    in tasks.dfy. Each lemma is about the first call on a task (its cache
    entry empty); by CoherentResults the same holds of every later call. */
module TaskFacts {
  import opened Wrappers
  import opened Workdays
  import opened Tasks

  /** x is on or past the bound every dependency sets for the rule. */
  ghost predicate ClearsAll(S: Store, ds: seq<Dep>, rule: Rule, x: Day)
    requires WellFormed(S) && forall j :: 0 <= j < |ds| ==> ds[j].target < |S.tasks|
  {
    forall j :: 0 <= j < |ds| ==>
      EffEnd(S, ds[j].target).Ok? && x >= Offset(rule, ds[j].kind, EffEnd(S, ds[j].target).value)
  }

  /** A dependency loop yields the latest of its initial bound and the
      bounds its dependencies set. */
  lemma {:induction false} FoldIsLatest(S: Store, owner: nat, ds: seq<Dep>, k: nat, rule: Rule, prev: Day)
    requires WellFormed(S) && owner <= |S.tasks| && k <= |ds|
    requires forall j :: 0 <= j < |ds| ==> ds[j].target < owner
    requires FoldDeps(S, owner, ds, k, rule, prev).Ok?
    ensures var m := FoldDeps(S, owner, ds, k, rule, prev).value;
      && m >= prev
      && (forall j :: k <= j < |ds| ==>
            EffEnd(S, ds[j].target).Ok? && m >= Offset(rule, ds[j].kind, EffEnd(S, ds[j].target).value))
      && (m == prev || exists j :: k <= j < |ds| && EffEnd(S, ds[j].target).Ok? &&
                                   m == Offset(rule, ds[j].kind, EffEnd(S, ds[j].target).value))
    decreases |ds| - k
  {
    if k < |ds| {
      var e := EffEnd(S, ds[k].target).value;
      var next := Step(rule, ds[k].kind, e, prev);
      StepIsMax(rule, ds[k].kind, e, prev);
      FoldIsLatest(S, owner, ds, k + 1, rule, next);
      var m := FoldDeps(S, owner, ds, k + 1, rule, next).value;
      if m == next && next != prev {
        assert m == Offset(rule, ds[k].kind, EffEnd(S, ds[k].target).value);
      }
    }
  }

  /** A dependency loop raises exactly when one of the end_date calls it
      makes raises. */
  lemma {:induction false} FoldFails(S: Store, owner: nat, ds: seq<Dep>, k: nat, rule: Rule, prev: Day)
    requires WellFormed(S) && owner <= |S.tasks| && k <= |ds|
    requires forall j :: 0 <= j < |ds| ==> ds[j].target < owner
    ensures FoldDeps(S, owner, ds, k, rule, prev).Err? <==>
            exists j :: k <= j < |ds| && EffEnd(S, ds[j].target).Err?
    decreases |ds| - k
  {
    if k < |ds| {
      var e := EffEnd(S, ds[k].target);
      if e.Ok? {
        FoldFails(S, owner, ds, k + 1, rule, Step(rule, ds[k].kind, e.value, prev));
        if exists j :: k <= j < |ds| && EffEnd(S, ds[j].target).Err? {
          var j :| k <= j < |ds| && EffEnd(S, ds[j].target).Err?;
          assert j != k;
        }
      }
    }
  }

  /** Start given, no dependency: the start is rolled forward onto the
      first working day (gantt.py:356-369). */
  lemma StartOnFirstWorkingDay(S: Store, i: nat)
    requires WellFormed(S) && i < |S.tasks| && S.startCache[i].None?
    requires S.tasks[i].start.Some? && S.tasks[i].deps.NoDeps?
    ensures var r := EffStart(S, i);
      && r.Ok? && r.value.Some?
      && r.value.value >= S.tasks[i].start.value
      && IsWorkingDay(S.cal, r.value.value)
      && forall x :: S.tasks[i].start.value <= x < r.value.value ==> !IsWorkingDay(S.cal, x)
  {
  }

  /** Start given, with dependencies: the first working day that is on or
      after the rolled start, after every Task dependency's end and not
      before every Milestone dependency's end (gantt.py:370-393). */
  lemma StartAfterDependencies(S: Store, i: nat)
    requires WellFormed(S) && i < |S.tasks| && S.startCache[i].None?
    requires S.tasks[i].start.Some? && S.tasks[i].deps.DepList?
    ensures var ds := S.tasks[i].deps.items;
      EffStart(S, i).Err? <==> exists j :: 0 <= j < |ds| && EffEnd(S, ds[j].target).Err?
    ensures EffStart(S, i).Ok? ==>
      var ds := S.tasks[i].deps.items;
      var s := NextWorking(S.cal, S.tasks[i].start.value);
      var r := EffStart(S, i).value;
      && r.Some? && IsWorkingDay(S.cal, r.value)
      && r.value >= s
      && ClearsAll(S, ds, StartGiven, r.value)
      && (forall j :: 0 <= j < |ds| ==>
            if ds[j].kind == TaskDep then r.value > EffEnd(S, ds[j].target).value
            else r.value >= EffEnd(S, ds[j].target).value)
      && forall x :: s <= x < r.value && ClearsAll(S, ds, StartGiven, x) ==> !IsWorkingDay(S.cal, x)
  {
    var ds := S.tasks[i].deps.items;
    assert DepsBelow(S.tasks[i].deps, i);
    var s := NextWorking(S.cal, S.tasks[i].start.value);
    var f := FoldDeps(S, i, ds, 0, StartGiven, s);
    assert EffStart(S, i) == if f.Err? then Err(f.exc) else Ok(Some(NextWorking(S.cal, f.value)));
    FoldFails(S, i, ds, 0, StartGiven, s);
    if f.Ok? {
      FoldIsLatest(S, i, ds, 0, StartGiven, s);
    }
  }

  /** Duration and dependencies, no start and no stop: the first working
      day after the latest dependency end, a Milestone's end counting one
      day less except for the first dependency (gantt.py:427-446). */
  lemma StartFromDependencies(S: Store, i: nat)
    requires WellFormed(S) && i < |S.tasks| && S.startCache[i].None?
    requires S.tasks[i].start.None? && S.tasks[i].duration.Some? && S.tasks[i].stop.None?
    requires S.tasks[i].deps.DepList?
    ensures var ds := S.tasks[i].deps.items;
      && (ds == [] ==> EffStart(S, i) == Err(IndexError))
      && (ds != [] ==> (EffStart(S, i).Err? <==> exists j :: 0 <= j < |ds| && EffEnd(S, ds[j].target).Err?))
    ensures EffStart(S, i).Ok? ==>
      var ds := S.tasks[i].deps.items;
      var r := EffStart(S, i).value;
      && ds != [] && r.Some? && IsWorkingDay(S.cal, r.value)
      && r.value > EffEnd(S, ds[0].target).value
      && ClearsAll(S, ds, NoStart, r.value - 1)
      && (forall j :: 0 <= j < |ds| ==>
            if ds[j].kind == TaskDep then r.value > EffEnd(S, ds[j].target).value
            else r.value >= EffEnd(S, ds[j].target).value)
      && forall x :: EffEnd(S, ds[0].target).value < x < r.value && ClearsAll(S, ds, NoStart, x - 1)
           ==> !IsWorkingDay(S.cal, x)
  {
    var ds := S.tasks[i].deps.items;
    assert DepsBelow(S.tasks[i].deps, i);
    if ds != [] {
      var e0 := EffEnd(S, ds[0].target);
      if e0.Ok? {
        var f := FoldDeps(S, i, ds, 0, NoStart, e0.value);
        assert FromFirstDep(S, i, ds, NoStart) == f;
        assert EffStart(S, i) == if f.Err? then Err(f.exc) else Ok(Some(NextWorking(S.cal, f.value + 1)));
        FoldFails(S, i, ds, 0, NoStart, e0.value);
        if f.Ok? {
          FoldIsLatest(S, i, ds, 0, NoStart, e0.value);
        }
      } else {
        assert FromFirstDep(S, i, ds, NoStart) == Err(e0.exc);
        assert EffStart(S, i) == Err(e0.exc);
      }
    }
  }

  /** Stop and duration, no start, no dependency: the start counted back
      from stop is a working day and [start, stop] holds exactly `duration`
      working days (gantt.py:448-461, 495-497). */
  lemma StartCountedBackFromStop(S: Store, i: nat)
    requires WellFormed(S) && i < |S.tasks| && S.startCache[i].None?
    requires S.tasks[i].start.None? && S.tasks[i].stop.Some? && S.tasks[i].duration.Some?
    requires S.tasks[i].duration.value >= 1 && S.tasks[i].deps.NoDeps?
    ensures var r := EffStart(S, i);
      r.Ok? && r.value.Some? &&
      IsNthWorkingBack(S.cal, S.tasks[i].stop.value, S.tasks[i].duration.value, r.value.value)
  {
  }

  /** Stop, duration and dependencies, no start: never before the start
      counted back from stop, never before a dependency's end, and after
      every dependency that ends past that counted-back start
      (gantt.py:463-493). */
  lemma StartFromStopAndDependencies(S: Store, i: nat)
    requires WellFormed(S) && i < |S.tasks| && S.startCache[i].None?
    requires S.tasks[i].start.None? && S.tasks[i].stop.Some? && S.tasks[i].duration.Some?
    requires S.tasks[i].deps.DepList? && S.tasks[i].deps.items != []
    ensures var ds := S.tasks[i].deps.items;
      EffStart(S, i).Err? <==> exists j :: 0 <= j < |ds| && EffEnd(S, ds[j].target).Err?
    ensures EffStart(S, i).Ok? ==>
      var ds := S.tasks[i].deps.items;
      var c := SpanStart(S.cal, S.tasks[i].stop.value, S.tasks[i].duration.value);
      var r := EffStart(S, i).value;
      && r.Some? && IsWorkingDay(S.cal, r.value) && r.value >= c
      && (forall j :: 0 <= j < |ds| ==>
            EffEnd(S, ds[j].target).Ok? && r.value >= EffEnd(S, ds[j].target).value
            && (EffEnd(S, ds[j].target).value > c ==> r.value > EffEnd(S, ds[j].target).value))
      && forall x :: c <= x < r.value && (forall j :: 0 <= j < |ds| && EffEnd(S, ds[j].target).value > c
                                            ==> x > EffEnd(S, ds[j].target).value)
           ==> !IsWorkingDay(S.cal, x)
  {
    var ds := S.tasks[i].deps.items;
    assert DepsBelow(S.tasks[i].deps, i);
    var c := SpanStart(S.cal, S.tasks[i].stop.value, S.tasks[i].duration.value);
    var e0 := EffEnd(S, ds[0].target);
    if e0.Ok? {
      var f := FoldDeps(S, i, ds, 0, FromStop, e0.value);
      assert FromFirstDep(S, i, ds, FromStop) == f;
      assert EffStart(S, i) == if f.Err? then Err(f.exc)
                               else Ok(Some(NextWorking(S.cal, if f.value > c then f.value + 1 else c)));
      FoldFails(S, i, ds, 0, FromStop, e0.value);
      if f.Ok? {
        FoldIsLatest(S, i, ds, 0, FromStop, e0.value);
      }
    } else {
      assert FromFirstDep(S, i, ds, FromStop) == Err(e0.exc);
      assert EffStart(S, i) == Err(e0.exc);
    }
  }

  /** No start and no duration: start_date never yields a date; without
      dependencies it returns None (gantt.py:395-423). */
  lemma StartWithoutStartOrDuration(S: Store, i: nat)
    requires WellFormed(S) && i < |S.tasks| && S.startCache[i].None?
    requires S.tasks[i].start.None? && S.tasks[i].duration.None?
    ensures !(EffStart(S, i).Ok? && EffStart(S, i).value.Some?)
    ensures S.tasks[i].deps.NoDeps? ==> EffStart(S, i) == Ok(None)
    ensures S.tasks[i].deps == DepList([]) ==> EffStart(S, i) == Err(IndexError)
  {
  }

  /** Duration without stop: [start, end] holds exactly `duration` working
      days and ends on one (gantt.py:548-562). */
  lemma EndCountsDuration(S: Store, i: nat)
    requires WellFormed(S) && i < |S.tasks| && S.endCache[i].None?
    requires S.tasks[i].stop.None? && S.tasks[i].duration.Some? && S.tasks[i].duration.value >= 1
    requires EffStart(S, i).Ok? && EffStart(S, i).value.Some?
    ensures EffEnd(S, i).Ok?
    ensures IsNthWorkingFrom(S.cal, EffStart(S, i).value.value, S.tasks[i].duration.value, EffEnd(S, i).value)
  {
  }

  /** A one-day task that starts on a working day ends that same day. */
  lemma OneDayTaskEndsOnItsStart(S: Store, i: nat)
    requires WellFormed(S) && i < |S.tasks| && S.endCache[i].None?
    requires S.tasks[i].stop.None? && S.tasks[i].duration == Some(1)
    requires EffStart(S, i).Ok? && EffStart(S, i).value.Some?
    requires IsWorkingDay(S.cal, EffStart(S, i).value.value)
    ensures EffEnd(S, i) == Ok(EffStart(S, i).value.value)
  {
    var s := EffStart(S, i).value.value;
    EndCountsDuration(S, i);
    assert WorkingCount(S.cal, s, s) == 1 by {
      assert WorkingCount(S.cal, s, s - 1) == 0;
    }
    ForwardUnique(S.cal, s, 1, s, EffEnd(S, i).value);
  }

  /** Stop and duration, no start, no dependency: the task spans exactly
      `duration` working days and ends by its stop (gantt.py:448-461,
      516-545). */
  lemma StopAndDurationSpan(S: Store, i: nat)
    requires WellFormed(S) && i < |S.tasks| && S.startCache[i].None? && S.endCache[i].None?
    requires S.tasks[i].start.None? && S.tasks[i].stop.Some? && S.tasks[i].duration.Some?
    requires S.tasks[i].duration.value >= 1 && S.tasks[i].deps.NoDeps?
    ensures EffStart(S, i).Ok? && EffStart(S, i).value.Some? && EffEnd(S, i).Ok?
    ensures EffEnd(S, i).value <= S.tasks[i].stop.value
    ensures IsNthWorkingFrom(S.cal, EffStart(S, i).value.value, S.tasks[i].duration.value, EffEnd(S, i).value)
  {
    var cal := S.cal;
    var stop := S.tasks[i].stop.value;
    var n := S.tasks[i].duration.value;
    StartCountedBackFromStop(S, i);
    var s := EffStart(S, i).value.value;
    var realEnd := PrevWorking(cal, stop);
    assert s <= realEnd;
    CountNone(cal, realEnd + 1, stop);
    CountSplit(cal, s, realEnd, stop);
    if realEnd <= s {
      assert WorkingCount(cal, s, s) == 1 by {
        assert WorkingCount(cal, s, s - 1) == 0;
      }
      ForwardUnique(cal, s, 1, s, SpanEnd(cal, s, n));
    }
  }

  /** Stop, duration and dependencies, no start: the task ends on its
      stop rolled back to a working day while its start lies before that
      day; once the dependencies push the start to or past it, the end is
      the duration counted from the pushed start (gantt.py:516-546). */
  lemma EndWithStopAndDependencies(S: Store, i: nat)
    requires WellFormed(S) && i < |S.tasks| && S.endCache[i].None?
    requires S.tasks[i].start.None? && S.tasks[i].stop.Some? && S.tasks[i].duration.Some?
    requires S.tasks[i].deps.DepList? && S.tasks[i].deps.items != []
    requires EffStart(S, i).Ok?
    ensures EffStart(S, i).value.Some? && EffEnd(S, i).Ok?
    ensures var s := EffStart(S, i).value.value;
      var realEnd := PrevWorking(S.cal, S.tasks[i].stop.value);
      var n := S.tasks[i].duration.value;
      && (realEnd > s ==> EffEnd(S, i).value == realEnd)
      && (realEnd <= s ==> EffEnd(S, i).value >= realEnd
                           && IsNthWorkingFrom(S.cal, s, if n >= 1 then n else 1, EffEnd(S, i).value))
  {
    assert DepsBelow(S.tasks[i].deps, i);
    if S.startCache[i].None? {
      StartFromStopAndDependencies(S, i);
    }
  }

  /** Whenever end_date computes an end, start_date has resolved to a date
      and the end is not before it (gantt.py:516-562). */
  lemma EndNotBeforeStart(S: Store, i: nat)
    requires WellFormed(S) && i < |S.tasks| && S.endCache[i].None?
    requires EffEnd(S, i).Ok?
    ensures EffStart(S, i).Ok? && EffStart(S, i).value.Some?
    ensures EffStart(S, i).value.value <= EffEnd(S, i).value
    ensures IsWorkingDay(S.cal, EffEnd(S, i).value)
  {
  }

  /** Start and stop, no duration: the stop rolled back onto a working
      day, unless that falls on or before the resolved start, where the
      counting loop compares the missing duration and raises TypeError
      (gantt.py:516-545). */
  lemma EndFromStartAndStop(S: Store, i: nat)
    requires WellFormed(S) && i < |S.tasks| && S.endCache[i].None?
    requires S.tasks[i].start.Some? && S.tasks[i].stop.Some? && S.tasks[i].duration.None?
    requires EffStart(S, i).Ok? && EffStart(S, i).value.Some?
    ensures var realEnd := PrevWorking(S.cal, S.tasks[i].stop.value);
      EffEnd(S, i) == if realEnd > EffStart(S, i).value.value then Ok(realEnd) else Err(TypeError)
  {
  }

  /** A one-day task given by start == stop on a working day: end_date
      raises TypeError. */
  lemma SameDayStartStopRaises(S: Store, i: nat)
    requires WellFormed(S) && i < |S.tasks| && S.startCache[i].None? && S.endCache[i].None?
    requires S.tasks[i].start.Some? && S.tasks[i].stop == S.tasks[i].start && S.tasks[i].duration.None?
    requires S.tasks[i].deps.NoDeps? && IsWorkingDay(S.cal, S.tasks[i].start.value)
    ensures EffEnd(S, i) == Err(TypeError)
  {
    var d := S.tasks[i].start.value;
    assert NextWorking(S.cal, d) == d;
    assert PrevWorking(S.cal, d) == d;
    assert EffStart(S, i) == Ok(Some(d));
  }

  /** All three anchors given: end_date raises ValueError
      (gantt.py:516, 548, 564). */
  lemma AllAnchorsRaise(S: Store, i: nat)
    requires WellFormed(S) && i < |S.tasks| && S.endCache[i].None?
    requires S.tasks[i].start.Some? && S.tasks[i].stop.Some? && S.tasks[i].duration.Some?
    ensures EffEnd(S, i) == Err(ValueError)
  {
  }

  /** A task that passes the check of __init__ and has no dependency always
      gets a start date. */
  lemma AcceptedAnchorsResolveStart(S: Store, i: nat)
    requires WellFormed(S) && i < |S.tasks| && S.startCache[i].None? && S.tasks[i].deps.NoDeps?
    requires !AnchorError(S.tasks[i].start, S.tasks[i].stop, S.tasks[i].duration, false)
    ensures EffStart(S, i).Ok? && EffStart(S, i).value.Some?
  {
  }

  /** A task stored with a bare dependency (add_depends of a single task
      on a task without dependencies) cannot resolve its start. */
  lemma BareDependencyRaises(S: Store, i: nat)
    requires WellFormed(S) && i < |S.tasks| && S.startCache[i].None?
    requires S.tasks[i].deps.BareDep?
    ensures EffStart(S, i) == Err(TypeError)
  {
  }
}
