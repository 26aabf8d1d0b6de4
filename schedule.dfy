/** The objects of gantt/gantt.py as one mutable arena: its tasks with
    their two date caches and its projects with their memoised element
    counts. Each method runs the loops of the corresponding Python method
    and is proved to return what the specification in tasks.dfy,
    projects.dfy and conflicts.dfy says, filling caches only with the
    values those calls return. */
module Scheduling {
  import opened Wrappers
  import opened Workdays
  import opened Tasks
  import opened Lists
  import opened Projects
  import opened Conflicts

  /** Every dependency in an argument of Task() or add_depends points to one
      of the first n tasks. */
  predicate DepArgBelow(arg: DepArg, n: nat) {
    match arg
    case ListArg(ds) => forall k :: 0 <= k < |ds| ==> ds[k].target < n
    case SingleArg(d) => d.target < n
  }

  class Schedule {
    /** NOT_WORKED_DAYS and VACATIONS, fixed for the schedule. */
    const cal: Calendar
    /** The scheduling fields of each Task, by handle. */
    var tasks: seq<Task>
    /** cache_start_date and cache_end_date of each task. */
    var startCache: seq<Option<Day>>
    var endCache: seq<Option<Day>>
    /** Each Project's name and members, by handle. */
    var projects: seq<ProjectNode>
    /** cache_nb_elements of each project. */
    var nbCache: seq<Option<nat>>

    ghost function Snapshot(): Store
      reads this
    {
      Store(cal, tasks, startCache, endCache)
    }

    ghost predicate Valid()
      reads this
    {
      && WellFormed(Snapshot())
      && ProjectsFit(projects, |tasks|)
      && |nbCache| == |projects|
    }

    constructor (cal: Calendar)
      requires HasWorkingWeekday(cal)
      ensures Valid() && this.cal == cal
      ensures tasks == [] && startCache == [] && endCache == []
      ensures projects == [] && nbCache == []
    {
      this.cal := cal;
      tasks := [];
      startCache := [];
      endCache := [];
      projects := [];
      nbCache := [];
    }

    // -------------------------------------------------------------------
    // Task

    /** Task.__init__: stores the task with empty caches, fullname defaulting
        to name and depends_of normalised; logged tells whether the anchor
        check logs its error (the task is created either way). */
    method NewTask(name: string, start: Option<Day>, stop: Option<Day>, duration: Option<int>,
                   dependsOf: Option<DepArg>, resources: Option<seq<Resource>>, fullname: Option<string>)
      returns (h: nat, logged: bool)
      requires Valid()
      requires dependsOf.Some? ==> DepArgBelow(dependsOf.value, |tasks|)
      modifies this
      ensures Valid()
      ensures h == old(|tasks|)
      ensures tasks == old(tasks) + [Task(name, if fullname.Some? then fullname.value else name,
                                          start, stop, duration, NormaliseDeps(dependsOf), resources)]
      ensures startCache == old(startCache) + [None] && endCache == old(endCache) + [None]
      ensures projects == old(projects) && nbCache == old(nbCache)
      ensures logged == AnchorError(start, stop, duration, dependsOf.Some?)
    {
      var noneCount := 0;
      var ends := [start.None?, stop.None?, duration.None?];
      for k := 0 to 3
        invariant noneCount == (if k > 0 && ends[0] then 1 else 0) + (if k > 1 && ends[1] then 1 else 0)
                             + (if k > 2 && ends[2] then 1 else 0)
      {
        if ends[k] {
          noneCount := noneCount + 1;
        }
      }
      logged := noneCount != 1 && (duration.None? || dependsOf.None?);
      var t := Task(name, if fullname.Some? then fullname.value else name,
                    start, stop, duration, NormaliseDeps(dependsOf), resources);
      h := |tasks|;
      tasks := tasks + [t];
      startCache := startCache + [None];
      endCache := endCache + [None];
    }

    /** Task.add_depends. Dependencies are appended in order; a single task
        added to a task without dependencies is stored bare; appending to a
        bare task raises AttributeError and changes nothing. The caches are
        left as they are. */
    method AddDepends(h: nat, arg: DepArg) returns (err: Option<Exception>)
      requires Valid() && h < |tasks| && DepArgBelow(arg, h)
      modifies this
      ensures Valid()
      ensures var r := AddDeps(old(tasks[h].deps), arg);
        && (r.Ok? ==> err.None? && tasks == old(tasks)[h := old(tasks[h]).(deps := r.value)])
        && (r.Err? ==> err == Some(r.exc) && tasks == old(tasks))
      ensures startCache == old(startCache) && endCache == old(endCache)
      ensures projects == old(projects) && nbCache == old(nbCache)
    {
      var t := tasks[h];
      match t.deps
      case NoDeps =>
        var nd := if arg.ListArg? then DepList(arg.items) else BareDep(arg.item);
        tasks := tasks[h := t.(deps := nd)];
        err := None;
      case DepList(ds) =>
        var more := if arg.ListArg? then arg.items else [arg.item];
        var acc := ds;
        for k := 0 to |more|
          invariant acc == ds + more[..k]
        {
          acc := acc + [more[k]];
        }
        assert more[..|more|] == more;
        tasks := tasks[h := t.(deps := DepList(acc))];
        err := None;
      case BareDep(_) =>
        if arg.ListArg? && arg.items == [] {
          err := None;
        } else {
          err := Some(AttributeError);
        }
    }

    /** A dependency loop of start_date over ds, from the bound first: each
        dependency's end_date is called in order and moves the bound by the
        rule's offset for its kind; the first one that raises stops it. */
    method ResolveDeps(owner: nat, ds: seq<Dep>, rule: Rule, first: Day) returns (r: Result<Day>)
      requires Valid() && owner <= |tasks| && forall j :: 0 <= j < |ds| ==> ds[j].target < owner
      modifies this
      decreases owner, 0
      ensures Valid()
      ensures tasks == old(tasks) && projects == old(projects) && nbCache == old(nbCache)
      ensures Fills(old(Snapshot()), Snapshot())
      ensures r == FoldDeps(old(Snapshot()), owner, ds, 0, rule, first)
    {
      ghost var S0 := Snapshot();
      var prev := first;
      var k := 0;
      while k < |ds|
        invariant 0 <= k <= |ds|
        invariant Valid() && tasks == S0.tasks && projects == old(projects) && nbCache == old(nbCache)
        invariant Fills(S0, Snapshot())
        invariant FoldDeps(S0, owner, ds, 0, rule, first) == FoldDeps(S0, owner, ds, k, rule, prev)
      {
        ghost var S1 := Snapshot();
        var e := EndDate(ds[k].target);
        FillsKeepResults(S0, S1, ds[k].target);
        FillsTrans(S0, S1, Snapshot());
        if e.Err? {
          return Err(e.exc);
        }
        var d := e.value;
        // `if t.end_date() >= prev_task_end` (> without a start), then
        // `prev_task_end = t.end_date()` moved by the kind's offset
        var moves := if rule == StartGiven then d >= prev else d > prev;
        if moves {
          ghost var S2 := Snapshot();
          FillsKeepResults(S0, S2, ds[k].target);
          var again := EndDate(ds[k].target);
          FillsTrans(S0, S2, Snapshot());
          prev := Offset(rule, ds[k].kind, again.value);
        }
        k := k + 1;
      }
      r := Ok(prev);
    }

    /** `prev_task_end = self.depends_of[0].end_date()`, then the loop. */
    method ResolveFromFirst(owner: nat, ds: seq<Dep>, rule: Rule) returns (r: Result<Day>)
      requires Valid() && owner <= |tasks| && |ds| > 0 && forall j :: 0 <= j < |ds| ==> ds[j].target < owner
      modifies this
      decreases owner, 1
      ensures Valid()
      ensures tasks == old(tasks) && projects == old(projects) && nbCache == old(nbCache)
      ensures Fills(old(Snapshot()), Snapshot())
      ensures r == FromFirstDep(old(Snapshot()), owner, ds, rule)
    {
      ghost var S0 := Snapshot();
      var e0 := EndDate(ds[0].target);
      if e0.Err? {
        return Err(e0.exc);
      }
      ghost var S1 := Snapshot();
      r := ResolveDeps(owner, ds, rule, e0.value);
      FillsKeepFold(S0, S1, owner, ds, rule, e0.value);
      FillsTrans(S0, S1, Snapshot());
    }

    /** Task.start_date (gantt.py:347-502). */
    method StartDate(i: nat) returns (r: Result<Option<Day>>)
      requires Valid() && i < |tasks|
      modifies this
      decreases i, 2
      ensures Valid()
      ensures tasks == old(tasks) && projects == old(projects) && nbCache == old(nbCache)
      ensures Fills(old(Snapshot()), Snapshot())
      ensures r == EffStart(old(Snapshot()), i)
      ensures r.Ok? ==> startCache[i] == r.value
    {
      if startCache[i].Some? {
        return Ok(startCache[i]);
      }
      ghost var S0 := Snapshot();
      var t := tasks[i];
      assert DepsBelow(t.deps, i);
      if t.start.Some? {
        var s := RollForward(cal, t.start.value);
        if t.deps.NoDeps? {
          CacheStart(S0, i, s);
          return Ok(Some(s));
        } else if t.deps.BareDep? {
          // `for t in self.depends_of` over a Task
          return Err(TypeError);
        }
        var f := ResolveDeps(i, t.deps.items, StartGiven, s);
        if f.Err? {
          return Err(f.exc);
        }
        var p := RollForward(cal, f.value);
        CacheStart(S0, i, p);
        r := Ok(Some(p));
      } else if t.duration.None? {
        // `current_day = self.start`, which is None here
        if t.deps.NoDeps? {
          return Ok(None);
        } else if t.deps.BareDep? {
          return Err(TypeError);
        } else if |t.deps.items| == 0 {
          return Err(IndexError);
        }
        var f := ResolveFromFirst(i, t.deps.items, NoStart);
        if f.Err? {
          return Err(f.exc);
        }
        // `prev_task_end > current_day` compares a date with None
        r := Err(TypeError);
      } else if !t.deps.NoDeps? && t.stop.None? {
        if t.deps.BareDep? {
          return Err(TypeError);
        } else if |t.deps.items| == 0 {
          return Err(IndexError);
        }
        var f := ResolveFromFirst(i, t.deps.items, NoStart);
        if f.Err? {
          return Err(f.exc);
        }
        var p := RollForward(cal, f.value + 1);
        CacheStart(S0, i, p);
        r := Ok(Some(p));
      } else if t.stop.Some? {
        var c := CountBackward(cal, t.stop.value, t.duration.value);
        if t.deps.NoDeps? {
          CacheStart(S0, i, c);
          return Ok(Some(c));
        } else if t.deps.BareDep? {
          return Err(TypeError);
        } else if |t.deps.items| == 0 {
          return Err(IndexError);
        }
        var f := ResolveFromFirst(i, t.deps.items, FromStop);
        if f.Err? {
          return Err(f.exc);
        }
        var p := RollForward(cal, if f.value > c then f.value + 1 else c);
        CacheStart(S0, i, p);
        r := Ok(Some(p));
      } else {
        r := Ok(None);
      }
    }

    /** Task.end_date (gantt.py:505-565). */
    method EndDate(i: nat) returns (r: Result<Day>)
      requires Valid() && i < |tasks|
      modifies this
      decreases i, 3
      ensures Valid()
      ensures tasks == old(tasks) && projects == old(projects) && nbCache == old(nbCache)
      ensures Fills(old(Snapshot()), Snapshot())
      ensures r == EffEnd(old(Snapshot()), i)
      ensures r.Ok? ==> endCache[i] == Some(r.value)
    {
      if endCache[i].Some? {
        return Ok(endCache[i].value);
      }
      ghost var S0 := Snapshot();
      var t := tasks[i];
      if t.duration.None? || (t.start.None? && t.stop.Some?) {
        if t.stop.None? {
          // `None.weekday()`
          return Err(AttributeError);
        }
        var realEnd := RollBackward(cal, t.stop.value);
        var s := StartDate(i);
        if s.Err? {
          return Err(s.exc);
        } else if s.value.None? {
          // `real_end <= None`
          return Err(TypeError);
        }
        if realEnd <= s.value.value {
          if t.duration.None? {
            // `None > 1` in the counting loop
            return Err(TypeError);
          }
          var e := CountForward(cal, s.value.value, t.duration.value);
          CacheEnd(S0, i, e);
          return Ok(e);
        }
        CacheEnd(S0, i, realEnd);
        r := Ok(realEnd);
      } else if t.stop.None? {
        var s := StartDate(i);
        if s.Err? {
          return Err(s.exc);
        } else if s.value.None? {
          // `current_day.weekday()` on None
          return Err(AttributeError);
        }
        var e := CountForward(cal, s.value.value, t.duration.value);
        CacheEnd(S0, i, e);
        r := Ok(e);
      } else {
        r := Err(ValueError);
      }
    }

    /** `self.cache_start_date = start`, with the date start_date is about
        to return. */
    method CacheStart(ghost S0: Store, i: nat, d: Day)
      requires Valid() && WellFormed(S0) && i < |tasks| && Fills(S0, Snapshot())
      requires S0.startCache[i].None? && EffStart(S0, i) == Ok(Some(d))
      modifies this
      ensures Valid()
      ensures tasks == old(tasks) && projects == old(projects) && nbCache == old(nbCache)
      ensures startCache == old(startCache)[i := Some(d)] && endCache == old(endCache)
      ensures Fills(S0, Snapshot())
    {
      startCache := startCache[i := Some(d)];
    }

    /** `self.cache_end_date = end`, with the date end_date is about to
        return. */
    method CacheEnd(ghost S0: Store, i: nat, d: Day)
      requires Valid() && WellFormed(S0) && i < |tasks| && Fills(S0, Snapshot())
      requires S0.endCache[i].None? && EffEnd(S0, i) == Ok(d)
      modifies this
      ensures Valid()
      ensures tasks == old(tasks) && projects == old(projects) && nbCache == old(nbCache)
      ensures endCache == old(endCache)[i := Some(d)] && startCache == old(startCache)
      ensures Fills(S0, Snapshot())
    {
      endCache := endCache[i := Some(d)];
    }

    /** Task._reset_coord: empties both caches of task i. */
    method ResetTask(i: nat)
      requires Valid() && i < |tasks|
      modifies this
      ensures Valid()
      ensures startCache == old(startCache)[i := None] && endCache == old(endCache)[i := None]
      ensures tasks == old(tasks) && projects == old(projects) && nbCache == old(nbCache)
    {
      startCache := startCache[i := None];
      endCache := endCache[i := None];
    }

    /** The inner loop of the conflict check for resource res: from day
        first, while the day is not after end_date (which ends on last and is
        called again on every step), record each conflict day. */
    method WalkDays(i: nat, avail: (Resource, Day) -> bool, res: Resource, first: Day, last: Day)
      returns (cs: seq<Conflict>)
      requires Valid() && i < |tasks| && EffEnd(Snapshot(), i) == Ok(last)
      modifies this
      ensures Valid()
      ensures tasks == old(tasks) && projects == old(projects) && nbCache == old(nbCache)
      ensures Fills(old(Snapshot()), Snapshot())
      ensures cs == DayConflicts(cal, avail, res, first, last, tasks[i].name)
    {
      ghost var S0 := Snapshot();
      var name := tasks[i].name;
      cs := [];
      var cday := first;
      var end := last;
      while cday <= end
        invariant Valid() && tasks == S0.tasks && projects == old(projects) && nbCache == old(nbCache)
        invariant Fills(S0, Snapshot())
        invariant end == last
        invariant cs + DayConflicts(cal, avail, res, cday, last, name) == DayConflicts(cal, avail, res, first, last, name)
        decreases last - cday
      {
        DayConflictsStep(cal, avail, res, cday, last, name, cs);
        if Weekday(cday) !in cal.notWorked && !avail(res, cday) {
          cs := cs + [Conflict(res.name, cday, name)];
        }
        cday := cday + 1;
        end := EndAgain(S0, i, last);
      }
    }

    /** A repeated end_date call of the conflict check, once the task's end
        is known to be last: it returns last again and only fills caches. */
    method EndAgain(ghost S0: Store, i: nat, last: Day) returns (end: Day)
      requires Valid() && WellFormed(S0) && i < |tasks| && Fills(S0, Snapshot())
      requires EffEnd(S0, i) == Ok(last)
      modifies this
      ensures Valid()
      ensures tasks == old(tasks) && projects == old(projects) && nbCache == old(nbCache)
      ensures Fills(S0, Snapshot())
      ensures end == last
    {
      ghost var S1 := Snapshot();
      var again := EndDate(i);
      FillsKeepResults(S0, S1, i);
      FillsTrans(S0, S1, Snapshot());
      end := again.value;
    }

    /** Task.check_conflicts_between_task_and_resources_vacations: for each
        resource, walk the days from start_date while they are not after
        end_date and record the conflicts. */
    method CheckConflicts(i: nat, avail: (Resource, Day) -> bool) returns (r: Result<seq<Conflict>>)
      requires Valid() && i < |tasks|
      modifies this
      ensures Valid()
      ensures tasks == old(tasks) && projects == old(projects) && nbCache == old(nbCache)
      ensures Fills(old(Snapshot()), Snapshot())
      ensures r == EffConflicts(old(Snapshot()), i, avail)
    {
      ghost var S0 := Snapshot();
      var t := tasks[i];
      if t.resources.None? {
        return Ok([]);
      }
      var rs := t.resources.value;
      var conflicts: seq<Conflict> := [];
      ghost var es, ee := EffStart(S0, i), EffEnd(S0, i);
      for k := 0 to |rs|
        invariant Valid() && tasks == S0.tasks && projects == old(projects) && nbCache == old(nbCache)
        invariant Fills(S0, Snapshot())
        invariant k == 0 ==> conflicts == []
        invariant k > 0 ==>
          && es.Ok? && es.value.Some? && ee.Ok?
          && conflicts + ConflictsFrom(cal, avail, rs, k, es.value.value, ee.value, t.name)
             == ConflictsFrom(cal, avail, rs, 0, es.value.value, ee.value, t.name)
      {
        ghost var S1 := Snapshot();
        var sd := StartDate(i);
        FillsKeepResults(S0, S1, i);
        FillsTrans(S0, S1, Snapshot());
        if sd.Err? {
          return Err(sd.exc);
        }
        ghost var S2 := Snapshot();
        var ed := EndDate(i);
        FillsKeepResults(S0, S2, i);
        FillsTrans(S0, S2, Snapshot());
        if ed.Err? {
          return Err(ed.exc);
        } else if sd.value.None? {
          // `None <= end_date()`
          return Err(TypeError);
        }
        ghost var S3 := Snapshot();
        FillsKeepResults(S0, S3, i);
        var day := WalkDays(i, avail, rs[k], sd.value.value, ed.value);
        FillsTrans(S0, S3, Snapshot());
        ghost var s := sd.value.value;
        assert ConflictsFrom(cal, avail, rs, k, s, ed.value, t.name) == day + ConflictsFrom(cal, avail, rs, k + 1, s, ed.value, t.name);
        conflicts := conflicts + day;
      }
      if |rs| > 0 {
        ghost var s, e := es.value.value, ee.value;
        assert ConflictsFrom(cal, avail, rs, |rs|, s, e, t.name) == [];
        assert conflicts == ConflictsFrom(cal, avail, rs, 0, s, e, t.name);
        assert EffConflicts(S0, i, avail) == Ok(conflicts);
      }
      r := Ok(conflicts);
    }

    // -------------------------------------------------------------------
    // Project

    /** Project.__init__: an empty project with no memoised count. */
    method NewProject(name: string) returns (p: nat)
      requires Valid()
      modifies this
      ensures Valid()
      ensures p == old(|projects|)
      ensures projects == old(projects) + [ProjectNode(name, [])] && nbCache == old(nbCache) + [None]
      ensures tasks == old(tasks) && startCache == old(startCache) && endCache == old(endCache)
    {
      p := |projects|;
      projects := projects + [ProjectNode(name, [])];
      nbCache := nbCache + [None];
    }

    /** Project.add_task: appends the member and forgets the project's own
        memoised count (not those of projects holding it). */
    method AddTask(p: nat, m: Member)
      requires Valid() && p < |projects|
      requires m.TaskMember? ==> m.task < |tasks|
      requires m.SubProject? ==> m.project < p
      modifies this
      ensures Valid()
      ensures projects == old(projects)[p := ProjectNode(old(projects[p].name), old(projects[p].members) + [m])]
      ensures nbCache == old(nbCache)[p := None]
      ensures tasks == old(tasks) && startCache == old(startCache) && endCache == old(endCache)
    {
      projects := projects[p := ProjectNode(projects[p].name, projects[p].members + [m])];
      nbCache := nbCache[p := None];
      assert forall q, k :: 0 <= q < |projects| && 0 <= k < |projects[q].members| ==>
        projects[q].members[k] == if q == p && k == |old(projects[p].members)| then m else old(projects)[q].members[k];
    }

    /** `t.start_date()` for a member: a Task's, or a sub-project's. */
    method MemberStartDate(p: nat, m: Member) returns (r: Result<Option<Day>>)
      requires Valid() && p < |projects| && m in projects[p].members
      modifies this
      decreases p, 0
      ensures Valid()
      ensures tasks == old(tasks) && projects == old(projects) && nbCache == old(nbCache)
      ensures Fills(old(Snapshot()), Snapshot())
      ensures r == MemberStart(old(Snapshot()), projects, p, m)
    {
      match m
      case TaskMember(h) =>
        r := StartDate(h);
      case SubProject(q) =>
        var d := ProjectStart(q);
        r := if d.Err? then Err(d.exc) else Ok(Some(d.value));
    }

    /** Project.start_date: the least member start, 9999-01-01 when empty. */
    method ProjectStart(p: nat) returns (r: Result<Day>)
      requires Valid() && p < |projects|
      modifies this
      decreases p, 1
      ensures Valid()
      ensures tasks == old(tasks) && projects == old(projects) && nbCache == old(nbCache)
      ensures Fills(old(Snapshot()), Snapshot())
      ensures r == ProjStart(old(Snapshot()), projects, p)
    {
      ghost var S0 := Snapshot();
      ghost var vs := MemberStarts(S0, projects, p);
      var ms := projects[p].members;
      if |ms| == 0 {
        return Ok(FarFuture);
      }
      var f := MemberStartDate(p, ms[0]);
      if f.Err? {
        return Err(f.exc);
      } else if f.value.None? {
        // `None < None` on the first comparison
        return Err(TypeError);
      }
      var first := f.value.value;
      var k := 0;
      while k < |ms|
        invariant 0 <= k <= |ms|
        invariant Valid() && tasks == S0.tasks && projects == old(projects) && nbCache == old(nbCache)
        invariant Fills(S0, Snapshot())
        invariant ProjStart(S0, projects, p) == MinFrom(vs, k, first)
      {
        ghost var S1 := Snapshot();
        FillsKeepProjectDates(S0, S1, projects, p);
        var d := MemberStartDate(p, ms[k]);
        FillsTrans(S0, S1, Snapshot());
        if d.Err? {
          return Err(d.exc);
        } else if d.value.None? {
          return Err(TypeError);
        }
        if d.value.value < first {
          ghost var S2 := Snapshot();
          FillsKeepProjectDates(S0, S2, projects, p);
          var again := MemberStartDate(p, ms[k]);
          FillsTrans(S0, S2, Snapshot());
          assert again == d;
          first := again.value.value;
        }
        k := k + 1;
      }
      r := Ok(first);
    }

    /** `t.end_date()` for a member: a Task's, or a sub-project's. */
    method MemberEndDate(p: nat, m: Member) returns (r: Result<Day>)
      requires Valid() && p < |projects| && m in projects[p].members
      modifies this
      decreases p, 0
      ensures Valid()
      ensures tasks == old(tasks) && projects == old(projects) && nbCache == old(nbCache)
      ensures Fills(old(Snapshot()), Snapshot())
      ensures r == MemberEnd(old(Snapshot()), projects, p, m)
    {
      match m
      case TaskMember(h) =>
        r := EndDate(h);
      case SubProject(q) =>
        r := ProjectEnd(q);
    }

    /** Project.end_date: the latest member end, 1970-01-01 when empty. */
    method ProjectEnd(p: nat) returns (r: Result<Day>)
      requires Valid() && p < |projects|
      modifies this
      decreases p, 1
      ensures Valid()
      ensures tasks == old(tasks) && projects == old(projects) && nbCache == old(nbCache)
      ensures Fills(old(Snapshot()), Snapshot())
      ensures r == ProjEnd(old(Snapshot()), projects, p)
    {
      ghost var S0 := Snapshot();
      ghost var vs := MemberEnds(S0, projects, p);
      var ms := projects[p].members;
      if |ms| == 0 {
        return Ok(Epoch);
      }
      var f := MemberEndDate(p, ms[0]);
      if f.Err? {
        return Err(f.exc);
      }
      var last := f.value;
      var k := 0;
      while k < |ms|
        invariant 0 <= k <= |ms|
        invariant Valid() && tasks == S0.tasks && projects == old(projects) && nbCache == old(nbCache)
        invariant Fills(S0, Snapshot())
        invariant ProjEnd(S0, projects, p) == MaxFrom(vs, k, last)
      {
        ghost var S1 := Snapshot();
        FillsKeepProjectDates(S0, S1, projects, p);
        var d := MemberEndDate(p, ms[k]);
        FillsTrans(S0, S1, Snapshot());
        if d.Err? {
          return Err(d.exc);
        }
        if d.value > last {
          ghost var S2 := Snapshot();
          FillsKeepProjectDates(S0, S2, projects, p);
          var again := MemberEndDate(p, ms[k]);
          FillsTrans(S0, S2, Snapshot());
          assert again == d;
          last := again.value;
        }
        k := k + 1;
      }
      r := Ok(last);
    }

    /** Project.nb_elements: the memoised count if there is one, otherwise
        the sum over the members (1 for a Task), memoised. */
    method NbElements(p: nat) returns (n: nat)
      requires Valid() && p < |projects|
      modifies this
      decreases p
      ensures Valid()
      ensures tasks == old(tasks) && projects == old(projects)
      ensures startCache == old(startCache) && endCache == old(endCache)
      ensures CountFills(projects, old(nbCache), nbCache)
      ensures n == CachedCount(projects, old(nbCache), p)
      ensures nbCache[p] == Some(n)
    {
      if nbCache[p].Some? {
        return nbCache[p].value;
      }
      ghost var c0 := nbCache;
      var ms := projects[p].members;
      var nb := 0;
      for k := 0 to |ms|
        invariant Valid() && tasks == old(tasks) && projects == old(projects)
        invariant startCache == old(startCache) && endCache == old(endCache)
        invariant CountFills(projects, c0, nbCache)
        invariant nb == CachedCountUpTo(projects, c0, p, k)
      {
        match ms[k]
        case TaskMember(_) =>
          nb := nb + 1;
        case SubProject(q) =>
          ghost var c1 := nbCache;
          var sub := NbElements(q);
          CountFillsKeep(projects, c0, c1, q);
          CountFillsTrans(projects, c0, c1, nbCache);
          nb := nb + sub;
      }
      nbCache := nbCache[p := Some(nb)];
      n := nb;
    }

    /** Project._reset_coord: forgets the project's memoised count and
        resets every member, recursively. */
    method ResetProject(p: nat)
      requires Valid() && p < |projects|
      modifies this
      decreases p
      ensures Valid()
      ensures tasks == old(tasks) && projects == old(projects)
      ensures |startCache| == |tasks| && |endCache| == |tasks| && |nbCache| == |projects|
      ensures forall j :: 0 <= j < |tasks| ==>
        startCache[j] == (if j in Reach(projects, p) then None else old(startCache[j])) &&
        endCache[j] == (if j in Reach(projects, p) then None else old(endCache[j]))
      ensures forall q :: 0 <= q < |projects| ==>
        nbCache[q] == (if q == p || q in SubProjects(projects, p) then None else old(nbCache[q]))
    {
      nbCache := nbCache[p := None];
      var ms := projects[p].members;
      for k := 0 to |ms|
        invariant Valid() && tasks == old(tasks) && projects == old(projects)
        invariant forall j :: 0 <= j < |tasks| ==>
          startCache[j] == (if j in ReachUpTo(projects, p, k) then None else old(startCache[j])) &&
          endCache[j] == (if j in ReachUpTo(projects, p, k) then None else old(endCache[j]))
        invariant forall q :: 0 <= q < |projects| ==>
          nbCache[q] == (if q == p || q in SubProjectsUpTo(projects, p, k) then None else old(nbCache[q]))
      {
        match ms[k]
        case TaskMember(h) =>
          ResetTask(h);
        case SubProject(q) =>
          ResetProject(q);
      }
    }

    /** Project.get_tasks. */
    method GetTasks(p: nat) returns (r: seq<nat>)
      requires Valid() && p < |projects|
      decreases p
      ensures r == TaskList(projects, p)
    {
      var ms := projects[p].members;
      var tlist: seq<Nested<nat>> := [];
      for k := 0 to |ms|
        invariant tlist == TaskGroups(projects, p, k)
      {
        match ms[k]
        case SubProject(q) =>
          var st := GetTasks(q);
          tlist := tlist + [Group(Leaves(st))];
        case TaskMember(h) =>
          tlist := tlist + [Leaf(h)];
      }
      var flat := FlattenList(tlist);
      r := DedupLoop(flat);
    }

    /** Project.get_resources. */
    method GetResources(p: nat) returns (r: seq<Resource>)
      requires Valid() && p < |projects|
      decreases p
      ensures r == ResourceList(tasks, projects, p)
    {
      var ms := projects[p].members;
      var rlist: seq<Nested<Resource>> := [];
      for k := 0 to |ms|
        invariant rlist == ResourceGroups(tasks, projects, p, k)
      {
        match ms[k]
        case SubProject(q) =>
          var sr := GetResources(q);
          rlist := rlist + [Group(Leaves(sr))];
        case TaskMember(h) =>
          var tr := tasks[h].resources;
          if tr.Some? {
            rlist := rlist + [Group(Leaves(tr.value))];
          }
      }
      var flat := FlattenList(rlist);
      r := DedupLoop(flat);
    }
  }
}
