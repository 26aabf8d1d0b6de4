/** The date resolution of gantt/gantt.py's Task: the specification of
    start_date and end_date over an arena of tasks addressed by handles.

    The arena is a Store value: the calendar, the tasks and their two date
    caches (cache_start_date, cache_end_date). EffStart and EffEnd say what
    a call of start_date or end_date returns in a given store: the cached
    date when there is one, otherwise the date computed from the task's
    anchors and from what its dependencies' end_date calls return in the
    same store. The class in schedule.dfy runs the source's loops and is
    proved to return exactly these values. */
module Tasks {
  import opened Wrappers
  import opened Workdays

  /** isinstance(t, Milestone) or isinstance(t, Task): the two kinds of
      dependency, which move a start date by different offsets. */
  datatype DepKind = TaskDep | MilestoneDep

  /** A dependency: its kind and the handle of the task it points to. */
  datatype Dep = Dep(kind: DepKind, target: nat)

  /** The depends_of field: None, a list, or a single task stored without
      a list around it (which only add_depends produces). */
  datatype Deps = NoDeps | DepList(items: seq<Dep>) | BareDep(item: Dep)

  /** The argument of Task(depends_of=...) and add_depends: a list or one
      task. */
  datatype DepArg = ListArg(items: seq<Dep>) | SingleArg(item: Dep)

  /** A resource; id stands for the object's identity. */
  datatype Resource = Resource(id: nat, name: string)

  /** The scheduling fields of a Task. */
  datatype Task = Task(
    name: string,
    fullname: string,
    start: Option<Day>,
    stop: Option<Day>,
    duration: Option<int>,
    deps: Deps,
    resources: Option<seq<Resource>>)

  /** The calendar, the tasks, and each task's two caches. */
  datatype Store = Store(
    cal: Calendar,
    tasks: seq<Task>,
    startCache: seq<Option<Day>>,
    endCache: seq<Option<Day>>)

  // ---------------------------------------------------------------------
  // Construction

  /** The check of Task.__init__: an error is logged (and the task is
      still built) unless exactly one anchor is missing, or the duration
      and the depends_of argument are both given. */
  function AnchorError(start: Option<Day>, stop: Option<Day>, duration: Option<int>, depsGiven: bool): (r: bool)
    ensures !r <==> (|| (start.None? && stop.Some? && duration.Some?)
                     || (start.Some? && stop.None? && duration.Some?)
                     || (start.Some? && stop.Some? && duration.None?)
                     || (duration.Some? && depsGiven))
  {
    var noneCount := (if start.None? then 1 else 0) + (if stop.None? then 1 else 0)
                   + (if duration.None? then 1 else 0);
    noneCount != 1 && (duration.None? || !depsGiven)
  }

  /** The normalisation of depends_of in Task.__init__. */
  function NormaliseDeps(arg: Option<DepArg>): (r: Deps)
    ensures !r.BareDep?
    ensures arg.None? <==> r.NoDeps?
    ensures arg.Some? && arg.value.ListArg? ==> r == DepList(arg.value.items)
    ensures arg.Some? && arg.value.SingleArg? ==> r == DepList([arg.value.item])
  {
    match arg
    case None => NoDeps
    case Some(ListArg(ds)) => DepList(ds)
    case Some(SingleArg(d)) => DepList([d])
  }

  /** add_depends on the depends_of field. A single task added to a task
      without dependencies is stored bare, unlike in __init__; appending to
      a bare task raises AttributeError, unless an empty list is added. */
  function AddDeps(deps: Deps, arg: DepArg): (r: Result<Deps>)
    ensures deps.NoDeps? ==> r == Ok(if arg.ListArg? then DepList(arg.items) else BareDep(arg.item))
    ensures deps.DepList? ==> r == Ok(DepList(deps.items + (if arg.ListArg? then arg.items else [arg.item])))
    ensures deps.BareDep? ==> (r.Err? <==> !(arg.ListArg? && arg.items == []))
    ensures r.Err? ==> r.exc == AttributeError
    ensures r.Ok? && deps.BareDep? ==> r.value == deps
  {
    match deps
    case NoDeps => (match arg case ListArg(ds) => Ok(DepList(ds)) case SingleArg(d) => Ok(BareDep(d)))
    case DepList(ds) => (match arg case ListArg(more) => Ok(DepList(ds + more)) case SingleArg(d) => Ok(DepList(ds + [d])))
    case BareDep(_) => if arg.ListArg? && arg.items == [] then Ok(deps) else Err(AttributeError)
  }

  // ---------------------------------------------------------------------
  // Well-formed stores

  /** Every dependency of task i points to an earlier task: the arena's
      form of "the dependency graph is acyclic". */
  predicate DepsBelow(deps: Deps, i: nat) {
    match deps
    case NoDeps => true
    case DepList(ds) => forall k :: 0 <= k < |ds| ==> ds[k].target < i
    case BareDep(d) => d.target < i
  }

  ghost predicate WellFormed(S: Store) {
    && HasWorkingWeekday(S.cal)
    && |S.startCache| == |S.tasks|
    && |S.endCache| == |S.tasks|
    && forall i :: 0 <= i < |S.tasks| ==> DepsBelow(S.tasks[i].deps, i)
  }

  // ---------------------------------------------------------------------
  // The resolution rules

  /** The three dependency loops of start_date: with a start given
      (gantt.py:379-384), without a start (:401-406 and :430-435), and from
      a deadline (:476-481). */
  datatype Rule = StartGiven | NoStart | FromStop

  /** One iteration of a dependency loop: the running bound prev, moved
      by a dependency of the given kind that ends on day e. */
  function Step(rule: Rule, kind: DepKind, e: Day, prev: Day): (r: Day)
    ensures r >= prev
    ensures r == prev || r == Offset(rule, kind, e)
  {
    match rule
    case StartGiven =>
      if kind == MilestoneDep then (if e >= prev then e else prev)
      else (if e >= prev then e + 1 else prev)
    case NoStart =>
      if kind == MilestoneDep then (if e > prev then e - 1 else prev)
      else (if e > prev then e else prev)
    case FromStop => if e > prev then e else prev
  }

  /** The day a dependency ending on e pushes the bound to. */
  function Offset(rule: Rule, kind: DepKind, e: Day): Day {
    match rule
    case StartGiven => if kind == MilestoneDep then e else e + 1
    case NoStart => if kind == MilestoneDep then e - 1 else e
    case FromStop => e
  }

  lemma StepIsMax(rule: Rule, kind: DepKind, e: Day, prev: Day)
    ensures Step(rule, kind, e, prev) == if Offset(rule, kind, e) > prev then Offset(rule, kind, e) else prev
  {
  }

  /** The dependency loop from index k on, with running bound prev; the
      first dependency whose end_date raises stops it. */
  ghost function FoldDeps(S: Store, owner: nat, ds: seq<Dep>, k: nat, rule: Rule, prev: Day): (r: Result<Day>)
    requires WellFormed(S) && owner <= |S.tasks| && k <= |ds|
    requires forall j :: 0 <= j < |ds| ==> ds[j].target < owner
    ensures r.Ok? ==> r.value >= prev
    decreases owner, 0, |ds| - k
  {
    if k == |ds| then Ok(prev)
    else
      match EffEnd(S, ds[k].target)
      case Err(x) => Err(x)
      case Ok(e) => FoldDeps(S, owner, ds, k + 1, rule, Step(rule, ds[k].kind, e, prev))
  }

  /** `prev_task_end = self.depends_of[0].end_date()` followed by the
      dependency loop. */
  ghost function FromFirstDep(S: Store, owner: nat, ds: seq<Dep>, rule: Rule): Result<Day>
    requires WellFormed(S) && owner <= |S.tasks| && |ds| > 0
    requires forall j :: 0 <= j < |ds| ==> ds[j].target < owner
    decreases owner, 0, |ds| + 1
  {
    match EffEnd(S, ds[0].target)
    case Err(x) => Err(x)
    case Ok(e0) => FoldDeps(S, owner, ds, 0, rule, e0)
  }

  /** start_date below its cache test (gantt.py:356-497). */
  ghost function ComputeStart(S: Store, i: nat): (r: Result<Option<Day>>)
    requires WellFormed(S) && i < |S.tasks|
    // a date needs a start or a duration
    ensures r.Ok? && r.value.Some? ==> S.tasks[i].start.Some? || S.tasks[i].duration.Some?
    // a given start is never moved back, and lands on a working day
    ensures S.tasks[i].start.Some? && r.Ok? ==>
      r.value.Some? && r.value.value >= S.tasks[i].start.value && IsWorkingDay(S.cal, r.value.value)
    decreases i, 1, 0
  {
    var t := S.tasks[i];
    var cal := S.cal;
    if t.start.Some? then
      // start given: roll it forward, then past the dependencies
      var s := NextWorking(cal, t.start.value);
      if t.deps.NoDeps? then Ok(Some(s))
      else if t.deps.BareDep? then Err(TypeError)
      else
        match FoldDeps(S, i, t.deps.items, 0, StartGiven, s)
        case Err(x) => Err(x)
        case Ok(p) => Ok(Some(NextWorking(cal, p)))
    else if t.duration.None? then
      // neither start nor duration: the branch reads the missing start
      if t.deps.NoDeps? then Ok(None)
      else if t.deps.BareDep? then Err(TypeError)
      else if |t.deps.items| == 0 then Err(IndexError)
      else
        match FromFirstDep(S, i, t.deps.items, NoStart)
        case Err(x) => Err(x)
        case Ok(_) => Err(TypeError)
    else if !t.deps.NoDeps? && t.stop.None? then
      // duration and dependencies: the day after the latest dependency
      if t.deps.BareDep? then Err(TypeError)
      else if |t.deps.items| == 0 then Err(IndexError)
      else
        match FromFirstDep(S, i, t.deps.items, NoStart)
        case Err(x) => Err(x)
        case Ok(p) => Ok(Some(NextWorking(cal, p + 1)))
    else if t.stop.Some? then
      // stop and duration: count back from stop, then past the dependencies
      var c := SpanStart(cal, t.stop.value, t.duration.value);
      if t.deps.NoDeps? then Ok(Some(c))
      else if t.deps.BareDep? then Err(TypeError)
      else if |t.deps.items| == 0 then Err(IndexError)
      else
        match FromFirstDep(S, i, t.deps.items, FromStop)
        case Err(x) => Err(x)
        case Ok(p) => Ok(Some(NextWorking(cal, if p > c then p + 1 else c)))
    else
      // duration alone: no branch applies
      Ok(None)
  }

  /** What start_date returns for task i in store S. */
  ghost function EffStart(S: Store, i: nat): Result<Option<Day>>
    requires WellFormed(S) && i < |S.tasks|
    decreases i, 2, 0
  {
    if S.startCache[i].Some? then Ok(S.startCache[i]) else ComputeStart(S, i)
  }

  /** end_date below its cache test (gantt.py:516-565). The first test
      parses as `duration is None or (start is None and stop is not None)`. */
  ghost function ComputeEnd(S: Store, i: nat): (r: Result<Day>)
    requires WellFormed(S) && i < |S.tasks|
    // an end is always a working day
    ensures r.Ok? ==> IsWorkingDay(S.cal, r.value)
    decreases i, 3, 0
  {
    var t := S.tasks[i];
    var cal := S.cal;
    if t.duration.None? || (t.start.None? && t.stop.Some?) then
      if t.stop.None? then Err(AttributeError)
      else
        var realEnd := PrevWorking(cal, t.stop.value);
        match EffStart(S, i)
        case Err(x) => Err(x)
        case Ok(None) => Err(TypeError)
        case Ok(Some(s)) =>
          if realEnd <= s then
            if t.duration.None? then Err(TypeError)
            else Ok(SpanEnd(cal, s, t.duration.value))
          else Ok(realEnd)
    else if t.stop.None? then
      match EffStart(S, i)
      case Err(x) => Err(x)
      case Ok(None) => Err(AttributeError)
      case Ok(Some(s)) => Ok(SpanEnd(cal, s, t.duration.value))
    else Err(ValueError)
  }

  /** What end_date returns for task i in store S. */
  ghost function EffEnd(S: Store, i: nat): Result<Day>
    requires WellFormed(S) && i < |S.tasks|
    decreases i, 4, 0
  {
    if S.endCache[i].Some? then Ok(S.endCache[i].value) else ComputeEnd(S, i)
  }

  // ---------------------------------------------------------------------
  // Caches

  /** S1 is S0 with some empty cache entries filled, each with the date the
      corresponding call returns in S0. Every call of start_date or
      end_date moves the store this way. */
  ghost predicate Fills(S0: Store, S1: Store)
    requires WellFormed(S0)
  {
    && S1.cal == S0.cal && S1.tasks == S0.tasks
    && |S1.startCache| == |S0.startCache| && |S1.endCache| == |S0.endCache|
    && (forall j :: 0 <= j < |S0.tasks| ==>
          S1.startCache[j] == S0.startCache[j]
          || (S0.startCache[j].None? && S1.startCache[j].Some? && EffStart(S0, j) == Ok(S1.startCache[j])))
    && (forall j :: 0 <= j < |S0.tasks| ==>
          S1.endCache[j] == S0.endCache[j]
          || (S0.endCache[j].None? && S1.endCache[j].Some? && EffEnd(S0, j) == Ok(S1.endCache[j].value)))
  }

  function NoneSeq(n: nat): (r: seq<Option<Day>>)
    ensures |r| == n && forall k :: 0 <= k < n ==> r[k].None?
  {
    seq(n, _ => None)
  }

  /** The store of the same tasks with every cache empty. */
  function Uncached(S: Store): (r: Store)
    ensures r.cal == S.cal && r.tasks == S.tasks
  {
    Store(S.cal, S.tasks, NoneSeq(|S.tasks|), NoneSeq(|S.tasks|))
  }

  /** Every cached date is the one the task resolves to from scratch. */
  ghost predicate Coherent(S: Store)
    requires WellFormed(S)
  {
    Fills(Uncached(S), S)
  }

  lemma {:induction false} FoldStable(S0: Store, S1: Store, owner: nat, ds: seq<Dep>, k: nat, rule: Rule, prev: Day)
    requires WellFormed(S0) && WellFormed(S1) && S1.tasks == S0.tasks && S1.cal == S0.cal
    requires owner <= |S0.tasks| && k <= |ds| && forall j :: 0 <= j < |ds| ==> ds[j].target < owner
    requires forall t :: 0 <= t < owner ==> EffEnd(S1, t) == EffEnd(S0, t)
    ensures FoldDeps(S1, owner, ds, k, rule, prev) == FoldDeps(S0, owner, ds, k, rule, prev)
    decreases |ds| - k
  {
    if k < |ds| {
      var e := EffEnd(S0, ds[k].target);
      if e.Ok? {
        FoldStable(S0, S1, owner, ds, k + 1, rule, Step(rule, ds[k].kind, e.value, prev));
      }
    }
  }

  lemma ComputeStartStable(S0: Store, S1: Store, i: nat)
    requires WellFormed(S0) && WellFormed(S1) && S1.tasks == S0.tasks && S1.cal == S0.cal
    requires i < |S0.tasks|
    requires forall t :: 0 <= t < i ==> EffEnd(S1, t) == EffEnd(S0, t)
    ensures ComputeStart(S1, i) == ComputeStart(S0, i)
  {
    var t := S0.tasks[i];
    if t.deps.DepList? {
      var ds := t.deps.items;
      if t.start.Some? {
        FoldStable(S0, S1, i, ds, 0, StartGiven, NextWorking(S0.cal, t.start.value));
      } else if |ds| > 0 {
        FirstDepStable(S0, S1, i, ds, NoStart);
        FirstDepStable(S0, S1, i, ds, FromStop);
      }
    }
  }

  lemma FirstDepStable(S0: Store, S1: Store, owner: nat, ds: seq<Dep>, rule: Rule)
    requires WellFormed(S0) && WellFormed(S1) && S1.tasks == S0.tasks && S1.cal == S0.cal
    requires owner <= |S0.tasks| && |ds| > 0 && forall j :: 0 <= j < |ds| ==> ds[j].target < owner
    requires forall t :: 0 <= t < owner ==> EffEnd(S1, t) == EffEnd(S0, t)
    ensures FromFirstDep(S1, owner, ds, rule) == FromFirstDep(S0, owner, ds, rule)
  {
    var e := EffEnd(S0, ds[0].target);
    if e.Ok? {
      FoldStable(S0, S1, owner, ds, 0, rule, e.value);
    }
  }

  /** Filling caches with their own values changes no call's result. */
  lemma {:induction false} FillsKeepResults(S0: Store, S1: Store, i: nat)
    requires WellFormed(S0) && Fills(S0, S1) && i < |S0.tasks|
    ensures WellFormed(S1)
    ensures EffStart(S1, i) == EffStart(S0, i) && EffEnd(S1, i) == EffEnd(S0, i)
    decreases i
  {
    forall t | 0 <= t < i
      ensures EffEnd(S1, t) == EffEnd(S0, t)
    {
      FillsKeepResults(S0, S1, t);
    }
    ComputeStartStable(S0, S1, i);
  }

  lemma FillsTrans(S0: Store, S1: Store, S2: Store)
    requires WellFormed(S0) && Fills(S0, S1)
    requires WellFormed(S1) && Fills(S1, S2)
    ensures Fills(S0, S2)
  {
    forall j | 0 <= j < |S0.tasks|
      ensures EffStart(S1, j) == EffStart(S0, j) && EffEnd(S1, j) == EffEnd(S0, j)
    {
      FillsKeepResults(S0, S1, j);
    }
  }

  /** Filling caches changes no dependency loop's outcome. */
  lemma FillsKeepFold(S0: Store, S1: Store, owner: nat, ds: seq<Dep>, rule: Rule, prev: Day)
    requires WellFormed(S0) && Fills(S0, S1) && owner <= |S0.tasks|
    requires forall j :: 0 <= j < |ds| ==> ds[j].target < owner
    ensures WellFormed(S1)
    ensures FoldDeps(S1, owner, ds, 0, rule, prev) == FoldDeps(S0, owner, ds, 0, rule, prev)
  {
    forall t | 0 <= t < owner
      ensures WellFormed(S1) && EffEnd(S1, t) == EffEnd(S0, t)
    {
      FillsKeepResults(S0, S1, t);
    }
    assert WellFormed(S1);
    FoldStable(S0, S1, owner, ds, 0, rule, prev);
  }

  /** In a coherent store every call returns what it returns from scratch. */
  lemma CoherentResults(S: Store, i: nat)
    requires WellFormed(S) && Coherent(S) && i < |S.tasks|
    ensures EffStart(S, i) == EffStart(Uncached(S), i)
    ensures EffEnd(S, i) == EffEnd(Uncached(S), i)
  {
    FillsKeepResults(Uncached(S), S, i);
  }

  /** Emptying cache entries (_reset_coord) keeps a store coherent. */
  lemma ClearingKeepsCoherent(S: Store, S': Store)
    requires WellFormed(S) && Coherent(S)
    requires S'.cal == S.cal && S'.tasks == S.tasks
    requires |S'.startCache| == |S.startCache| && |S'.endCache| == |S.endCache|
    requires forall j :: 0 <= j < |S.tasks| ==> S'.startCache[j] == S.startCache[j] || S'.startCache[j].None?
    requires forall j :: 0 <= j < |S.tasks| ==> S'.endCache[j] == S.endCache[j] || S'.endCache[j].None?
    ensures WellFormed(S') && Coherent(S')
  {
  }
}
