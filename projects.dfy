/** The Project side of gantt/gantt.py as specification: projects live in an
    arena of nodes addressed by handles, each with its ordered members, a
    member being a task handle or a sub-project handle. A sub-project has a
    lower handle than every project holding it, which is how projects are
    built (children first) and what makes the recursion through
    sub-projects terminate. */
module Projects {
  import opened Wrappers
  import opened Workdays
  import opened Tasks
  import opened Lists

  /** An entry of Project.tasks: a Task or a sub-Project. */
  datatype Member = TaskMember(task: nat) | SubProject(project: nat)

  datatype ProjectNode = ProjectNode(name: string, members: seq<Member>)

  /** Every sub-project has a lower handle than the project holding it. */
  predicate ProjectsOrdered(ps: seq<ProjectNode>) {
    forall p, k :: 0 <= p < |ps| && 0 <= k < |ps[p].members| && ps[p].members[k].SubProject? ==>
      ps[p].members[k].project < p
  }

  /** Every task member is one of the nTasks tasks. */
  predicate MembersIn(ps: seq<ProjectNode>, nTasks: nat) {
    forall p, k :: 0 <= p < |ps| && 0 <= k < |ps[p].members| && ps[p].members[k].TaskMember? ==>
      ps[p].members[k].task < nTasks
  }

  predicate ProjectsFit(ps: seq<ProjectNode>, nTasks: nat) {
    ProjectsOrdered(ps) && MembersIn(ps, nTasks)
  }

  // ---------------------------------------------------------------------
  // Reachable tasks

  /** The task leaves reached from members [0, k) of project p, in member
      order, a sub-project contributing its own leaves; with repetitions. */
  function ReachUpTo(ps: seq<ProjectNode>, p: nat, k: nat): seq<nat>
    requires ProjectsOrdered(ps) && p < |ps| && k <= |ps[p].members|
    decreases p, 0, k
  {
    if k == 0 then []
    else
      ReachUpTo(ps, p, k - 1) +
      match ps[p].members[k - 1]
      case TaskMember(h) => [h]
      case SubProject(q) => Reach(ps, q)
  }

  function Reach(ps: seq<ProjectNode>, p: nat): seq<nat>
    requires ProjectsOrdered(ps) && p < |ps|
    decreases p, 1, 0
  {
    ReachUpTo(ps, p, |ps[p].members|)
  }

  /** The sub-projects reached from members [0, k) of project p, at any
      depth: the projects whose _reset_coord the reset of p runs. */
  function SubProjectsUpTo(ps: seq<ProjectNode>, p: nat, k: nat): seq<nat>
    requires ProjectsOrdered(ps) && p < |ps| && k <= |ps[p].members|
    decreases p, 0, k
  {
    if k == 0 then []
    else
      SubProjectsUpTo(ps, p, k - 1) +
      match ps[p].members[k - 1]
      case TaskMember(_) => []
      case SubProject(q) => [q] + SubProjects(ps, q)
  }

  function SubProjects(ps: seq<ProjectNode>, p: nat): seq<nat>
    requires ProjectsOrdered(ps) && p < |ps|
    decreases p, 1, 0
  {
    SubProjectsUpTo(ps, p, |ps[p].members|)
  }

  lemma {:induction false} SubProjectsUpToBelow(ps: seq<ProjectNode>, p: nat, k: nat)
    requires ProjectsOrdered(ps) && p < |ps| && k <= |ps[p].members|
    ensures forall q :: q in SubProjectsUpTo(ps, p, k) ==> q < p
    decreases p, 0, k
  {
    if k > 0 {
      SubProjectsUpToBelow(ps, p, k - 1);
      match ps[p].members[k - 1]
      case TaskMember(_) =>
      case SubProject(q) => SubProjectsBelow(ps, q);
    }
  }

  /** Resetting a project reaches only projects below it, never the project
      itself or one holding it. */
  lemma {:induction false} SubProjectsBelow(ps: seq<ProjectNode>, p: nat)
    requires ProjectsOrdered(ps) && p < |ps|
    ensures forall q :: q in SubProjects(ps, p) ==> q < p
    decreases p, 1, 0
  {
    SubProjectsUpToBelow(ps, p, |ps[p].members|);
  }

  // ---------------------------------------------------------------------
  // is_in_project

  /** Project.is_in_project: some member reports x, a task member when it
      is x itself (Task.is_in_project is an identity test), a sub-project
      when one of its own members does. */
  function IsInProject(ps: seq<ProjectNode>, p: nat, x: Member): bool
    requires ProjectsOrdered(ps) && p < |ps|
    decreases p, 1, 0
  {
    InMembers(ps, p, |ps[p].members|, x)
  }

  function InMembers(ps: seq<ProjectNode>, p: nat, k: nat, x: Member): bool
    requires ProjectsOrdered(ps) && p < |ps| && k <= |ps[p].members|
    decreases p, 0, k
  {
    k > 0 &&
    (InMembers(ps, p, k - 1, x) ||
     match ps[p].members[k - 1]
     case TaskMember(h) => x == TaskMember(h)
     case SubProject(q) => IsInProject(ps, q, x))
  }

  lemma {:induction false} InMembersReach(ps: seq<ProjectNode>, p: nat, k: nat, x: Member)
    requires ProjectsOrdered(ps) && p < |ps| && k <= |ps[p].members|
    ensures InMembers(ps, p, k, x) <==> x.TaskMember? && x.task in ReachUpTo(ps, p, k)
    decreases p, 0, k
  {
    if k > 0 {
      InMembersReach(ps, p, k - 1, x);
      match ps[p].members[k - 1]
      case TaskMember(h) =>
      case SubProject(q) => IsInProjectReach(ps, q, x);
    }
  }

  /** is_in_project answers whether a task is one of the project's leaves,
      at any depth; a project is never "in" a project. */
  lemma {:induction false} IsInProjectReach(ps: seq<ProjectNode>, p: nat, x: Member)
    requires ProjectsOrdered(ps) && p < |ps|
    ensures IsInProject(ps, p, x) <==> x.TaskMember? && x.task in Reach(ps, p)
    ensures x.SubProject? ==> !IsInProject(ps, p, x)
    decreases p, 1, 0
  {
    InMembersReach(ps, p, |ps[p].members|, x);
  }

  // ---------------------------------------------------------------------
  // get_tasks

  /** The list tlist that get_tasks builds from members [0, k): a task as
      itself, a sub-project as the list its own get_tasks returns. */
  function TaskGroups(ps: seq<ProjectNode>, p: nat, k: nat): seq<Nested<nat>>
    requires ProjectsOrdered(ps) && p < |ps| && k <= |ps[p].members|
    decreases p, 0, k
  {
    if k == 0 then []
    else
      TaskGroups(ps, p, k - 1) +
      [match ps[p].members[k - 1]
       case TaskMember(h) => Leaf(h)
       case SubProject(q) => Group(Leaves(TaskList(ps, q)))]
  }

  /** What Project.get_tasks returns. */
  function TaskList(ps: seq<ProjectNode>, p: nat): seq<nat>
    requires ProjectsOrdered(ps) && p < |ps|
    decreases p, 1, 0
  {
    Dedup(FlattenAll(TaskGroups(ps, p, |ps[p].members|)))
  }

  lemma FlattenAllSnoc<T>(a: seq<Nested<T>>, n: Nested<T>)
    ensures FlattenAll(a + [n]) == FlattenAll(a) + Flatten(n)
  {
    FlattenAllAppend(a, [n]);
    assert FlattenAll([n]) == Flatten(n) + FlattenAll([n][1..]);
    assert [n][1..] == [];
  }

  /** One member appended on both sides keeps the first occurrences equal,
      when what it adds to the built list and to the leaves does. */
  lemma AgreeStep<T>(acc: seq<T>, g: seq<Nested<T>>, prev: seq<T>, extra: seq<Nested<T>>, flat: seq<T>, seg: seq<T>)
    requires DedupFrom(acc, FlattenAll(g)) == DedupFrom(acc, prev)
    requires FlattenAll(extra) == flat
    requires DedupFrom(DedupFrom(acc, prev), flat) == DedupFrom(DedupFrom(acc, prev), seg)
    ensures DedupFrom(acc, FlattenAll(g + extra)) == DedupFrom(acc, prev + seg)
  {
    FlattenAllAppend(g, extra);
    DedupFromAppend(acc, FlattenAll(g), flat);
    DedupFromAppend(acc, prev, seg);
  }

  lemma FlattenGroup<T>(xs: seq<T>)
    ensures FlattenAll([Group(Leaves(xs))]) == xs
  {
    FlattenAllSnoc([], Group(Leaves(xs)));
    FlattenLeaves(xs);
    assert [] + [Group(Leaves(xs))] == [Group(Leaves(xs))];
  }

  lemma {:induction false} TaskGroupsAgree(ps: seq<ProjectNode>, p: nat, k: nat, acc: seq<nat>)
    requires ProjectsOrdered(ps) && p < |ps| && k <= |ps[p].members|
    ensures DedupFrom(acc, FlattenAll(TaskGroups(ps, p, k))) == DedupFrom(acc, ReachUpTo(ps, p, k))
    decreases p, 0, k
  {
    if k > 0 {
      var g := TaskGroups(ps, p, k - 1);
      var prev := ReachUpTo(ps, p, k - 1);
      TaskGroupsAgree(ps, p, k - 1, acc);
      var d := DedupFrom(acc, prev);
      match ps[p].members[k - 1]
      case TaskMember(h) =>
        FlattenAllSnoc(g, Leaf(h));
        DedupFromAppend(acc, FlattenAll(g), [h]);
        DedupFromAppend(acc, prev, [h]);
      case SubProject(q) =>
        var tl := TaskList(ps, q);
        FlattenAllSnoc(g, Group(Leaves(tl)));
        FlattenLeaves(tl);
        DedupFromAppend(acc, FlattenAll(g), tl);
        DedupFromAppend(acc, prev, Reach(ps, q));
        TaskListIsDedupReach(ps, q);
        DedupFromDedup(d, Reach(ps, q));
    }
  }

  /** get_tasks is the reachable leaves with repetitions removed: the
      list of lists it builds flattens to the same first occurrences. */
  lemma {:induction false} TaskListIsDedupReach(ps: seq<ProjectNode>, p: nat)
    requires ProjectsOrdered(ps) && p < |ps|
    ensures TaskList(ps, p) == Dedup(Reach(ps, p))
    decreases p, 1, 0
  {
    TaskGroupsAgree(ps, p, |ps[p].members|, []);
  }

  /** get_tasks lists each task leaf reachable through nested projects
      exactly once, in the order in which it is first reached. */
  lemma TaskListFacts(ps: seq<ProjectNode>, p: nat)
    requires ProjectsOrdered(ps) && p < |ps|
    ensures forall h :: h in TaskList(ps, p) <==> h in Reach(ps, p)
    ensures forall h :: h in TaskList(ps, p) <==> IsInProject(ps, p, TaskMember(h))
    ensures NoDuplicates(TaskList(ps, p))
    ensures var r := TaskList(ps, p);
      forall i, j :: 0 <= i < j < |r| ==> FirstIndex(Reach(ps, p), r[i]) < FirstIndex(Reach(ps, p), r[j])
  {
    TaskListIsDedupReach(ps, p);
    DedupFacts(Reach(ps, p));
    forall h
      ensures IsInProject(ps, p, TaskMember(h)) <==> h in Reach(ps, p)
    {
      IsInProjectReach(ps, p, TaskMember(h));
    }
  }

  // ---------------------------------------------------------------------
  // get_resources

  /** The resources of one task, None as none. */
  function TaskResources(t: Task): seq<Resource> {
    if t.resources.Some? then t.resources.value else []
  }

  /** The resources reached from members [0, k), in member order. */
  function ResourcesUpTo(tasks: seq<Task>, ps: seq<ProjectNode>, p: nat, k: nat): seq<Resource>
    requires ProjectsFit(ps, |tasks|) && p < |ps| && k <= |ps[p].members|
    decreases p, 0, k
  {
    if k == 0 then []
    else
      ResourcesUpTo(tasks, ps, p, k - 1) +
      match ps[p].members[k - 1]
      case TaskMember(h) => TaskResources(tasks[h])
      case SubProject(q) => ReachResources(tasks, ps, q)
  }

  function ReachResources(tasks: seq<Task>, ps: seq<ProjectNode>, p: nat): seq<Resource>
    requires ProjectsFit(ps, |tasks|) && p < |ps|
    decreases p, 1, 0
  {
    ResourcesUpTo(tasks, ps, p, |ps[p].members|)
  }

  /** The list rlist that get_resources builds from members [0, k): each
      get_resources() result that is not None, which for a sub-project is
      the list its own get_resources returns. */
  function ResourceGroups(tasks: seq<Task>, ps: seq<ProjectNode>, p: nat, k: nat): seq<Nested<Resource>>
    requires ProjectsFit(ps, |tasks|) && p < |ps| && k <= |ps[p].members|
    decreases p, 0, k
  {
    if k == 0 then []
    else
      ResourceGroups(tasks, ps, p, k - 1) +
      match ps[p].members[k - 1]
      case TaskMember(h) =>
        if tasks[h].resources.Some? then [Group(Leaves(tasks[h].resources.value))] else []
      case SubProject(q) => [Group(Leaves(ResourceList(tasks, ps, q)))]
  }

  /** What Project.get_resources returns. */
  function ResourceList(tasks: seq<Task>, ps: seq<ProjectNode>, p: nat): seq<Resource>
    requires ProjectsFit(ps, |tasks|) && p < |ps|
    decreases p, 1, 0
  {
    Dedup(FlattenAll(ResourceGroups(tasks, ps, p, |ps[p].members|)))
  }

  /** A task member adds its resources to both sides. */
  lemma TaskResourcesStep(acc: seq<Resource>, g: seq<Nested<Resource>>, prev: seq<Resource>, t: Task)
    requires DedupFrom(acc, FlattenAll(g)) == DedupFrom(acc, prev)
    ensures DedupFrom(acc, FlattenAll(g + if t.resources.Some? then [Group(Leaves(t.resources.value))] else []))
            == DedupFrom(acc, prev + TaskResources(t))
  {
    if t.resources.Some? {
      var rs := t.resources.value;
      FlattenGroup(rs);
      AgreeStep(acc, g, prev, [Group(Leaves(rs))], rs, rs);
    } else {
      AgreeStep(acc, g, prev, [], [], []);
      assert g + [] == g && prev + [] == prev;
    }
  }

  lemma {:induction false} ResourceGroupsAgree(tasks: seq<Task>, ps: seq<ProjectNode>, p: nat, k: nat, acc: seq<Resource>)
    requires ProjectsFit(ps, |tasks|) && p < |ps| && k <= |ps[p].members|
    ensures DedupFrom(acc, FlattenAll(ResourceGroups(tasks, ps, p, k))) == DedupFrom(acc, ResourcesUpTo(tasks, ps, p, k))
    decreases p, 0, k
  {
    if k > 0 {
      var g := ResourceGroups(tasks, ps, p, k - 1);
      var prev := ResourcesUpTo(tasks, ps, p, k - 1);
      ResourceGroupsAgree(tasks, ps, p, k - 1, acc);
      match ps[p].members[k - 1]
      case TaskMember(h) =>
        TaskResourcesStep(acc, g, prev, tasks[h]);
      case SubProject(q) =>
        var rl := ResourceList(tasks, ps, q);
        FlattenGroup(rl);
        ResourceListIsDedupReach(tasks, ps, q);
        DedupFromDedup(DedupFrom(acc, prev), ReachResources(tasks, ps, q));
        AgreeStep(acc, g, prev, [Group(Leaves(rl))], rl, ReachResources(tasks, ps, q));
    }
  }

  lemma {:induction false} ResourceListIsDedupReach(tasks: seq<Task>, ps: seq<ProjectNode>, p: nat)
    requires ProjectsFit(ps, |tasks|) && p < |ps|
    ensures ResourceList(tasks, ps, p) == Dedup(ReachResources(tasks, ps, p))
    decreases p, 1, 0
  {
    ResourceGroupsAgree(tasks, ps, p, |ps[p].members|, []);
  }

  /** A resource of any task reachable from p appears in get_resources
      exactly once, in the order in which it is first reached. */
  lemma ResourceListFacts(tasks: seq<Task>, ps: seq<ProjectNode>, p: nat)
    requires ProjectsFit(ps, |tasks|) && p < |ps|
    ensures forall x :: x in ResourceList(tasks, ps, p) <==> x in ReachResources(tasks, ps, p)
    ensures NoDuplicates(ResourceList(tasks, ps, p))
    ensures var r := ResourceList(tasks, ps, p);
      var all := ReachResources(tasks, ps, p);
      forall i, j :: 0 <= i < j < |r| ==> FirstIndex(all, r[i]) < FirstIndex(all, r[j])
  {
    ResourceListIsDedupReach(tasks, ps, p);
    DedupFacts(ReachResources(tasks, ps, p));
  }

  /** Some task among the handles hs has resource x. */
  ghost predicate HasResource(tasks: seq<Task>, hs: seq<nat>, x: Resource) {
    exists j :: 0 <= j < |hs| && hs[j] < |tasks| && x in TaskResources(tasks[hs[j]])
  }

  /** Resources collected from members [0, k) are those of tasks reached
      from them. */
  lemma {:induction false} ResourcesUpToOfReach(tasks: seq<Task>, ps: seq<ProjectNode>, p: nat, k: nat, x: Resource)
    requires ProjectsFit(ps, |tasks|) && p < |ps| && k <= |ps[p].members|
    ensures x in ResourcesUpTo(tasks, ps, p, k) <==> HasResource(tasks, ReachUpTo(ps, p, k), x)
    decreases p, 0, k
  {
    if k > 0 {
      ResourcesUpToOfReach(tasks, ps, p, k - 1, x);
      var prev := ReachUpTo(ps, p, k - 1);
      match ps[p].members[k - 1]
      case TaskMember(h) =>
        assert ReachUpTo(ps, p, k) == prev + [h];
        assert HasResource(tasks, [h], x) <==> x in TaskResources(tasks[h]) by {
          if x in TaskResources(tasks[h]) {
            assert [h][0] == h;
          }
        }
        ReachSplit(tasks, prev, [h], x);
      case SubProject(q) =>
        assert ReachUpTo(ps, p, k) == prev + Reach(ps, q);
        ResourcesUpToOfReach(tasks, ps, q, |ps[q].members|, x);
        ReachSplit(tasks, prev, Reach(ps, q), x);
    }
  }

  lemma ReachSplit(tasks: seq<Task>, a: seq<nat>, b: seq<nat>, x: Resource)
    ensures HasResource(tasks, a + b, x) <==> HasResource(tasks, a, x) || HasResource(tasks, b, x)
  {
    if HasResource(tasks, a + b, x) {
      var j :| 0 <= j < |a + b| && (a + b)[j] < |tasks| && x in TaskResources(tasks[(a + b)[j]]);
      if j >= |a| {
        assert (a + b)[j] == b[j - |a|];
      } else {
        assert (a + b)[j] == a[j];
      }
    }
    if HasResource(tasks, b, x) {
      var j :| 0 <= j < |b| && b[j] < |tasks| && x in TaskResources(tasks[b[j]]);
      assert (a + b)[|a| + j] == b[j];
    }
    if HasResource(tasks, a, x) {
      var j :| 0 <= j < |a| && a[j] < |tasks| && x in TaskResources(tasks[a[j]]);
      assert (a + b)[j] == a[j];
    }
  }

  /** get_resources lists exactly the resources of the tasks reachable from
      the project. */
  lemma ResourceListOfReach(tasks: seq<Task>, ps: seq<ProjectNode>, p: nat)
    requires ProjectsFit(ps, |tasks|) && p < |ps|
    ensures forall x :: x in ResourceList(tasks, ps, p) <==> HasResource(tasks, Reach(ps, p), x)
  {
    ResourceListFacts(tasks, ps, p);
    forall x
      ensures x in ReachResources(tasks, ps, p) <==> HasResource(tasks, Reach(ps, p), x)
    {
      ResourcesUpToOfReach(tasks, ps, p, |ps[p].members|, x);
    }
  }

  // ---------------------------------------------------------------------
  // nb_elements

  /** The number of task leaves under p, each Task counting 1
      (Task.nb_elements). */
  function LeafCount(ps: seq<ProjectNode>, p: nat): nat
    requires ProjectsOrdered(ps) && p < |ps|
    decreases p, 1, 0
  {
    LeafCountUpTo(ps, p, |ps[p].members|)
  }

  function LeafCountUpTo(ps: seq<ProjectNode>, p: nat, k: nat): nat
    requires ProjectsOrdered(ps) && p < |ps| && k <= |ps[p].members|
    decreases p, 0, k
  {
    if k == 0 then 0
    else
      LeafCountUpTo(ps, p, k - 1) +
      match ps[p].members[k - 1]
      case TaskMember(_) => 1
      case SubProject(q) => LeafCount(ps, q)
  }

  lemma {:induction false} LeafCountUpToIsReach(ps: seq<ProjectNode>, p: nat, k: nat)
    requires ProjectsOrdered(ps) && p < |ps| && k <= |ps[p].members|
    ensures LeafCountUpTo(ps, p, k) == |ReachUpTo(ps, p, k)|
    decreases p, 0, k
  {
    if k > 0 {
      LeafCountUpToIsReach(ps, p, k - 1);
      match ps[p].members[k - 1]
      case TaskMember(_) =>
      case SubProject(q) => LeafCountIsReach(ps, q);
    }
  }

  /** nb_elements counts task leaves with their repetitions: a task held
      twice counts twice, unlike in get_tasks. */
  lemma {:induction false} LeafCountIsReach(ps: seq<ProjectNode>, p: nat)
    requires ProjectsOrdered(ps) && p < |ps|
    ensures LeafCount(ps, p) == |Reach(ps, p)|
    ensures |TaskList(ps, p)| <= LeafCount(ps, p)
    decreases p, 1, 0
  {
    LeafCountUpToIsReach(ps, p, |ps[p].members|);
    TaskListIsDedupReach(ps, p);
    DedupCount(Reach(ps, p));
  }

  lemma DedupCount(xs: seq<nat>)
    ensures |Dedup(xs)| <= |xs|
  {
    DedupFacts(xs);
    var d := Dedup(xs);
    var f := seq(|d|, i requires 0 <= i < |d| => FirstIndex(xs, d[i]));
    // the first indices of d's elements are strictly increasing indices of xs
    assert forall i :: 0 <= i < |d| ==> f[i] < |xs|;
    StrictlyIncreasingBound(f, |xs|);
  }

  lemma {:induction false} StrictlyIncreasingBound(f: seq<nat>, n: nat)
    requires forall i :: 0 <= i < |f| ==> f[i] < n
    requires forall i, j :: 0 <= i < j < |f| ==> f[i] < f[j]
    ensures |f| <= n
    decreases |f|
  {
    if |f| > 0 {
      var last := f[|f| - 1];
      StrictlyIncreasingBound(f[..|f| - 1], last);
    }
  }

  /** What nb_elements returns with the memoised counts in cache: a cached
      count is returned as it is, stale or not. */
  function CachedCount(ps: seq<ProjectNode>, cache: seq<Option<nat>>, p: nat): nat
    requires ProjectsOrdered(ps) && |cache| == |ps| && p < |ps|
    decreases p, 1, 0
  {
    if cache[p].Some? then cache[p].value else CachedCountUpTo(ps, cache, p, |ps[p].members|)
  }

  function CachedCountUpTo(ps: seq<ProjectNode>, cache: seq<Option<nat>>, p: nat, k: nat): nat
    requires ProjectsOrdered(ps) && |cache| == |ps| && p < |ps| && k <= |ps[p].members|
    decreases p, 0, k
  {
    if k == 0 then 0
    else
      CachedCountUpTo(ps, cache, p, k - 1) +
      match ps[p].members[k - 1]
      case TaskMember(_) => 1
      case SubProject(q) => CachedCount(ps, cache, q)
  }

  /** Every memoised count is the true one. */
  predicate CountsCoherent(ps: seq<ProjectNode>, cache: seq<Option<nat>>)
    requires ProjectsOrdered(ps) && |cache| == |ps|
  {
    forall q :: 0 <= q < |ps| && cache[q].Some? ==> cache[q].value == LeafCount(ps, q)
  }

  lemma {:induction false} CoherentCountUpTo(ps: seq<ProjectNode>, cache: seq<Option<nat>>, p: nat, k: nat)
    requires ProjectsOrdered(ps) && |cache| == |ps| && p < |ps| && k <= |ps[p].members|
    requires CountsCoherent(ps, cache)
    ensures CachedCountUpTo(ps, cache, p, k) == LeafCountUpTo(ps, p, k)
    decreases p, 0, k
  {
    if k > 0 {
      CoherentCountUpTo(ps, cache, p, k - 1);
      match ps[p].members[k - 1]
      case TaskMember(_) =>
      case SubProject(q) => CoherentCount(ps, cache, q);
    }
  }

  /** With coherent memoised counts, nb_elements is the number of task
      leaves. */
  lemma {:induction false} CoherentCount(ps: seq<ProjectNode>, cache: seq<Option<nat>>, p: nat)
    requires ProjectsOrdered(ps) && |cache| == |ps| && p < |ps|
    requires CountsCoherent(ps, cache)
    ensures CachedCount(ps, cache, p) == LeafCount(ps, p)
    decreases p, 1, 0
  {
    if cache[p].None? {
      CoherentCountUpTo(ps, cache, p, |ps[p].members|);
    }
  }

  /** c1 is c0 with some empty entries filled with what nb_elements
      returns for them under c0. */
  predicate CountFills(ps: seq<ProjectNode>, c0: seq<Option<nat>>, c1: seq<Option<nat>>)
    requires ProjectsOrdered(ps) && |c0| == |ps|
  {
    && |c1| == |c0|
    && forall q :: 0 <= q < |ps| ==>
         c1[q] == c0[q] || (c0[q].None? && c1[q] == Some(CachedCount(ps, c0, q)))
  }

  lemma {:induction false} CountFillsKeepUpTo(ps: seq<ProjectNode>, c0: seq<Option<nat>>, c1: seq<Option<nat>>, p: nat, k: nat)
    requires ProjectsOrdered(ps) && |c0| == |ps| && CountFills(ps, c0, c1) && p < |ps| && k <= |ps[p].members|
    ensures CachedCountUpTo(ps, c1, p, k) == CachedCountUpTo(ps, c0, p, k)
    decreases p, 0, k
  {
    if k > 0 {
      CountFillsKeepUpTo(ps, c0, c1, p, k - 1);
      match ps[p].members[k - 1]
      case TaskMember(_) =>
      case SubProject(q) => CountFillsKeep(ps, c0, c1, q);
    }
  }

  /** Memoising a count changes no later nb_elements result. */
  lemma {:induction false} CountFillsKeep(ps: seq<ProjectNode>, c0: seq<Option<nat>>, c1: seq<Option<nat>>, p: nat)
    requires ProjectsOrdered(ps) && |c0| == |ps| && CountFills(ps, c0, c1) && p < |ps|
    ensures CachedCount(ps, c1, p) == CachedCount(ps, c0, p)
    decreases p, 1, 0
  {
    CountFillsKeepUpTo(ps, c0, c1, p, |ps[p].members|);
  }

  lemma CountFillsTrans(ps: seq<ProjectNode>, c0: seq<Option<nat>>, c1: seq<Option<nat>>, c2: seq<Option<nat>>)
    requires ProjectsOrdered(ps) && |c0| == |ps| && CountFills(ps, c0, c1) && CountFills(ps, c1, c2)
    ensures CountFills(ps, c0, c2)
  {
    forall q | 0 <= q < |ps|
      ensures CachedCount(ps, c1, q) == CachedCount(ps, c0, q)
    {
      CountFillsKeep(ps, c0, c1, q);
    }
  }

  /** Memoising keeps coherent counts coherent. */
  lemma CountFillsKeepCoherent(ps: seq<ProjectNode>, c0: seq<Option<nat>>, c1: seq<Option<nat>>)
    requires ProjectsOrdered(ps) && |c0| == |ps| && CountFills(ps, c0, c1) && CountsCoherent(ps, c0)
    ensures CountsCoherent(ps, c1)
  {
    forall q | 0 <= q < |ps| && c1[q].Some?
      ensures c1[q].value == LeafCount(ps, q)
    {
      CoherentCount(ps, c0, q);
    }
  }

  // ---------------------------------------------------------------------
  // start_date and end_date

  /** The loop of Project.start_date over the members' start dates, from
      index k on, with running minimum first: a member that raises, or
      whose start is None (compared with `<`), ends it. */
  function MinFrom(vs: seq<Result<Option<Day>>>, k: nat, first: Day): Result<Day>
    requires k <= |vs|
    decreases |vs| - k
  {
    if k == |vs| then Ok(first)
    else
      match vs[k]
      case Err(x) => Err(x)
      case Ok(None) => Err(TypeError)
      case Ok(Some(d)) => MinFrom(vs, k + 1, if d < first then d else first)
  }

  /** Project.start_date from its members' start dates (gantt.py:907-919). */
  function StartOfMembers(vs: seq<Result<Option<Day>>>): Result<Day> {
    if |vs| == 0 then Ok(FarFuture)
    else
      match vs[0]
      case Err(x) => Err(x)
      case Ok(None) => Err(TypeError)
      case Ok(Some(f)) => MinFrom(vs, 0, f)
  }

  function MaxFrom(vs: seq<Result<Day>>, k: nat, last: Day): Result<Day>
    requires k <= |vs|
    decreases |vs| - k
  {
    if k == |vs| then Ok(last)
    else
      match vs[k]
      case Err(x) => Err(x)
      case Ok(d) => MaxFrom(vs, k + 1, if d > last then d else last)
  }

  /** Project.end_date from its members' end dates (gantt.py:922-934). */
  function EndOfMembers(vs: seq<Result<Day>>): Result<Day> {
    if |vs| == 0 then Ok(Epoch)
    else
      match vs[0]
      case Err(x) => Err(x)
      case Ok(f) => MaxFrom(vs, 0, f)
  }

  lemma {:induction false} MinFromFacts(vs: seq<Result<Option<Day>>>, k: nat, first: Day)
    requires k <= |vs|
    ensures MinFrom(vs, k, first).Err? <==> exists j :: k <= j < |vs| && !(vs[j].Ok? && vs[j].value.Some?)
    ensures MinFrom(vs, k, first).Ok? ==>
      var m := MinFrom(vs, k, first).value;
      && m <= first
      && (forall j :: k <= j < |vs| ==> vs[j].Ok? && vs[j].value.Some? && m <= vs[j].value.value)
      && (m == first || exists j :: k <= j < |vs| && vs[j] == Ok(Some(m)))
    decreases |vs| - k
  {
    if k < |vs| && vs[k].Ok? && vs[k].value.Some? {
      var d := vs[k].value.value;
      MinFromFacts(vs, k + 1, if d < first then d else first);
    }
  }

  /** Project.start_date is the least start date of its members and is
      one of them; it raises when a member raises or has no start date;
      an empty project starts on 9999-01-01. */
  lemma StartOfMembersFacts(vs: seq<Result<Option<Day>>>)
    ensures |vs| == 0 ==> StartOfMembers(vs) == Ok(FarFuture)
    ensures |vs| > 0 ==>
      (StartOfMembers(vs).Err? <==> exists j :: 0 <= j < |vs| && !(vs[j].Ok? && vs[j].value.Some?))
    ensures |vs| > 0 && StartOfMembers(vs).Ok? ==>
      var m := StartOfMembers(vs).value;
      && (forall j :: 0 <= j < |vs| ==> vs[j].Ok? && vs[j].value.Some? && m <= vs[j].value.value)
      && (exists j :: 0 <= j < |vs| && vs[j] == Ok(Some(m)))
  {
    if |vs| > 0 && vs[0].Ok? && vs[0].value.Some? {
      MinFromFacts(vs, 0, vs[0].value.value);
    }
  }

  lemma {:induction false} MaxFromFacts(vs: seq<Result<Day>>, k: nat, last: Day)
    requires k <= |vs|
    ensures MaxFrom(vs, k, last).Err? <==> exists j :: k <= j < |vs| && vs[j].Err?
    ensures MaxFrom(vs, k, last).Ok? ==>
      var m := MaxFrom(vs, k, last).value;
      && m >= last
      && (forall j :: k <= j < |vs| ==> vs[j].Ok? && m >= vs[j].value)
      && (m == last || exists j :: k <= j < |vs| && vs[j] == Ok(m))
    decreases |vs| - k
  {
    if k < |vs| && vs[k].Ok? {
      var d := vs[k].value;
      MaxFromFacts(vs, k + 1, if d > last then d else last);
    }
  }

  /** Project.end_date is the latest end date of its members and is one of
      them; it raises when a member raises; an empty project ends on
      1970-01-01. */
  lemma EndOfMembersFacts(vs: seq<Result<Day>>)
    ensures |vs| == 0 ==> EndOfMembers(vs) == Ok(Epoch)
    ensures |vs| > 0 ==> (EndOfMembers(vs).Err? <==> exists j :: 0 <= j < |vs| && vs[j].Err?)
    ensures |vs| > 0 && EndOfMembers(vs).Ok? ==>
      var m := EndOfMembers(vs).value;
      && (forall j :: 0 <= j < |vs| ==> vs[j].Ok? && m >= vs[j].value)
      && (exists j :: 0 <= j < |vs| && vs[j] == Ok(m))
  {
    if |vs| > 0 && vs[0].Ok? {
      MaxFromFacts(vs, 0, vs[0].value);
    }
  }

  /** What start_date returns for member m of a project in store S. */
  ghost function MemberStart(S: Store, ps: seq<ProjectNode>, p: nat, m: Member): Result<Option<Day>>
    requires WellFormed(S) && ProjectsFit(ps, |S.tasks|) && p < |ps| && m in ps[p].members
    decreases p, 0, 0
  {
    match m
    case TaskMember(h) => EffStart(S, h)
    case SubProject(q) =>
      match ProjStart(S, ps, q)
      case Err(x) => Err(x)
      case Ok(d) => Ok(Some(d))
  }

  ghost function MemberStarts(S: Store, ps: seq<ProjectNode>, p: nat): (r: seq<Result<Option<Day>>>)
    requires WellFormed(S) && ProjectsFit(ps, |S.tasks|) && p < |ps|
    ensures |r| == |ps[p].members|
    decreases p, 0, 1
  {
    seq(|ps[p].members|, k requires 0 <= k < |ps[p].members| => MemberStart(S, ps, p, ps[p].members[k]))
  }

  /** What Project.start_date returns for project p in store S. */
  ghost function ProjStart(S: Store, ps: seq<ProjectNode>, p: nat): Result<Day>
    requires WellFormed(S) && ProjectsFit(ps, |S.tasks|) && p < |ps|
    decreases p, 1, 0
  {
    StartOfMembers(MemberStarts(S, ps, p))
  }

  ghost function MemberEnd(S: Store, ps: seq<ProjectNode>, p: nat, m: Member): Result<Day>
    requires WellFormed(S) && ProjectsFit(ps, |S.tasks|) && p < |ps| && m in ps[p].members
    decreases p, 0, 0
  {
    match m
    case TaskMember(h) => EffEnd(S, h)
    case SubProject(q) => ProjEnd(S, ps, q)
  }

  ghost function MemberEnds(S: Store, ps: seq<ProjectNode>, p: nat): (r: seq<Result<Day>>)
    requires WellFormed(S) && ProjectsFit(ps, |S.tasks|) && p < |ps|
    ensures |r| == |ps[p].members|
    decreases p, 0, 1
  {
    seq(|ps[p].members|, k requires 0 <= k < |ps[p].members| => MemberEnd(S, ps, p, ps[p].members[k]))
  }

  /** What Project.end_date returns for project p in store S. */
  ghost function ProjEnd(S: Store, ps: seq<ProjectNode>, p: nat): Result<Day>
    requires WellFormed(S) && ProjectsFit(ps, |S.tasks|) && p < |ps|
    decreases p, 1, 0
  {
    EndOfMembers(MemberEnds(S, ps, p))
  }

  /** Filling task caches changes no project's dates. */
  lemma {:induction false} FillsKeepProjectDates(S0: Store, S1: Store, ps: seq<ProjectNode>, p: nat)
    requires WellFormed(S0) && Fills(S0, S1) && ProjectsFit(ps, |S0.tasks|) && p < |ps|
    ensures WellFormed(S1)
    ensures MemberStarts(S1, ps, p) == MemberStarts(S0, ps, p)
    ensures MemberEnds(S1, ps, p) == MemberEnds(S0, ps, p)
    ensures ProjStart(S1, ps, p) == ProjStart(S0, ps, p) && ProjEnd(S1, ps, p) == ProjEnd(S0, ps, p)
    decreases p
  {
    if |S0.tasks| > 0 {
      FillsKeepResults(S0, S1, 0);
    } else {
      assert S1.startCache == [] && S1.endCache == [];
    }
    var ms := ps[p].members;
    forall k | 0 <= k < |ms|
      ensures MemberStart(S1, ps, p, ms[k]) == MemberStart(S0, ps, p, ms[k])
      ensures MemberEnd(S1, ps, p, ms[k]) == MemberEnd(S0, ps, p, ms[k])
    {
      match ms[k]
      case TaskMember(h) => FillsKeepResults(S0, S1, h);
      case SubProject(q) => FillsKeepProjectDates(S0, S1, ps, q);
    }
  }
}
