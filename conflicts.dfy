/** Task.check_conflicts_between_task_and_resources_vacations
    (gantt.py:758-775) as specification: for each resource of the task, in
    order, each day from the task's start to its end, in order, that is not
    a weekly day off and on which the resource is unavailable. Whether a
    resource is available on a day (Resource.is_available) is a parameter. */
module Conflicts {
  import opened Wrappers
  import opened Workdays
  import opened Tasks
  import opened Lists

  /** One record {'resource': r.name, 'date': cday, 'task': self.name}. */
  datatype Conflict = Conflict(resource: string, day: Day, task: string)

  /** A day on which resource r is booked by the task while away: not a
      weekly day off (vacations in the calendar do not count here) and
      unavailable. */
  predicate IsConflict(cal: Calendar, avail: (Resource, Day) -> bool, r: Resource, d: Day) {
    Weekday(d) !in cal.notWorked && !avail(r, d)
  }

  /** The records of resource r for the days d..e. */
  function DayConflicts(cal: Calendar, avail: (Resource, Day) -> bool, r: Resource, d: Day, e: Day, task: string): seq<Conflict>
    decreases e - d
  {
    if d > e then []
    else
      (if IsConflict(cal, avail, r, d) then [Conflict(r.name, d, task)] else []) +
      DayConflicts(cal, avail, r, d + 1, e, task)
  }

  /** The records of resources rs[k..] for the days s..e. */
  function ConflictsFrom(cal: Calendar, avail: (Resource, Day) -> bool, rs: seq<Resource>, k: nat, s: Day, e: Day, task: string): seq<Conflict>
    requires k <= |rs|
    decreases |rs| - k
  {
    if k == |rs| then []
    else DayConflicts(cal, avail, rs[k], s, e, task) + ConflictsFrom(cal, avail, rs, k + 1, s, e, task)
  }

  /** One step of the day loop: the records from d on are d's own record,
      if any, followed by those from d + 1 on. */
  lemma DayConflictsStep(cal: Calendar, avail: (Resource, Day) -> bool, r: Resource, d: Day, e: Day, task: string, cs: seq<Conflict>)
    requires d <= e
    ensures cs + DayConflicts(cal, avail, r, d, e, task)
         == (if IsConflict(cal, avail, r, d) then cs + [Conflict(r.name, d, task)] else cs)
            + DayConflicts(cal, avail, r, d + 1, e, task)
  {
  }

  /** What the conflict check returns for task i in store S: no resources
      gives an empty list; otherwise the start and end dates are needed,
      and a start of None fails the `cday <= end_date()` comparison. */
  ghost function EffConflicts(S: Store, i: nat, avail: (Resource, Day) -> bool): Result<seq<Conflict>>
    requires WellFormed(S) && i < |S.tasks|
  {
    var t := S.tasks[i];
    if t.resources.None? || |t.resources.value| == 0 then Ok([])
    else
      match EffStart(S, i)
      case Err(x) => Err(x)
      case Ok(start) =>
        match EffEnd(S, i)
        case Err(x) => Err(x)
        case Ok(e) =>
          if start.None? then Err(TypeError)
          else Ok(ConflictsFrom(S.cal, avail, t.resources.value, 0, start.value, e, t.name))
  }

  /** The records of one resource are exactly its conflict days in d..e,
      each once, in increasing order. */
  lemma {:induction false} DayConflictsFacts(cal: Calendar, avail: (Resource, Day) -> bool, r: Resource, d: Day, e: Day, task: string)
    ensures var cs := DayConflicts(cal, avail, r, d, e, task);
      && (forall c :: c in cs <==>
            c.resource == r.name && c.task == task && d <= c.day <= e && IsConflict(cal, avail, r, c.day))
      && (forall i, j :: 0 <= i < j < |cs| ==> cs[i].day < cs[j].day)
    decreases e - d
  {
    if d <= e {
      DayConflictsFacts(cal, avail, r, d + 1, e, task);
      var head := if IsConflict(cal, avail, r, d) then [Conflict(r.name, d, task)] else [];
      var rest := DayConflicts(cal, avail, r, d + 1, e, task);
      var cs := head + rest;
      forall i, j | 0 <= i < j < |cs|
        ensures cs[i].day < cs[j].day
      {
        if i < |head| {
          assert cs[j] == rest[j - |head|] && cs[j] in rest;
        } else {
          assert cs[i] == rest[i - |head|] && cs[j] == rest[j - |head|];
        }
      }
    }
  }

  /** Every record is a conflict day of one of the resources within
      [start, end], and every such day of every resource is recorded. */
  lemma {:induction false} ConflictsFromFacts(cal: Calendar, avail: (Resource, Day) -> bool, rs: seq<Resource>, k: nat, s: Day, e: Day, task: string)
    requires k <= |rs|
    ensures forall c :: c in ConflictsFrom(cal, avail, rs, k, s, e, task) <==>
      c.task == task && s <= c.day <= e &&
      exists j :: k <= j < |rs| && c.resource == rs[j].name && IsConflict(cal, avail, rs[j], c.day)
    decreases |rs| - k
  {
    if k < |rs| {
      ConflictsFromFacts(cal, avail, rs, k + 1, s, e, task);
      DayConflictsFacts(cal, avail, rs[k], s, e, task);
      var head := DayConflicts(cal, avail, rs[k], s, e, task);
      var rest := ConflictsFrom(cal, avail, rs, k + 1, s, e, task);
      forall c: Conflict | c in head + rest
        ensures exists j :: k <= j < |rs| && c.resource == rs[j].name && IsConflict(cal, avail, rs[j], c.day)
      {
        if c in head {
          assert c.resource == rs[k].name && IsConflict(cal, avail, rs[k], c.day);
        }
      }
      forall c: Conflict | c.task == task && s <= c.day <= e &&
                 exists j :: k <= j < |rs| && c.resource == rs[j].name && IsConflict(cal, avail, rs[j], c.day)
        ensures c in head + rest
      {
        var j :| k <= j < |rs| && c.resource == rs[j].name && IsConflict(cal, avail, rs[j], c.day);
        if j == k {
          assert c in head;
        } else {
          assert c in rest;
        }
      }
    }
  }

  /** With distinct resource names, the records of different resources
      differ, so each (resource, day) conflict is recorded exactly once. */
  lemma {:induction false} ConflictsFromOnce(cal: Calendar, avail: (Resource, Day) -> bool, rs: seq<Resource>, k: nat, s: Day, e: Day, task: string)
    requires k <= |rs|
    requires forall i, j :: 0 <= i < j < |rs| ==> rs[i].name != rs[j].name
    ensures NoDuplicates(ConflictsFrom(cal, avail, rs, k, s, e, task))
    decreases |rs| - k
  {
    if k < |rs| {
      ConflictsFromOnce(cal, avail, rs, k + 1, s, e, task);
      ConflictsFromFacts(cal, avail, rs, k + 1, s, e, task);
      DayConflictsFacts(cal, avail, rs[k], s, e, task);
      var head := DayConflicts(cal, avail, rs[k], s, e, task);
      var rest := ConflictsFrom(cal, avail, rs, k + 1, s, e, task);
      var cs := head + rest;
      forall a, b | 0 <= a < b < |cs|
        ensures cs[a] != cs[b]
      {
        if b < |head| {
          assert cs[a] == head[a] && cs[b] == head[b];
          assert head[a].day < head[b].day;
          assert cs[a] != cs[b];
        } else if a < |head| {
          assert cs[a] in head && cs[b] == rest[b - |head|] && cs[b] in rest;
          var j :| k + 1 <= j < |rs| && cs[b].resource == rs[j].name && IsConflict(cal, avail, rs[j], cs[b].day);
          assert cs[a].resource == rs[k].name;
          assert rs[k].name != rs[j].name;
          assert cs[a] != cs[b];
        } else {
          var a', b' := a - |head|, b - |head|;
          assert cs[a] == rest[a'] && cs[b] == rest[b'];
          assert 0 <= a' < b' < |rest|;
          assert rest[a'] != rest[b'];
        }
      }
    }
  }

  /** No two resources share a name. */
  predicate DistinctNames(rs: seq<Resource>) {
    forall i, j :: 0 <= i < j < |rs| ==> rs[i].name != rs[j].name
  }

  /** The records cs, of resources rs[k..], come resource by resource, in
      the order of rs, and by increasing day within one resource. */
  predicate ResourceThenDay(rs: seq<Resource>, k: nat, cs: seq<Conflict>) {
    forall a, b, ja, jb ::
      0 <= a < b < |cs| && k <= ja < |rs| && k <= jb < |rs| &&
      cs[a].resource == rs[ja].name && cs[b].resource == rs[jb].name
      ==> ja < jb || (ja == jb && cs[a].day < cs[b].day)
  }

  /** A record of resources rs[k..] names none of the resources before k. */
  lemma NotFromEarlier(cal: Calendar, avail: (Resource, Day) -> bool, rs: seq<Resource>, k: nat, s: Day, e: Day, task: string, c: Conflict, j: nat)
    requires j < k <= |rs| && DistinctNames(rs)
    requires c in ConflictsFrom(cal, avail, rs, k, s, e, task)
    ensures c.resource != rs[j].name
  {
    ConflictsFromFacts(cal, avail, rs, k, s, e, task);
    var j' :| k <= j' < |rs| && c.resource == rs[j'].name && IsConflict(cal, avail, rs[j'], c.day);
    assert rs[j].name != rs[j'].name;
  }

  /** One pair of records of resources rs[k..]: the inductive step of
      ConflictsFromOrdered. */
  lemma OrderedPair(cal: Calendar, avail: (Resource, Day) -> bool, rs: seq<Resource>, k: nat, s: Day, e: Day, task: string,
                    a: nat, b: nat, ja: nat, jb: nat)
    requires k < |rs| && DistinctNames(rs)
    requires var cs := ConflictsFrom(cal, avail, rs, k, s, e, task);
      a < b < |cs| && k <= ja < |rs| && k <= jb < |rs| &&
      cs[a].resource == rs[ja].name && cs[b].resource == rs[jb].name
    ensures var cs := ConflictsFrom(cal, avail, rs, k, s, e, task);
      ja < jb || (ja == jb && cs[a].day < cs[b].day)
    decreases |rs| - k, 0
  {
    ConflictsFromOrdered(cal, avail, rs, k + 1, s, e, task);
    var head := DayConflicts(cal, avail, rs[k], s, e, task);
    var rest := ConflictsFrom(cal, avail, rs, k + 1, s, e, task);
    var cs := head + rest;
    assert cs == ConflictsFrom(cal, avail, rs, k, s, e, task);
    if b < |head| {
      DayConflictsFacts(cal, avail, rs[k], s, e, task);
      assert cs[a] == head[a] && cs[b] == head[b];
      assert cs[a] in head && cs[b] in head;
    } else if a < |head| {
      DayConflictsFacts(cal, avail, rs[k], s, e, task);
      assert cs[a] == head[a] && cs[a] in head;
      assert cs[b] == rest[b - |head|] && cs[b] in rest;
      if jb == k {
        NotFromEarlier(cal, avail, rs, k + 1, s, e, task, cs[b], k);
      }
    } else {
      var a', b' := a - |head|, b - |head|;
      assert cs[a] == rest[a'] && cs[b] == rest[b'];
      if ja == k {
        assert rest[a'] in rest;
        NotFromEarlier(cal, avail, rs, k + 1, s, e, task, cs[a], k);
      }
      if jb == k {
        assert rest[b'] in rest;
        NotFromEarlier(cal, avail, rs, k + 1, s, e, task, cs[b], k);
      }
      assert a' < b' < |rest| && rest[a'].resource == rs[ja].name && rest[b'].resource == rs[jb].name;
    }
  }

  /** With distinct resource names, the records are ordered by resource,
      in the order of the resource list, and then by day. */
  lemma {:induction false} ConflictsFromOrdered(cal: Calendar, avail: (Resource, Day) -> bool, rs: seq<Resource>, k: nat, s: Day, e: Day, task: string)
    requires k <= |rs| && DistinctNames(rs)
    ensures ResourceThenDay(rs, k, ConflictsFrom(cal, avail, rs, k, s, e, task))
    decreases |rs| - k, 1
  {
    if k < |rs| {
      var cs := ConflictsFrom(cal, avail, rs, k, s, e, task);
      forall a, b, ja, jb |
        0 <= a < b < |cs| && k <= ja < |rs| && k <= jb < |rs| &&
        cs[a].resource == rs[ja].name && cs[b].resource == rs[jb].name
        ensures ja < jb || (ja == jb && cs[a].day < cs[b].day)
      {
        OrderedPair(cal, avail, rs, k, s, e, task, a, b, ja, jb);
      }
    }
  }

  /** The check returns [] for a task without resources; otherwise, when
      it returns, its records are the conflict days of the task's resources
      between its start and end dates, and with distinct resource names each
      is recorded once, resource by resource and then day by day. */
  lemma ConflictCheckFacts(S: Store, i: nat, avail: (Resource, Day) -> bool)
    requires WellFormed(S) && i < |S.tasks|
    ensures S.tasks[i].resources.None? ==> EffConflicts(S, i, avail) == Ok([])
    ensures EffConflicts(S, i, avail).Ok? && S.tasks[i].resources.Some? && |S.tasks[i].resources.value| > 0 ==>
      var t := S.tasks[i];
      var rs := t.resources.value;
      && EffStart(S, i).Ok? && EffStart(S, i).value.Some? && EffEnd(S, i).Ok?
      && (forall c :: c in EffConflicts(S, i, avail).value <==>
           c.task == t.name && EffStart(S, i).value.value <= c.day <= EffEnd(S, i).value &&
           exists j :: 0 <= j < |rs| && c.resource == rs[j].name && IsConflict(S.cal, avail, rs[j], c.day))
      && (DistinctNames(rs) ==>
            NoDuplicates(EffConflicts(S, i, avail).value) && ResourceThenDay(rs, 0, EffConflicts(S, i, avail).value))
  {
    var t := S.tasks[i];
    if t.resources.Some? && |t.resources.value| > 0 && EffStart(S, i).Ok? && EffStart(S, i).value.Some? && EffEnd(S, i).Ok? {
      var rs, st, en := t.resources.value, EffStart(S, i).value.value, EffEnd(S, i).value;
      ConflictsFromFacts(S.cal, avail, rs, 0, st, en, t.name);
      if DistinctNames(rs) {
        ConflictsFromOnce(S.cal, avail, rs, 0, st, en, t.name);
        ConflictsFromOrdered(S.cal, avail, rs, 0, st, en, t.name);
      }
    }
  }
}
