/** `readDailySummary` of apps/assistant/src/proactive/muneral-reader.service.ts. */
module DailySummary {
  import opened Common
  import opened Sorting
  import opened Paging
  import opened LocalMidnight

  datatype Counters = Counters(
    projectId: string, done: nat, inProgress: nat, review: nat, cancelled: nat, created: nat)

  datatype Summary =
    | Unread(reason: string)
    | Summary(projects: seq<Counters>, total: nat, received: nat, truncated: bool)

  predicate CreatedIn(task: Task, window: Bounds) {
    task.createdAt.Some? && window.since <= task.createdAt.value < window.before
  }

  /** What one row adds to its project's counters. */
  function Bump(c: Counters, task: Task, window: Bounds): Counters {
    Counters(
      c.projectId,
      c.done + (if task.status == "done" then 1 else 0),
      c.inProgress + (if task.status == "in_progress" then 1 else 0),
      c.review + (if task.status == "review" then 1 else 0),
      c.cancelled + (if task.status == "cancelled" then 1 else 0),
      c.created + (if CreatedIn(task, window) then 1 else 0))
  }

  // ------------------------------------------------------------------ specification: filter and count

  /** What is counted: rows of one status, rows of any other, rows created in the window, or all rows. */
  datatype What = Status(name: string) | OtherStatus | Created(window: Bounds) | Any

  predicate Counts(what: What, projectId: string, t: Task) {
    t.projectId == projectId &&
    match what
    case Status(name) => t.status == name
    case OtherStatus => t.status !in ["done", "in_progress", "review", "cancelled"]
    case Created(window) => CreatedIn(t, window)
    case Any => true
  }

  function Count(what: What, projectId: string, rows: seq<Task>): nat {
    if rows == [] then 0
    else
      Count(what, projectId, rows[..|rows| - 1])
      + if Counts(what, projectId, rows[|rows| - 1]) then 1 else 0
  }

  function CountersOf(projectId: string, rows: seq<Task>, window: Bounds): Counters {
    Counters(
      projectId,
      Count(Status("done"), projectId, rows),
      Count(Status("in_progress"), projectId, rows),
      Count(Status("review"), projectId, rows),
      Count(Status("cancelled"), projectId, rows),
      Count(Created(window), projectId, rows))
  }

  /** The project ids of the rows, each where it first appears: the keys of the source's map. */
  function Keys(rows: seq<Task>): seq<string> {
    if rows == [] then []
    else
      var before, id := Keys(rows[..|rows| - 1]), rows[|rows| - 1].projectId;
      if id in before then before else before + [id]
  }

  /**
   * The specification of `projects`. On UUIDs `localeCompare` goes character by character.
   */
  function Projects(rows: seq<Task>, window: Bounds): seq<Counters> {
    var ids := Sort(TextOrder(), Keys(rows));
    seq(|ids|, i requires 0 <= i < |ids| => CountersOf(ids[i], rows, window))
  }

  lemma CountersStep(projectId: string, rows: seq<Task>, t: Task, window: Bounds)
    ensures CountersOf(projectId, rows + [t], window) ==
            if t.projectId == projectId then Bump(CountersOf(projectId, rows, window), t, window)
            else CountersOf(projectId, rows, window)
  {
    assert (rows + [t])[..|rows|] == rows;
  }

  lemma {:induction false} UnseenProject(projectId: string, rows: seq<Task>, window: Bounds)
    requires projectId !in Keys(rows)
    ensures CountersOf(projectId, rows, window) == Counters(projectId, 0, 0, 0, 0, 0)
  {
    if rows == [] {
    } else {
      UnseenProject(projectId, rows[..|rows| - 1], window);
      CountersStep(projectId, rows[..|rows| - 1], rows[|rows| - 1], window);
      assert rows == rows[..|rows| - 1] + [rows[|rows| - 1]];
    }
  }

  // ------------------------------------------------------------------ the loop

  /** The map and its key order after some rows. */
  ghost predicate Tallied(byProject: map<string, Counters>, keys: seq<string>, rows: seq<Task>, window: Bounds) {
    && keys == Keys(rows)
    && (forall id :: id in byProject <==> id in keys)
    && (forall id :: id in byProject ==> byProject[id] == CountersOf(id, rows, window))
  }

  lemma TallyStep(byProject: map<string, Counters>, keys: seq<string>, rows: seq<Task>, t: Task, window: Bounds)
    requires Tallied(byProject, keys, rows, window)
    ensures
      var id := t.projectId;
      var counters := if id in byProject then byProject[id] else Counters(id, 0, 0, 0, 0, 0);
      Tallied(byProject[id := Bump(counters, t, window)],
              if id in byProject then keys else keys + [id], rows + [t], window)
  {
    assert (rows + [t])[..|rows|] == rows;
    if t.projectId !in byProject {
      UnseenProject(t.projectId, rows, window);
    }
    forall id ensures CountersOf(id, rows + [t], window) ==
                      if t.projectId == id then Bump(CountersOf(id, rows, window), t, window)
                      else CountersOf(id, rows, window)
    {
      CountersStep(id, rows, t, window);
    }
  }

  /**
   * Every project that has a row, with its rows filtered and counted, in order of project id;
   * the other fields are those of the read.
   */
  method ReadDailySummary(page: SourceResult<Task>, window: Bounds) returns (r: Summary)
    ensures page.NotOk? ==> r == Unread(page.reason)
    ensures page.Rows? ==>
      r == Summary(Projects(page.items, window), page.total, |page.items|, page.truncated)
  {
    if page.NotOk? { return Unread(page.reason); }
    var rows := page.items;
    var byProject: map<string, Counters> := map[];
    var keys: seq<string> := [];
    for i := 0 to |rows|
      invariant Tallied(byProject, keys, rows[..i], window)
    {
      var t := rows[i];
      TallyStep(byProject, keys, rows[..i], t, window);
      assert rows[..i + 1] == rows[..i] + [t];
      var counters := if t.projectId in byProject then byProject[t.projectId]
                      else Counters(t.projectId, 0, 0, 0, 0, 0);
      if t.projectId !in byProject { keys := keys + [t.projectId]; }
      byProject := byProject[t.projectId := Bump(counters, t, window)];
    }
    assert rows[..|rows|] == rows;
    TalliedIsProjects(byProject, keys, rows, window);
    var ids := Sort(TextOrder(), keys);
    var projects := seq(|ids|, i requires 0 <= i < |ids| => byProject[ids[i]]);
    r := Summary(projects, page.total, |rows|, page.truncated);
  }

  lemma TalliedIsProjects(byProject: map<string, Counters>, keys: seq<string>, rows: seq<Task>, window: Bounds)
    requires Tallied(byProject, keys, rows, window)
    ensures
      var ids := Sort(TextOrder(), keys);
      && (forall i :: 0 <= i < |ids| ==> ids[i] in byProject)
      && seq(|ids|, i requires 0 <= i < |ids| => byProject[ids[i]]) == Projects(rows, window)
  {
    SortedKeys(rows);
  }

  // ------------------------------------------------------------------ what the summary is

  lemma {:induction false} KeysAreProjects(rows: seq<Task>)
    ensures Distinct(Keys(rows))
    ensures forall t :: t in rows ==> t.projectId in Keys(rows)
    ensures forall id :: id in Keys(rows) ==> exists t :: t in rows && t.projectId == id
  {
    if rows == [] {
    } else {
      var front, last := rows[..|rows| - 1], rows[|rows| - 1];
      KeysAreProjects(front);
      assert rows == front + [last];
      assert last in rows;
    }
  }

  lemma SortedKeys(rows: seq<Task>)
    ensures multiset(Sort(TextOrder(), Keys(rows))) == multiset(Keys(rows))
    ensures forall id :: id in Sort(TextOrder(), Keys(rows)) <==> id in Keys(rows)
  {
    TextOrderIsTotal();
    SortSorts(TextOrder(), Keys(rows));
    forall id ensures id in Sort(TextOrder(), Keys(rows)) <==> id in Keys(rows) {
      assert id in Sort(TextOrder(), Keys(rows)) <==> id in multiset(Sort(TextOrder(), Keys(rows)));
      assert id in Keys(rows) <==> id in multiset(Keys(rows));
    }
  }

  // ---- the order of the rows does not matter

  lemma {:induction false} CountIsFilter(what: What, id: string, rows: seq<Task>)
    ensures Count(what, id, rows) == |Filter((t: Task) => Counts(what, id, t), rows)|
  {
    if rows == [] {
    } else {
      var p := (t: Task) => Counts(what, id, t);
      var front, last := rows[..|rows| - 1], rows[|rows| - 1];
      CountIsFilter(what, id, front);
      FilterAppend(p, front, [last]);
      assert rows == front + [last] && [last][1..] == [];
    }
  }

  ghost function Indices(what: What, id: string, rows: seq<Task>): set<int> {
    set i | 0 <= i < |rows| && Counts(what, id, rows[i])
  }

  lemma IndicesSnoc(what: What, id: string, rows: seq<Task>)
    requires rows != []
    ensures
      var n := |rows| - 1;
      var front := Indices(what, id, rows[..n]);
      n !in front && Indices(what, id, rows) == if Counts(what, id, rows[n]) then front + {n} else front
  {
    assert forall i :: 0 <= i < |rows| - 1 ==> rows[..|rows| - 1][i] == rows[i];
  }

  lemma {:induction false} CountIsIndices(what: What, id: string, rows: seq<Task>)
    ensures Count(what, id, rows) == |Indices(what, id, rows)|
  {
    if rows == [] {
    } else {
      CountIsIndices(what, id, rows[..|rows| - 1]);
      IndicesSnoc(what, id, rows);
    }
  }

  /** Each counter by name: the rows of the project with that very status, and those created in the window. */
  lemma CountersAre(id: string, rows: seq<Task>, window: Bounds)
    ensures
      var c := CountersOf(id, rows, window);
      && c.projectId == id
      && c.done == |set i | 0 <= i < |rows| && rows[i].projectId == id && rows[i].status == "done"|
      && c.inProgress == |set i | 0 <= i < |rows| && rows[i].projectId == id && rows[i].status == "in_progress"|
      && c.review == |set i | 0 <= i < |rows| && rows[i].projectId == id && rows[i].status == "review"|
      && c.cancelled == |set i | 0 <= i < |rows| && rows[i].projectId == id && rows[i].status == "cancelled"|
    ensures
      CountersOf(id, rows, window).created ==
      |set i | 0 <= i < |rows| && rows[i].projectId == id && rows[i].createdAt.Some?
               && window.since <= rows[i].createdAt.value < window.before|
  {
    NamedCount("done", id, rows);
    NamedCount("in_progress", id, rows);
    NamedCount("review", id, rows);
    NamedCount("cancelled", id, rows);
    CountIsIndices(Created(window), id, rows);
    assert Indices(Created(window), id, rows) ==
           set i | 0 <= i < |rows| && rows[i].projectId == id && rows[i].createdAt.Some?
                   && window.since <= rows[i].createdAt.value < window.before;
  }

  lemma NamedCount(status: string, id: string, rows: seq<Task>)
    ensures Count(Status(status), id, rows) == |set i | 0 <= i < |rows| && rows[i].projectId == id && rows[i].status == status|
  {
    CountIsIndices(Status(status), id, rows);
    assert Indices(Status(status), id, rows) ==
           set i | 0 <= i < |rows| && rows[i].projectId == id && rows[i].status == status;
  }

  lemma CountIgnoresOrder(what: What, id: string, xs: seq<Task>, ys: seq<Task>)
    requires multiset(xs) == multiset(ys)
    ensures Count(what, id, xs) == Count(what, id, ys)
  {
    var p := (t: Task) => Counts(what, id, t);
    forall t ensures multiset(Filter(p, xs))[t] == multiset(Filter(p, ys))[t] {
      FilterCount(p, xs, t);
      FilterCount(p, ys, t);
    }
    CountIsFilter(what, id, xs);
    CountIsFilter(what, id, ys);
    assert multiset(Filter(p, xs)) == multiset(Filter(p, ys));
    assert |multiset(Filter(p, xs))| == |multiset(Filter(p, ys))|;
  }

  lemma CountersIgnoreOrder(id: string, xs: seq<Task>, ys: seq<Task>, window: Bounds)
    requires multiset(xs) == multiset(ys)
    ensures CountersOf(id, xs, window) == CountersOf(id, ys, window)
  {
    CountIgnoresOrder(Status("done"), id, xs, ys);
    CountIgnoresOrder(Status("in_progress"), id, xs, ys);
    CountIgnoresOrder(Status("review"), id, xs, ys);
    CountIgnoresOrder(Status("cancelled"), id, xs, ys);
    CountIgnoresOrder(Created(window), id, xs, ys);
  }

  lemma SameKeys(xs: seq<Task>, ys: seq<Task>)
    requires multiset(xs) == multiset(ys)
    ensures multiset(Keys(xs)) == multiset(Keys(ys))
  {
    KeysAreProjects(xs);
    KeysAreProjects(ys);
    SameMembers(xs, ys);
    SameElements(Keys(xs), Keys(ys));
  }

  /** Two reads of the same rows in any order give the same summary. */
  lemma ProjectsIgnoreOrder(xs: seq<Task>, ys: seq<Task>, window: Bounds)
    requires multiset(xs) == multiset(ys)
    ensures Projects(xs, window) == Projects(ys, window)
  {
    TextOrderIsTotal();
    SameKeys(xs, ys);
    SortIgnoresListing(TextOrder(), Keys(xs), Keys(ys));
    var ids := Sort(TextOrder(), Keys(xs));
    forall i | 0 <= i < |ids| ensures CountersOf(ids[i], xs, window) == CountersOf(ids[i], ys, window) {
      CountersIgnoreOrder(ids[i], xs, ys, window);
    }
  }

  // ---- no row is lost and none is counted twice

  function RowsIn(ids: seq<string>, rows: seq<Task>): nat {
    if ids == [] then 0 else Count(Any, ids[0], rows) + RowsIn(ids[1..], rows)
  }

  /** Rows the four status counters of `projects` count, plus rows of any other status. */
  function Accounted(projects: seq<Counters>, rows: seq<Task>): nat {
    if projects == [] then 0
    else
      var c := projects[0];
      c.done + c.inProgress + c.review + c.cancelled
      + Count(OtherStatus, c.projectId, rows) + Accounted(projects[1..], rows)
  }

  lemma {:induction false} StatusesPartition(id: string, rows: seq<Task>, window: Bounds)
    ensures
      var c := CountersOf(id, rows, window);
      Count(Any, id, rows) ==
      c.done + c.inProgress + c.review + c.cancelled + Count(OtherStatus, id, rows)
  {
    if rows == [] {
    } else {
      StatusesPartition(id, rows[..|rows| - 1], window);
    }
  }

  lemma {:induction false} OneMoreRow(ids: seq<string>, rows: seq<Task>, t: Task)
    requires Distinct(ids)
    ensures RowsIn(ids, rows + [t]) == RowsIn(ids, rows) + if t.projectId in ids then 1 else 0
  {
    if ids == [] {
    } else {
      assert (rows + [t])[..|rows|] == rows;
      OneMoreRow(ids[1..], rows, t);
      assert ids == [ids[0]] + ids[1..];
    }
  }

  lemma {:induction false} EveryRowInOneProject(ids: seq<string>, rows: seq<Task>)
    requires Distinct(ids) && forall t :: t in rows ==> t.projectId in ids
    ensures RowsIn(ids, rows) == |rows|
  {
    if rows == [] {
      NoRows(ids);
    } else {
      var front, last := rows[..|rows| - 1], rows[|rows| - 1];
      assert rows == front + [last] && last in rows;
      EveryRowInOneProject(ids, front);
      OneMoreRow(ids, front, last);
    }
  }

  lemma {:induction false} NoRows(ids: seq<string>)
    ensures RowsIn(ids, []) == 0
  {
    if ids == [] {
    } else {
      NoRows(ids[1..]);
    }
  }

  lemma {:induction false} AccountedIsRowsIn(ids: seq<string>, rows: seq<Task>, window: Bounds)
    ensures Accounted(seq(|ids|, i requires 0 <= i < |ids| => CountersOf(ids[i], rows, window)), rows) == RowsIn(ids, rows)
  {
    if ids == [] {
    } else {
      var all := seq(|ids|, i requires 0 <= i < |ids| => CountersOf(ids[i], rows, window));
      var rest := ids[1..];
      StatusesPartition(ids[0], rows, window);
      AccountedIsRowsIn(rest, rows, window);
      assert all[1..] == seq(|rest|, i requires 0 <= i < |rest| => CountersOf(rest[i], rows, window));
    }
  }

  /** Over all projects the four counters and the rows of other statuses add up to `received`. */
  lemma SummaryConservesRows(rows: seq<Task>, window: Bounds)
    ensures Accounted(Projects(rows, window), rows) == |rows|
  {
    var ids := Sort(TextOrder(), Keys(rows));
    KeysAreProjects(rows);
    SortedKeys(rows);
    DistinctFromBag(ids, Keys(rows));
    AccountedIsRowsIn(ids, rows, window);
    EveryRowInOneProject(ids, rows);
  }

  lemma DistinctFromBag(xs: seq<string>, ys: seq<string>)
    requires multiset(xs) == multiset(ys) && Distinct(ys)
    ensures Distinct(xs)
  {
    forall i, j | 0 <= i < j < |xs| ensures xs[i] != xs[j] {
      DistinctCount(ys, xs[j]);
      assert xs == xs[..j] + [xs[j]] + xs[j + 1..];
      assert multiset(xs)[xs[j]] == multiset(xs[..j])[xs[j]] + 1 + multiset(xs[j + 1..])[xs[j]];
      assert xs[..j][i] == xs[i];
    }
  }
}
