/** `readBacklogTopN` of apps/assistant/src/proactive/muneral-reader.service.ts. */
module Backlog {
  import opened Common
  import opened Sorting
  import opened Paging
  import Titles

  const CRITICAL := "critical"
  const HIGH := "high"
  const MEDIUM := "medium"
  const LOW := "low"

  function LabelOf(priority: string): string {
    if priority == CRITICAL then "P0"
    else if priority == HIGH then "P1"
    else if priority == MEDIUM then "P2"
    else if priority == LOW then "P3"
    else "P?"
  }

  /** `PRIORITY_ORDER.find((p) => PRIORITY_LABEL[p] === label)` */
  function PriorityOf(name: string): Option<string> {
    if name == "P0" then Some(CRITICAL)
    else if name == "P1" then Some(HIGH)
    else if name == "P2" then Some(MEDIUM)
    else if name == "P3" then Some(LOW)
    else None
  }

  /** `PRIORITY_ORDER.indexOf(task.priority ?? 'low')` */
  function Rank(task: Task): int {
    var priority := if task.priority.Some? then task.priority.value else LOW;
    if priority == CRITICAL then 0
    else if priority == HIGH then 1
    else if priority == MEDIUM then 2
    else if priority == LOW then 3
    else -1
  }

  datatype BacklogItem = BacklogItem(id: Option<string>, title: string, priority: string)

  datatype BacklogResult =
    | Unread(reason: string)
    | Backlog(items: seq<BacklogItem>, total: nat, truncated: bool, sourceTotal: Option<nat>)

  function ItemOf(task: Task): BacklogItem {
    var shown := Titles.DisplayTitle(task.title);
    BacklogItem(shown.id, shown.title, if task.priority.Some? then LabelOf(task.priority.value) else "P?")
  }

  /** The priorities a list of labels asks for; an unknown label asks for none. */
  ghost function Wanted(labels: seq<string>): set<string> {
    set p | p in {CRITICAL, HIGH, MEDIUM, LOW} && LabelOf(p) in labels
  }

  function HasPriority(priority: string): Task -> bool {
    (task: Task) => task.priority == Some(priority)
  }

  function IsWanted(wanted: set<string>): Task -> bool {
    (task: Task) => task.priority.Some? && task.priority.value in wanted
  }

  function ByRank(): (Task, Task) -> bool {
    (a: Task, b: Task) => Rank(a) <= Rank(b)
  }

  function RowsOf(wanted: set<string>, priority: string, rows: seq<Task>): seq<Task> {
    if priority in wanted then Filter(HasPriority(priority), rows) else []
  }

  /**
   * The specification: all wanted rows of the highest priority in the order they were read,
   * then all of the next, and so on.
   */
  function Ranked(wanted: set<string>, rows: seq<Task>): seq<Task> {
    RowsOf(wanted, CRITICAL, rows) + RowsOf(wanted, HIGH, rows)
    + RowsOf(wanted, MEDIUM, rows) + RowsOf(wanted, LOW, rows)
  }

  method ReadBacklogTopN(page: SourceResult<Task>, n: int, labels: seq<string>) returns (r: BacklogResult)
    ensures n <= 0 ==> r == Backlog([], 0, false, None)
    ensures n > 0 && page.NotOk? ==> r == Unread(page.reason)
    ensures n > 0 && page.Rows? ==>
      var ranked := Ranked(Wanted(labels), page.items);
      r == Backlog(Map(ItemOf, ranked[..Min(n, |ranked|)]), |ranked|, page.truncated, Some(page.total))
  {
    if n <= 0 { return Backlog([], 0, false, None); }
    var wanted: set<string> := {};
    for i := 0 to |labels|
      invariant wanted == Wanted(labels[..i])
    {
      assert labels[..i + 1] == labels[..i] + [labels[i]];
      match PriorityOf(labels[i])
      case Some(p) => wanted := wanted + {p};
      case None =>
    }
    assert labels[..|labels|] == labels;
    if page.NotOk? { return Unread(page.reason); }
    var matching := Sort(ByRank(), Filter(IsWanted(wanted), page.items));
    SortingIsRanking(wanted, page.items);
    r := Backlog(Map(ItemOf, matching[..Min(n, |matching|)]), |matching|, page.truncated, Some(page.total));
  }

  /** The filter, stable sort and slice of the source yield the specification. */
  lemma SortingIsRanking(wanted: set<string>, rows: seq<Task>)
    requires wanted <= {CRITICAL, HIGH, MEDIUM, LOW}
    ensures Sort(ByRank(), Filter(IsWanted(wanted), rows)) == Ranked(wanted, rows)
  {
    var sorted := Sort(ByRank(), Filter(IsWanted(wanted), rows));
    SortedAreWanted(wanted, rows);
    SortedIsBuckets(sorted);
    BucketOfSorted(wanted, CRITICAL, rows);
    BucketOfSorted(wanted, HIGH, rows);
    BucketOfSorted(wanted, MEDIUM, rows);
    BucketOfSorted(wanted, LOW, rows);
  }

  lemma SortedAreWanted(wanted: set<string>, rows: seq<Task>)
    ensures
      var sorted := Sort(ByRank(), Filter(IsWanted(wanted), rows));
      SortedBy(ByRank(), sorted) && forall t :: t in sorted ==> t.priority.Some? && t.priority.value in wanted
  {
    var sorted := Sort(ByRank(), Filter(IsWanted(wanted), rows));
    SortSorts(ByRank(), Filter(IsWanted(wanted), rows));
    forall t | t in sorted ensures IsWanted(wanted)(t) {
      assert t in multiset(sorted);
      assert t in Filter(IsWanted(wanted), rows);
      FilterMembers(IsWanted(wanted), rows, t);
    }
  }

  lemma BucketOfSorted(wanted: set<string>, priority: string, rows: seq<Task>)
    ensures Filter(HasPriority(priority), Sort(ByRank(), Filter(IsWanted(wanted), rows))) ==
            RowsOf(wanted, priority, rows)
  {
    SortStable(ByRank(), Filter(IsWanted(wanted), rows), HasPriority(priority));
    FilterTwice(wanted, priority, rows);
  }

  lemma {:induction false} FilterTwice(wanted: set<string>, priority: string, rows: seq<Task>)
    ensures Filter(HasPriority(priority), Filter(IsWanted(wanted), rows)) == RowsOf(wanted, priority, rows)
  {
    if rows == [] {
    } else {
      FilterTwice(wanted, priority, rows[1..]);
      if IsWanted(wanted)(rows[0]) {
        var rest := Filter(IsWanted(wanted), rows[1..]);
        assert ([rows[0]] + rest)[1..] == rest;
      }
    }
  }

  lemma {:induction false} NoneOf(priority: string, rows: seq<Task>)
    requires forall t :: t in rows ==> t.priority != Some(priority)
    ensures Filter(HasPriority(priority), rows) == []
  {
    if rows == [] {
    } else {
      NoneOf(priority, rows[1..]);
    }
  }

  /** A list in rank order is the concatenation of its four priorities. */
  lemma {:induction false} SortedIsBuckets(rows: seq<Task>)
    requires SortedBy(ByRank(), rows)
    requires forall t :: t in rows ==> t.priority.Some? && t.priority.value in {CRITICAL, HIGH, MEDIUM, LOW}
    ensures rows == Filter(HasPriority(CRITICAL), rows) + Filter(HasPriority(HIGH), rows)
                    + Filter(HasPriority(MEDIUM), rows) + Filter(HasPriority(LOW), rows)
  {
    if rows == [] {
    } else {
      var first, rest := rows[0], rows[1..];
      SortedIsBuckets(rest);
      forall t | t in rest ensures Rank(first) <= Rank(t) {
        var i :| 0 <= i < |rest| && rest[i] == t;
        assert ByRank()(first, rows[i + 1]);
      }
      assert rows == [first] + rest;
      PrependToBuckets(first, rest);
    }
  }

  lemma PrependToBuckets(first: Task, rest: seq<Task>)
    requires first.priority.Some? && first.priority.value in {CRITICAL, HIGH, MEDIUM, LOW}
    requires forall t :: t in rest ==> Rank(first) <= Rank(t)
    ensures
      var p, q, r, s := HasPriority(CRITICAL), HasPriority(HIGH), HasPriority(MEDIUM), HasPriority(LOW);
      Filter(p, [first] + rest) + Filter(q, [first] + rest) + Filter(r, [first] + rest) + Filter(s, [first] + rest)
      == [first] + (Filter(p, rest) + Filter(q, rest) + Filter(r, rest) + Filter(s, rest))
  {
    FilterCons(HasPriority(CRITICAL), first, rest);
    FilterCons(HasPriority(HIGH), first, rest);
    FilterCons(HasPriority(MEDIUM), first, rest);
    FilterCons(HasPriority(LOW), first, rest);
    if Rank(first) > 0 { NoneOf(CRITICAL, rest); }
    if Rank(first) > 1 { NoneOf(HIGH, rest); }
    if Rank(first) > 2 { NoneOf(MEDIUM, rest); }
    PrependToFirstNonempty(first, Filter(HasPriority(CRITICAL), rest), Filter(HasPriority(HIGH), rest),
                           Filter(HasPriority(MEDIUM), rest), Filter(HasPriority(LOW), rest));
  }

  lemma PrependToFirstNonempty<T>(x: T, a: seq<T>, b: seq<T>, c: seq<T>, d: seq<T>)
    ensures ([x] + a) + b + c + d == [x] + (a + b + c + d)
    ensures a == [] ==> a + ([x] + b) + c + d == [x] + (a + b + c + d)
    ensures a == b == [] ==> a + b + ([x] + c) + d == [x] + (a + b + c + d)
    ensures a == b == c == [] ==> a + b + c + ([x] + d) == [x] + (a + b + c + d)
  {
  }

  /** What each label asks for, and how each priority is shown. */
  lemma LabelsAre(labels: seq<string>, priority: string, task: Task)
    ensures priority in Wanted(labels) <==>
            (priority == "critical" && "P0" in labels) || (priority == "high" && "P1" in labels)
            || (priority == "medium" && "P2" in labels) || (priority == "low" && "P3" in labels)
    ensures ItemOf(task).priority ==
            if task.priority == Some("critical") then "P0" else if task.priority == Some("high") then "P1"
            else if task.priority == Some("medium") then "P2" else if task.priority == Some("low") then "P3" else "P?"
    ensures ItemOf(task).id == Titles.DisplayTitle(task.title).id && ItemOf(task).title == Titles.DisplayTitle(task.title).title
  {
    assert |"critical"| == 8 && |"high"| == 4 && |"medium"| == 6 && |"low"| == 3;
  }

  /** No row left out of the first `n` outranks one that is in. */
  lemma TopIsBest(wanted: set<string>, rows: seq<Task>, i: nat, j: nat)
    requires wanted <= {CRITICAL, HIGH, MEDIUM, LOW}
    requires i < j < |Ranked(wanted, rows)|
    ensures Rank(Ranked(wanted, rows)[i]) <= Rank(Ranked(wanted, rows)[j])
  {
    SortingIsRanking(wanted, rows);
    SortSorts(ByRank(), Filter(IsWanted(wanted), rows));
    assert ByRank()(Ranked(wanted, rows)[i], Ranked(wanted, rows)[j]);
  }
}
