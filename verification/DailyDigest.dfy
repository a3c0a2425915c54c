/**
 * The digest from the board to the chat: `DigestAggregator.compose` of
 * apps/assistant/src/proactive/digest.aggregator.ts over the reads of muneral-reader.service.ts.
 */
module DailyDigest {
  import opened Common
  import opened MarkdownV2
  import opened Paging
  import opened Messages
  import Backlog
  import DailySummary
  import LocalMidnight
  import Titles

  const BACKLOG_TOMORROW_N := 3
  const DEFAULT_BACKLOG_PRIORITIES := ["P0", "P1"]

  /** What the reads answer of a board that stands still: everything, counted and ranked. */
  function SummaryOf(today: seq<Task>, window: LocalMidnight.Bounds): DailySummary.Summary {
    DailySummary.Summary(DailySummary.Projects(today, window), |today|, |today|, false)
  }

  ghost function TopOf(todo: seq<Task>): Backlog.BacklogResult {
    var ranked := Backlog.Ranked(Backlog.Wanted(DEFAULT_BACKLOG_PRIORITIES), todo);
    Backlog.Backlog(Map(Backlog.ItemOf, ranked[..Min(BACKLOG_TOMORROW_N, |ranked|)]), |ranked|, false, Some(|todo|))
  }

  function WithPriority(priority: string, todo: seq<Task>): seq<Task> {
    Filter((task: Task) => task.priority == Some(priority), todo)
  }

  /** The best three are of the critical ones, then of the high ones, and no other counts. */
  lemma TopIsUrgent(todo: seq<Task>)
    ensures
      var urgent, top := WithPriority("critical", todo) + WithPriority("high", todo), TopOf(todo);
      && top.total == |urgent| && top.sourceTotal == Some(|todo|) && !top.truncated
      && |top.items| == Min(3, |urgent|)
      && forall i :: 0 <= i < |top.items| ==> top.items[i] == Backlog.ItemOf(urgent[i])
  {
    var wanted := Backlog.Wanted(DEFAULT_BACKLOG_PRIORITIES);
    assert Backlog.LabelOf("critical") == "P0";
    assert Backlog.RowsOf(wanted, "critical", todo) == WithPriority("critical", todo);
  }

  /**
   * The whole way: while the two lists that are paged through stand still, however long they
   * are, the digest shows the counts of every row of the day and the best three of every
   * urgent row, says nothing of a partial read, and shows each text as it is.
   */
  method DigestOfStableBoard(
    runDate: string, date: int, zone: LocalMidnight.Zone, config: DigestConfig,
    todayServer: Server, ghost today: seq<Task>, todoServer: Server, ghost todo: seq<Task>,
    completed: SourceResult<Task>, archived: SourceResult<Task>
  ) returns (text: string, sections: seq<string>)
    requires Serves(todayServer, today) && DistinctIds(today) && |today| <= MAX_SAFE_INTEGER
    requires Serves(todoServer, todo) && DistinctIds(todo) && |todo| <= MAX_SAFE_INTEGER
    ensures
      var lines := DigestLines(runDate, config, SummaryOf(today, LocalMidnight.ZonedDayBounds(zone, date)),
                               Titles.Read(completed), Titles.Read(archived), TopOf(todo));
      Reads(text, Join(lines, Plain("\n"))) && ToPlain(text) == Strip(Text(Join(lines, Plain("\n"))))
    ensures sections == DigestSections(config)
  {
    var window := LocalMidnight.ZonedDayBounds(zone, date);
    var rows := FetchAllOfStableList(todayServer, today);
    var summary := DailySummary.ReadDailySummary(rows, window);
    var queued := FetchAllOfStableList(todoServer, todo);
    var top := Backlog.ReadBacklogTopN(queued, BACKLOG_TOMORROW_N, DEFAULT_BACKLOG_PRIORITIES);
    text, sections := ComposeDigest(runDate, config, summary, Titles.Read(completed), Titles.Read(archived), top);
    ghost var lines := DigestLines(runDate, config, summary, Titles.Read(completed), Titles.Read(archived), top);
    FallbackIsExactIff(text, Join(lines, Plain("\n")));
  }
}
