/**
 * The two daily messages, apps/assistant/src/proactive/digest.aggregator.ts and
 * briefing.aggregator.ts: what `compose` writes, and what Telegram shows of it.
 */
module Messages {
  import opened Common
  import opened MarkdownV2
  import opened Titles
  import opened Paging
  import opened Backlog
  import opened DailySummary

  datatype Snapshot = Snapshot(agents: int, events: int, approvals: int)

  /** `String(n)` of an integer. */
  function Decimal(n: int): string
    decreases if n < 0 then 1 - n else n
  {
    if n < 0 then "-" + Decimal(-n)
    else if n < 10 then [DIGITS[n]]
    else Decimal(n / 10) + [DIGITS[n % 10]]
  }

  const DIGITS := "0123456789"

  function ValueOf(digits: string): int {
    if digits == "" then 0
    else ValueOf(digits[..|digits| - 1]) * 10 + (digits[|digits| - 1] as int - '0' as int)
  }

  lemma DigitValue(d: int)
    requires 0 <= d < 10
    ensures DIGITS[d] as int - '0' as int == d
  {
  }

  lemma ValueSnoc(digits: string, c: char)
    ensures ValueOf(digits + [c]) == ValueOf(digits) * 10 + (c as int - '0' as int)
  {
    assert (digits + [c])[..|digits|] == digits;
  }

  lemma LastDigit(n: nat, front: string)
    requires ValueOf(front) == n / 10
    ensures ValueOf(front + [DIGITS[n % 10]]) == n
  {
    DigitValue(n % 10);
    ValueSnoc(front, DIGITS[n % 10]);
  }

  lemma FirstDigit(n: nat)
    requires n < 10
    ensures Decimal(n) == [DIGITS[n]] && ValueOf([DIGITS[n]]) == n
  {
    DigitValue(n);
    ValueSnoc("", DIGITS[n]);
    assert "" + [DIGITS[n]] == [DIGITS[n]];
  }

  lemma DecimalSnoc(n: nat)
    requires n >= 10
    ensures Decimal(n) == Decimal(n / 10) + [DIGITS[n % 10]]
  {
  }

  lemma {:induction false} DigitsReadBack(n: nat)
    ensures Decimal(n) != "" && ValueOf(Decimal(n)) == n
    decreases n
  {
    if n < 10 {
      FirstDigit(n);
    } else {
      DigitsReadBack(n / 10);
      LastDigit(n, Decimal(n / 10));
      DecimalSnoc(n);
    }
  }

  /** The digits are those of the number: read as a decimal they give it back. */
  lemma DecimalReadsBack(n: int)
    ensures n >= 0 ==> Decimal(n) != "" && ValueOf(Decimal(n)) == n
    ensures n < 0 ==> Decimal(n) == "-" + Decimal(-n) && ValueOf(Decimal(-n)) == -n
  {
    DigitsReadBack(if n < 0 then -n else n);
  }

  // ------------------------------------------------------------------ the wording

  const MAX_LISTED_IDS := 10
  const UNAVAILABLE := "⚠️ Muneral недоступен: "
  const INCOMPLETE := "(выборка неполная)"
  const MEANING := "Семантика: текущий статус уникальных строк, обновлённых за этот день; это не журнал переходов. «new» — createdAt внутри дня среди этих строк."
  const DASH := "— "
  const NONE := "— нет"
  const EMPTY := "— пусто"
  const NO_DATA := "Данные недоступны: "
  const NO_ROWS := "нет строк"
  const NO_SNAPSHOT := "⚠️ snapshot недоступен"
  const NOT_MEASURED := "NOT_MEASURED"
  const MAILBOX := "Collective mailbox opened/done today: " + NOT_MEASURED + " — нет подтверждённого поддерживаемого зеркала"

  function OrNotMeasured(n: Option<nat>): string {
    if n.Some? then Decimal(n.value) else NOT_MEASURED
  }

  function OrTotal(n: Option<nat>, total: nat): string {
    Decimal(n.Or(total))
  }

  function DigestCount(shown: nat, r: BacklogResult): string
    requires r.Backlog?
  {
    if r.truncated then
      "P0/P1: показано " + Decimal(shown) + "; найдено не менее " + Decimal(r.total) + ", всего todo: " + OrNotMeasured(r.sourceTotal)
    else
      "P0/P1: показано " + Decimal(shown) + " из " + Decimal(r.total) + " совпадений среди " + OrTotal(r.sourceTotal, r.total) + " задач todo"
  }

  function BriefingCount(shown: nat, r: BacklogResult): string
    requires r.Backlog?
  {
    if r.truncated then
      "показано " + Decimal(shown) + "; найдено не менее " + Decimal(r.total) + "; todo всего " + OrNotMeasured(r.sourceTotal)
    else
      "показано " + Decimal(shown) + " из " + Decimal(r.total) + " совпадений; todo всего " + OrTotal(r.sourceTotal, r.total)
  }

  function ProjectRow(p: Counters): string {
    p.projectId + ": done " + Decimal(p.done) + ", started (currently in_progress) " + Decimal(p.inProgress)
    + ", review " + Decimal(p.review) + ", cancelled " + Decimal(p.cancelled) + ", new " + Decimal(p.created)
  }

  function Completeness(s: Summary): string
    requires s.Summary?
  {
    if s.truncated then "Частичная выборка: получено " + Decimal(s.received) + " из " + Decimal(s.total) + " строк."
    else "Уникальные строки в выборке: " + Decimal(s.total) + "."
  }

  function SummaryTitle(runDate: string, timeZone: string): string {
    "Сводка Muneral за " + runDate + " (" + timeZone + ")"
  }

  function TopN(requested: nat): string {
    "Backlog top-" + Decimal(requested) + " P0/P1:"
  }

  function SnapshotRow(s: Snapshot): string {
    Decimal(s.agents) + " агентов, " + Decimal(s.events) + " событий, approvals " + Decimal(s.approvals)
  }

  // ------------------------------------------------------------------ which number a line gives as what

  predicate NoDigitFirst(text: string) { text == "" || !('0' <= text[0] <= '9') }

  predicate SaysAt(line: string, name: string, value: string, before: string, after: string) {
    line == before + (name + value) + after && NoDigitFirst(after)
  }

  /** Somewhere in the line the name stands before this text, and no digit runs on after it. */
  ghost predicate Says(line: string, name: string, value: string) {
    exists before, after :: SaysAt(line, name, value, before, after)
  }

  lemma SaysLast(before: string, name: string, value: string)
    ensures Says(before + name + value, name, value)
  {
    assert before + name + value == before + (name + value) + "";
    assert SaysAt(before + name + value, name, value, before, "");
  }

  lemma SaysStill(line: string, more: string, name: string, value: string)
    requires Says(line, name, value) && NoDigitFirst(more)
    ensures Says(line + more, name, value)
  {
    var before, after :| SaysAt(line, name, value, before, after);
    assert line + more == before + (name + value) + (after + more);
    assert SaysAt(line + more, name, value, before, after + more);
  }

  /** One more number on a line: it is said, and what was said before still is. */
  lemma OneMoreSaid(line: string, name: string, value: string)
    requires NoDigitFirst(name) && name != ""
    ensures Says(line + name + value, name, value)
    ensures forall n, v :: Says(line, n, v) ==> Says(line + name + value, n, v)
  {
    SaysLast(line, name, value);
    forall n, v | Says(line, n, v) ensures Says(line + name + value, n, v) {
      SaysStill(line, name + value, n, v);
      assert line + (name + value) == line + name + value;
    }
  }

  /** Each counter of a project stands behind its own name. */
  lemma RowSaysItsCounters(p: Counters)
    ensures Says(ProjectRow(p), ": done ", Decimal(p.done))
    ensures Says(ProjectRow(p), ", started (currently in_progress) ", Decimal(p.inProgress))
    ensures Says(ProjectRow(p), ", review ", Decimal(p.review))
    ensures Says(ProjectRow(p), ", cancelled ", Decimal(p.cancelled))
    ensures Says(ProjectRow(p), ", new ", Decimal(p.created))
  {
    FiveSaid(p.projectId, ": done ", Decimal(p.done), ", started (currently in_progress) ", Decimal(p.inProgress),
             ", review ", Decimal(p.review), ", cancelled ", Decimal(p.cancelled), ", new ", Decimal(p.created));
  }

  lemma FiveSaid(id: string, n1: string, v1: string, n2: string, v2: string, n3: string, v3: string,
                 n4: string, v4: string, n5: string, v5: string)
    requires n2 != "" && n3 != "" && n4 != "" && n5 != ""
    requires NoDigitFirst(n2) && NoDigitFirst(n3) && NoDigitFirst(n4) && NoDigitFirst(n5)
    ensures
      var line := id + n1 + v1 + n2 + v2 + n3 + v3 + n4 + v4 + n5 + v5;
      Says(line, n1, v1) && Says(line, n2, v2) && Says(line, n3, v3) && Says(line, n4, v4) && Says(line, n5, v5)
  {
    TwoSaid(id, n1, v1, n2, v2);
    ThreeSaid(id + n1 + v1 + n2 + v2, n3, v3, n4, v4, n5, v5);
  }

  lemma TwoSaid(line: string, n1: string, v1: string, n2: string, v2: string)
    requires n2 != "" && NoDigitFirst(n2)
    ensures Says(line + n1 + v1 + n2 + v2, n1, v1) && Says(line + n1 + v1 + n2 + v2, n2, v2)
  {
    SaysLast(line, n1, v1);
    OneMoreSaid(line + n1 + v1, n2, v2);
  }

  lemma ThreeSaid(line: string, n1: string, v1: string, n2: string, v2: string, n3: string, v3: string)
    requires n1 != "" && n2 != "" && n3 != "" && NoDigitFirst(n1) && NoDigitFirst(n2) && NoDigitFirst(n3)
    ensures var whole := line + n1 + v1 + n2 + v2 + n3 + v3;
            && Says(whole, n1, v1) && Says(whole, n2, v2) && Says(whole, n3, v3)
            && forall n, v :: Says(line, n, v) ==> Says(whole, n, v)
  {
    OneMoreSaid(line, n1, v1);
    OneMoreSaid(line + n1 + v1, n2, v2);
    OneMoreSaid(line + n1 + v1 + n2 + v2, n3, v3);
  }

  /** A total that was read stands as a number, whatever else; one that was not, as that or as the matches. */
  lemma DigestCountSaysItsNumbers(shown: nat, r: BacklogResult)
    requires r.Backlog?
    ensures Says(DigestCount(shown, r), "P0/P1: показано ", Decimal(shown))
    ensures Says(DigestCount(shown, r), if r.truncated then "; найдено не менее " else " из ", Decimal(r.total))
    ensures Says(DigestCount(shown, r), if r.truncated then ", всего todo: " else " совпадений среди ",
                 match r.sourceTotal case Some(n) => Decimal(n) case None => if r.truncated then "NOT_MEASURED" else Decimal(r.total))
  {
    SaysLast("", "P0/P1: показано ", Decimal(shown));
    assert "" + "P0/P1: показано " + Decimal(shown) == "P0/P1: показано " + Decimal(shown);
    var a := "P0/P1: показано " + Decimal(shown);
    if r.truncated {
      OneMoreSaid(a, "; найдено не менее ", Decimal(r.total));
      OneMoreSaid(a + "; найдено не менее " + Decimal(r.total), ", всего todo: ", OrNotMeasured(r.sourceTotal));
    } else {
      OneMoreSaid(a, " из ", Decimal(r.total));
      var b := a + " из " + Decimal(r.total);
      OneMoreSaid(b, " совпадений среди ", OrTotal(r.sourceTotal, r.total));
      EndsSaying(b + " совпадений среди " + OrTotal(r.sourceTotal, r.total), " задач todo");
    }
  }

  lemma BriefingCountSaysItsNumbers(shown: nat, r: BacklogResult)
    requires r.Backlog?
    ensures Says(BriefingCount(shown, r), "показано ", Decimal(shown))
    ensures Says(BriefingCount(shown, r), if r.truncated then "; найдено не менее " else " из ", Decimal(r.total))
    ensures Says(BriefingCount(shown, r), if r.truncated then "; todo всего " else " совпадений; todo всего ",
                 match r.sourceTotal case Some(n) => Decimal(n) case None => if r.truncated then "NOT_MEASURED" else Decimal(r.total))
  {
    SaysLast("", "показано ", Decimal(shown));
    assert "" + "показано " + Decimal(shown) == "показано " + Decimal(shown);
    var a := "показано " + Decimal(shown);
    if r.truncated {
      OneMoreSaid(a, "; найдено не менее ", Decimal(r.total));
      OneMoreSaid(a + "; найдено не менее " + Decimal(r.total), "; todo всего ", OrNotMeasured(r.sourceTotal));
    } else {
      OneMoreSaid(a, " из ", Decimal(r.total));
      OneMoreSaid(a + " из " + Decimal(r.total), " совпадений; todo всего ", OrTotal(r.sourceTotal, r.total));
    }
  }

  /** A partial read says both what came and what there is, a whole one how much there is. */
  lemma CompletenessSaysItsNumbers(s: Summary)
    requires s.Summary?
    ensures s.truncated ==> Says(Completeness(s), "Частичная выборка: получено ", Decimal(s.received))
    ensures Says(Completeness(s), if s.truncated then " из " else "Уникальные строки в выборке: ", Decimal(s.total))
  {
    if s.truncated {
      SaysLast("", "Частичная выборка: получено ", Decimal(s.received));
      var a := "Частичная выборка: получено " + Decimal(s.received);
      assert "" + "Частичная выборка: получено " + Decimal(s.received) == a;
      OneMoreSaid(a, " из ", Decimal(s.total));
      EndsSaying(a + " из " + Decimal(s.total), " строк.");
    } else {
      SaysLast("", "Уникальные строки в выборке: ", Decimal(s.total));
      assert "" + "Уникальные строки в выборке: " + Decimal(s.total) == "Уникальные строки в выборке: " + Decimal(s.total);
      EndsSaying("Уникальные строки в выборке: " + Decimal(s.total), ".");
    }
  }

  /** The agents come first, the others behind the name that stands before them. */
  lemma SnapshotRowSaysItsNumbers(s: Snapshot)
    ensures Decimal(s.agents) + " агентов, " <= SnapshotRow(s)
    ensures Says(SnapshotRow(s), " агентов, ", Decimal(s.events))
    ensures Says(SnapshotRow(s), " событий, approvals ", Decimal(s.approvals))
  {
    var a := Decimal(s.agents);
    SaysLast(a, " агентов, ", Decimal(s.events));
    OneMoreSaid(a + " агентов, " + Decimal(s.events), " событий, approvals ", Decimal(s.approvals));
  }

  lemma EndsSaying(line: string, more: string)
    requires NoDigitFirst(more)
    ensures forall n, v :: Says(line, n, v) ==> Says(line + more, n, v)
  {
    forall n, v | Says(line, n, v) ensures Says(line + more, n, v) { SaysStill(line, more, n, v); }
  }

  // ------------------------------------------------------------------ the renderers

  /** An absent id and an empty one are both falsy. */
  predicate Named(id: Option<string>) { id.Some? && id.value != "" }

  function FormatTask(id: Option<string>, title: string): string {
    if Named(id) then EscapeMd(id.value) + ": " + EscapeMd(title) else EscapeMd(title)
  }

  function Degraded(reason: string): string {
    EscapeMd(UNAVAILABLE + reason)
  }

  function Partial(truncated: bool): string {
    if truncated then " " + EscapeMd(INCOMPLETE) else ""
  }

  function Bullet(i: Item): string { "\\- " + FormatTask(i.id, i.title) }

  function QueuedEntry(q: BacklogItem): string { EscapeMd(q.priority) + ": " + FormatTask(q.id, q.title) }

  function QueuedBullet(q: BacklogItem): string { "\\- " + QueuedEntry(q) }

  /** `renderCompleted` and `renderArchived`, which differ in their header alone. */
  function TasksMd(title: string, r: SourceResult<Item>): string {
    Bold(title) +
    if r.NotOk? then "\n" + EscapeMd(DASH) + Degraded(r.reason)
    else if |r.items| == 0 then "\n" + EscapeMd(NONE)
    else "\n" + Join(Map(Bullet, r.items), "\n") + Partial(r.truncated)
  }

  function DigestBacklogMd(r: BacklogResult): string {
    Bold("В очереди на завтра") +
    if r.Unread? then "\n" + EscapeMd(DASH) + Degraded(r.reason)
    else
      "\n" + EscapeMd(DigestCount(|r.items|, r)) + "\n"
      + ((if |r.items| > 0 then Join(Map(QueuedBullet, r.items), "\n") else EscapeMd(EMPTY)) + Partial(r.truncated))
  }

  function EscapedRow(p: Counters): string { EscapeMd(ProjectRow(p)) }

  /** The lines below the header. */
  function SummaryLines(s: Summary): seq<string>
    requires s.Summary?
  {
    [EscapeMd(MEANING)]
    + (if |s.projects| > 0 then Map(EscapedRow, s.projects) else [EscapeMd(NO_ROWS)])
    + [EscapeMd(Completeness(s)), EscapeMd(MAILBOX + ".")]
  }

  function SummaryMd(s: Summary, runDate: string, timeZone: string): string {
    var header := Bold(SummaryTitle(runDate, timeZone));
    if s.Unread? then
      header + ("\n" + EscapeMd(NO_DATA) + Degraded(s.reason) + "\n" + EscapeMd(MAILBOX))
    else
      Join([header] + SummaryLines(s), "\n")
  }

  function SnapshotMd(s: Option<Snapshot>): string {
    Bold("Сервисы:") + (" " + EscapeMd(if s.None? then NO_SNAPSHOT else SnapshotRow(s.value)))
  }

  function FormatItem(i: Item): string { FormatTask(i.id, i.title) }

  function ActiveMd(r: SourceResult<Item>): string {
    Bold("Активные задачи:") +
    if r.NotOk? then " " + Degraded(r.reason)
    else if r.total == 0 then " " + EscapeMd("нет")
    else
      var shown := Listed(r.items);
      var more := if r.total > |shown| then EscapeMd(", …ещё " + Decimal(r.total - |shown|)) else "";
      " " + EscapeMd(Decimal(r.total)) + " \\(" + (Join(Map(FormatItem, shown), ", ") + more + "\\)")
  }

  /** `.slice(0, MAX_LISTED_IDS)` */
  function Listed(items: seq<Item>): seq<Item> {
    if |items| <= MAX_LISTED_IDS then items else items[..MAX_LISTED_IDS]
  }

  function BriefingBacklogMd(r: BacklogResult, requested: nat): string {
    Bold(TopN(requested)) +
    if r.Unread? then " " + Degraded(r.reason)
    else
      " " + EscapeMd(BriefingCount(|r.items|, r)) + "; "
      + ((if |r.items| > 0 then Join(Map(QueuedEntry, r.items), ", ") else EscapeMd("пусто")) + Partial(r.truncated))
  }

  // ------------------------------------------------------------------ what they are to show

  function TaskText(id: Option<string>, title: string): string {
    if Named(id) then id.value + ": " + title else title
  }

  function BulletText(i: Item): string { "- " + TaskText(i.id, i.title) }

  function ItemText(i: Item): string { TaskText(i.id, i.title) }

  function QueuedText(q: BacklogItem): string { q.priority + ": " + TaskText(q.id, q.title) }

  function QueuedBulletText(q: BacklogItem): string { "- " + QueuedText(q) }

  function PartialText(truncated: bool): string {
    if truncated then " " + INCOMPLETE else ""
  }

  function TasksText(r: SourceResult<Item>): string {
    if r.NotOk? then "\n" + DASH + (UNAVAILABLE + r.reason)
    else if |r.items| == 0 then "\n" + NONE
    else "\n" + Join(Map(BulletText, r.items), "\n") + PartialText(r.truncated)
  }

  function DigestBacklogText(r: BacklogResult): string {
    if r.Unread? then "\n" + DASH + (UNAVAILABLE + r.reason)
    else
      "\n" + DigestCount(|r.items|, r) + "\n"
      + ((if |r.items| > 0 then Join(Map(QueuedBulletText, r.items), "\n") else EMPTY) + PartialText(r.truncated))
  }

  function SummaryTexts(s: Summary): seq<string>
    requires s.Summary?
  {
    [MEANING]
    + (if |s.projects| > 0 then Map(ProjectRow, s.projects) else [NO_ROWS])
    + [Completeness(s), MAILBOX + "."]
  }

  function SummaryText(s: Summary): string {
    if s.Unread? then "\n" + NO_DATA + (UNAVAILABLE + s.reason) + "\n" + MAILBOX
    else "\n" + Join(SummaryTexts(s), "\n")
  }

  function SnapshotText(s: Option<Snapshot>): string {
    " " + if s.None? then NO_SNAPSHOT else SnapshotRow(s.value)
  }

  function ActiveText(r: SourceResult<Item>): string {
    if r.NotOk? then " " + (UNAVAILABLE + r.reason)
    else if r.total == 0 then " " + "нет"
    else
      var shown := r.items[..Min(10, |r.items|)];
      var more := if r.total > |shown| then ", …ещё " + Decimal(r.total - |shown|) else "";
      " " + Decimal(r.total) + " (" + (Join(Map(ItemText, shown), ", ") + more + ")")
  }

  function BriefingBacklogText(r: BacklogResult): string {
    if r.Unread? then " " + (UNAVAILABLE + r.reason)
    else
      " " + BriefingCount(|r.items|, r) + "; "
      + ((if |r.items| > 0 then Join(Map(QueuedText, r.items), ", ") else "пусто") + PartialText(r.truncated))
  }

  // ------------------------------------------------------------------ they show it

  /** `md` shows `text`, none of it bold. */
  predicate Shows(md: string, text: string) {
    Reads(md, Plain(text))
  }

  lemma ShowsAppend(a: string, x: string, b: string, y: string)
    requires Shows(a, x) && Shows(b, y)
    ensures Shows(a + b, x + y)
  {
    ReadsAppend(a, Plain(x), b, Plain(y));
    assert Plain(x + y) == Plain(x) + Plain(y);
  }

  /** The separators the renderers write as they are need no escaping. */
  lemma SeparatorsShow()
    ensures Shows("", "") && Shows("\n", "\n") && Shows(" ", " ") && Shows(": ", ": ")
    ensures Shows(", ", ", ") && Shows("; ", "; ")
  {
    PlainShowsItself("");
    PlainShowsItself("\n");
    PlainShowsItself(" ");
    PlainShowsItself(": ");
    PlainShowsItself(", ");
    PlainShowsItself("; ");
  }

  lemma ByHand(c: char)
    requires Special(c)
    ensures Shows(['\\', c], [c])
  {
    EscapedReads([c]);
    assert EscapeMd([c]) == ['\\', c];
  }

  /** The dash and the parentheses are escaped by hand. */
  lemma BulletShowsDash()
    ensures Shows("\\- ", "- ")
  {
    ByHand('-');
    PlainShowsItself(" ");
    ShowsAppend("\\-", "-", " ", " ");
    assert "\\-" + " " == "\\- " && "-" + " " == "- ";
  }

  lemma ParenthesesShow()
    ensures Shows(" \\(", " (") && Shows("\\)", ")")
  {
    ByHand('(');
    ByHand(')');
    PlainShowsItself(" ");
    ShowsAppend(" ", " ", "\\(", "(");
    assert " " + "\\(" == " \\(" && " " + "(" == " (";
  }

  lemma ShowsThree(a: string, x: string, b: string, y: string, c: string, z: string)
    requires Shows(a, x) && Shows(b, y) && Shows(c, z)
    ensures Shows(a + b + c, x + y + z)
  {
    ShowsAppend(a, x, b, y);
    ShowsAppend(a + b, x + y, c, z);
  }

  /** A bold header and what follows it. */
  lemma HeadedReads(title: string, md: string, text: string)
    requires Shows(md, text)
    ensures Reads(Bold(title) + md, Strong(title) + Plain(text))
  {
    BoldReads(title);
    ReadsAppend(Bold(title), Strong(title), md, Plain(text));
  }

  lemma {:induction false} JoinReads(mds: seq<string>, shown: seq<seq<Glyph>>, sep: string, sepShown: seq<Glyph>)
    requires |mds| == |shown| && forall i :: 0 <= i < |mds| ==> Reads(mds[i], shown[i])
    requires Reads(sep, sepShown)
    ensures Reads(Join(mds, sep), Join(shown, sepShown))
  {
    if |mds| <= 1 {
    } else {
      JoinReads(mds[1..], shown[1..], sep, sepShown);
      ReadsAppend(mds[0], shown[0], sep, sepShown);
      ReadsAppend(mds[0] + sep, shown[0] + sepShown, Join(mds[1..], sep), Join(shown[1..], sepShown));
    }
  }

  lemma {:induction false} JoinShows(mds: seq<string>, texts: seq<string>, sep: string)
    requires |mds| == |texts| && forall i :: 0 <= i < |mds| ==> Shows(mds[i], texts[i])
    requires Shows(sep, sep)
    ensures Shows(Join(mds, sep), Join(texts, sep))
  {
    if |mds| == 0 {
      SeparatorsShow();
    } else if |mds| > 1 {
      JoinShows(mds[1..], texts[1..], sep);
      ShowsThree(mds[0], texts[0], sep, sep, Join(mds[1..], sep), Join(texts[1..], sep));
    }
  }

  lemma FormatTaskShows(id: Option<string>, title: string)
    ensures Shows(FormatTask(id, title), TaskText(id, title))
    ensures TaskText(id, title) == match id case None => title case Some(t) => if |t| > 0 then t + ": " + title else title
  {
    EscapedReads(title);
    if Named(id) {
      SeparatorsShow();
      EscapedReads(id.value);
      ShowsThree(EscapeMd(id.value), id.value, ": ", ": ", EscapeMd(title), title);
    }
  }

  lemma BulletShows(i: Item)
    ensures Shows(Bullet(i), BulletText(i))
  {
    SeparatorsShow();
    BulletShowsDash();
    FormatTaskShows(i.id, i.title);
    ShowsAppend("\\- ", "- ", FormatTask(i.id, i.title), TaskText(i.id, i.title));
  }

  lemma QueuedShows(q: BacklogItem)
    ensures Shows(QueuedEntry(q), QueuedText(q)) && Shows(QueuedBullet(q), QueuedBulletText(q))
  {
    SeparatorsShow();
    BulletShowsDash();
    EscapedReads(q.priority);
    FormatTaskShows(q.id, q.title);
    ShowsThree(EscapeMd(q.priority), q.priority, ": ", ": ", FormatTask(q.id, q.title), TaskText(q.id, q.title));
    ShowsAppend("\\- ", "- ", QueuedEntry(q), QueuedText(q));
  }

  lemma PartialShows(truncated: bool)
    ensures Shows(Partial(truncated), PartialText(truncated))
  {
    SeparatorsShow();
    EscapedReads(INCOMPLETE);
    ShowsAppend(" ", " ", EscapeMd(INCOMPLETE), INCOMPLETE);
  }

  lemma DegradedShows(reason: string)
    ensures Shows(Degraded(reason), UNAVAILABLE + reason)
  {
    EscapedReads(UNAVAILABLE + reason);
  }

  /** A separator, a dash, and the marker of a source that did not answer. */
  lemma DashDegradedShows(lead: string, reason: string)
    ensures Shows("\n" + EscapeMd(lead) + Degraded(reason), "\n" + lead + (UNAVAILABLE + reason))
  {
    SeparatorsShow();
    EscapedReads(lead);
    DegradedShows(reason);
    ShowsThree("\n", "\n", EscapeMd(lead), lead, Degraded(reason), UNAVAILABLE + reason);
  }

  lemma SpacedShows(sep: string, text: string)
    requires Shows(sep, sep)
    ensures Shows(sep + EscapeMd(text), sep + text)
  {
    EscapedReads(text);
    ShowsAppend(sep, sep, EscapeMd(text), text);
  }

  lemma SpacedDegradedShows(reason: string)
    ensures Shows(" " + Degraded(reason), " " + (UNAVAILABLE + reason))
  {
    SeparatorsShow();
    DegradedShows(reason);
    ShowsAppend(" ", " ", Degraded(reason), UNAVAILABLE + reason);
  }

  lemma BulletsShow(items: seq<Item>)
    ensures Shows(Join(Map(Bullet, items), "\n"), Join(Map(BulletText, items), "\n"))
  {
    SeparatorsShow();
    forall i | 0 <= i < |items| ensures Shows(Bullet(items[i]), BulletText(items[i])) { BulletShows(items[i]); }
    JoinShows(Map(Bullet, items), Map(BulletText, items), "\n");
  }

  lemma TasksRead(title: string, r: SourceResult<Item>)
    ensures Reads(TasksMd(title, r), Strong(title) + Plain(TasksText(r)))
  {
    SeparatorsShow();
    if r.NotOk? {
      DashDegradedShows(DASH, r.reason);
      HeadedReads(title, "\n" + EscapeMd(DASH) + Degraded(r.reason), TasksText(r));
    } else if |r.items| == 0 {
      SpacedShows("\n", NONE);
      HeadedReads(title, "\n" + EscapeMd(NONE), TasksText(r));
    } else {
      var md, text := Join(Map(Bullet, r.items), "\n"), Join(Map(BulletText, r.items), "\n");
      BulletsShow(r.items);
      PartialShows(r.truncated);
      ShowsThree("\n", "\n", md, text, Partial(r.truncated), PartialText(r.truncated));
      HeadedReads(title, "\n" + md + Partial(r.truncated), TasksText(r));
    }
  }

  lemma QueueShows(items: seq<BacklogItem>)
    ensures Shows(Join(Map(QueuedBullet, items), "\n"), Join(Map(QueuedBulletText, items), "\n"))
    ensures Shows(Join(Map(QueuedEntry, items), ", "), Join(Map(QueuedText, items), ", "))
  {
    SeparatorsShow();
    forall i | 0 <= i < |items|
      ensures Shows(QueuedBullet(items[i]), QueuedBulletText(items[i])) && Shows(QueuedEntry(items[i]), QueuedText(items[i]))
    {
      QueuedShows(items[i]);
    }
    JoinShows(Map(QueuedBullet, items), Map(QueuedBulletText, items), "\n");
    JoinShows(Map(QueuedEntry, items), Map(QueuedText, items), ", ");
  }

  /** A count line, then the entries or the word for none, then the marker of a partial read. */
  lemma CountedShows(before: string, count: string, sep: string, body: string, text: string, truncated: bool)
    requires Shows(before, before) && Shows(sep, sep) && Shows(body, text)
    ensures Shows(before + EscapeMd(count) + sep + (body + Partial(truncated)),
                  before + count + sep + (text + PartialText(truncated)))
  {
    EscapedReads(count);
    PartialShows(truncated);
    ShowsAppend(body, text, Partial(truncated), PartialText(truncated));
    ShowsThree(before, before, EscapeMd(count), count, sep, sep);
    ShowsAppend(before + EscapeMd(count) + sep, before + count + sep,
                body + Partial(truncated), text + PartialText(truncated));
  }

  lemma DigestBacklogReads(r: BacklogResult)
    ensures Reads(DigestBacklogMd(r), Strong("В очереди на завтра") + Plain(DigestBacklogText(r)))
  {
    SeparatorsShow();
    if r.Unread? {
      DashDegradedShows(DASH, r.reason);
      HeadedReads("В очереди на завтра", "\n" + EscapeMd(DASH) + Degraded(r.reason), DigestBacklogText(r));
    } else {
      var count := DigestCount(|r.items|, r);
      var body := if |r.items| > 0 then Join(Map(QueuedBullet, r.items), "\n") else EscapeMd(EMPTY);
      var text := if |r.items| > 0 then Join(Map(QueuedBulletText, r.items), "\n") else EMPTY;
      QueueShows(r.items);
      EscapedReads(EMPTY);
      CountedShows("\n", count, "\n", body, text, r.truncated);
      HeadedReads("В очереди на завтра", "\n" + EscapeMd(count) + "\n" + (body + Partial(r.truncated)), DigestBacklogText(r));
    }
  }

  lemma BriefingBacklogReads(r: BacklogResult, requested: nat)
    ensures Reads(BriefingBacklogMd(r, requested), Strong(TopN(requested)) + Plain(BriefingBacklogText(r)))
  {
    SeparatorsShow();
    if r.Unread? {
      SpacedDegradedShows(r.reason);
      HeadedReads(TopN(requested), " " + Degraded(r.reason), BriefingBacklogText(r));
    } else {
      var count := BriefingCount(|r.items|, r);
      var body := if |r.items| > 0 then Join(Map(QueuedEntry, r.items), ", ") else EscapeMd("пусто");
      var text := if |r.items| > 0 then Join(Map(QueuedText, r.items), ", ") else "пусто";
      QueueShows(r.items);
      EscapedReads("пусто");
      CountedShows(" ", count, "; ", body, text, r.truncated);
      HeadedReads(TopN(requested), " " + EscapeMd(count) + "; " + (body + Partial(r.truncated)), BriefingBacklogText(r));
    }
  }

  lemma SnapshotReads(s: Option<Snapshot>)
    ensures Reads(SnapshotMd(s), Strong("Сервисы:") + Plain(SnapshotText(s)))
  {
    SeparatorsShow();
    var text := if s.None? then NO_SNAPSHOT else SnapshotRow(s.value);
    SpacedShows(" ", text);
    HeadedReads("Сервисы:", " " + EscapeMd(text), SnapshotText(s));
  }

  /** `\\(`, the listed tasks, how many more there are, `\\)`. */
  lemma ListedShows(items: seq<Item>, more: string, moreText: string)
    requires Shows(more, moreText)
    ensures Shows(Join(Map(FormatItem, items), ", ") + more + "\\)", Join(Map(ItemText, items), ", ") + moreText + ")")
  {
    SeparatorsShow();
    ParenthesesShow();
    forall i | 0 <= i < |items| ensures Shows(FormatItem(items[i]), ItemText(items[i])) {
      FormatTaskShows(items[i].id, items[i].title);
    }
    JoinShows(Map(FormatItem, items), Map(ItemText, items), ", ");
    ShowsThree(Join(Map(FormatItem, items), ", "), Join(Map(ItemText, items), ", "), more, moreText, "\\)", ")");
  }

  /** The count and the parenthesised list. */
  lemma CountAndListShow(count: string, md: string, text: string)
    requires Shows(md, text)
    ensures Shows(" " + EscapeMd(count) + " \\(" + md, " " + count + " (" + text)
  {
    SeparatorsShow();
    ParenthesesShow();
    SpacedShows(" ", count);
    ShowsThree(" " + EscapeMd(count), " " + count, " \\(", " (", md, text);
  }

  lemma ActiveListReads(r: SourceResult<Item>)
    requires r.Rows? && r.total != 0
    ensures Reads(ActiveMd(r), Strong("Активные задачи:") + Plain(ActiveText(r)))
  {
    var shown := Listed(r.items);
    assert shown == r.items[..Min(10, |r.items|)];
    var rest := if r.total > |shown| then ", …ещё " + Decimal(r.total - |shown|) else "";
    EscapedReads(rest);
    ListedShows(shown, EscapeMd(rest), rest);
    var md := Join(Map(FormatItem, shown), ", ") + EscapeMd(rest) + "\\)";
    var text := Join(Map(ItemText, shown), ", ") + rest + ")";
    CountAndListShow(Decimal(r.total), md, text);
    HeadedReads("Активные задачи:", " " + EscapeMd(Decimal(r.total)) + " \\(" + md, ActiveText(r));
  }

  lemma ActiveReads(r: SourceResult<Item>)
    ensures Reads(ActiveMd(r), Strong("Активные задачи:") + Plain(ActiveText(r)))
  {
    SeparatorsShow();
    if r.NotOk? {
      SpacedDegradedShows(r.reason);
      HeadedReads("Активные задачи:", " " + Degraded(r.reason), ActiveText(r));
    } else if r.total == 0 {
      SpacedShows(" ", "нет");
      HeadedReads("Активные задачи:", " " + EscapeMd("нет"), ActiveText(r));
    } else {
      ActiveListReads(r);
    }
  }

  lemma Associative<T>(a: seq<T>, b: seq<T>, c: seq<T>)
    ensures a + b + c == a + (b + c)
  {
  }

  lemma JoinCons(header: string, lines: seq<string>, sep: string)
    requires |lines| > 0
    ensures Join([header] + lines, sep) == header + (sep + Join(lines, sep))
  {
    assert ([header] + lines)[1..] == lines;
    Associative(header, sep, Join(lines, sep));
  }

  lemma AllShow(first: string, rows: seq<string>, texts: seq<string>, x: string, y: string)
    requires |rows| == |texts| && forall i :: 0 <= i < |rows| ==> Shows(rows[i], texts[i])
    ensures
      Shows(Join([EscapeMd(first)] + rows + [EscapeMd(x), EscapeMd(y)], "\n"), Join([first] + texts + [x, y], "\n"))
  {
    var mds, shown := [EscapeMd(first)] + rows + [EscapeMd(x), EscapeMd(y)], [first] + texts + [x, y];
    forall i | 0 <= i < |mds| ensures Shows(mds[i], shown[i]) { LineShows(first, rows, texts, x, y, i); }
    NewlineShows();
    JoinShows(mds, shown, "\n");
  }

  lemma LineAndAllShow(first: string, rows: seq<string>, texts: seq<string>, x: string, y: string)
    requires |rows| == |texts| && forall i :: 0 <= i < |rows| ==> Shows(rows[i], texts[i])
    ensures
      Shows("\n" + Join([EscapeMd(first)] + rows + [EscapeMd(x), EscapeMd(y)], "\n"), "\n" + Join([first] + texts + [x, y], "\n"))
  {
    AllShow(first, rows, texts, x, y);
    NewlineShows();
    ShowsAppend("\n", "\n", Join([EscapeMd(first)] + rows + [EscapeMd(x), EscapeMd(y)], "\n"), Join([first] + texts + [x, y], "\n"));
  }

  lemma NewlineShows()
    ensures Shows("\n", "\n")
  {
    SeparatorsShow();
  }

  lemma LineShows(first: string, rows: seq<string>, texts: seq<string>, x: string, y: string, i: nat)
    requires |rows| == |texts| && forall i :: 0 <= i < |rows| ==> Shows(rows[i], texts[i])
    requires i < |rows| + 3
    ensures Shows(([EscapeMd(first)] + rows + [EscapeMd(x), EscapeMd(y)])[i], ([first] + texts + [x, y])[i])
  {
    EscapedReads(first);
    EscapedReads(x);
    EscapedReads(y);
  }

  lemma RowShows(p: Counters)
    ensures Shows(EscapedRow(p), ProjectRow(p))
  {
    EscapedReads(ProjectRow(p));
  }

  lemma SummaryLinesShow(s: Summary)
    requires s.Summary?
    ensures Shows("\n" + Join(SummaryLines(s), "\n"), SummaryText(s))
  {
    var rows := if |s.projects| > 0 then Map(EscapedRow, s.projects) else [EscapeMd(NO_ROWS)];
    var texts := if |s.projects| > 0 then Map(ProjectRow, s.projects) else [NO_ROWS];
    forall i | 0 <= i < |rows| ensures Shows(rows[i], texts[i]) {
      if |s.projects| > 0 {
        RowShows(s.projects[i]);
      } else {
        EscapedReads(NO_ROWS);
      }
    }
    LineAndAllShow(MEANING, rows, texts, Completeness(s), MAILBOX + ".");
  }

  lemma SummaryReads(s: Summary, runDate: string, timeZone: string)
    ensures Reads(SummaryMd(s, runDate, timeZone), Strong(SummaryTitle(runDate, timeZone)) + Plain(SummaryText(s)))
  {
    var title := SummaryTitle(runDate, timeZone);
    if s.Unread? {
      SeparatorsShow();
      DashDegradedShows(NO_DATA, s.reason);
      EscapedReads(MAILBOX);
      var md, text := "\n" + EscapeMd(NO_DATA) + Degraded(s.reason), "\n" + NO_DATA + (UNAVAILABLE + s.reason);
      ShowsThree(md, text, "\n", "\n", EscapeMd(MAILBOX), MAILBOX);
      HeadedReads(title, md + "\n" + EscapeMd(MAILBOX), SummaryText(s));
    } else {
      SummaryLinesShow(s);
      HeadedReads(title, "\n" + Join(SummaryLines(s), "\n"), SummaryText(s));
      JoinCons(Bold(title), SummaryLines(s), "\n");
    }
  }

  // ------------------------------------------------------------------ the renderers' contracts

  function SummaryShown(s: Summary, runDate: string, timeZone: string): seq<Glyph> {
    Strong(SummaryTitle(runDate, timeZone)) + Plain(SummaryText(s))
  }

  function CompletedShown(r: SourceResult<Item>): seq<Glyph> { Strong("Завершено сегодня") + Plain(TasksText(r)) }

  function ArchivedShown(r: SourceResult<Item>): seq<Glyph> { Strong("Архив сегодня") + Plain(TasksText(r)) }

  function DigestBacklogShown(r: BacklogResult): seq<Glyph> {
    Strong("В очереди на завтра") + Plain(DigestBacklogText(r))
  }

  function SnapshotShown(s: Option<Snapshot>): seq<Glyph> { Strong("Сервисы:") + Plain(SnapshotText(s)) }

  function ActiveShown(r: SourceResult<Item>): seq<Glyph> { Strong("Активные задачи:") + Plain(ActiveText(r)) }

  function BriefingBacklogShown(r: BacklogResult, requested: nat): seq<Glyph> {
    Strong(TopN(requested)) + Plain(BriefingBacklogText(r))
  }

  method RenderDailySummary(s: Summary, runDate: string, timeZone: string) returns (md: string)
    ensures Reads(md, SummaryShown(s, runDate, timeZone))
  {
    SummaryReads(s, runDate, timeZone);
    md := SummaryMd(s, runDate, timeZone);
  }

  method RenderCompleted(r: SourceResult<Item>) returns (md: string)
    ensures Reads(md, CompletedShown(r))
  {
    TasksRead("Завершено сегодня", r);
    md := TasksMd("Завершено сегодня", r);
  }

  method RenderArchived(r: SourceResult<Item>) returns (md: string)
    ensures Reads(md, ArchivedShown(r))
  {
    TasksRead("Архив сегодня", r);
    md := TasksMd("Архив сегодня", r);
  }

  method RenderDigestBacklog(r: BacklogResult) returns (md: string)
    ensures Reads(md, DigestBacklogShown(r))
  {
    DigestBacklogReads(r);
    md := DigestBacklogMd(r);
  }

  method RenderSnapshot(s: Option<Snapshot>) returns (md: string)
    ensures Reads(md, SnapshotShown(s))
  {
    SnapshotReads(s);
    md := SnapshotMd(s);
  }

  method RenderActiveTasks(r: SourceResult<Item>) returns (md: string)
    ensures Reads(md, ActiveShown(r))
  {
    ActiveReads(r);
    md := ActiveMd(r);
  }

  method RenderBriefingBacklog(r: BacklogResult, requested: nat) returns (md: string)
    ensures Reads(md, BriefingBacklogShown(r, requested))
  {
    BriefingBacklogReads(r, requested);
    md := BriefingBacklogMd(r, requested);
  }

  // ------------------------------------------------------------------ compose

  datatype DigestConfig = DigestConfig(timeZone: string, includeCompleted: bool, includeArchived: bool)

  datatype BriefingConfig = BriefingConfig(includeSnapshot: bool, includeActive: bool, backlogTopN: nat)

  /** A blank line and a section. */
  function Section(shown: seq<Glyph>): seq<seq<Glyph>> {
    [[], shown]
  }

  function If<T>(c: bool, xs: seq<T>): seq<T> {
    if c then xs else []
  }

  /** The digest line by line, as it is to be seen. */
  function DigestLines(
    runDate: string, config: DigestConfig, summary: Summary, completed: SourceResult<Item>, archived: SourceResult<Item>, top: BacklogResult
  ): seq<seq<Glyph>> {
    [Plain("🌙 ") + Strong("Дайджест " + runDate)]
    + Section(SummaryShown(summary, runDate, config.timeZone))
    + If(config.includeCompleted, Section(CompletedShown(completed)))
    + If(config.includeArchived, Section(ArchivedShown(archived)))
    + Section(DigestBacklogShown(top))
  }

  function BriefingLines(
    runDate: string, config: BriefingConfig, snapshot: Option<Snapshot>, active: SourceResult<Item>, top: BacklogResult
  ): seq<seq<Glyph>> {
    [Plain("🌅 ") + Strong("Утренний брифинг " + runDate)]
    + If(config.includeSnapshot, Section(SnapshotShown(snapshot)))
    + If(config.includeActive, Section(ActiveShown(active)))
    + If(config.backlogTopN > 0, Section(BriefingBacklogShown(top, config.backlogTopN)))
  }

  function DigestSections(config: DigestConfig): seq<string> {
    ["daily_summary"] + If(config.includeCompleted, ["completed_today"])
    + If(config.includeArchived, ["archived_today"]) + ["backlog_tomorrow"]
  }

  function BriefingSections(config: BriefingConfig): seq<string> {
    If(config.includeSnapshot, ["ecosystem_snapshot"]) + If(config.includeActive, ["active_tasks"])
    + If(config.backlogTopN > 0, ["backlog_top_n"])
  }

  ghost predicate LinesRead(lines: seq<string>, shown: seq<seq<Glyph>>) {
    |lines| == |shown| && forall i :: 0 <= i < |lines| ==> Reads(lines[i], shown[i])
  }

  lemma TitleReads(mark: string, title: string)
    requires Shows(mark, mark)
    ensures LinesRead([mark + Bold(title)], [Plain(mark) + Strong(title)])
  {
    BoldReads(title);
    ReadsAppend(mark, Plain(mark), Bold(title), Strong(title));
  }

  lemma MarksShow()
    ensures Shows("🌙 ", "🌙 ") && Shows("🌅 ", "🌅 ")
  {
    PlainShowsItself("🌙 ");
    PlainShowsItself("🌅 ");
  }

  /** The state of `compose` between two sections: what `lines` is to show, what `sections` holds. */
  ghost predicate Composing(lines: seq<string>, sections: seq<string>, shown: seq<seq<Glyph>>, names: seq<string>) {
    LinesRead(lines, shown) && sections == names
  }

  /** `sections.push(name)`, `lines.push('')` and `lines.push(md)`, where the configuration asks for the section. */
  lemma PushReads(lines: seq<string>, sections: seq<string>, shown: seq<seq<Glyph>>, names: seq<string>,
                  c: bool, name: string, md: string, section: seq<Glyph>)
    requires Composing(lines, sections, shown, names) && (c ==> Reads(md, section))
    ensures Composing(if c then lines + [""] + [md] else lines, if c then sections + [name] else sections,
                      shown + If(c, Section(section)), names + If(c, [name]))
    ensures [] + If(c, [name]) == If(c, [name])
  {
    assert Reads("", []);
  }

  lemma LinesJoined(lines: seq<string>, shown: seq<seq<Glyph>>)
    requires LinesRead(lines, shown)
    ensures Reads(Join(lines, "\n"), Join(shown, Plain("\n")))
  {
    NewlineShows();
    JoinReads(lines, shown, "\n", Plain("\n"));
  }

  /**
   * Whatever the readers answer, the digest is well formed and shows exactly the lines of
   * `DigestLines`: no row of the source can turn bold on, end it early, or break the message.
   */
  method ComposeDigest(
    runDate: string, config: DigestConfig, summary: Summary, completed: SourceResult<Item>, archived: SourceResult<Item>, top: BacklogResult
  ) returns (text: string, sections: seq<string>)
    ensures Reads(text, Join(DigestLines(runDate, config, summary, completed, archived, top), Plain("\n")))
    ensures sections == DigestSections(config)
  {
    MarksShow();
    TitleReads("🌙 ", "Дайджест " + runDate);
    sections := [];
    var md := "";
    var lines := ["🌙 " + Bold("Дайджест " + runDate)];
    ghost var shown, names: seq<string> := [Plain("🌙 ") + Strong("Дайджест " + runDate)], [];

    md := RenderDailySummary(summary, runDate, config.timeZone);
    PushReads(lines, sections, shown, names, true, "daily_summary", md, SummaryShown(summary, runDate, config.timeZone));
    shown, names := shown + Section(SummaryShown(summary, runDate, config.timeZone)), names + ["daily_summary"];
    sections := sections + ["daily_summary"];
    lines := lines + [""] + [md];

    if config.includeCompleted { md := RenderCompleted(completed); }
    PushReads(lines, sections, shown, names, config.includeCompleted, "completed_today", md, CompletedShown(completed));
    shown, names := shown + If(config.includeCompleted, Section(CompletedShown(completed))), names + If(config.includeCompleted, ["completed_today"]);
    if config.includeCompleted {
      sections := sections + ["completed_today"];
      lines := lines + [""] + [md];
    }

    if config.includeArchived { md := RenderArchived(archived); }
    PushReads(lines, sections, shown, names, config.includeArchived, "archived_today", md, ArchivedShown(archived));
    shown, names := shown + If(config.includeArchived, Section(ArchivedShown(archived))), names + If(config.includeArchived, ["archived_today"]);
    if config.includeArchived {
      sections := sections + ["archived_today"];
      lines := lines + [""] + [md];
    }

    md := RenderDigestBacklog(top);
    PushReads(lines, sections, shown, names, true, "backlog_tomorrow", md, DigestBacklogShown(top));
    shown, names := shown + Section(DigestBacklogShown(top)), names + ["backlog_tomorrow"];
    sections := sections + ["backlog_tomorrow"];
    lines := lines + [""] + [md];

    LinesJoined(lines, shown);
    text := Join(lines, "\n");
  }

  /** The same of the briefing. */
  method ComposeBriefing(
    runDate: string, config: BriefingConfig, snapshot: Option<Snapshot>, active: SourceResult<Item>, top: BacklogResult
  ) returns (text: string, sections: seq<string>)
    ensures Reads(text, Join(BriefingLines(runDate, config, snapshot, active, top), Plain("\n")))
    ensures sections == BriefingSections(config)
  {
    MarksShow();
    TitleReads("🌅 ", "Утренний брифинг " + runDate);
    sections := [];
    var md := "";
    var lines := ["🌅 " + Bold("Утренний брифинг " + runDate)];
    ghost var shown, names: seq<string> := [Plain("🌅 ") + Strong("Утренний брифинг " + runDate)], [];

    if config.includeSnapshot { md := RenderSnapshot(snapshot); }
    PushReads(lines, sections, shown, names, config.includeSnapshot, "ecosystem_snapshot", md, SnapshotShown(snapshot));
    shown, names := shown + If(config.includeSnapshot, Section(SnapshotShown(snapshot))), names + If(config.includeSnapshot, ["ecosystem_snapshot"]);
    if config.includeSnapshot {
      sections := sections + ["ecosystem_snapshot"];
      lines := lines + [""] + [md];
    }

    if config.includeActive { md := RenderActiveTasks(active); }
    PushReads(lines, sections, shown, names, config.includeActive, "active_tasks", md, ActiveShown(active));
    shown, names := shown + If(config.includeActive, Section(ActiveShown(active))), names + If(config.includeActive, ["active_tasks"]);
    if config.includeActive {
      sections := sections + ["active_tasks"];
      lines := lines + [""] + [md];
    }

    if config.backlogTopN > 0 { md := RenderBriefingBacklog(top, config.backlogTopN); }
    PushReads(lines, sections, shown, names, config.backlogTopN > 0, "backlog_top_n", md, BriefingBacklogShown(top, config.backlogTopN));
    shown, names := shown + If(config.backlogTopN > 0, Section(BriefingBacklogShown(top, config.backlogTopN))), names + If(config.backlogTopN > 0, ["backlog_top_n"]);
    if config.backlogTopN > 0 {
      sections := sections + ["backlog_top_n"];
      lines := lines + [""] + [md];
    }

    LinesJoined(lines, shown);
    text := Join(lines, "\n");
  }

  // ------------------------------------------------------------------ the plain-text fallback

  lemma {:induction false} InJoin<T>(x: T, parts: seq<seq<T>>, k: nat, sep: seq<T>)
    requires k < |parts| && x in parts[k]
    ensures x in Join(parts, sep)
  {
    if |parts| > 1 && k > 0 { InJoin(x, parts[1..], k - 1, sep); }
  }

  lemma UnderscoreInSummary(s: Summary)
    ensures '_' in SummaryText(s)
  {
    assert NOT_MEASURED[3] == '_';
    if s.Summary? {
      var texts := SummaryTexts(s);
      assert texts[|texts| - 1] == MAILBOX + ".";
      InJoin('_', texts, |texts| - 1, "\n");
    }
  }

  lemma UnderscoreInDigest(
    runDate: string, config: DigestConfig, summary: Summary, completed: SourceResult<Item>, archived: SourceResult<Item>, top: BacklogResult)
    ensures
      var lines := DigestLines(runDate, config, summary, completed, archived, top);
      |lines| > 2 && Glyph('_', false) in lines[2]
  {
    UnderscoreInSummary(summary);
    InPlain('_', SummaryText(summary));
    assert Section(SummaryShown(summary, runDate, config.timeZone))[1] == SummaryShown(summary, runDate, config.timeZone);
  }

  lemma MarkupIsLost(text: string, lines: seq<seq<Glyph>>, k: nat, g: Glyph)
    requires k < |lines| && g in lines[k] && Markup(g.shape)
    requires Reads(text, Join(lines, Plain("\n")))
    ensures ToPlain(text) == Strip(Text(Join(lines, Plain("\n")))) && ToPlain(text) != Text(Join(lines, Plain("\n")))
  {
    var shown := Join(lines, Plain("\n"));
    FallbackIsExactIff(text, shown);
    InJoin(g, lines, k, Plain("\n"));
    var i :| 0 <= i < |shown| && shown[i] == g;
    assert Markup(shown[i].shape);
  }

  /**
   * Whatever the readers answer, the digest names a status the source spells with an underscore,
   * so its plain-text fallback never is the text the digest shows.
   */
  lemma DigestFallbackDiffers(
    runDate: string, config: DigestConfig, summary: Summary, completed: SourceResult<Item>, archived: SourceResult<Item>,
    top: BacklogResult, text: string)
    ensures
      var shown := Join(DigestLines(runDate, config, summary, completed, archived, top), Plain("\n"));
      Reads(text, shown) ==> ToPlain(text) == Strip(Text(shown)) && ToPlain(text) != Text(shown)
  {
    var lines := DigestLines(runDate, config, summary, completed, archived, top);
    UnderscoreInDigest(runDate, config, summary, completed, archived, top);
    if Reads(text, Join(lines, Plain("\n"))) { MarkupIsLost(text, lines, 2, Glyph('_', false)); }
  }

  lemma InPlain(c: char, s: string)
    requires c in s
    ensures Glyph(c, false) in Plain(s)
  {
    var i :| 0 <= i < |s| && s[i] == c;
    assert Plain(s)[i] == Glyph(c, false);
  }
}
