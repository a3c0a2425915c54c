/**
 * Offset paging over Muneral's workspace digest: `fetch` and `fetchAll` of
 * apps/assistant/src/proactive/muneral-reader.service.ts, against any server at all.
 */
module Paging {
  import opened Common

  const MAX_PAGE := 200
  const MAX_SAFE_INTEGER := 0x1F_FFFF_FFFF_FFFF

  datatype Task = Task(
    id: string,
    projectId: string,
    title: string,
    status: string,
    priority: Option<string>,
    createdAt: Option<int>) // milliseconds; None when the text is not a date

  /** What the client hands back for one request, before the reader has judged it. */
  datatype Answer = Threw | Unavailable(reason: string) | Page(items: seq<Task>, count: int)

  /** Any server: the answer to the n-th request, which asks for rows from an offset on. */
  type Server = (nat, nat) -> Answer

  datatype SourceResult<+T> =
    | NotOk(reason: string)
    | Rows(items: seq<T>, total: nat, truncated: bool)

  /** One validated page. A missing client, an exception and a bad total are all refusals. */
  function Fetch(client: Option<Server>, request: nat, offset: nat): (r: SourceResult<Task>)
    ensures r.Rows? <==>
      client.Some? && client.value(request, offset).Page?
      && |client.value(request, offset).items| <= client.value(request, offset).count <= 9_007_199_254_740_991
    ensures r.Rows? ==> client.value(request, offset) == Page(r.items, r.total)
    ensures r.Rows? ==> (r.truncated <==> |r.items| < r.total)
    ensures client.Some? && client.value(request, offset).Unavailable? ==> r == NotOk(client.value(request, offset).reason)
  {
    if client.None? then NotOk("no key configured")
    else match client.value(request, offset)
      case Threw => NotOk("request error")
      case Unavailable(reason) => NotOk(reason)
      case Page(items, count) =>
        if count < 0 || count > MAX_SAFE_INTEGER || |items| > count then NotOk("no usable total")
        else Rows(items, count, |items| < count)
  }

  // ------------------------------------------------------------------ the row map

  function Ids(rows: seq<Task>): (ids: seq<string>)
    ensures |ids| == |rows| && forall i :: 0 <= i < |rows| ==> ids[i] == rows[i].id
  {
    seq(|rows|, i requires 0 <= i < |rows| => rows[i].id)
  }

  ghost predicate DistinctIds(rows: seq<Task>) {
    Distinct(Ids(rows))
  }

  /** `Map.set`: a known key keeps its place and takes the new value. */
  function Put(rows: seq<Task>, task: Task): (after: seq<Task>)
    ensures task.id in Ids(rows) ==> Ids(after) == Ids(rows)
    ensures task.id !in Ids(rows) ==> after == rows + [task]
  {
    if task.id in Ids(rows)
    then seq(|rows|, i requires 0 <= i < |rows| => if rows[i].id == task.id then task else rows[i])
    else rows + [task]
  }

  /** `new Map(items.map((task) => [task.id, task]))` */
  function MapOf(items: seq<Task>): seq<Task> {
    if items == [] then [] else Put(MapOf(items[..|items| - 1]), items[|items| - 1])
  }

  /** The first page's map: each id once, and the page itself when no id repeats. */
  lemma {:induction false} MapOfTracks(items: seq<Task>)
    ensures Tracks(MapOf(items), |MapOf(items)| != |items|, items)
  {
    if items == [] {
    } else {
      var front, last := items[..|items| - 1], items[|items| - 1];
      MapOfTracks(front);
      assert items == front + [last];
      if last.id in Ids(MapOf(front)) {
        RepeatedId(front, last);
      } else {
        TracksStep(MapOf(front), |MapOf(front)| != |front|, front, last);
      }
    }
  }

  lemma RepeatedId(front: seq<Task>, last: Task)
    requires last.id in Ids(front)
    ensures !DistinctIds(front + [last])
    ensures forall id :: id in Ids(front + [last]) <==> id in Ids(front)
  {
    assert Ids(front + [last]) == Ids(front) + [last.id];
    DistinctIdsPrefix(front, [last]);
    assert last in [last];
  }

  // ------------------------------------------------------------------ what was asked

  /** Whether reading goes on past `page`, which answered a request at `offset`. */
  predicate GoesOn(page: SourceResult<Task>, offset: nat, total: nat) {
    && page.Rows? && page.total == total && page.items != []
    && (|page.items| >= MAX_PAGE || offset + |page.items| >= total)
  }

  /** The answers to requests `request`, `request + 1`, ... once `offset` rows are in. */
  function Tail(client: Option<Server>, request: nat, offset: nat, total: nat): seq<SourceResult<Task>>
    decreases total - offset
  {
    if offset >= total then []
    else
      var page := Fetch(client, request, offset);
      if GoesOn(page, offset, total)
      then [page] + Tail(client, request + 1, offset + |page.items|, total)
      else [page]
  }

  /** Every answer one read consumes. */
  function Answers(client: Option<Server>): (pages: seq<SourceResult<Task>>)
    ensures pages != []
  {
    var first := Fetch(client, 0, 0);
    if first.NotOk? then [first] else [first] + Tail(client, 1, |first.items|, first.total)
  }

  ghost predicate AllRows(pages: seq<SourceResult<Task>>, total: nat) {
    forall i :: 0 <= i < |pages| ==> pages[i].Rows? && pages[i].total == total
  }

  /** The rows of every page that reported `total`, in the order they came. */
  function Items(pages: seq<SourceResult<Task>>, total: nat): seq<Task> {
    if pages == [] then []
    else
      var p := pages[0];
      (if p.Rows? && p.total == total then p.items else []) + Items(pages[1..], total)
  }

  /** A read that may be called a whole one: one total throughout, no id twice, nothing short. */
  ghost predicate Complete(pages: seq<SourceResult<Task>>)
    requires pages != []
  {
    && pages[0].Rows?
    && AllRows(pages, pages[0].total)
    && DistinctIds(Items(pages, pages[0].total))
    && |Items(pages, pages[0].total)| == pages[0].total
  }

  lemma {:induction false} ItemsAppend(xs: seq<SourceResult<Task>>, ys: seq<SourceResult<Task>>, total: nat)
    ensures Items(xs + ys, total) == Items(xs, total) + Items(ys, total)
  {
    if xs == [] {
      assert xs + ys == ys;
    } else {
      assert (xs + ys)[1..] == xs[1..] + ys;
      ItemsAppend(xs[1..], ys, total);
    }
  }

  lemma DistinctIdsPrefix(xs: seq<Task>, ys: seq<Task>)
    ensures DistinctIds(xs + ys) ==> DistinctIds(xs) && forall t :: t in ys ==> t.id !in Ids(xs)
  {
    assert Ids(xs + ys) == Ids(xs) + Ids(ys);
    if DistinctIds(xs + ys) {
      forall i, j | 0 <= i < j < |xs| ensures Ids(xs)[i] != Ids(xs)[j] {
        assert Ids(xs + ys)[i] != Ids(xs + ys)[j];
      }
      forall k | 0 <= k < |ys| ensures ys[k].id !in Ids(xs) {
        assert forall i :: 0 <= i < |xs| ==> Ids(xs)[i] == Ids(xs + ys)[i] != Ids(xs + ys)[|xs| + k];
        assert Ids(xs + ys)[|xs| + k] == ys[k].id;
      }
    }
  }

  // ------------------------------------------------------------------ fetchAll

  /** `rows` holds each id of `came` exactly once. */
  ghost predicate Deduplicates(rows: seq<Task>, came: seq<Task>) {
    && DistinctIds(rows) && |rows| <= |came|
    && (forall id :: id in Ids(rows) <==> id in Ids(came))
  }

  /** What the row map and the partial flag say of the rows that have come in so far. */
  ghost predicate Tracks(rows: seq<Task>, partial: bool, came: seq<Task>) {
    && Deduplicates(rows, came)
    && (!partial <==> DistinctIds(came))
    && (!partial ==> rows == came)
  }

  /** The inner loop of `fetchAll`: a row already present is kept and marks the read partial. */
  method MergePage(rows: seq<Task>, items: seq<Task>, wasPartial: bool, ghost came: seq<Task>)
    returns (merged: seq<Task>, partial: bool)
    requires Tracks(rows, wasPartial, came)
    ensures Tracks(merged, partial, came + items)
  {
    merged, partial := rows, wasPartial;
    assert came + items[..0] == came;
    for i := 0 to |items|
      invariant Tracks(merged, partial, came + items[..i])
    {
      ghost var before := came + items[..i];
      assert came + items[..i + 1] == before + [items[i]];
      TracksStep(merged, partial, before, items[i]);
      if items[i].id in Ids(merged) {
        partial := true;
      } else {
        merged := merged + [items[i]];
      }
    }
    assert items[..|items|] == items;
  }

  /** One more row, not seen before or seen before. */
  lemma TracksStep(rows: seq<Task>, partial: bool, before: seq<Task>, t: Task)
    requires Tracks(rows, partial, before)
    ensures t.id !in Ids(rows) ==> Tracks(rows + [t], partial, before + [t])
    ensures t.id in Ids(rows) ==> Tracks(rows, true, before + [t])
  {
    if t.id in Ids(rows) {
      RepeatedId(before, t);
    } else {
      assert Ids(before + [t]) == Ids(before) + [t.id];
      assert Ids(rows + [t]) == Ids(rows) + [t.id];
      DistinctIdsPrefix(before, [t]);
    }
  }

  lemma ItemsSnoc(pages: seq<SourceResult<Task>>, page: SourceResult<Task>, total: nat)
    ensures Items(pages + [page], total) ==
            Items(pages, total) + if page.Rows? && page.total == total then page.items else []
  {
    ItemsAppend(pages, [page], total);
    assert [page][1..] == [];
  }

  /** What the loop knows between two requests: the pages so far and what is still to come. */
  ghost predicate Midway(client: Option<Server>, pages: seq<SourceResult<Task>>, offset: nat, total: nat) {
    && pages != [] && AllRows(pages, total)
    && offset == |Items(pages, total)|
    && Answers(client) == pages + Tail(client, |pages|, offset, total)
  }

  lemma MidwayStarts(client: Option<Server>, first: SourceResult<Task>)
    requires first.Rows? && first == Fetch(client, 0, 0)
    ensures Midway(client, [first], |first.items|, first.total)
    ensures Items([first], first.total) == first.items
  {
    ItemsSnoc([], first, first.total);
    assert [] + [first] == [first];
  }

  lemma MidwayStep(client: Option<Server>, pages: seq<SourceResult<Task>>, offset: nat, total: nat)
    requires Midway(client, pages, offset, total) && offset < total
    ensures
      var page := Fetch(client, |pages|, offset);
      if GoesOn(page, offset, total)
      then Midway(client, pages + [page], offset + |page.items|, total)
      else Answers(client) == pages + [page] && !Complete(pages + [page])
    ensures
      var page := Fetch(client, |pages|, offset);
      Items(pages + [page], total) ==
      Items(pages, total) + if page.Rows? && page.total == total then page.items else []
  {
    var page := Fetch(client, |pages|, offset);
    ItemsSnoc(pages, page, total);
    if GoesOn(page, offset, total) {
      var rest := Tail(client, |pages| + 1, offset + |page.items|, total);
      assert Tail(client, |pages|, offset, total) == [page] + rest;
      assert pages + ([page] + rest) == (pages + [page]) + rest;
    } else {
      assert (pages + [page])[|pages|] == page && (pages + [page])[0] == pages[0];
      assert pages[0].total == total;
    }
  }

  /**
   * The paged read. It is refused exactly when its last answer was a refusal; otherwise it
   * reports the first page's total and each id of the agreeing pages once, and it calls
   * itself whole exactly when the answers it consumed were.
   */
  method FetchAll(client: Option<Server>) returns (r: SourceResult<Task>, requests: nat)
    ensures requests == |Answers(client)|
    ensures r.NotOk? <==> Answers(client)[requests - 1].NotOk?
    ensures r.NotOk? ==> r == Answers(client)[requests - 1]
    ensures r.Rows? ==> Answers(client)[0].Rows? && r.total == Answers(client)[0].total
    ensures r.Rows? ==> Deduplicates(r.items, Items(Answers(client), r.total))
    ensures r.Rows? ==> (!r.truncated <==> Complete(Answers(client)))
    ensures r.Rows? && !r.truncated ==> r.items == Items(Answers(client), r.total)
  {
    var first := Fetch(client, 0, 0);
    requests := 1;
    if first.NotOk? { return first, requests; }
    var sourceTotal := first.total;
    var rows := MapOf(first.items);
    var partial := |rows| != |first.items|;
    var offset := |first.items|;
    ghost var pages := [first];
    MidwayStarts(client, first);
    MapOfTracks(first.items);
    while offset < sourceTotal
      invariant Midway(client, pages, offset, sourceTotal)
      invariant requests == |pages| && pages[0] == first
      invariant Tracks(rows, partial, Items(pages, sourceTotal))
      decreases sourceTotal - offset
    {
      var page := Fetch(client, requests, offset);
      MidwayStep(client, pages, offset, sourceTotal);
      ghost var came := Items(pages, sourceTotal);
      requests := requests + 1;
      pages := pages + [page];
      if page.NotOk? { return page, requests; }
      if page.total != sourceTotal || page.items == [] {
        assert Items(pages, sourceTotal) == came;
        return Rows(rows, sourceTotal, true), requests;
      }
      rows, partial := MergePage(rows, page.items, partial, came);
      offset := offset + |page.items|;
      if |page.items| < MAX_PAGE && offset < sourceTotal {
        return Rows(rows, sourceTotal, true), requests;
      }
    }
    assert Answers(client) == pages;
    if |rows| != sourceTotal { partial := true; }
    r := Rows(rows, sourceTotal, partial);
  }

  // ------------------------------------------------------------------ against any server

  /** Pages needed for `n` rows at 200 a page. */
  function PagesFor(n: int): int {
    if n <= 0 then 0 else (n + MAX_PAGE - 1) / MAX_PAGE
  }

  lemma {:induction false} TailBound(client: Option<Server>, request: nat, offset: nat, total: nat)
    ensures |Tail(client, request, offset, total)| <= PagesFor(total - offset)
    decreases total - offset
  {
    if offset < total {
      var page := Fetch(client, request, offset);
      if GoesOn(page, offset, total) {
        TailBound(client, request + 1, offset + |page.items|, total);
      }
    }
  }

  /** However the server behaves, a read takes at most 1 + ceil(total / 200) requests. */
  lemma RequestBound(client: Option<Server>)
    ensures
      var first := Fetch(client, 0, 0);
      |Answers(client)| <= 1 + if first.Rows? then PagesFor(first.total) else 0
  {
    var first := Fetch(client, 0, 0);
    if first.Rows? {
      TailBound(client, 1, |first.items|, first.total);
    }
  }

  // ------------------------------------------------------------------ against a list that moves

  /** The page a server cuts from `list` at `offset`, `limit=200`. */
  function Slice(list: seq<Task>, offset: nat): Answer {
    var from := Min(offset, |list|);
    Page(list[from..Min(from + MAX_PAGE, |list|)], |list|)
  }

  /** The list as the server holds it at each request. */
  type Versions = nat -> seq<Task>

  /** An honest server: it cuts each page from the list as it is at that request. */
  ghost predicate ServesVersions(server: Server, versions: Versions) {
    forall k, offset :: server(k, offset) == Slice(versions(k), offset)
  }

  /** From row `from` on, each row as the version that was asked for its page has it. */
  ghost predicate IsDiagonal(rows: seq<Task>, versions: Versions, total: nat, from: nat) {
    && |rows| == total - from
    && forall i :: from <= i < total ==> |versions(i / MAX_PAGE)| == total && rows[i - from] == versions(i / MAX_PAGE)[i]
  }

  lemma ItemsCons(page: SourceResult<Task>, rest: seq<SourceResult<Task>>, total: nat)
    requires page.Rows? && page.total == total
    ensures Items([page] + rest, total) == page.items + Items(rest, total)
    ensures AllRows(rest, total) ==> AllRows([page] + rest, total)
  {
    assert ([page] + rest)[1..] == rest;
  }

  /** Where the k-th page begins. */
  function Edge(k: nat, total: nat): nat { Min(MAX_PAGE * k, total) }

  /** A read of `total` rows at 200 a page asks for page `k`. */
  predicate Asked(total: nat, k: nat) { MAX_PAGE * k < total }

  lemma PageOf(i: nat, k: nat)
    ensures MAX_PAGE * k <= i < MAX_PAGE * (k + 1) <==> k == i / MAX_PAGE
  {
  }

  /** Page `k` and the diagonal after it make the diagonal from it. */
  lemma DiagonalCons(versions: Versions, total: nat, k: nat, rest: seq<Task>)
    requires |versions(k)| == total && IsDiagonal(rest, versions, total, Edge(k + 1, total))
    ensures IsDiagonal(versions(k)[Edge(k, total)..Edge(k + 1, total)] + rest, versions, total, Edge(k, total))
  {
    var from, next := Edge(k, total), Edge(k + 1, total);
    var rows := versions(k)[from..next] + rest;
    forall i | from <= i < total ensures |versions(i / MAX_PAGE)| == total && rows[i - from] == versions(i / MAX_PAGE)[i] {
      PageOf(i, k);
    }
  }

  /** One page of an honest server: it agrees exactly when its version has the length first reported. */
  lemma VersionPage(server: Server, versions: Versions, total: nat, k: nat)
    requires ServesVersions(server, versions) && Edge(k, total) <= total <= MAX_SAFE_INTEGER
    ensures
      var from, next, page := Edge(k, total), Edge(k + 1, total), Fetch(Some(server), k, Edge(k, total));
      && (page.Rows? && page.total == total <==> |versions(k)| == total)
      && (|versions(k)| == total ==> page.items == versions(k)[from..next])
  {
    assert server(k, Edge(k, total)) == Slice(versions(k), Edge(k, total));
  }

  /** And then the next request asks for the next page. */
  lemma VersionTail(server: Server, versions: Versions, total: nat, k: nat)
    requires ServesVersions(server, versions) && Asked(total, k) && total <= MAX_SAFE_INTEGER
    ensures
      var c := Some(server);
      var page, tail := Fetch(c, k, Edge(k, total)), Tail(c, k, Edge(k, total), total);
      && tail != [] && tail[0] == page
      && (|versions(k)| == total ==> tail == [page] + Tail(c, k + 1, Edge(k + 1, total), total))
  {
    VersionPage(server, versions, total, k);
  }

  ghost predicate AskedAgree(versions: Versions, total: nat, from: nat) {
    forall k :: k >= from && Asked(total, k) ==> |versions(k)| == total
  }

  lemma {:induction false} TailAgreesIff(server: Server, versions: Versions, total: nat, k: nat)
    requires ServesVersions(server, versions) && total <= MAX_SAFE_INTEGER
    ensures AllRows(Tail(Some(server), k, Edge(k, total), total), total) <==> AskedAgree(versions, total, k)
    decreases total - Edge(k, total)
  {
    if !Asked(total, k) {
      assert Tail(Some(server), k, Edge(k, total), total) == [];
    } else {
      VersionPage(server, versions, total, k);
      VersionTail(server, versions, total, k);
      if |versions(k)| == total {
        var page, rest := Fetch(Some(server), k, Edge(k, total)), Tail(Some(server), k + 1, Edge(k + 1, total), total);
        TailAgreesIff(server, versions, total, k + 1);
        AllRowsCons(page, rest, total);
      }
    }
  }

  lemma AllRowsCons(page: SourceResult<Task>, rest: seq<SourceResult<Task>>, total: nat)
    ensures AllRows([page] + rest, total) <==> page.Rows? && page.total == total && AllRows(rest, total)
  {
    var all := [page] + rest;
    assert all[0] == page && forall i :: 0 <= i < |rest| ==> all[i + 1] == rest[i];
  }

  lemma {:induction false} TailIsDiagonal(server: Server, versions: Versions, total: nat, k: nat)
    requires ServesVersions(server, versions) && total <= MAX_SAFE_INTEGER && AskedAgree(versions, total, k)
    ensures IsDiagonal(Items(Tail(Some(server), k, Edge(k, total), total), total), versions, total, Edge(k, total))
    decreases total - Edge(k, total)
  {
    if !Asked(total, k) {
      assert Tail(Some(server), k, Edge(k, total), total) == [];
    } else {
      assert |versions(k)| == total;
      VersionPage(server, versions, total, k);
      VersionTail(server, versions, total, k);
      TailIsDiagonal(server, versions, total, k + 1);
      var page, rest := Fetch(Some(server), k, Edge(k, total)), Tail(Some(server), k + 1, Edge(k + 1, total), total);
      ItemsCons(page, rest, total);
      DiagonalCons(versions, total, k, Items(rest, total));
    }
  }

  /** The first answer, and that the rest is the tail from page one. */
  lemma FirstVersion(server: Server, versions: Versions)
    requires ServesVersions(server, versions) && |versions(0)| <= MAX_SAFE_INTEGER
    ensures
      var c, total := Some(server), |versions(0)|;
      var first := Fetch(c, 0, 0);
      && first.Rows? && first.total == total && first.items == versions(0)[..Edge(1, total)]
      && Answers(c) == [first] + Tail(c, 1, Edge(1, total), total)
  {
    VersionPage(server, versions, |versions(0)|, 0);
  }

  /**
   * No page of a read is refused or reports another total exactly when all versions it asks
   * are of one length that the reader accepts.
   */
  lemma ReadAgreesIff(server: Server, versions: Versions)
    requires ServesVersions(server, versions)
    ensures
      var total := |versions(0)|;
      AllRows(Answers(Some(server)), total) <==> total <= MAX_SAFE_INTEGER && AskedAgree(versions, total, 0)
  {
    var total := |versions(0)|;
    if total <= MAX_SAFE_INTEGER {
      FirstVersion(server, versions);
      TailAgreesIff(server, versions, total, 1);
      AllRowsCons(Fetch(Some(server), 0, 0), Tail(Some(server), 1, Edge(1, total), total), total);
    } else {
      assert server(0, 0) == Slice(versions(0), 0);
      assert Answers(Some(server))[0].NotOk?;
    }
  }

  /** What such a read amounts to: its i-th row is the i-th row of the version asked for that page. */
  lemma ReadIsTheDiagonal(server: Server, versions: Versions)
    requires ServesVersions(server, versions) && AllRows(Answers(Some(server)), |versions(0)|)
    ensures IsDiagonal(Items(Answers(Some(server)), |versions(0)|), versions, |versions(0)|, 0)
    ensures Complete(Answers(Some(server))) <==> DistinctIds(Items(Answers(Some(server)), |versions(0)|))
  {
    var total := |versions(0)|;
    ReadAgreesIff(server, versions);
    FirstVersion(server, versions);
    TailIsDiagonal(server, versions, total, 1);
    var first, rest := Fetch(Some(server), 0, 0), Tail(Some(server), 1, Edge(1, total), total);
    ItemsCons(first, rest, total);
    DiagonalCons(versions, total, 0, Items(rest, total));
  }

  /** A whole read of a list that may grow and shrink between requests. */
  lemma WholeReadIsTheDiagonal(server: Server, versions: Versions)
    requires ServesVersions(server, versions) && Complete(Answers(Some(server)))
    ensures
      var total := Answers(Some(server))[0].total;
      && total == |versions(0)| && AskedAgree(versions, total, 0)
      && IsDiagonal(Items(Answers(Some(server)), total), versions, total, 0)
  {
    var first := Fetch(Some(server), 0, 0);
    assert first == Answers(Some(server))[0] && server(0, 0) == Slice(versions(0), 0);
    ReadAgreesIff(server, versions);
    ReadIsTheDiagonal(server, versions);
  }

  // ------------------------------------------------------------------ which rows it holds

  /** In every version asked, the row is at `at(k)` and nowhere else; off the list, it is not in it. */
  ghost predicate IsAt(versions: Versions, total: nat, row: Task, at: nat -> int) {
    forall k, i :: Asked(total, k) && 0 <= i < total && |versions(k)| == total ==> (versions(k)[i] == row <==> i == at(k))
  }

  /** The row is in every version asked. */
  ghost predicate Present(total: nat, at: nat -> int) {
    forall k :: Asked(total, k) ==> 0 <= at(k) < total
  }

  /** At request `k` the row is on the page that is asked for. */
  ghost predicate OnPage(total: nat, at: nat -> int, k: nat) {
    Asked(total, k) && MAX_PAGE * k <= at(k) < MAX_PAGE * (k + 1) && at(k) < total
  }

  lemma InDiagonalIff(rows: seq<Task>, versions: Versions, total: nat, row: Task, at: nat -> int)
    requires IsDiagonal(rows, versions, total, 0) && AskedAgree(versions, total, 0) && IsAt(versions, total, row, at)
    ensures row in rows <==> exists k :: OnPage(total, at, k)
  {
    if row in rows {
      var i :| 0 <= i < total && rows[i] == row;
      PageOf(i, i / MAX_PAGE);
      assert rows[i - 0] == versions(i / MAX_PAGE)[i] && at(i / MAX_PAGE) == i;
      assert OnPage(total, at, i / MAX_PAGE);
    }
    if k: nat :| OnPage(total, at, k) {
      PageOf(at(k), k);
      assert rows[at(k) - 0] == versions(k)[at(k)];
    }
  }

  /**
   * A row is in a read whose pages agree, and so in any whole one, exactly when some request
   * finds it on the very page it asks for, whether or not it is there at the others.
   */
  lemma RowIsReadIff(server: Server, versions: Versions, row: Task, at: nat -> int)
    requires ServesVersions(server, versions) && AllRows(Answers(Some(server)), |versions(0)|)
    requires IsAt(versions, |versions(0)|, row, at)
    ensures row in Items(Answers(Some(server)), |versions(0)|) <==> exists k :: OnPage(|versions(0)|, at, k)
  {
    ReadAgreesIff(server, versions);
    ReadIsTheDiagonal(server, versions);
    InDiagonalIff(Items(Answers(Some(server)), |versions(0)|), versions, |versions(0)|, row, at);
  }

  /** The first request at which the row is no further back than the page asked for. */
  lemma {:induction false} FirstWithin(at: nat -> int, total: nat, from: nat) returns (k: nat)
    requires Present(total, at) && Asked(total, from)
    requires forall j :: 0 <= j < from ==> at(j) >= MAX_PAGE * (j + 1)
    ensures Asked(total, k) && at(k) < MAX_PAGE * (k + 1)
    ensures forall j :: 0 <= j < k ==> at(j) >= MAX_PAGE * (j + 1)
    decreases total - MAX_PAGE * from
  {
    assert at(from) < total;
    if at(from) < MAX_PAGE * (from + 1) {
      k := from;
    } else {
      k := FirstWithin(at, total, from + 1);
    }
  }

  /** Between the requests for two pages that follow one another the row slid forward over their edge. */
  ghost predicate SlidesOver(total: nat, at: nat -> int, k: nat) {
    k > 0 && Asked(total, k) && at(k) < MAX_PAGE * k <= at(k - 1)
  }

  /** A row that is there throughout and still missed by such a read slid over an edge as the read passed it. */
  lemma MissedRowSlides(server: Server, versions: Versions, row: Task, at: nat -> int)
    requires ServesVersions(server, versions) && AllRows(Answers(Some(server)), |versions(0)|)
    requires IsAt(versions, |versions(0)|, row, at) && Present(|versions(0)|, at) && versions(0) != []
    ensures row !in Items(Answers(Some(server)), |versions(0)|) ==> exists k :: SlidesOver(|versions(0)|, at, k)
  {
    var total := |versions(0)|;
    RowIsReadIff(server, versions, row, at);
    var k := FirstWithin(at, total, 0);
    assert 0 <= at(k) < total;
    assert k > 0 ==> at(k - 1) >= MAX_PAGE * (k - 1 + 1);
    assert OnPage(total, at, k) || SlidesOver(total, at, k);
  }

  /** A row that is there throughout and never moves toward the front is in every such read. */
  lemma RowThatNeverAdvancesIsRead(server: Server, versions: Versions, row: Task, at: nat -> int)
    requires ServesVersions(server, versions) && AllRows(Answers(Some(server)), |versions(0)|)
    requires IsAt(versions, |versions(0)|, row, at) && Present(|versions(0)|, at) && versions(0) != []
    requires forall k: nat :: Asked(|versions(0)|, k + 1) ==> at(k) <= at(k + 1)
    ensures row in Items(Answers(Some(server)), |versions(0)|)
  {
    MissedRowSlides(server, versions, row, at);
    forall k: nat ensures !SlidesOver(|versions(0)|, at, k) {
      assert k > 0 && Asked(|versions(0)|, k) ==> at(k - 1) <= at(k - 1 + 1);
    }
  }

  // ------------------------------------------------------------------ against a list that stands still

  /** The server answers every request from this one list. */
  ghost predicate Serves(server: Server, list: seq<Task>) {
    forall request, offset :: server(request, offset) == Slice(list, offset)
  }

  function Constant(list: seq<Task>): Versions {
    (k: nat) => list
  }

  lemma ServesConstant(server: Server, list: seq<Task>)
    requires Serves(server, list)
    ensures ServesVersions(server, Constant(list)) && Constant(list)(0) == list && AskedAgree(Constant(list), |list|, 0)
  {
  }

  lemma ConstantDiagonal(rows: seq<Task>, list: seq<Task>)
    requires IsDiagonal(rows, Constant(list), |list|, 0)
    ensures rows == list
  {
    forall i | 0 <= i < |list| ensures rows[i] == list[i] {
      assert rows[i - 0] == Constant(list)(i / MAX_PAGE)[i];
    }
  }

  /** Against one fixed list the answers are complete and amount to the list, in order. */
  lemma StableServerIsReadWhole(server: Server, list: seq<Task>)
    requires Serves(server, list) && DistinctIds(list) && |list| <= MAX_SAFE_INTEGER
    ensures Complete(Answers(Some(server)))
    ensures Items(Answers(Some(server)), |list|) == list
  {
    ServesConstant(server, list);
    ReadAgreesIff(server, Constant(list));
    ReadIsTheDiagonal(server, Constant(list));
    ConstantDiagonal(Items(Answers(Some(server)), |list|), list);
  }

  /** `FetchAll` on that server: every row, in order, not truncated, for any length. */
  method FetchAllOfStableList(server: Server, ghost list: seq<Task>) returns (r: SourceResult<Task>)
    requires Serves(server, list) && DistinctIds(list) && |list| <= MAX_SAFE_INTEGER
    ensures r == Rows(list, |list|, false)
  {
    StableServerIsReadWhole(server, list);
    var requests;
    r, requests := FetchAll(Some(server));
  }

  // ------------------------------------------------------------------ a whole read that misses a row

  function Row(n: nat): Task
    requires n < 202
  {
    Task([n as char], "p", "", "todo", None, None)
  }

  /** The list as the first request sees it, and as every later one does. */
  function Version(request: nat): (list: seq<Task>)
    ensures |list| == 201
    ensures forall i :: 0 <= i < 201 ==> list[i] == Row(if request == 0 then i else i + 1)
  {
    seq(201, i requires 0 <= i < 201 => Row(if request == 0 then i else i + 1))
  }

  function Shifting(): Server {
    (request: nat, offset: nat) => Slice(Version(request), offset)
  }

  /**
   * Sliding over an edge does lose a row: one row leaves the front and one joins the end
   * between two requests, the total stays 201, and row 200, present throughout, is missed by
   * a read that is complete by every check `fetchAll` makes.
   */
  lemma CompleteReadCanMissARow()
    ensures Complete(Answers(Some(Shifting())))
    ensures Row(200) !in Items(Answers(Some(Shifting())), 201)
    ensures forall request :: Row(200) in Version(request)
  {
    var versions: Versions := (k: nat) => Version(k);
    ReadAgreesIff(Shifting(), versions);
    ReadIsTheDiagonal(Shifting(), versions);
    var all := Items(Answers(Some(Shifting())), 201);
    forall i | 0 <= i < 201 ensures all[i] == Row(if i < 200 then i else 201) && all[i].id != Row(200).id {
      PageOf(i, if i < 200 then 0 else 1);
    }
    forall request: nat ensures Row(200) in Version(request) {
      assert Version(request)[if request == 0 then 200 else 199] == Row(200);
    }
  }
}
