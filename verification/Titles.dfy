/**
 * `displayTitle` of apps/assistant/src/proactive/muneral-reader.service.ts: the work item's
 * reference lifted out of its title, as the two regular expressions of the source match.
 */
module Titles {
  import opened Common
  import opened Paging

  datatype Item = Item(id: Option<string>, title: string)

  /** `\s` */
  predicate Space(c: char) {
    || '\t' <= c <= '\r' || c == ' ' || c == '\U{00A0}' || c == '\U{1680}' || '\U{2000}' <= c <= '\U{200A}'
    || c == '\U{2028}' || c == '\U{2029}' || c == '\U{202F}' || c == '\U{205F}' || c == '\U{3000}' || c == '\U{FEFF}'
  }

  /** What `.` does not match. */
  predicate LineEnd(c: char) { c == '\n' || c == '\r' || c == '\U{2028}' || c == '\U{2029}' }

  predicate Upper(c: char) { 'A' <= c <= 'Z' }

  predicate Digit(c: char) { '0' <= c <= '9' }

  predicate Word(c: char) { Upper(c) || Digit(c) || 'a' <= c <= 'z' || c == '_' }

  predicate Separator(c: char) { c == ':' || c == '—' || c == '–' || c == '-' }

  function SkipSpace(s: string): string {
    if s != "" && Space(s[0]) then SkipSpace(s[1..]) else s
  }

  function TrimEnd(s: string): string {
    if s != "" && Space(s[|s| - 1]) then TrimEnd(s[..|s| - 1]) else s
  }

  /** `.trim()` */
  function Trim(s: string): string { TrimEnd(SkipSpace(s)) }

  /** How far a run of upper-case letters and digits, or of digits alone, goes on from `k`. */
  function RunEnd(s: string, k: nat, letters: bool): (end: nat)
    requires k <= |s|
    ensures k <= end <= |s|
    decreases |s| - k
  {
    if k < |s| && (Digit(s[k]) || (letters && Upper(s[k]))) then RunEnd(s, k + 1, letters) else k
  }

  /** The length of the reference `[A-Z][A-Z0-9]*-\d+\b` that `s` begins with, 0 if there is none. */
  function ReferenceLength(s: string): (n: nat)
    ensures n <= |s|
  {
    if s == "" || !Upper(s[0]) then 0
    else
      var dash := RunEnd(s, 1, true);
      if dash == |s| || s[dash] != '-' then 0
      else
        var end := RunEnd(s, dash + 1, false);
        if end == dash + 1 || (end < |s| && Word(s[end])) then 0 else end
  }

  /** `\s*(?:[:—–-]\s*)?` */
  function AfterSeparator(s: string): string {
    var t := SkipSpace(s);
    if t != "" && Separator(t[0]) then SkipSpace(t[1..]) else t
  }

  predicate OneLine(s: string) {
    forall i :: 0 <= i < |s| ==> !LineEnd(s[i])
  }

  /** The title begins with the reference once more. */
  predicate Repeats(reference: string, title: string) {
    reference <= title && (|title| == |reference| || !Word(title[|reference|]))
  }

  function DisplayTitle(title: string): Item {
    var s := SkipSpace(title);
    var n := ReferenceLength(s);
    var rest := AfterSeparator(s[n..]);
    if n == 0 || !OneLine(rest) then Item(None, Trim(title))
    else
      var reference, shown := s[..n], Trim(rest);
      Item(Some(reference), if Repeats(reference, shown) then Trim(AfterSeparator(shown[n..])) else shown)
  }

  function ItemOf(task: Task): Item { DisplayTitle(task.title) }

  /** `read`: one page, each row by its reference and title. */
  function Read(page: SourceResult<Task>): SourceResult<Item> {
    if page.NotOk? then NotOk(page.reason) else Rows(Map(ItemOf, page.items), page.total, page.truncated)
  }

  /**
   * What the single-page reads answer: refused exactly when the page was; otherwise each row of
   * it by reference and title, truncated exactly when the page does not hold the reported total.
   */
  lemma PageIsRead(client: Option<Server>, request: nat, offset: nat)
    ensures
      var page, r := Fetch(client, request, offset), Read(Fetch(client, request, offset));
      && (page.NotOk? ==> r == NotOk(page.reason))
      && (page.Rows? ==>
            && r.Rows? && client.value(request, offset).Page? && |r.items| == |client.value(request, offset).items|
            && r.total == client.value(request, offset).count && (r.truncated <==> |r.items| < r.total)
            && forall i :: 0 <= i < |r.items| ==> r.items[i] == DisplayTitle(client.value(request, offset).items[i].title))
  {
  }

  // ------------------------------------------------------------------ trimming

  predicate Trimmed(s: string) {
    s == "" || (!Space(s[0]) && !Space(s[|s| - 1]))
  }

  lemma {:induction false} SkippedIsSuffix(s: string)
    ensures |SkipSpace(s)| <= |s| && SkipSpace(s) == s[|s| - |SkipSpace(s)|..]
    ensures SkipSpace(s) == "" || !Space(SkipSpace(s)[0])
  {
    if s == "" || !Space(s[0]) {
    } else {
      SkippedIsSuffix(s[1..]);
    }
  }

  lemma {:induction false} TrimmedIsPrefix(s: string)
    ensures |TrimEnd(s)| <= |s| && TrimEnd(s) == s[..|TrimEnd(s)|]
    ensures TrimEnd(s) == "" || !Space(TrimEnd(s)[|TrimEnd(s)| - 1])
  {
    if s == "" || !Space(s[|s| - 1]) {
    } else {
      TrimmedIsPrefix(s[..|s| - 1]);
    }
  }

  lemma TrimTrims(s: string)
    ensures Trimmed(Trim(s)) && |Trim(s)| <= |s|
    ensures OneLine(s) ==> OneLine(Trim(s))
    ensures Trimmed(s) ==> Trim(s) == s
  {
    SkippedIsSuffix(s);
    TrimmedIsPrefix(SkipSpace(s));
  }

  lemma AfterSeparatorIsSuffix(s: string)
    ensures |AfterSeparator(s)| <= |s| && AfterSeparator(s) == s[|s| - |AfterSeparator(s)|..]
  {
    SkippedIsSuffix(s);
    var t := SkipSpace(s);
    if t != "" { SkippedIsSuffix(t[1..]); }
  }

  // ------------------------------------------------------------------ what is displayed

  /** A whole string that is a reference. */
  predicate IsReference(s: string) { s != "" && ReferenceLength(s) == |s| }

  lemma {:induction false} RunStops(s: string, k: nat, letters: bool, n: nat, tail: string)
    requires k <= |s| && RunEnd(s, k, letters) <= n <= |s|
    requires RunEnd(s, k, letters) < n || tail == "" || !(Digit(tail[0]) || (letters && Upper(tail[0])))
    ensures k <= |s[..n] + tail| && RunEnd(s[..n] + tail, k, letters) == RunEnd(s, k, letters)
    decreases |s| - k
  {
    var t := s[..n] + tail;
    if k < RunEnd(s, k, letters) {
      assert t[k] == s[k];
      RunStops(s, k + 1, letters, n, tail);
    } else if k < n {
      assert t[k] == s[k];
    } else if tail != "" {
      assert t[k] == tail[0];
    }
  }

  /** A reference is found again wherever no word goes on behind it. */
  lemma ReferenceFound(s: string, tail: string)
    requires ReferenceLength(s) > 0 && (tail == "" || !Word(tail[0]))
    ensures ReferenceLength(s[..ReferenceLength(s)] + tail) == ReferenceLength(s)
  {
    var n, dash := ReferenceLength(s), RunEnd(s, 1, true);
    var t := s[..n] + tail;
    RunStops(s, 1, true, n, tail);
    RunStops(s, dash + 1, false, n, tail);
    assert t[0] == s[0] && t[dash] == s[dash];
    assert n < |t| ==> t[n] == tail[0];
  }

  /** `\s`, by code point. */
  lemma SpaceIsWhiteSpace(c: char)
    ensures Space(c) <==>
            c as int in {9, 10, 11, 12, 13, 32, 0xA0, 0x1680, 0x2028, 0x2029, 0x202F, 0x205F, 0x3000, 0xFEFF}
            || 0x2000 <= c as int <= 0x200A
  {
  }

  /** Trimming cuts white space, at both ends, and nothing else. */
  lemma TrimIsSlice(s: string) returns (i: nat, j: nat)
    ensures i <= j <= |s| && Trim(s) == s[i..j]
    ensures forall k :: 0 <= k < i || j <= k < |s| ==> Space(s[k])
  {
    SkippedIsSuffix(s);
    SkippedIsSpace(s);
    var t := SkipSpace(s);
    TrimmedIsPrefix(t);
    CutIsSpace(t);
    i := |s| - |t|;
    j := i + |Trim(s)|;
  }

  lemma {:induction false} SkippedIsSpace(s: string)
    ensures |SkipSpace(s)| <= |s| && forall k :: 0 <= k < |s| - |SkipSpace(s)| ==> Space(s[k])
  {
    if s == "" || !Space(s[0]) {
    } else {
      SkippedIsSpace(s[1..]);
    }
  }

  lemma {:induction false} CutIsSpace(s: string)
    ensures |TrimEnd(s)| <= |s| && forall k :: |TrimEnd(s)| <= k < |s| ==> Space(s[k])
  {
    if s == "" || !Space(s[|s| - 1]) {
    } else {
      CutIsSpace(s[..|s| - 1]);
    }
  }

  /** The first `n` characters are a reference with its dash at `dash`, and no word goes on behind it. */
  predicate ReferenceWith(s: string, n: nat, dash: nat) {
    && 0 < dash < n - 1 && n <= |s|
    && 'A' <= s[0] <= 'Z' && (forall i :: 1 <= i < dash ==> 'A' <= s[i] <= 'Z' || '0' <= s[i] <= '9')
    && s[dash] == '-' && (forall i :: dash < i < n ==> '0' <= s[i] <= '9')
    && (n == |s| || !('A' <= s[n] <= 'Z' || 'a' <= s[n] <= 'z' || '0' <= s[n] <= '9' || s[n] == '_'))
  }

  /** The pattern matches the first `n` characters. */
  ghost predicate ReferenceAt(s: string, n: nat) {
    exists dash: nat :: ReferenceWith(s, n, dash)
  }

  lemma {:induction false} RunEndIff(s: string, k: nat, letters: bool)
    requires k <= |s|
    ensures forall i :: k <= i < RunEnd(s, k, letters) ==> '0' <= s[i] <= '9' || (letters && 'A' <= s[i] <= 'Z')
    ensures var e := RunEnd(s, k, letters); e < |s| ==> !('0' <= s[e] <= '9' || (letters && 'A' <= s[e] <= 'Z'))
    decreases |s| - k
  {
    if k < |s| && (Digit(s[k]) || (letters && Upper(s[k]))) { RunEndIff(s, k + 1, letters); }
  }

  lemma LengthIsReference(s: string)
    requires ReferenceLength(s) > 0
    ensures ReferenceAt(s, ReferenceLength(s))
  {
    var dash := RunEnd(s, 1, true);
    RunEndIff(s, 1, true);
    RunEndIff(s, dash + 1, false);
    assert ReferenceWith(s, ReferenceLength(s), dash);
  }

  /** A run that stops at `end` ends there. */
  lemma {:induction false} RunEndIs(s: string, k: nat, letters: bool, end: nat)
    requires k <= end <= |s|
    requires forall i :: k <= i < end ==> '0' <= s[i] <= '9' || (letters && 'A' <= s[i] <= 'Z')
    requires end < |s| ==> !('0' <= s[end] <= '9' || (letters && 'A' <= s[end] <= 'Z'))
    ensures RunEnd(s, k, letters) == end
    decreases |s| - k
  {
    if k < end { RunEndIs(s, k + 1, letters, end); }
  }

  lemma ReferenceHasLength(s: string, n: nat)
    requires ReferenceAt(s, n)
    ensures ReferenceLength(s) == n
  {
    var dash: nat :| ReferenceWith(s, n, dash);
    RunEndIs(s, 1, true, dash);
    RunEndIs(s, dash + 1, false, n);
  }

  /** The length of the reference is that of the only match of the pattern, and 0 without one. */
  lemma ReferenceLengthIff(s: string, n: nat)
    requires n > 0
    ensures ReferenceLength(s) == n <==> ReferenceAt(s, n)
  {
    if ReferenceLength(s) == n { LengthIsReference(s); }
    if ReferenceAt(s, n) { ReferenceHasLength(s, n); }
  }

  ghost predicate ShowsReference(s: string, n: nat) {
    n > 0 && ReferenceAt(s, n) && n <= |s| && OneLine(AfterSeparator(s[n..]))
  }

  /**
   * A title shows a reference exactly when the pattern matches behind its leading space and
   * what follows the separator is one line; and then it shows that match.
   */
  lemma ReferenceIsShownIff(title: string)
    ensures DisplayTitle(title).id.Some? <==> exists n :: ShowsReference(SkipSpace(title), n)
    ensures forall n: nat :: ShowsReference(SkipSpace(title), n) ==> DisplayTitle(title).id == Some(SkipSpace(title)[..n])
  {
    var s := SkipSpace(title);
    ShownByLength(title);
    var n := ReferenceLength(s);
    if n > 0 {
      ReferenceLengthIff(s, n);
      assert DisplayTitle(title).id.Some? ==> ShowsReference(s, n);
    }
    forall m | ShowsReference(s, m) ensures m == n { ReferenceLengthIff(s, m); }
  }

  lemma ShownByLength(title: string)
    ensures
      var s := SkipSpace(title);
      var n := ReferenceLength(s);
      DisplayTitle(title).id == if n > 0 && OneLine(AfterSeparator(s[n..])) then Some(s[..n]) else None
  {
  }

  /** Without a reference the raw title is shown, less the white space around it and nothing else. */
  lemma UnreferencedIsTrimmed(title: string) returns (i: nat, j: nat)
    requires DisplayTitle(title).id.None?
    ensures i <= j <= |title| && DisplayTitle(title).title == title[i..j] && Trimmed(title[i..j])
    ensures forall k :: 0 <= k < i || j <= k < |title| ==> Space(title[k])
  {
    TrimTrims(title);
    i, j := TrimIsSlice(title);
  }

  /**
   * A displayed title has no space around it; one with a reference has the reference of the
   * raw title, and is one line.
   */
  lemma DisplayedIsClean(title: string)
    ensures
      var item := DisplayTitle(title);
      && Trimmed(item.title)
      && (item.id.Some? ==> IsReference(item.id.value) && item.id.value <= SkipSpace(title) && OneLine(item.title))
  {
    var s := SkipSpace(title);
    var n := ReferenceLength(s);
    var rest := AfterSeparator(s[n..]);
    TrimTrims(title);
    if n > 0 && OneLine(rest) {
      ReferenceFound(s, "");
      assert s[..n] + "" == s[..n];
      TrimTrims(rest);
      var shown := Trim(rest);
      if Repeats(s[..n], shown) {
        AfterSeparatorIsSuffix(shown[n..]);
        TrimTrims(AfterSeparator(shown[n..]));
      }
    }
  }

  /** A colon or any dash separates; any other character belongs to the title. */
  lemma SeparatorSkipped(c: char, title: string)
    requires Trimmed(title)
    ensures c in ":—–-" ==> AfterSeparator([c, ' '] + title) == title
    ensures title != "" && title[0] !in ":—–-" ==> AfterSeparator(" " + title) == title
  {
    var t := [c, ' '] + title;
    assert t[1..] == " " + title && (" " + title)[1..] == title;
    assert SkipSpace(" " + title) == SkipSpace(title) == title;
    if c in ":—–-" {
      assert c == ':' || c == '—' || c == '–' || c == '-';
      assert SkipSpace(t) == t;
    }
  }

  /** What a line `id: title` is read back as. */
  lemma Redisplayed(id: string, title: string)
    requires IsReference(id) && Trimmed(title) && OneLine(title)
    ensures
      DisplayTitle(id + ": " + title) ==
      Item(Some(id), if Repeats(id, title) then Trim(AfterSeparator(title[|id|..])) else title)
  {
    var text, tail := id + ": " + title, ": " + title;
    ReferenceFound(id, tail);
    assert id[..|id|] == id && text == id + tail && text[|id|..] == tail && text[..|id|] == id;
    assert SkipSpace(text) == text;
    SeparatorSkipped(':', title);
    assert tail == [':', ' '] + title;
    TrimTrims(title);
  }

  /** A reference said twice is lifted once; one that goes on with a letter, digit or `_` is another one. */
  lemma RepeatIsDropped(id: string, title: string)
    requires IsReference(id) && Trimmed(title) && OneLine(title)
    ensures DisplayTitle(id + ": " + id) == Item(Some(id), "")
    ensures title != "" ==> DisplayTitle(id + ": " + (id + ": " + title)) == Item(Some(id), title)
    ensures title != "" && ('A' <= title[0] <= 'Z' || 'a' <= title[0] <= 'z' || '0' <= title[0] <= '9' || title[0] == '_') ==>
              DisplayTitle(id + ": " + (id + title)) == Item(Some(id), id + title)
  {
    ReferenceIsClean(id);
    Redisplayed(id, id);
    assert id[|id|..] == "";
    if title != "" {
      CleanTogether(id, title);
      CleanTogether(id + ": ", title);
      RepeatIsRead(id, title);
      Redisplayed(id, id + title);
      assert (id + title)[|id|] == title[0];
    }
  }

  lemma RepeatIsRead(id: string, title: string)
    requires IsReference(id) && Trimmed(title) && OneLine(title) && title != ""
    requires Trimmed(id + ": " + title) && OneLine(id + ": " + title)
    ensures DisplayTitle(id + ": " + (id + ": " + title)) == Item(Some(id), title)
  {
    var again := id + ": " + title;
    Redisplayed(id, again);
    RepeatHere(id, title);
    TrimTrims(title);
  }

  lemma RepeatHere(id: string, title: string)
    requires Trimmed(title)
    ensures Repeats(id, id + ": " + title) && AfterSeparator((id + ": " + title)[|id|..]) == title
  {
    var again := id + ": " + title;
    assert again[|id|..] == ": " + title && again[..|id|] == id && again[|id|] == ':';
    assert ": " + title == [':', ' '] + title;
    SeparatorSkipped(':', title);
  }

  lemma ReferenceIsClean(id: string)
    requires IsReference(id)
    ensures Trimmed(id) && OneLine(id)
  {
    LengthIsReference(id);
    var dash :| ReferenceWith(id, |id|, dash);
    forall i | 0 <= i < |id| ensures Upper(id[i]) || Digit(id[i]) || id[i] == '-' {}
  }

  lemma CleanTogether(front: string, title: string)
    requires front != "" && !Space(front[0]) && OneLine(front) && Trimmed(title) && OneLine(title) && title != ""
    ensures Trimmed(front + title) && OneLine(front + title)
  {
  }

  lemma LineIsStableIff(id: string, title: string)
    requires IsReference(id) && Trimmed(title) && OneLine(title)
    ensures DisplayTitle(id + ": " + title) == Item(Some(id), title) <==> !Repeats(id, title)
  {
    Redisplayed(id, title);
    if Repeats(id, title) {
      AfterSeparatorIsSuffix(title[|id|..]);
      TrimTrims(AfterSeparator(title[|id|..]));
    }
  }

  /**
   * What a message shows of an item, `id: title`, displays as that item again exactly when the
   * title does not begin with the reference a third time.
   */
  lemma DisplayIsStableIff(title: string)
    requires DisplayTitle(title).id.Some?
    ensures
      var item := DisplayTitle(title);
      DisplayTitle(item.id.value + ": " + item.title) == item <==> !Repeats(item.id.value, item.title)
  {
    var item := DisplayTitle(title);
    DisplayedIsClean(title);
    LineIsStableIff(item.id.value, item.title);
  }
}
