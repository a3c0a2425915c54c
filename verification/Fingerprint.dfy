/**
 * The digest of the image inputs: `fingerprintOf` of apps/assistant/src/health/build-fingerprint.ts
 * and `fingerprint_of` of scripts/ci/deployed-build-gate.py. SHA-256 is any injective function
 * whose hexadecimal text holds no NUL.
 */
module Fingerprint {
  import opened Common
  import opened Sorting
  import opened FileTree

  const NUL := '\0'

  const IMAGE_INPUTS: seq<Path> := [
    ["apps", "assistant"],
    ["package.json"],
    ["packages", "core"],
    ["pnpm-lock.yaml"],
    ["pnpm-workspace.yaml"],
    ["tsconfig.base.json"],
    ["tsconfig.json"]
  ]

  type Hash = string -> string

  ghost predicate Sound(h: Hash) {
    && (forall x, y :: h(x) == h(y) ==> x == y)
    && (forall x :: NUL !in h(x))
  }

  /** Which of the two implementations computes. */
  datatype Side = TypeScript | Python

  function Find(cs: seq<Child>, name: string): Option<Node> {
    if cs == [] then None
    else if cs[0].name == name then Some(cs[0].node)
    else Find(cs[1..], name)
  }

  function Lookup(node: Node, path: Path): Option<Node>
    decreases |path|
  {
    if path == [] then Some(node)
    else
      match node
      case File(_) => None
      case Dir(cs) =>
        var found := Find(cs, path[0]);
        if found.None? then None else Lookup(found.value, path[1..])
  }

  datatype Found = Found(entries: seq<Entry>, problems: seq<string>)

  /** `filesUnder` and `_files_under` for one declared input. */
  function FilesUnder(side: Side, root: Node, input: Path): Found {
    match Lookup(root, input)
    case None => Found([], ["missing"])
    case Some(File(content)) => Found([Entry(input, content)], [])
    case Some(Dir(cs)) =>
      var entries := if side == TypeScript then WalkDir(input, cs) else Keep(Listing(input, cs));
      Found(entries, if entries == [] then ["empty directory"] else [])
  }

  function AllFiles(side: Side, root: Node, inputs: seq<Path>): Found {
    if inputs == [] then Found([], [])
    else
      var before := AllFiles(side, root, inputs[..|inputs| - 1]);
      var last := FilesUnder(side, root, inputs[|inputs| - 1]);
      Found(before.entries + last.entries, before.problems + last.problems)
  }

  datatype Line = Line(text: string, content: string)

  function LineOf(e: Entry): Line { Line(Join(e.path, "/"), e.content) }

  /** By path text; no two lines of one tree share it, so the contents never decide. */
  function LineOrder(): (Line, Line) -> bool {
    (a: Line, b: Line) => if a.text == b.text then TextLeq(a.content, b.content) else TextLeq(a.text, b.text)
  }

  function Lines(entries: seq<Entry>): seq<Line> { Map(LineOf, entries) }

  /** What is fed to the outer hash: `path NUL sha256 NUL` for each line. */
  function Stream(h: Hash, lines: seq<Line>): string {
    if lines == [] then ""
    else lines[0].text + [NUL] + (h(lines[0].content) + [NUL] + Stream(h, lines[1..]))
  }

  function Digest(h: Hash, lines: seq<Line>): string {
    "sha256:" + h(Stream(h, Sort(LineOrder(), lines)))
  }

  /** The specification of both implementations; None is the null digest. */
  function FingerprintOf(side: Side, root: Node, h: Hash): Option<string> {
    var all := AllFiles(side, root, IMAGE_INPUTS);
    if all.problems != [] then None else Some(Digest(h, Lines(all.entries)))
  }

  predicate Yields(side: Side, root: Node, input: Path) { FilesUnder(side, root, input).entries != [] }

  /** A declared input has a problem exactly when it yields no file. */
  lemma OneMoreInput(side: Side, root: Node, inputs: seq<Path>)
    requires inputs != []
    ensures
      var n := |inputs| - 1;
      AllFiles(side, root, inputs).problems == []
      <==> AllFiles(side, root, inputs[..n]).problems == [] && Yields(side, root, inputs[n])
  {
  }

  lemma {:induction false} NoProblemsIff(side: Side, root: Node, inputs: seq<Path>)
    ensures AllFiles(side, root, inputs).problems == [] <==> forall i :: 0 <= i < |inputs| ==> Yields(side, root, inputs[i])
  {
    if inputs == [] {
    } else {
      var n := |inputs| - 1;
      NoProblemsIff(side, root, inputs[..n]);
      OneMoreInput(side, root, inputs);
      assert forall i :: 0 <= i < n ==> inputs[..n][i] == inputs[i];
    }
  }

  /** The digest is null exactly when some declared input yields no file, whatever is wrong with it. */
  lemma NullIff(side: Side, root: Node, h: Hash)
    ensures FingerprintOf(side, root, h).None? <==>
            exists i :: 0 <= i < |IMAGE_INPUTS| && FilesUnder(side, root, IMAGE_INPUTS[i]).entries == []
  {
    NoProblemsIff(side, root, IMAGE_INPUTS);
    assert forall i :: 0 <= i < |IMAGE_INPUTS| ==>
      (Yields(side, root, IMAGE_INPUTS[i]) <==> FilesUnder(side, root, IMAGE_INPUTS[i]).entries != []);
  }

  /** The first loop of the source: every declared input's files and problems. */
  method Collect(side: Side, root: Node, inputs: seq<Path>) returns (entries: seq<Entry>, problems: seq<string>)
    ensures AllFiles(side, root, inputs) == Found(entries, problems)
  {
    entries, problems := [], [];
    for i := 0 to |inputs|
      invariant AllFiles(side, root, inputs[..i]) == Found(entries, problems)
    {
      assert inputs[..i + 1][..i] == inputs[..i];
      var found := FilesUnder(side, root, inputs[i]);
      entries, problems := entries + found.entries, problems + found.problems;
    }
    assert inputs[..|inputs|] == inputs;
  }

  /** The second loop: four updates of the hash for each line. */
  method HashLines(h: Hash, lines: seq<Line>) returns (hashed: string)
    ensures hashed == Stream(h, lines)
  {
    hashed := "";
    assert lines[0..] == lines;
    for i := 0 to |lines|
      invariant hashed + Stream(h, lines[i..]) == Stream(h, lines)
    {
      ghost var before := hashed;
      assert lines[i..][0] == lines[i] && lines[i..][1..] == lines[i + 1..];
      hashed := hashed + lines[i].text;
      hashed := hashed + [NUL];
      hashed := hashed + h(lines[i].content);
      hashed := hashed + [NUL];
      OneLine(before, lines[i].text, h(lines[i].content), Stream(h, lines[i + 1..]));
    }
  }

  /** One file more appends its path, a NUL, the digest of its content and a NUL; the whole is named with its algorithm. */
  lemma {:induction false} StreamGrows(h: Hash, lines: seq<Line>, last: Line)
    ensures Stream(h, lines + [last]) == Stream(h, lines) + last.text + "\0" + h(last.content) + "\0"
    ensures Digest(h, lines) == "sha256:" + h(Stream(h, Sort(LineOrder(), lines)))
  {
    if lines == [] {
      assert [] + [last] == [last] && [last][1..] == [];
    } else {
      StreamGrows(h, lines[1..], last);
      assert (lines + [last])[1..] == lines[1..] + [last];
    }
  }

  lemma OneLine(before: string, text: string, hash: string, rest: string)
    ensures before + text + [NUL] + hash + [NUL] + rest == before + (text + [NUL] + (hash + [NUL] + rest))
  {
  }

  method ComputeFingerprint(side: Side, root: Node, h: Hash) returns (digest: Option<string>)
    ensures digest == FingerprintOf(side, root, h)
  {
    var entries, problems := Collect(side, root, IMAGE_INPUTS);
    if problems != [] { return None; }
    var hashed := HashLines(h, Sort(LineOrder(), Lines(entries)));
    digest := Some("sha256:" + h(hashed));
  }

  // ------------------------------------------------------------------ the stream decodes uniquely

  lemma {:induction false} CutAtFirst(c: char, a: string, x: string, b: string, y: string)
    requires c !in a && c !in b && a + [c] + x == b + [c] + y
    ensures a == b && x == y
  {
    var s := a + [c] + x;
    assert s[0] == (b + [c] + y)[0];
    if a != [] && b != [] {
      assert s[1..] == a[1..] + [c] + x && (b + [c] + y)[1..] == b[1..] + [c] + y;
      CutAtFirst(c, a[1..], x, b[1..], y);
      assert a == [a[0]] + a[1..] && b == [b[0]] + b[1..];
    } else {
      assert s[1..] == x && (b + [c] + y)[1..] == y;
    }
  }

  ghost predicate CleanTexts(lines: seq<Line>) {
    forall l :: l in lines ==> NUL !in l.text
  }

  lemma {:induction false} StreamDecodes(h: Hash, xs: seq<Line>, ys: seq<Line>)
    requires Sound(h) && CleanTexts(xs) && CleanTexts(ys)
    requires Stream(h, xs) == Stream(h, ys)
    ensures xs == ys
  {
    if xs != [] && ys != [] {
      CutAtFirst(NUL, xs[0].text, h(xs[0].content) + [NUL] + Stream(h, xs[1..]),
                 ys[0].text, h(ys[0].content) + [NUL] + Stream(h, ys[1..]));
      CutAtFirst(NUL, h(xs[0].content), Stream(h, xs[1..]), h(ys[0].content), Stream(h, ys[1..]));
      StreamDecodes(h, xs[1..], ys[1..]);
      assert xs == [xs[0]] + xs[1..] && ys == [ys[0]] + ys[1..];
    } else {
      StreamEmpty(h, xs);
      StreamEmpty(h, ys);
    }
  }

  lemma StreamEmpty(h: Hash, xs: seq<Line>)
    ensures Stream(h, xs) == "" <==> xs == []
  {
  }

  lemma LineOrderIsTotal()
    ensures TotalOrder(LineOrder())
  {
    forall a: Line, b: Line
      ensures LineOrder()(a, b) || LineOrder()(b, a)
      ensures LineOrder()(a, b) && LineOrder()(b, a) ==> a == b
    {
      TextTotal(a.text, b.text);
      TextTotal(a.content, b.content);
    }
    forall a: Line, b: Line, c: Line | LineOrder()(a, b) && LineOrder()(b, c) ensures LineOrder()(a, c) {
      LinesTransitive(a, b, c);
    }
  }

  lemma LinesTransitive(a: Line, b: Line, c: Line)
    requires LineOrder()(a, b) && LineOrder()(b, c)
    ensures LineOrder()(a, c)
  {
    if a.text == b.text == c.text {
      TextTransitive(a.content, b.content, c.content);
    } else if a.text != b.text && b.text != c.text {
      TextTransitive(a.text, b.text, c.text);
      TextTotal(a.text, b.text);
    }
  }

  /** Equal digests hold exactly for the same lines, however either side listed them. */
  lemma DigestNamesLines(h: Hash, xs: seq<Line>, ys: seq<Line>)
    requires Sound(h) && CleanTexts(xs) && CleanTexts(ys)
    ensures Digest(h, xs) == Digest(h, ys) <==> multiset(xs) == multiset(ys)
  {
    LineOrderIsTotal();
    var p, q := Sort(LineOrder(), xs), Sort(LineOrder(), ys);
    SortSorts(LineOrder(), xs);
    SortSorts(LineOrder(), ys);
    if multiset(xs) == multiset(ys) {
      SortIgnoresListing(LineOrder(), xs, ys);
    } else if Digest(h, xs) == Digest(h, ys) {
      assert Digest(h, xs)[7..] == h(Stream(h, p)) && Digest(h, ys)[7..] == h(Stream(h, q));
      SortedStaysClean(xs);
      SortedStaysClean(ys);
      StreamDecodes(h, p, q);
    }
  }

  lemma SortedStaysClean(xs: seq<Line>)
    requires CleanTexts(xs)
    ensures CleanTexts(Sort(LineOrder(), xs))
  {
    LineOrderIsTotal();
    SortSorts(LineOrder(), xs);
    forall l | l in Sort(LineOrder(), xs) ensures NUL !in l.text {
      assert l in multiset(Sort(LineOrder(), xs));
    }
  }

  // ------------------------------------------------------------------ every file has its own path

  predicate GoodName(name: string) {
    name != "" && '/' !in name && NUL !in name
  }

  /** Names as a file system allows them, and no two entries of a directory alike. */
  predicate ValidDir(cs: seq<Child>)
    decreases cs
  {
    cs == [] ||
    (ValidDir(cs[1..]) && GoodName(cs[0].name)
     && (forall i :: 1 <= i < |cs| ==> cs[i].name != cs[0].name)
     && (cs[0].node.Dir? ==> ValidDir(cs[0].node.children)))
  }

  predicate ValidRoot(root: Node) {
    root.Dir? && ValidDir(root.children)
  }

  predicate GoodPath(path: Path) {
    path != [] && forall i :: 0 <= i < |path| ==> GoodName(path[i])
  }

  /** Entries at or below `at`, each with a path of good names and none sharing it. */
  ghost predicate Separate(entries: seq<Entry>, at: Path) {
    && (forall e :: e in entries ==> GoodPath(e.path) && at <= e.path)
    && (forall i, j :: 0 <= i < j < |entries| ==> entries[i].path != entries[j].path)
  }

  lemma SeparateAppend(xs: seq<Entry>, ys: seq<Entry>, at: Path)
    requires Separate(xs, at) && Separate(ys, at)
    requires forall x, y :: x in xs && y in ys ==> x.path != y.path
    ensures Separate(xs + ys, at)
  {
  }

  lemma {:induction false} SelectedIsSeparate(at: Path, cs: seq<Child>)
    requires ValidDir(cs) && forall i :: 0 <= i < |at| ==> GoodName(at[i])
    ensures Separate(Selected(at, cs), at)
    ensures forall e :: e in Selected(at, cs) ==>
              |e.path| > |at| && exists i :: 0 <= i < |cs| && cs[i].name == e.path[|at|]
    decreases cs
  {
    if cs == [] {
    } else {
      var path := at + [cs[0].name];
      var rest := Selected(at, cs[1..]);
      var first := match cs[0].node
        case File(content) => if Ignored(path) then [] else [Entry(path, content)]
        case Dir(children) => Selected(path, children);
      SelectedIsSeparate(at, cs[1..]);
      if cs[0].node.Dir? { SelectedIsSeparate(path, cs[0].node.children); }
      assert Separate(first, path);
      forall e | e in first ensures at <= e.path && |e.path| > |at| && e.path[|at|] == cs[0].name {
        assert path <= e.path;
      }
      forall e | e in rest ensures |e.path| > |at| && exists i :: 1 <= i < |cs| && cs[i].name == e.path[|at|] {
        var i :| 0 <= i < |cs[1..]| && cs[1..][i].name == e.path[|at|];
        assert cs[i + 1].name == e.path[|at|];
      }
      SeparateAppend(first, rest, at);
    }
  }

  /** A selection of separate entries is separate. */
  lemma SeparateWithin(xs: seq<Entry>, ys: seq<Entry>, at: Path)
    requires multiset(xs) <= multiset(ys) && Separate(ys, at)
    ensures Separate(xs, at)
  {
    forall e | e in xs ensures GoodPath(e.path) && at <= e.path {
      assert e in multiset(ys);
    }
    forall i, j | 0 <= i < j < |xs| ensures xs[i].path != xs[j].path {
      TwiceInBag(xs, ys, i, j);
      assert xs[i] in multiset(ys) && xs[j] in multiset(ys);
      var k :| 0 <= k < |ys| && ys[k] == xs[i];
      var l :| 0 <= l < |ys| && ys[l] == xs[j];
    }
  }

  lemma TwiceInBag(xs: seq<Entry>, ys: seq<Entry>, i: nat, j: nat)
    requires multiset(xs) <= multiset(ys) && i < j < |xs|
    requires forall k, l :: 0 <= k < l < |ys| ==> ys[k].path != ys[l].path
    ensures xs[i] != xs[j]
  {
    assert xs == xs[..j] + [xs[j]] + xs[j + 1..];
    assert multiset(xs)[xs[j]] == multiset(xs[..j])[xs[j]] + 1 + multiset(xs[j + 1..])[xs[j]];
    assert xs[..j][i] == xs[i];
    AtMostOnce(ys, xs[j]);
  }

  lemma {:induction false} AtMostOnce(ys: seq<Entry>, e: Entry)
    requires forall k, l :: 0 <= k < l < |ys| ==> ys[k].path != ys[l].path
    ensures multiset(ys)[e] <= 1
  {
    if ys == [] {
    } else {
      AtMostOnce(ys[1..], e);
      assert ys == [ys[0]] + ys[1..];
    }
  }

  lemma {:induction false} FoundIsValid(cs: seq<Child>, name: string)
    requires ValidDir(cs)
    ensures Find(cs, name).Some? && Find(cs, name).value.Dir? ==> ValidDir(Find(cs, name).value.children)
  {
    if cs != [] && cs[0].name != name { FoundIsValid(cs[1..], name); }
  }

  lemma {:induction false} LookupIsValid(node: Node, path: Path)
    requires node.Dir? ==> ValidDir(node.children)
    ensures
      var found := Lookup(node, path);
      found.Some? && found.value.Dir? ==> ValidDir(found.value.children)
    decreases |path|
  {
    if path != [] && node.Dir? {
      var found := Find(node.children, path[0]);
      FoundIsValid(node.children, path[0]);
      if found.Some? { LookupIsValid(found.value, path[1..]); }
    }
  }

  lemma FilesUnderAreSeparate(side: Side, root: Node, input: Path)
    requires ValidRoot(root) && GoodPath(input) && !HasIgnoredDir(input)
    ensures Separate(FilesUnder(side, root, input).entries, input)
  {
    LookupIsValid(root, input);
    match Lookup(root, input)
    case None =>
    case Some(File(_)) =>
    case Some(Dir(cs)) =>
      SelectedIsSeparate(input, cs);
      KeepIsSelected(input, cs);
      WalkDirIsPruned(input, cs);
      PrunedWithinSelected(input, cs);
      SeparateWithin(FilesUnder(side, root, input).entries, Selected(input, cs), input);
  }

  /** Inputs that no path lies under two of. */
  ghost predicate Declared(inputs: seq<Path>) {
    && (forall i :: 0 <= i < |inputs| ==> GoodPath(inputs[i]) && !HasIgnoredDir(inputs[i]))
    && (forall i, j :: 0 <= i < j < |inputs| ==> inputs[i][0] != inputs[j][0])
  }

  lemma {:induction false} AllFilesAreSeparate(side: Side, root: Node, inputs: seq<Path>)
    requires ValidRoot(root) && Declared(inputs)
    ensures Separate(AllFiles(side, root, inputs).entries, [])
    ensures forall e :: e in AllFiles(side, root, inputs).entries ==>
              exists i :: 0 <= i < |inputs| && inputs[i][0] == e.path[0]
  {
    if inputs == [] {
    } else {
      var n := |inputs| - 1;
      var front, last := inputs[..n], inputs[n];
      AllFilesAreSeparate(side, root, front);
      FilesUnderAreSeparate(side, root, last);
      var xs, ys := AllFiles(side, root, front).entries, FilesUnder(side, root, last).entries;
      forall y | y in ys ensures y.path[0] == last[0] {
        assert last <= y.path;
      }
      forall x | x in xs ensures exists i :: 0 <= i < n && inputs[i][0] == x.path[0] {
        var i :| 0 <= i < |front| && front[i][0] == x.path[0];
        assert inputs[i][0] == x.path[0];
      }
      SeparateAppend(xs, ys, []);
    }
  }

  // ------------------------------------------------------------------ results

  lemma {:induction false} NoSlash(parts: Path)
    requires GoodPath(parts)
    ensures NUL !in Join(parts, "/")
    ensures '/' in Join(parts, "/") <==> |parts| > 1
  {
    if |parts| <= 1 {
    } else {
      assert GoodPath(parts[1..]) && GoodName(parts[0]);
      NoSlash(parts[1..]);
      assert "/"[0] == '/';
    }
  }

  /** The text of a path names its parts. */
  lemma {:induction false} PathTextIsUnambiguous(p: Path, q: Path)
    requires GoodPath(p) && GoodPath(q) && Join(p, "/") == Join(q, "/")
    ensures p == q
  {
    NoSlash(p);
    NoSlash(q);
    if |p| <= 1 {
    } else {
      assert GoodName(p[0]) && GoodName(q[0]);
      CutAtFirst('/', p[0], Join(p[1..], "/"), q[0], Join(q[1..], "/"));
      PathTextIsUnambiguous(p[1..], q[1..]);
      assert p == [p[0]] + p[1..] && q == [q[0]] + q[1..];
    }
  }

  /** Path to content: what a digest is meant to name. */
  function Contents(entries: seq<Entry>): map<Path, string> {
    if entries == [] then map[] else Contents(entries[1..])[entries[0].path := entries[0].content]
  }

  lemma {:induction false} ContentsLookup(entries: seq<Entry>, e: Entry)
    requires Separate(entries, [])
    ensures e in entries <==> e.path in Contents(entries) && Contents(entries)[e.path] == e.content
  {
    if entries == [] {
    } else {
      ContentsLookup(entries[1..], e);
      assert entries == [entries[0]] + entries[1..];
      assert forall i :: 1 <= i < |entries| ==> entries[i].path != entries[0].path;
      assert e in entries[1..] ==> e.path != entries[0].path;
    }
  }

  lemma LinesOfSeparate(xs: seq<Entry>)
    requires Separate(xs, [])
    ensures Distinct(Lines(xs)) && CleanTexts(Lines(xs))
    ensures forall l :: l in Lines(xs) <==> exists e :: e in xs && LineOf(e) == l
  {
    forall i, j | 0 <= i < j < |xs| ensures Lines(xs)[i] != Lines(xs)[j] {
      if Lines(xs)[i].text == Lines(xs)[j].text {
        PathTextIsUnambiguous(xs[i].path, xs[j].path);
      }
    }
    forall l | l in Lines(xs) ensures NUL !in l.text && exists e :: e in xs && LineOf(e) == l {
      var i :| 0 <= i < |xs| && Lines(xs)[i] == l;
      assert xs[i] in xs;
      NoSlash(xs[i].path);
    }
    forall e | e in xs ensures LineOf(e) in Lines(xs) {
      var i :| 0 <= i < |xs| && xs[i] == e;
      assert Lines(xs)[i] == LineOf(e);
    }
  }

  lemma LineNamesEntry(xs: seq<Entry>, ys: seq<Entry>, e: Entry)
    requires Separate(xs, []) && Separate(ys, []) && e in xs
    requires forall l :: l in Lines(xs) ==> l in Lines(ys)
    ensures e in ys
  {
    LinesOfSeparate(xs);
    LinesOfSeparate(ys);
    assert LineOf(e) in Lines(ys);
    var f :| f in ys && LineOf(f) == LineOf(e);
    PathTextIsUnambiguous(f.path, e.path);
  }

  lemma SameLinesIffSameContents(xs: seq<Entry>, ys: seq<Entry>)
    requires Separate(xs, []) && Separate(ys, [])
    ensures multiset(Lines(xs)) == multiset(Lines(ys)) <==> Contents(xs) == Contents(ys)
  {
    if multiset(Lines(xs)) == multiset(Lines(ys)) {
      SameMembers(Lines(xs), Lines(ys));
      forall p ensures p in Contents(xs) <==> p in Contents(ys)
               ensures p in Contents(xs) && p in Contents(ys) ==> Contents(xs)[p] == Contents(ys)[p]
      {
        if p in Contents(xs) { ContentsTransfer(xs, ys, p); }
        if p in Contents(ys) { ContentsTransfer(ys, xs, p); }
      }
    }
    if Contents(xs) == Contents(ys) {
      forall e ensures e in xs <==> e in ys {
        ContentsLookup(xs, e);
        ContentsLookup(ys, e);
      }
      SameEntriesSameLines(xs, ys);
    }
  }

  lemma SameEntriesSameLines(xs: seq<Entry>, ys: seq<Entry>)
    requires Separate(xs, []) && Separate(ys, [])
    requires forall e :: e in xs <==> e in ys
    ensures multiset(Lines(xs)) == multiset(Lines(ys))
  {
    LinesOfSeparate(xs);
    LinesOfSeparate(ys);
    SameElements(Lines(xs), Lines(ys));
  }

  lemma ContentsTransfer(xs: seq<Entry>, ys: seq<Entry>, p: Path)
    requires Separate(xs, []) && Separate(ys, []) && p in Contents(xs)
    requires forall l :: l in Lines(xs) ==> l in Lines(ys)
    ensures p in Contents(ys) && Contents(ys)[p] == Contents(xs)[p]
  {
    var e := Entry(p, Contents(xs)[p]);
    ContentsLookup(xs, e);
    LineNamesEntry(xs, ys, e);
    ContentsLookup(ys, e);
  }

  lemma DirectoryNamesAreGood()
    ensures GoodName("apps") && GoodName("assistant") && GoodName("packages") && GoodName("core")
  {
  }

  lemma PackageNamesAreGood()
    ensures GoodName("package.json") && GoodName("pnpm-lock.yaml") && GoodName("pnpm-workspace.yaml")
  {
  }

  lemma ConfigNamesAreGood()
    ensures GoodName("tsconfig.base.json") && GoodName("tsconfig.json")
  {
  }

  lemma InputHeadsDiffer(i: nat, j: nat)
    requires i < j < 7
    ensures IMAGE_INPUTS[i][0] != IMAGE_INPUTS[j][0]
  {
    var lengths := [4, 12, 8, 14, 19, 18, 13];
    assert |IMAGE_INPUTS[i][0]| == lengths[i] && |IMAGE_INPUTS[j][0]| == lengths[j];
  }

  lemma InputIsGood(i: nat)
    requires i < 7
    ensures GoodPath(IMAGE_INPUTS[i]) && !HasIgnoredDir(IMAGE_INPUTS[i])
  {
    DirectoryNamesAreGood();
    PackageNamesAreGood();
    ConfigNamesAreGood();
    var lengths := [[4, 9], [12], [8, 4], [14], [19], [18], [13]];
    assert |IMAGE_INPUTS[i]| == |lengths[i]| <= 2;
    assert "apps"[0] == 'a' && "core" != ".git";
  }

  /** The declared inputs are good paths no two of which share a first part. */
  lemma InputsAreDeclared()
    ensures Declared(IMAGE_INPUTS)
  {
    forall i | 0 <= i < |IMAGE_INPUTS| ensures GoodPath(IMAGE_INPUTS[i]) && !HasIgnoredDir(IMAGE_INPUTS[i]) {
      InputIsGood(i);
    }
    forall i, j | 0 <= i < j < |IMAGE_INPUTS| ensures IMAGE_INPUTS[i][0] != IMAGE_INPUTS[j][0] {
      InputHeadsDiffer(i, j);
    }
  }

  function FilesOf(side: Side, root: Node): seq<Entry> {
    AllFiles(side, root, IMAGE_INPUTS).entries
  }

  /**
   * Two digests, whichever implementation computed each, are equal exactly when the two trees
   * give the image the same paths with the same contents.
   */
  lemma DigestNamesTheFileSet(h: Hash, side1: Side, root1: Node, side2: Side, root2: Node)
    requires Sound(h) && ValidRoot(root1) && ValidRoot(root2)
    ensures FingerprintOf(side1, root1, h).Some? && FingerprintOf(side2, root2, h).Some? ==>
              (FingerprintOf(side1, root1, h) == FingerprintOf(side2, root2, h)
               <==> Contents(FilesOf(side1, root1)) == Contents(FilesOf(side2, root2)))
  {
    InputsAreDeclared();
    AllFilesAreSeparate(side1, root1, IMAGE_INPUTS);
    AllFilesAreSeparate(side2, root2, IMAGE_INPUTS);
    var xs, ys := FilesOf(side1, root1), FilesOf(side2, root2);
    LinesOfSeparate(xs);
    LinesOfSeparate(ys);
    DigestNamesLines(h, Lines(xs), Lines(ys));
    SameLinesIffSameContents(xs, ys);
  }

  // ------------------------------------------------------------------ the two languages

  /** Under every declared directory, no directory named like an ignored file hides a file. */
  predicate AgreeableInputs(root: Node, inputs: seq<Path>) {
    inputs == [] ||
    (AgreeableInputs(root, inputs[..|inputs| - 1]) &&
     match Lookup(root, inputs[|inputs| - 1])
     case Some(Dir(cs)) => Agreeable(cs)
     case _ => true)
  }

  lemma OneInput(root: Node, input: Path)
    requires !HasIgnoredDir(input)
    ensures
      var ts, py := FilesUnder(TypeScript, root, input), FilesUnder(Python, root, input);
      && multiset(ts.entries) <= multiset(py.entries)
      && (|ts.entries| == |py.entries| <==>
            match Lookup(root, input) case Some(Dir(cs)) => Agreeable(cs) case _ => true)
      && (|ts.entries| == |py.entries| ==> ts.problems == py.problems)
  {
    match Lookup(root, input)
    case Some(Dir(cs)) =>
      WalkDirIsPruned(input, cs);
      KeepIsSelected(input, cs);
      PrunedWithinSelected(input, cs);
      BagSize(WalkDir(input, cs), Pruned(input, cs));
    case _ =>
  }

  lemma BagSize<T>(xs: seq<T>, ys: seq<T>)
    requires multiset(xs) == multiset(ys)
    ensures |xs| == |ys|
  {
    assert |multiset(xs)| == |multiset(ys)|;
  }

  lemma {:induction false} AllInputs(root: Node, inputs: seq<Path>)
    requires forall i :: 0 <= i < |inputs| ==> !HasIgnoredDir(inputs[i])
    ensures
      var ts, py := AllFiles(TypeScript, root, inputs), AllFiles(Python, root, inputs);
      && multiset(ts.entries) <= multiset(py.entries)
      && (|ts.entries| == |py.entries| <==> AgreeableInputs(root, inputs))
      && (AgreeableInputs(root, inputs) ==> ts.problems == py.problems)
  {
    if inputs == [] {
    } else {
      var front, last := inputs[..|inputs| - 1], inputs[|inputs| - 1];
      AllInputs(root, front);
      OneInput(root, last);
      AddBags(multiset(AllFiles(TypeScript, root, front).entries), multiset(AllFiles(Python, root, front).entries),
              multiset(FilesUnder(TypeScript, root, last).entries), multiset(FilesUnder(Python, root, last).entries));
    }
  }

  lemma SameFilesIff(root: Node)
    requires ValidRoot(root)
    ensures
      AgreeableInputs(root, IMAGE_INPUTS) <==>
      Contents(FilesOf(TypeScript, root)) == Contents(FilesOf(Python, root))
  {
    InputsAreDeclared();
    AllInputs(root, IMAGE_INPUTS);
    AllFilesAreSeparate(TypeScript, root, IMAGE_INPUTS);
    AllFilesAreSeparate(Python, root, IMAGE_INPUTS);
    SameSizeBags(multiset(FilesOf(TypeScript, root)), multiset(FilesOf(Python, root)));
    SameBagIffSameContents(FilesOf(TypeScript, root), FilesOf(Python, root));
  }

  /**
   * The service's digest and the gate's digest of one tree agree exactly when the tree is
   * agreeable, or both are null for want of an input.
   */
  lemma LanguagesAgreeIff(h: Hash, root: Node)
    requires Sound(h) && ValidRoot(root)
    ensures FingerprintOf(TypeScript, root, h) == FingerprintOf(Python, root, h) <==>
            AgreeableInputs(root, IMAGE_INPUTS)
            || (FingerprintOf(TypeScript, root, h).None? && FingerprintOf(Python, root, h).None?)
  {
    SameFilesIff(root);
    if FingerprintOf(TypeScript, root, h).Some? && FingerprintOf(Python, root, h).Some? {
      DigestNamesTheFileSet(h, TypeScript, root, Python, root);
    }
    InputsAreDeclared();
    AllInputs(root, IMAGE_INPUTS);
  }

  lemma SameBagIffSameContents(xs: seq<Entry>, ys: seq<Entry>)
    requires Separate(xs, []) && Separate(ys, [])
    ensures multiset(xs) == multiset(ys) <==> Contents(xs) == Contents(ys)
  {
    forall e ensures e in xs <==> e.path in Contents(xs) && Contents(xs)[e.path] == e.content
             ensures e in ys <==> e.path in Contents(ys) && Contents(ys)[e.path] == e.content
    {
      ContentsLookup(xs, e);
      ContentsLookup(ys, e);
    }
    if multiset(xs) == multiset(ys) {
      SameMembers(xs, ys);
      forall p ensures p in Contents(xs) <==> p in Contents(ys)
               ensures p in Contents(xs) && p in Contents(ys) ==> Contents(xs)[p] == Contents(ys)[p]
      {
        if p in Contents(xs) { assert Entry(p, Contents(xs)[p]) in ys; }
        if p in Contents(ys) { assert Entry(p, Contents(ys)[p]) in xs; }
      }
    }
    if Contents(xs) == Contents(ys) {
      SameElements(xs, ys);
    }
  }
}
