/**
 * The two file walks of the build fingerprint: the pruning walk of
 * apps/assistant/src/health/build-fingerprint.ts and the full listing with a filter of
 * scripts/ci/deployed-build-gate.py, and exactly when they select the same files.
 */
module FileTree {
  import opened Common
  import opened Sorting

  datatype Node = File(content: string) | Dir(children: seq<Child>)

  datatype Child = Child(name: string, node: Node)

  /** A path relative to the root, part by part. */
  type Path = seq<string>

  datatype Entry = Entry(path: Path, content: string)

  const IGNORED_DIR_NAMES := {"node_modules", "dist", "coverage", ".turbo", ".next", ".git", "__pycache__"}

  predicate EndsWith(name: string, suffix: string) {
    |suffix| <= |name| && name[|name| - |suffix|..] == suffix
  }

  /** The rules that were written for file names. */
  predicate FileRule(name: string) {
    name == ".DS_Store" || EndsWith(name, ".tsbuildinfo") || EndsWith(name, ".log")
  }

  /** `isIgnored` and `_ignored`, on the parts of the path. */
  predicate Ignored(path: Path)
    requires path != []
  {
    FileRule(path[|path| - 1]) || HasIgnoredDir(path)
  }

  predicate HasIgnoredDir(path: Path) {
    exists i :: 0 <= i < |path| && path[i] in IGNORED_DIR_NAMES
  }

  // ------------------------------------------------------------------ the pruning walk

  function Size(node: Node): nat {
    match node
    case File(_) => 1
    case Dir(children) => 1 + Sizes(children)
  }

  function Sizes(children: seq<Child>): nat {
    if children == [] then 0 else Size(children[0].node) + Sizes(children[1..])
  }

  function ByName(): (Child, Child) -> bool {
    (a: Child, b: Child) => TextLeq(a.name, b.name)
  }

  lemma {:induction false} InsertSizes(c: Child, cs: seq<Child>)
    ensures Sizes(Insert(ByName(), c, cs)) == Size(c.node) + Sizes(cs)
  {
    var ins := Insert(ByName(), c, cs);
    if cs == [] || ByName()(c, cs[0]) {
      assert ins[1..] == cs;
    } else {
      InsertSizes(c, cs[1..]);
      assert ins[1..] == Insert(ByName(), c, cs[1..]);
    }
  }

  lemma {:induction false} SortSizes(cs: seq<Child>)
    ensures Sizes(Sort(ByName(), cs)) == Sizes(cs)
  {
    if cs == [] {
    } else {
      SortSizes(cs[1..]);
      InsertSizes(cs[0], Sort(ByName(), cs[1..]));
    }
  }

  /** `walk` on one directory entry: skip what is ignored, descend into directories, keep files. */
  function WalkChild(at: Path, c: Child): seq<Entry>
    decreases Size(c.node), 0
  {
    if Ignored(at + [c.name]) then []
    else
      match c.node
      case File(content) => [Entry(at + [c.name], content)]
      case Dir(children) =>
        SortSizes(children);
        Walk(at + [c.name], Sort(ByName(), children))
  }

  /** `walk(target)` on a declared directory. */
  function WalkDir(at: Path, children: seq<Child>): seq<Entry> {
    Walk(at, Sort(ByName(), children))
  }

  /** `walk` over the sorted entries of one directory. */
  function Walk(at: Path, cs: seq<Child>): seq<Entry>
    decreases Sizes(cs), |cs| + 1
  {
    if cs == [] then []
    else
      SizePositive(cs[0].node);
      WalkChild(at, cs[0]) + Walk(at, cs[1..])
  }

  lemma SizePositive(node: Node)
    ensures Size(node) >= 1
  {
  }

  // ------------------------------------------------------------------ the full listing

  /** Everything below a directory, directories as None: `target.rglob("*")` in some order. */
  datatype Item = Item(path: Path, content: Option<string>)

  function Listing(at: Path, cs: seq<Child>): seq<Item>
    decreases cs
  {
    if cs == [] then []
    else
      (match cs[0].node
       case File(content) => [Item(at + [cs[0].name], Some(content))]
       case Dir(children) => [Item(at + [cs[0].name], None)] + Listing(at + [cs[0].name], children))
      + Listing(at, cs[1..])
  }

  /** `p.is_file() and not _ignored(rel)` over a listing. */
  function Keep(items: seq<Item>): seq<Entry> {
    if items == [] then []
    else
      (if items[0].content.Some? && items[0].path != [] && !Ignored(items[0].path)
       then [Entry(items[0].path, items[0].content.value)] else [])
      + Keep(items[1..])
  }

  lemma KeepCons(item: Item, rest: seq<Item>)
    requires item.path != []
    ensures Keep([item] + rest) ==
            (if item.content.Some? && !Ignored(item.path) then [Entry(item.path, item.content.value)] else [])
            + Keep(rest)
  {
    assert ([item] + rest)[1..] == rest;
  }

  lemma {:induction false} KeepAppend(xs: seq<Item>, ys: seq<Item>)
    ensures Keep(xs + ys) == Keep(xs) + Keep(ys)
  {
    if xs == [] {
      assert xs + ys == ys;
    } else {
      assert (xs + ys)[1..] == xs[1..] + ys;
      KeepAppend(xs[1..], ys);
    }
  }

  /** The listing's filter, directory by directory. */
  function Selected(at: Path, cs: seq<Child>): seq<Entry>
    decreases cs
  {
    if cs == [] then []
    else
      var path := at + [cs[0].name];
      (match cs[0].node
       case File(content) => if Ignored(path) then [] else [Entry(path, content)]
       case Dir(children) => Selected(path, children))
      + Selected(at, cs[1..])
  }

  lemma {:induction false} KeepIsSelected(at: Path, cs: seq<Child>)
    ensures Keep(Listing(at, cs)) == Selected(at, cs)
    decreases cs
  {
    if cs == [] {
    } else {
      var path := at + [cs[0].name];
      KeepIsSelected(at, cs[1..]);
      match cs[0].node
      case File(content) =>
        KeepCons(Item(path, Some(content)), Listing(at, cs[1..]));
      case Dir(children) =>
        var below := Listing(path, children);
        KeepIsSelected(path, children);
        KeepCons(Item(path, None), below);
        KeepAppend([Item(path, None)] + below, Listing(at, cs[1..]));
    }
  }

  // ------------------------------------------------------------------ pruning, without the sorting

  function Pruned(at: Path, cs: seq<Child>): seq<Entry>
    decreases cs
  {
    if cs == [] then [] else PrunedChild(at, cs[0]) + Pruned(at, cs[1..])
  }

  function PrunedChild(at: Path, c: Child): seq<Entry>
    decreases c
  {
    var path := at + [c.name];
    if Ignored(path) then []
    else
      match c.node
      case File(content) => [Entry(path, content)]
      case Dir(children) => Pruned(path, children)
  }

  lemma {:induction false} InsertPruned(at: Path, c: Child, cs: seq<Child>)
    ensures multiset(Pruned(at, Insert(ByName(), c, cs))) == multiset(PrunedChild(at, c)) + multiset(Pruned(at, cs))
  {
    var ins := Insert(ByName(), c, cs);
    if cs == [] || ByName()(c, cs[0]) {
      assert ins[0] == c && ins[1..] == cs;
    } else {
      InsertPruned(at, c, cs[1..]);
      assert ins[0] == cs[0] && ins[1..] == Insert(ByName(), c, cs[1..]);
    }
  }

  lemma {:induction false} SortPruned(at: Path, cs: seq<Child>)
    ensures multiset(Pruned(at, Sort(ByName(), cs))) == multiset(Pruned(at, cs))
  {
    if cs == [] {
    } else {
      SortPruned(at, cs[1..]);
      InsertPruned(at, cs[0], Sort(ByName(), cs[1..]));
    }
  }

  lemma {:induction false} WalkIsPruned(at: Path, cs: seq<Child>)
    ensures multiset(Walk(at, cs)) == multiset(Pruned(at, cs))
    decreases Sizes(cs), |cs| + 1
  {
    if cs == [] {
    } else {
      SizePositive(cs[0].node);
      WalkChildIsPruned(at, cs[0]);
      WalkIsPruned(at, cs[1..]);
    }
  }

  lemma {:induction false} WalkChildIsPruned(at: Path, c: Child)
    ensures multiset(WalkChild(at, c)) == multiset(PrunedChild(at, c))
    decreases Size(c.node), 0
  {
    if !Ignored(at + [c.name]) && c.node.Dir? {
      SortSizes(c.node.children);
      WalkIsPruned(at + [c.name], Sort(ByName(), c.node.children));
      SortPruned(at + [c.name], c.node.children);
    }
  }

  lemma WalkDirIsPruned(at: Path, cs: seq<Child>)
    ensures multiset(WalkDir(at, cs)) == multiset(Pruned(at, cs))
  {
    WalkIsPruned(at, Sort(ByName(), cs));
    SortPruned(at, cs);
  }

  // ------------------------------------------------------------------ where they differ

  /** No file here would be selected by the listing, wherever this directory stands. */
  predicate Bare(cs: seq<Child>)
    decreases cs
  {
    cs == [] ||
    (Bare(cs[1..]) &&
     (cs[0].name in IGNORED_DIR_NAMES ||
      match cs[0].node
      case File(_) => FileRule(cs[0].name)
      case Dir(children) => Bare(children)))
  }

  /** Every directory that only a file rule ignores holds no file worth selecting. */
  predicate Agreeable(cs: seq<Child>)
    decreases cs
  {
    cs == [] ||
    (Agreeable(cs[1..]) &&
     (cs[0].name in IGNORED_DIR_NAMES || cs[0].node.File? ||
      if FileRule(cs[0].name) then Bare(cs[0].node.children) else Agreeable(cs[0].node.children)))
  }

  /** No directory's name falls under a file rule. */
  predicate PlainDirs(cs: seq<Child>)
    decreases cs
  {
    cs == [] ||
    (PlainDirs(cs[1..]) && (cs[0].node.File? || (!FileRule(cs[0].name) && PlainDirs(cs[0].node.children))))
  }

  lemma {:induction false} PlainIsAgreeable(cs: seq<Child>)
    requires PlainDirs(cs)
    ensures Agreeable(cs)
    decreases cs
  {
    if cs == [] {
    } else {
      PlainIsAgreeable(cs[1..]);
      if cs[0].node.Dir? { PlainIsAgreeable(cs[0].node.children); }
    }
  }

  lemma IgnoredDirSnoc(at: Path, name: string)
    ensures HasIgnoredDir(at + [name]) <==> HasIgnoredDir(at) || name in IGNORED_DIR_NAMES
  {
    if HasIgnoredDir(at) {
      var i :| 0 <= i < |at| && at[i] in IGNORED_DIR_NAMES;
      assert (at + [name])[i] in IGNORED_DIR_NAMES;
    }
    if name in IGNORED_DIR_NAMES {
      assert (at + [name])[|at|] in IGNORED_DIR_NAMES;
    }
  }

  lemma {:induction false} NothingBelowIgnored(at: Path, cs: seq<Child>)
    requires HasIgnoredDir(at)
    ensures Selected(at, cs) == []
    decreases cs
  {
    if cs == [] {
    } else {
      IgnoredDirSnoc(at, cs[0].name);
      NothingBelowIgnored(at, cs[1..]);
      if cs[0].node.Dir? { NothingBelowIgnored(at + [cs[0].name], cs[0].node.children); }
    }
  }

  lemma {:induction false} BareSelectsNothing(at: Path, cs: seq<Child>)
    requires !HasIgnoredDir(at)
    ensures Selected(at, cs) == [] <==> Bare(cs)
    decreases cs
  {
    if cs == [] {
    } else {
      var path := at + [cs[0].name];
      IgnoredDirSnoc(at, cs[0].name);
      BareSelectsNothing(at, cs[1..]);
      if cs[0].node.Dir? {
        if HasIgnoredDir(path) {
          NothingBelowIgnored(path, cs[0].node.children);
        } else {
          BareSelectsNothing(path, cs[0].node.children);
        }
      }
    }
  }

  /** The pruning walk finds no more than the listing, and as much exactly on agreeable trees. */
  lemma {:induction false} PrunedWithinSelected(at: Path, cs: seq<Child>)
    requires !HasIgnoredDir(at)
    ensures multiset(Pruned(at, cs)) <= multiset(Selected(at, cs))
    ensures |Pruned(at, cs)| == |Selected(at, cs)| <==> Agreeable(cs)
    decreases cs, 1
  {
    if cs == [] {
    } else {
      PrunedWithinSelected(at, cs[1..]);
      var first := SelectedFirst(at, cs);
      AddBags(multiset(PrunedChild(at, cs[0])), multiset(first),
              multiset(Pruned(at, cs[1..])), multiset(Selected(at, cs[1..])));
    }
  }

  /** The same, for the first entry of a directory alone. */
  lemma {:induction false} SelectedFirst(at: Path, cs: seq<Child>) returns (first: seq<Entry>)
    requires !HasIgnoredDir(at) && cs != []
    ensures Selected(at, cs) == first + Selected(at, cs[1..])
    ensures multiset(PrunedChild(at, cs[0])) <= multiset(first)
    ensures (|PrunedChild(at, cs[0])| == |first| && Agreeable(cs[1..])) <==> Agreeable(cs)
    decreases cs, 0
  {
    var path, c := at + [cs[0].name], cs[0];
    IgnoredDirSnoc(at, c.name);
    match c.node
    case File(content) => first := if Ignored(path) then [] else [Entry(path, content)];
    case Dir(children) =>
      first := Selected(path, children);
      if HasIgnoredDir(path) {
        NothingBelowIgnored(path, children);
      } else if FileRule(c.name) {
        BareSelectsNothing(path, children);
      } else {
        PrunedWithinSelected(path, children);
      }
  }

  lemma AddBags<T>(a: multiset<T>, b: multiset<T>, c: multiset<T>, d: multiset<T>)
    requires a <= b && c <= d
    ensures a + c <= b + d
    ensures |a + c| == |b + d| <==> |a| == |b| && |c| == |d|
  {
    assert b == a + (b - a) && d == c + (d - c);
  }

  /**
   * The pruning walk and any listing of the same directory, filtered, select the same files
   * if and only if no directory named like an ignored file holds a file worth selecting.
   */
  lemma WalksAgreeIff(at: Path, cs: seq<Child>, listing: seq<Item>)
    requires !HasIgnoredDir(at) && multiset(listing) == multiset(Listing(at, cs))
    ensures multiset(WalkDir(at, cs)) == multiset(Keep(listing)) <==> Agreeable(cs)
  {
    WalkDirIsPruned(at, cs);
    KeepIsSelected(at, cs);
    KeepIgnoresOrder(listing, Listing(at, cs));
    PrunedWithinSelected(at, cs);
    SameSizeBags(multiset(Pruned(at, cs)), multiset(Selected(at, cs)));
  }

  lemma SameSizeBags<T>(a: multiset<T>, b: multiset<T>)
    requires a <= b
    ensures a == b <==> |a| == |b|
  {
    assert b == a + (b - a);
  }

  lemma {:induction false} KeepCount(items: seq<Item>, e: Entry)
    ensures multiset(Keep(items))[e] ==
            if e.path != [] && !Ignored(e.path) then multiset(items)[Item(e.path, Some(e.content))] else 0
  {
    if items == [] {
    } else {
      KeepCount(items[1..], e);
      assert items == [items[0]] + items[1..];
    }
  }

  lemma KeepIgnoresOrder(xs: seq<Item>, ys: seq<Item>)
    requires multiset(xs) == multiset(ys)
    ensures multiset(Keep(xs)) == multiset(Keep(ys))
  {
    forall e ensures multiset(Keep(xs))[e] == multiset(Keep(ys))[e] {
      KeepCount(xs, e);
      KeepCount(ys, e);
    }
  }

  /** The rules differ on directories: a source file under a directory named `audit.log`. */
  lemma WalksCanDiffer(at: Path)
    requires !HasIgnoredDir(at)
    ensures
      var cs := [Child("audit.log", Dir([Child("main.ts", File("x"))]))];
      && !Agreeable(cs) && WalkDir(at, cs) == []
      && Keep(Listing(at, cs)) == [Entry(at + ["audit.log"] + ["main.ts"], "x")]
  {
    var inner := [Child("main.ts", File("x"))];
    var cs := [Child("audit.log", Dir(inner))];
    RulesOnNames();
    IgnoredDirSnoc(at, "audit.log");
    IgnoredDirSnoc(at + ["audit.log"], "main.ts");
    KeepIsSelected(at, cs);
    assert inner[1..] == [] && cs[1..] == [];
    assert Sort(ByName(), cs) == cs;
    assert Selected(at + ["audit.log"], inner) == [Entry(at + ["audit.log"] + ["main.ts"], "x")];
  }

  lemma RulesOnNames()
    ensures FileRule("audit.log") && !FileRule("main.ts")
    ensures "audit.log" !in IGNORED_DIR_NAMES && "main.ts" !in IGNORED_DIR_NAMES
  {
    assert "audit.log"[5..] == ".log";
    assert "main.ts"[3] == 'n';
  }
}
