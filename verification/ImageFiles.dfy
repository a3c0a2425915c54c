/**
 * Which files the build fingerprint covers, said of the tree alone: a file is a chain of
 * directory entries with a content at its end.
 */
module ImageFiles {
  import opened Common
  import opened FileTree
  import opened Fingerprint

  /** `path` leads from `node` through its entries to a file of that content. */
  ghost predicate Holds(node: Node, path: Path, content: string)
    decreases |path|, 1
  {
    if path == [] then node == File(content)
    else node.Dir? && exists i :: HoldsAt(node.children, i, path, content)
  }

  ghost predicate HoldsAt(cs: seq<Child>, i: int, path: Path, content: string)
    requires path != []
    decreases |path|, 0
  {
    0 <= i < |cs| && cs[i].name == path[0] && Holds(cs[i].node, path[1..], content)
  }

  /** The first `k` parts end in an ignored file name or pass through an ignored directory name. */
  predicate Skipped(path: Path, k: nat)
    requires 0 < k <= |path|
  {
    var name := path[k - 1];
    || name == ".DS_Store"
    || (|name| >= 4 && name[|name| - 4..] == ".log")
    || (|name| >= 12 && name[|name| - 12..] == ".tsbuildinfo")
    || exists i :: 0 <= i < k &&
         path[i] in {"node_modules", "dist", "coverage", ".turbo", ".next", ".git", "__pycache__"}
  }

  /** The service skips ignored entries on the way down, the gate only ignored files at the end. */
  ghost predicate Reached(side: Side, input: Path, path: Path)
    requires input <= path
  {
    path == input ||
    forall k :: (if side == TypeScript then |input| < k <= |path| else k == |path|) && k > 0 ==> !Skipped(path, k)
  }

  /** The file is in the image: at or below a declared input, and reached from it. */
  ghost predicate Covered(side: Side, root: Node, path: Path, content: string) {
    && Holds(root, path, content)
    && exists input ::
         input in [["apps", "assistant"], ["package.json"], ["packages", "core"], ["pnpm-lock.yaml"],
                   ["pnpm-workspace.yaml"], ["tsconfig.base.json"], ["tsconfig.json"]]
         && input <= path && Reached(side, input, path)
  }

  // ------------------------------------------------------------------ directories

  lemma SkippedIsIgnored(path: Path, k: nat)
    requires 0 < k <= |path|
    ensures Ignored(path[..k]) <==> Skipped(path, k)
  {
    assert forall i :: 0 <= i < k ==> path[..k][i] == path[i];
  }

  lemma HoldsCons(c: Child, rest: seq<Child>, path: Path, content: string)
    requires path != []
    ensures Holds(Dir([c] + rest), path, content) <==>
            (c.name == path[0] && Holds(c.node, path[1..], content)) || Holds(Dir(rest), path, content)
  {
    var cs := [c] + rest;
    assert cs[0] == c && forall i :: 0 <= i < |rest| ==> cs[i + 1] == rest[i];
    if i :| HoldsAt(cs, i, path, content) {
      if i > 0 { assert HoldsAt(rest, i - 1, path, content); }
    }
    if i :| HoldsAt(rest, i, path, content) {
      assert HoldsAt(cs, i + 1, path, content);
    }
    if c.name == path[0] && Holds(c.node, path[1..], content) {
      assert HoldsAt(cs, 0, path, content);
    }
  }

  /** `e` is strictly below `at`, where `cs` is. */
  ghost predicate Below(at: Path, cs: seq<Child>, e: Entry) {
    at <= e.path && |at| < |e.path| && Holds(Dir(cs), e.path[|at|..], e.content)
  }

  lemma BelowCons(at: Path, c: Child, rest: seq<Child>, e: Entry)
    ensures
      Below(at, [c] + rest, e) <==>
      Below(at, rest, e)
      || (match c.node
          case File(content) => e == Entry(at + [c.name], content)
          case Dir(children) => Below(at + [c.name], children, e))
  {
    var below := at + [c.name];
    if at <= e.path && |at| < |e.path| {
      var q := e.path[|at|..];
      HoldsCons(c, rest, q, e.content);
      assert e.path == at + q && e.path[|below|..] == q[1..];
      assert c.name == q[0] <==> below <= e.path;
      assert q[1..] == [] ==> e.path == at + [q[0]];
    }
  }

  lemma EmptyHoldsNothing(cs: seq<Child>, path: Path, content: string)
    requires cs == [] && path != []
    ensures !Holds(Dir(cs), path, content)
  {
    assert forall i :: !HoldsAt(cs, i, path, content);
    assert Dir(cs).children == cs;
  }

  lemma NothingBelowNothing(at: Path, cs: seq<Child>, e: Entry)
    requires cs == []
    ensures !Below(at, cs, e)
  {
    if at <= e.path && |at| < |e.path| { EmptyHoldsNothing(cs, e.path[|at|..], e.content); }
  }

  lemma {:induction false} SelectedIff(at: Path, cs: seq<Child>, e: Entry)
    ensures e in Selected(at, cs) <==> Below(at, cs, e) && !Ignored(e.path)
    decreases cs
  {
    if cs == [] {
      NothingBelowNothing(at, cs, e);
    } else {
      assert cs == [cs[0]] + cs[1..];
      BelowCons(at, cs[0], cs[1..], e);
      SelectedIff(at, cs[1..], e);
      if cs[0].node.Dir? { SelectedIff(at + [cs[0].name], cs[0].node.children, e); }
    }
  }

  /** Nothing on the way from `at` down to `path` is ignored. */
  ghost predicate Open(at: Path, path: Path) {
    forall k :: |at| < k <= |path| ==> !Ignored(path[..k])
  }

  lemma OpenStep(at: Path, name: string, path: Path)
    requires at + [name] <= path
    ensures Open(at, path) <==> !Ignored(at + [name]) && Open(at + [name], path)
  {
    assert path[..|at| + 1] == at + [name];
  }

  lemma {:induction false} PrunedIff(at: Path, cs: seq<Child>, e: Entry)
    ensures e in Pruned(at, cs) <==> Below(at, cs, e) && Open(at, e.path)
    decreases cs
  {
    if cs == [] {
      NothingBelowNothing(at, cs, e);
    } else {
      var below := at + [cs[0].name];
      assert cs == [cs[0]] + cs[1..];
      BelowCons(at, cs[0], cs[1..], e);
      PrunedIff(at, cs[1..], e);
      if below <= e.path { OpenStep(at, cs[0].name, e.path); }
      if cs[0].node.Dir? { PrunedIff(below, cs[0].node.children, e); }
    }
  }

  // ------------------------------------------------------------------ one declared input

  lemma {:induction false} FindIff(cs: seq<Child>, i: nat)
    requires ValidDir(cs) && i < |cs|
    ensures Find(cs, cs[i].name) == Some(cs[i].node)
  {
    if i == 0 {
    } else {
      FindIff(cs[1..], i - 1);
    }
  }

  lemma {:induction false} FindIsChild(cs: seq<Child>, name: string) returns (i: int)
    requires Find(cs, name).Some?
    ensures 0 <= i < |cs| && cs[i].name == name && Find(cs, name) == Some(cs[i].node)
  {
    if cs[0].name == name {
      i := 0;
    } else {
      i := FindIsChild(cs[1..], name);
      i := i + 1;
    }
  }

  /** What `Lookup` finds holds what the whole tree holds behind that path. */
  lemma {:induction false} LookupHolds(node: Node, input: Path, rest: Path, content: string)
    requires node.Dir? ==> ValidDir(node.children)
    ensures Holds(node, input + rest, content) <==>
            Lookup(node, input).Some? && Holds(Lookup(node, input).value, rest, content)
    decreases |input|
  {
    if input == [] {
      assert input + rest == rest;
    } else if node.Dir? {
      var path, cs := input + rest, node.children;
      assert path[1..] == input[1..] + rest && path[0] == input[0];
      if i :| HoldsAt(cs, i, path, content) {
        FindIff(cs, i);
        FoundIsValid(cs, cs[i].name);
        LookupHolds(cs[i].node, input[1..], rest, content);
      }
      if Find(cs, input[0]).Some? {
        var i := FindIsChild(cs, input[0]);
        FoundIsValid(cs, input[0]);
        LookupHolds(cs[i].node, input[1..], rest, content);
        if Holds(cs[i].node, path[1..], content) { assert HoldsAt(cs, i, path, content); }
      }
    }
  }

  lemma ReachedIff(side: Side, input: Path, path: Path)
    requires input < path
    ensures Reached(side, input, path) <==> if side == TypeScript then Open(input, path) else !Ignored(path)
  {
    forall k | 0 < k <= |path| ensures Ignored(path[..k]) <==> Skipped(path, k) { SkippedIsIgnored(path, k); }
    assert path[..|path|] == path;
  }

  lemma FilesUnderIff(side: Side, root: Node, input: Path, e: Entry)
    requires ValidRoot(root)
    ensures e in FilesUnder(side, root, input).entries <==>
            input <= e.path && Holds(root, e.path, e.content) && Reached(side, input, e.path)
  {
    var found := Lookup(root, input);
    if input <= e.path {
      var rest := e.path[|input|..];
      assert e.path == input + rest;
      LookupHolds(root, input, rest, e.content);
      if input < e.path { ReachedIff(side, input, e.path); }
    }
    match found
    case None =>
    case Some(File(content)) =>
      if input <= e.path {
        var rest := e.path[|input|..];
        assert rest == [] <==> e.path == input;
        assert Holds(found.value, rest, e.content) <==> rest == [] && content == e.content;
      }
    case Some(Dir(cs)) => DirFilesIff(side, input, cs, e);
  }

  lemma DirFilesIff(side: Side, input: Path, cs: seq<Child>, e: Entry)
    ensures
      e in (if side == TypeScript then WalkDir(input, cs) else Keep(Listing(input, cs))) <==>
      Below(input, cs, e) && if side == TypeScript then Open(input, e.path) else !Ignored(e.path)
  {
    if side == TypeScript {
      WalkDirIsPruned(input, cs);
      SameMembers(WalkDir(input, cs), Pruned(input, cs));
      PrunedIff(input, cs, e);
    } else {
      KeepIsSelected(input, cs);
      SelectedIff(input, cs, e);
    }
  }

  // ------------------------------------------------------------------ all of them

  lemma {:induction false} AllFilesIff(side: Side, root: Node, inputs: seq<Path>, e: Entry)
    requires ValidRoot(root)
    ensures e in AllFiles(side, root, inputs).entries <==>
            Holds(root, e.path, e.content)
            && exists input :: input in inputs && input <= e.path && Reached(side, input, e.path)
  {
    if inputs == [] {
    } else {
      var front, last := inputs[..|inputs| - 1], inputs[|inputs| - 1];
      AllFilesIff(side, root, front, e);
      FilesUnderIff(side, root, last, e);
      assert inputs == front + [last];
    }
  }

  /** What is hashed, as a map: a path with a content is in it exactly when the tree holds that file and covers it. */
  lemma FilesAreCovered(side: Side, root: Node, path: Path, content: string)
    requires ValidRoot(root)
    ensures
      Has(Contents(FilesOf(side, root)), path, content) <==> Covered(side, root, path, content)
  {
    InputsAreDeclared();
    AllFilesAreSeparate(side, root, IMAGE_INPUTS);
    ContentsLookup(FilesOf(side, root), Entry(path, content));
    AllFilesIff(side, root, IMAGE_INPUTS, Entry(path, content));
  }

  /** Two digests, of either implementation, are equal exactly when the two trees cover the same files. */
  lemma DigestNamesCoveredFiles(h: Hash, side1: Side, root1: Node, side2: Side, root2: Node)
    requires Sound(h) && ValidRoot(root1) && ValidRoot(root2)
    ensures FingerprintOf(side1, root1, h).Some? && FingerprintOf(side2, root2, h).Some? ==>
              (FingerprintOf(side1, root1, h) == FingerprintOf(side2, root2, h)
               <==> forall path, content :: Covered(side1, root1, path, content) <==> Covered(side2, root2, path, content))
  {
    DigestNamesTheFileSet(h, side1, root1, side2, root2);
    var xs, ys := Contents(FilesOf(side1, root1)), Contents(FilesOf(side2, root2));
    SameMapIff(xs, ys);
    forall path, content
      ensures Has(xs, path, content) <==> Covered(side1, root1, path, content)
      ensures Has(ys, path, content) <==> Covered(side2, root2, path, content)
    {
      FilesAreCovered(side1, root1, path, content);
      FilesAreCovered(side2, root2, path, content);
    }
  }

  predicate Has(files: map<Path, string>, path: Path, content: string) {
    path in files && files[path] == content
  }

  lemma SameMapIff(xs: map<Path, string>, ys: map<Path, string>)
    ensures xs == ys <==> forall p, c :: Has(xs, p, c) <==> Has(ys, p, c)
  {
    if forall p, c :: Has(xs, p, c) <==> Has(ys, p, c) {
      forall p ensures p in xs <==> p in ys ensures p in xs && p in ys ==> xs[p] == ys[p] {
        if p in xs { assert Has(xs, p, xs[p]); }
        if p in ys { assert Has(ys, p, ys[p]); }
      }
    }
  }
}
