/**
 * The model of `Array.prototype.sort` and `sorted`: both are stable, so the result is
 * the stable insertion sort. The lemmas say what a caller may rely on: the elements,
 * the order, the order among equals, and uniqueness under a total order.
 */
module Sorting {
  import opened Common

  /** What a comparator must satisfy for sorting to mean anything. */
  ghost predicate Preorder<T(!new)>(leq: (T, T) -> bool) {
    && (forall x, y :: leq(x, y) || leq(y, x))
    && (forall x, y, z :: leq(x, y) && leq(y, z) ==> leq(x, z))
  }

  ghost predicate TotalOrder<T(!new)>(leq: (T, T) -> bool) {
    Preorder(leq) && forall x, y :: leq(x, y) && leq(y, x) ==> x == y
  }

  ghost predicate SortedBy<T>(leq: (T, T) -> bool, xs: seq<T>) {
    forall i, j :: 0 <= i < j < |xs| ==> leq(xs[i], xs[j])
  }

  /** Puts `x` before every element it does not exceed, so equal elements keep their order. */
  function Insert<T>(leq: (T, T) -> bool, x: T, xs: seq<T>): seq<T> {
    if xs == [] || leq(x, xs[0]) then [x] + xs else [xs[0]] + Insert(leq, x, xs[1..])
  }

  function Sort<T>(leq: (T, T) -> bool, xs: seq<T>): seq<T> {
    if xs == [] then [] else Insert(leq, xs[0], Sort(leq, xs[1..]))
  }

  lemma {:induction false} InsertElements<T>(leq: (T, T) -> bool, x: T, xs: seq<T>)
    ensures multiset(Insert(leq, x, xs)) == multiset{x} + multiset(xs)
  {
    if xs != [] && !leq(x, xs[0]) {
      InsertElements(leq, x, xs[1..]);
      assert xs == [xs[0]] + xs[1..];
    }
  }

  lemma {:induction false} InsertSorted<T(!new)>(leq: (T, T) -> bool, x: T, xs: seq<T>)
    requires Preorder(leq) && SortedBy(leq, xs)
    ensures SortedBy(leq, Insert(leq, x, xs))
  {
    if xs != [] && !leq(x, xs[0]) {
      var rest := Insert(leq, x, xs[1..]);
      InsertSorted(leq, x, xs[1..]);
      InsertElements(leq, x, xs[1..]);
      forall j | 0 <= j < |rest| ensures leq(xs[0], rest[j]) {
        assert rest[j] in multiset(rest);
        assert rest[j] == x || rest[j] in xs[1..];
      }
    } else if xs != [] {
      assert forall j :: 0 < j < |xs| ==> leq(xs[0], xs[j]);
    }
  }

  /** Sorting permutes its argument into order. */
  lemma {:induction false} SortSorts<T(!new)>(leq: (T, T) -> bool, xs: seq<T>)
    requires Preorder(leq)
    ensures SortedBy(leq, Sort(leq, xs))
    ensures multiset(Sort(leq, xs)) == multiset(xs)
  {
    if xs == [] {
    } else {
      SortSorts(leq, xs[1..]);
      InsertSorted(leq, xs[0], Sort(leq, xs[1..]));
      InsertElements(leq, xs[0], Sort(leq, xs[1..]));
      assert xs == [xs[0]] + xs[1..];
    }
  }

  lemma SameLeast<T(!new)>(leq: (T, T) -> bool, xs: seq<T>, ys: seq<T>)
    requires TotalOrder(leq) && SortedBy(leq, xs) && SortedBy(leq, ys)
    requires xs != [] && ys != [] && multiset(xs) == multiset(ys)
    ensures xs[0] == ys[0]
  {
    assert xs[0] in multiset(ys) && ys[0] in multiset(xs);
    var i :| 0 <= i < |ys| && ys[i] == xs[0];
    var j :| 0 <= j < |xs| && xs[j] == ys[0];
    assert leq(ys[0], ys[i]) && leq(xs[0], xs[j]);
  }

  lemma RestOfBag<T>(xs: seq<T>)
    requires xs != []
    ensures multiset(xs[1..]) == multiset(xs) - multiset{xs[0]}
  {
    assert xs == [xs[0]] + xs[1..];
  }

  /** Under a total order a bag has one sorted listing. */
  lemma {:induction false} SortedUnique<T(!new)>(leq: (T, T) -> bool, xs: seq<T>, ys: seq<T>)
    requires TotalOrder(leq) && SortedBy(leq, xs) && SortedBy(leq, ys)
    requires multiset(xs) == multiset(ys)
    ensures xs == ys
  {
    assert |multiset(xs)| == |multiset(ys)|;
    if xs == [] {
    } else {
      SameLeast(leq, xs, ys);
      RestOfBag(xs);
      RestOfBag(ys);
      SortedUnique(leq, xs[1..], ys[1..]);
      assert xs == [xs[0]] + xs[1..] && ys == [ys[0]] + ys[1..];
    }
  }

  /** Sorting forgets the order its argument was listed in. */
  lemma SortIgnoresListing<T(!new)>(leq: (T, T) -> bool, xs: seq<T>, ys: seq<T>)
    requires TotalOrder(leq) && multiset(xs) == multiset(ys)
    ensures Sort(leq, xs) == Sort(leq, ys)
  {
    SortSorts(leq, xs);
    SortSorts(leq, ys);
    SortedUnique(leq, Sort(leq, xs), Sort(leq, ys));
  }

  /** Stability: elements of one equivalence class come out in the order they went in. */
  lemma {:induction false} SortStable<T(!new)>(leq: (T, T) -> bool, xs: seq<T>, p: T -> bool)
    requires Preorder(leq)
    requires forall x, y :: p(x) && p(y) ==> leq(x, y)
    ensures Filter(p, Sort(leq, xs)) == Filter(p, xs)
  {
    if xs == [] {
    } else {
      SortStable(leq, xs[1..], p);
      InsertStable(leq, xs[0], Sort(leq, xs[1..]), p);
    }
  }

  lemma {:induction false} InsertStable<T(!new)>(leq: (T, T) -> bool, x: T, xs: seq<T>, p: T -> bool)
    requires forall x, y :: p(x) && p(y) ==> leq(x, y)
    ensures Filter(p, Insert(leq, x, xs)) == if p(x) then [x] + Filter(p, xs) else Filter(p, xs)
  {
    var ins := Insert(leq, x, xs);
    if xs == [] || leq(x, xs[0]) {
      assert ins[1..] == xs;
    } else {
      assert ins[1..] == Insert(leq, x, xs[1..]);
      InsertStable(leq, x, xs[1..], p);
    }
  }

  // ------------------------------------------------------------------ text

  /** One total order on text, character by character. */
  predicate TextLeq(a: string, b: string) {
    a == [] || (b != [] && (a[0] < b[0] || (a[0] == b[0] && TextLeq(a[1..], b[1..]))))
  }

  function TextOrder(): (string, string) -> bool {
    (a: string, b: string) => TextLeq(a, b)
  }

  lemma {:induction false} TextTransitive(a: string, b: string, c: string)
    requires TextLeq(a, b) && TextLeq(b, c)
    ensures TextLeq(a, c)
  {
    if a != [] && a[0] == b[0] == c[0] {
      TextTransitive(a[1..], b[1..], c[1..]);
    }
  }

  lemma {:induction false} TextTotal(a: string, b: string)
    ensures TextLeq(a, b) || TextLeq(b, a)
    ensures TextLeq(a, b) && TextLeq(b, a) ==> a == b
  {
    if a != [] && b != [] && a[0] == b[0] {
      TextTotal(a[1..], b[1..]);
      assert a == [a[0]] + a[1..] && b == [b[0]] + b[1..];
    }
  }

  lemma TextOrderIsTotal()
    ensures TotalOrder(TextOrder())
  {
    forall a, b ensures TextOrder()(a, b) || TextOrder()(b, a)
                ensures TextOrder()(a, b) && TextOrder()(b, a) ==> a == b
    {
      TextTotal(a, b);
    }
    forall a, b, c | TextOrder()(a, b) && TextOrder()(b, c) ensures TextOrder()(a, c) {
      TextTransitive(a, b, c);
    }
  }

  /** The order of text: at the first difference the smaller character goes first, and a prefix before what it begins. */
  lemma {:induction false} TextOrderIs(a: string, b: string, k: nat)
    requires k <= |a| && k <= |b| && a[..k] == b[..k]
    requires k == |a| || k == |b| || a[k] != b[k]
    ensures TextLeq(a, b) <==> k == |a| || (k < |b| && a[k] < b[k])
  {
    if k == 0 {
    } else {
      assert a[..k][0] == b[..k][0];
      assert a[1..][..k - 1] == a[..k][1..] && b[1..][..k - 1] == b[..k][1..];
      TextOrderIs(a[1..], b[1..], k - 1);
    }
  }
}
