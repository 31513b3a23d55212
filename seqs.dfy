/** Generic list operations the search clients are built from: `map`, the
    present values of a list of optional values, and concatenation. */
module Seqs {
  import opened Wrappers

  /** `xs.map(f)`. */
  function Map<A, B>(f: A -> B, xs: seq<A>): (ys: seq<B>)
    ensures |ys| == |xs|
    ensures forall i :: 0 <= i < |xs| ==> ys[i] == f(xs[i])
  {
    seq(|xs|, i requires 0 <= i < |xs| => f(xs[i]))
  }

  lemma MapSnoc<A, B>(f: A -> B, xs: seq<A>, j: nat)
    requires j < |xs|
    ensures Map(f, xs[..j + 1]) == Map(f, xs[..j]) + [f(xs[j])]
  {
  }

  /** Changing one element changes only its image. */
  lemma MapUpdate<A, B>(f: A -> B, xs: seq<A>, k: nat, x: A)
    requires k < |xs|
    ensures Map(f, xs[k := x]) == Map(f, xs[..k]) + [f(x)] + Map(f, xs[k + 1..])
  {
  }

  /** `xs.map((x, i) => f(x, ys[i]))` for lists of equal length. */
  function Map2<A, B, C>(f: (A, B) -> C, xs: seq<A>, ys: seq<B>): (zs: seq<C>)
    requires |ys| == |xs|
    ensures |zs| == |xs|
    ensures forall i :: 0 <= i < |xs| ==> zs[i] == f(xs[i], ys[i])
  {
    seq(|xs|, i requires 0 <= i < |xs| => f(xs[i], ys[i]))
  }

  lemma Map2Snoc<A, B, C>(f: (A, B) -> C, xs: seq<A>, ys: seq<B>, j: nat)
    requires |ys| == |xs| && j < |xs|
    ensures Map2(f, xs[..j + 1], ys[..j + 1]) == Map2(f, xs[..j], ys[..j]) + [f(xs[j], ys[j])]
  {
  }

  /** Changing one element of the second list changes only its image. */
  lemma Map2Update<A, B, C>(f: (A, B) -> C, xs: seq<A>, ys: seq<B>, k: nat, y: B)
    requires |ys| == |xs| && k < |xs|
    ensures Map2(f, xs, ys[k := y]) == Map2(f, xs[..k], ys[..k]) + [f(xs[k], y)] + Map2(f, xs[k + 1..], ys[k + 1..])
  {
  }

  /** The present values of a list of optional values, in order. */
  function Present<T>(xs: seq<Option<T>>): seq<T> {
    if xs == [] then []
    else
      var n := |xs| - 1;
      Present(xs[..n]) + (if xs[n].Some? then [xs[n].value] else [])
  }

  lemma {:induction false} PresentAppend<T>(a: seq<Option<T>>, b: seq<Option<T>>)
    ensures Present(a + b) == Present(a) + Present(b)
    decreases |b|
  {
    if b == [] {
      assert a + b == a;
    } else {
      var n := |b| - 1;
      assert (a + b)[..|a + b| - 1] == a + b[..n];
      PresentAppend(a, b[..n]);
    }
  }

  /** At most one value per element, and exactly the values present. */
  lemma {:induction false} PresentSpec<T>(xs: seq<Option<T>>)
    ensures |Present(xs)| <= |xs|
    ensures forall x :: x in Present(xs) <==> Some(x) in xs
  {
    if xs != [] {
      var n := |xs| - 1;
      PresentSpec(xs[..n]);
      assert xs == xs[..n] + [xs[n]];
    }
  }

  lemma PresentSnoc<T>(xs: seq<Option<T>>, x: Option<T>)
    ensures Present(xs + [x]) == Present(xs) + (if x.Some? then [x.value] else [])
  {
    assert (xs + [x])[..|xs|] == xs;
  }

  /** The concatenation of a list of lists, in order. */
  function Concat<T>(parts: seq<seq<T>>): seq<T> {
    if parts == [] then []
    else
      var n := |parts| - 1;
      Concat(parts[..n]) + parts[n]
  }

  lemma {:induction false} ConcatAppend<T>(a: seq<seq<T>>, b: seq<seq<T>>)
    ensures Concat(a + b) == Concat(a) + Concat(b)
    decreases |b|
  {
    if b == [] {
      assert a + b == a;
    } else {
      var n := |b| - 1;
      assert (a + b)[..|a + b| - 1] == a + b[..n];
      ConcatAppend(a, b[..n]);
    }
  }

  lemma ConcatSnoc<T>(parts: seq<seq<T>>, p: seq<T>)
    ensures Concat(parts + [p]) == Concat(parts) + p
  {
    assert (parts + [p])[..|parts|] == parts;
  }

  /** The total length bounded by a bound on each part. */
  lemma {:induction false} ConcatBound<T>(parts: seq<seq<T>>, bound: nat)
    requires forall i :: 0 <= i < |parts| ==> |parts[i]| <= bound
    ensures |Concat(parts)| <= bound * |parts|
  {
    if parts != [] {
      ConcatBound(parts[..|parts| - 1], bound);
    }
  }
}
