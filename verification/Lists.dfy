/** Lists seen as sets that remember an order. */
module Lists {
  import opened Prelude

  function Elems<T>(xs: seq<T>): set<T> { set x | x in xs }

  predicate Distinct<T(==)>(xs: seq<T>) {
    forall i, j :: 0 <= i < j < |xs| ==> xs[i] != xs[j]
  }

  function In<T(==)>(s: set<T>): T -> bool { x => x in s }

  function NotIn<T(==)>(s: set<T>): T -> bool { x => x !in s }

  lemma TakeSubset<T>(xs: seq<T>, k: nat)
    requires k <= |xs|
    ensures forall x :: x in xs[..k] ==> x in xs
    ensures Distinct(xs) ==> Distinct(xs[..k])
    ensures Distinct(xs) && k < |xs| ==> xs[k] !in xs[..k]
  {
  }

  /** `lo.Filter`: the elements that satisfy a condition, in order. */
  function Keep<T(==, !new)>(xs: seq<T>, p: T -> bool): (r: seq<T>)
    ensures forall x :: x in r <==> x in xs && p(x)
  {
    if xs == [] then []
    else
      var k := |xs| - 1;
      assert xs == xs[..k] + [xs[k]];
      Keep(xs[..k], p) + if p(xs[k]) then [xs[k]] else []
  }

  lemma KeepSnoc<T(!new)>(xs: seq<T>, x: T, p: T -> bool)
    ensures Keep(xs + [x], p) == Keep(xs, p) + if p(x) then [x] else []
  {
    assert (xs + [x])[..|xs|] == xs;
  }

  lemma DistinctSnoc<T>(xs: seq<T>, x: T)
    requires Distinct(xs) && x !in xs
    ensures Distinct(xs + [x])
  {
  }

  lemma {:induction false} KeepDistinct<T(!new)>(xs: seq<T>, p: T -> bool)
    requires Distinct(xs)
    ensures Distinct(Keep(xs, p))
  {
    if xs != [] {
      var k := |xs| - 1;
      KeepDistinct(xs[..k], p);
      assert xs[k] !in xs[..k];
      if p(xs[k]) {
        DistinctSnoc(Keep(xs[..k], p), xs[k]);
      }
    }
  }

  lemma {:induction false} KeepConcat<T(!new)>(a: seq<T>, b: seq<T>, p: T -> bool)
    ensures Keep(a + b, p) == Keep(a, p) + Keep(b, p)
  {
    if b == [] {
      EmptyConcat(a);
    } else {
      var k := |b| - 1;
      assert b == b[..k] + [b[k]];
      Assoc(a, b[..k], [b[k]]);
      KeepConcat(a, b[..k], p);
      KeepSnoc(a + b[..k], b[k], p);
      KeepSnoc(b[..k], b[k], p);
      Assoc(Keep(a, p), Keep(b[..k], p), if p(b[k]) then [b[k]] else []);
    }
  }

  lemma {:induction false} KeepAll<T(!new)>(xs: seq<T>, p: T -> bool)
    requires forall x :: x in xs ==> p(x)
    ensures Keep(xs, p) == xs
  {
    if xs != [] {
      var k := |xs| - 1;
      assert xs == xs[..k] + [xs[k]];
      KeepAll(xs[..k], p);
    }
  }

  lemma KeepNone<T(!new)>(xs: seq<T>, p: T -> bool)
    requires forall x :: x in xs ==> !p(x)
    ensures Keep(xs, p) == []
  {
    var r := Keep(xs, p);
    assert forall i :: 0 <= i < |r| ==> r[i] in r;
  }

  lemma DistinctConcat<T>(a: seq<T>, b: seq<T>)
    requires Distinct(a) && Distinct(b) && forall x :: x in b ==> x !in a
    ensures Distinct(a + b)
  {
    forall i, j | 0 <= i < j < |a + b|
      ensures (a + b)[i] != (a + b)[j]
    {
      if i < |a| <= j {
        assert b[j - |a|] in b;
      }
    }
  }

  method SeenSet<T(==)>(xs: seq<T>) returns (seen: set<T>)
    ensures seen == Elems(xs)
  {
    seen := {};
    for i := 0 to |xs|
      invariant seen == Elems(xs[..i])
    {
      assert xs[..i + 1] == xs[..i] + [xs[i]];
      seen := seen + {xs[i]};
    }
    assert xs[..|xs|] == xs;
  }

  /** Appends what has not been seen: a `seen` set beside a growing list. */
  method AppendUnseen<T(==, !new)>(base: seq<T>, more: seq<T>) returns (merged: seq<T>)
    requires Distinct(more)
    ensures merged == base + Keep(more, NotIn(Elems(base)))
  {
    merged := base;
    var seen := SeenSet(base);
    ghost var p := NotIn(Elems(base));
    for i := 0 to |more|
      invariant merged == base + Keep(more[..i], p) && seen == Elems(merged)
    {
      assert more[..i + 1] == more[..i] + [more[i]];
      KeepSnoc(more[..i], more[i], p);
      if more[i] in seen {
        continue;
      }
      seen := seen + {more[i]};
      merged := merged + [more[i]];
    }
    assert more[..|more|] == more;
  }
}
