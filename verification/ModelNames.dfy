/**
The model-name lists of a channel (controller/channel_upstream_update.go): normalizing,
merging, subtracting and intersecting. Every list is tied to the set of names it stands for.
*/
module ModelNames {
  import opened Prelude
  import opened Lists
  import opened KeyText

  type Name = seq<Byte>

  /** The names a raw list stands for: trimmed, blanks dropped. */
  function Names(models: seq<Name>): set<Name> {
    set i | 0 <= i < |models| && TrimSpace(models[i]) != [] :: TrimSpace(models[i])
  }

  predicate AllTrimmed(names: seq<Name>) {
    forall n :: n in names ==> n != [] && TrimSpace(n) == n
  }

  predicate Normal(names: seq<Name>) { Distinct(names) && AllTrimmed(names) }

  /** Trimmed names in order of first occurrence. */
  function Normalize(models: seq<Name>): (r: seq<Name>)
    ensures Normal(r) && Elems(r) == Names(models)
  {
    if models == [] then []
    else
      var k := |models| - 1;
      var before, name := Normalize(models[..k]), TrimSpace(models[k]);
      NamesSnoc(models, k);
      TrimTwice(models[k], IsSpace);
      if name == [] || name in before then before else before + [name]
  }

  lemma NamesSnoc(models: seq<Name>, k: nat)
    requires k < |models|
    ensures Names(models[..k + 1]) == Names(models[..k]) + if TrimSpace(models[k]) != [] then {TrimSpace(models[k])} else {}
    ensures k + 1 == |models| ==> models[..k + 1] == models
  {
    assert forall i :: 0 <= i < k ==> models[..k][i] == models[..k + 1][i];
    assert models[..k + 1][k] == models[k];
  }

  lemma NormalNames(names: seq<Name>)
    requires Normal(names)
    ensures Names(names) == Elems(names)
  {
  }

  lemma {:induction false} NormalizeNormal(names: seq<Name>)
    requires Normal(names)
    ensures Normalize(names) == names
  {
    if names != [] {
      var k := |names| - 1;
      TakeSubset(names, k);
      NormalizeNormal(names[..k]);
      assert names[k] in names;
      assert names == names[..k] + [names[k]];
    }
  }

  /** The order is that of the first occurrences: a longer list only adds behind. */
  lemma {:induction false} NormalizePrefix(a: seq<Name>, b: seq<Name>)
    ensures Normalize(a) <= Normalize(a + b)
  {
    if b == [] {
      assert a + b == a;
    } else {
      NormalizePrefix(a, b[..|b| - 1]);
      assert (a + b)[..|a + b| - 1] == a + b[..|b| - 1];
    }
  }

  lemma KeepNormal(names: seq<Name>, p: Name -> bool)
    requires Normal(names)
    ensures Normal(Keep(names, p))
  {
    KeepDistinct(names, p);
  }

  /** The normalized list stands for the same names. */
  function Normalized(models: seq<Name>): (r: seq<Name>)
    ensures Normal(r) && Elems(r) == Names(r) == Names(models)
  {
    NormalNames(Normalize(models));
    Normalize(models)
  }

  function Subtract(base: seq<Name>, removed: seq<Name>): (r: seq<Name>)
    ensures Normal(r) && Names(r) == Names(base) - Names(removed)
  {
    var r := Keep(Normalize(base), NotIn(Elems(Normalize(removed))));
    KeepNormal(Normalize(base), NotIn(Elems(Normalize(removed))));
    NormalNames(r);
    r
  }

  function Intersect(base: seq<Name>, allowed: seq<Name>): (r: seq<Name>)
    ensures Normal(r) && Names(r) == Names(base) * Names(allowed)
  {
    var r := Keep(Normalize(base), In(Elems(Normalize(allowed))));
    KeepNormal(Normalize(base), In(Elems(Normalize(allowed))));
    NormalNames(r);
    r
  }

  function Merge(base: seq<Name>, appended: seq<Name>): (r: seq<Name>)
    ensures Normal(r) && Names(r) == Names(base) + Names(appended)
    ensures Normalize(base) <= r
  {
    var b := Normalize(base);
    var added := Keep(Normalize(appended), NotIn(Elems(b)));
    KeepNormal(Normalize(appended), NotIn(Elems(b)));
    DistinctConcat(b, added);
    NormalNames(b + added);
    b + added
  }

  method MergeModelNames(base: seq<Name>, appended: seq<Name>) returns (merged: seq<Name>)
    ensures merged == Merge(base, appended)
  {
    merged := AppendUnseen(Normalize(base), Normalize(appended));
  }

  /** Add wins when the same model is in both lists. */
  function ApplySelected(origin: seq<Name>, add: seq<Name>, remove: seq<Name>): (r: seq<Name>)
    ensures Normal(r) && Names(r) == (Names(origin) + Names(add)) - (Names(remove) - Names(add))
  {
    var a := Normalized(add);
    Subtract(Merge(origin, a), Subtract(Normalized(remove), a))
  }
}
