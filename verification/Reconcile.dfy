/**
Reconciliation of a channel's models with those its upstream offers
(controller/channel_upstream_update.go): detecting what is pending, applying selected changes,
and the automatic sync.
*/
module Reconcile {
  import opened Prelude
  import opened Lists
  import opened KeyText
  import opened ModelNames

  const REGEX: seq<Byte> := [114, 101, 103, 101, 120, 58]   // "regex:"

  /** Whether a pattern matches a name; a pattern that does not compile matches nothing. */
  type Matcher = (seq<Byte>, Name) -> bool

  predicate RuleMatches(matches: Matcher, rule: Name, name: Name) {
    if REGEX <= rule then matches(TrimSpace(rule[|REGEX|..]), name) else rule == name
  }

  predicate IgnoredBy(matches: Matcher, rules: set<Name>, name: Name) {
    exists rule :: rule in rules && RuleMatches(matches, rule, name)
  }

  /** What is given from outside: the upstream list and the redirect map. */
  datatype Upstream = Upstream(models: seq<Name>, mapping: map<Name, Name>, matches: Matcher)

  predicate Addable(u: Upstream, local: set<Name>, ignored: set<Name>, name: Name) {
    name !in local && name !in u.mapping.Values && !IgnoredBy(u.matches, ignored, name)
  }

  predicate Removable(u: Upstream, upstream: set<Name>, name: Name) {
    name !in u.mapping && name !in upstream
  }

  function CanAdd(u: Upstream, local: set<Name>, ignored: set<Name>): Name -> bool {
    name => Addable(u, local, ignored, name)
  }

  function CanRemove(u: Upstream, upstream: set<Name>): Name -> bool {
    name => Removable(u, upstream, name)
  }

  datatype Pending = Pending(add: seq<Name>, remove: seq<Name>)

  function Detect(u: Upstream, localModels: seq<Name>, ignoredModels: seq<Name>): (p: Pending)
    ensures Normal(p.add) && Normal(p.remove)
  {
    var local, upstream := Normalize(localModels), Normalize(u.models);
    var ignored := Elems(Normalize(ignoredModels));
    Pending(Normalize(Keep(upstream, CanAdd(u, Elems(local), ignored))),
            Normalize(Keep(local, CanRemove(u, Elems(upstream)))))
  }

  lemma DetectLists(u: Upstream, localModels: seq<Name>, ignoredModels: seq<Name>)
    ensures var p := Detect(u, localModels, ignoredModels);
            && p.add == Keep(Normalize(u.models), CanAdd(u, Names(localModels), Names(ignoredModels)))
            && p.remove == Keep(Normalize(localModels), CanRemove(u, Names(u.models)))
  {
    var local, upstream := Normalize(localModels), Normalize(u.models);
    KeepNormal(upstream, CanAdd(u, Names(localModels), Names(ignoredModels)));
    NormalizeNormal(Keep(upstream, CanAdd(u, Names(localModels), Names(ignoredModels))));
    KeepNormal(local, CanRemove(u, Names(u.models)));
    NormalizeNormal(Keep(local, CanRemove(u, Names(u.models))));
  }

  // ----- staged changes -----

  /** A channel's models with the ignored and the pending names kept in its settings. */
  datatype Staged = Staged(models: seq<Name>, ignored: seq<Name>, add: seq<Name>, remove: seq<Name>)

  datatype Selection = Selection(add: seq<Name>, ignore: seq<Name>, remove: seq<Name>)

  function ChosenAdds(s: Staged, sel: Selection): (r: seq<Name>)
    ensures Normal(r) && Names(r) == Names(sel.add) * Names(s.add)
  {
    Intersect(sel.add, Normalized(s.add))
  }

  function ChosenIgnores(s: Staged, sel: Selection): (r: seq<Name>)
    ensures Normal(r) && Names(r) == Names(sel.ignore) * Names(s.add)
  {
    Intersect(sel.ignore, Normalized(s.add))
  }

  function ChosenRemoves(s: Staged, sel: Selection): (r: seq<Name>)
    ensures Normal(r) && Names(r) == Names(sel.remove) * Names(s.remove) - Names(ChosenAdds(s, sel))
  {
    Subtract(Intersect(sel.remove, Normalized(s.remove)), ChosenAdds(s, sel))
  }

  function NextModels(models: seq<Name>, add: seq<Name>, remove: seq<Name>): (r: seq<Name>)
    ensures Names(r) == Names(models) + Names(add) - (Names(remove) - Names(add))
  {
    var origin := Normalized(models);
    var next := ApplySelected(origin, add, remove);
    if next != origin then next else models
  }

  function NextIgnored(ignored: seq<Name>, ignore: seq<Name>, add: seq<Name>): (r: seq<Name>)
    ensures Names(r) == Names(ignored) + Names(ignore) - Names(add)
  {
    var merged := Merge(ignored, ignore);
    if |add| > 0 then Subtract(merged, add) else assert Names(add) == {}; merged
  }

  function StillPending(pending: seq<Name>, add: seq<Name>, ignore: seq<Name>): (r: seq<Name>)
    ensures Names(r) == Names(pending) - Names(add) - Names(ignore)
  {
    NamesConcat(add, ignore);
    Subtract(Normalized(pending), add + ignore)
  }

  function Apply(s: Staged, sel: Selection): Staged {
    var add, ignore, remove := ChosenAdds(s, sel), ChosenIgnores(s, sel), ChosenRemoves(s, sel);
    Staged(NextModels(s.models, add, remove),
           NextIgnored(s.ignored, ignore, add),
           StillPending(s.add, add, ignore),
           Subtract(Normalized(s.remove), remove))
  }

  lemma NamesConcat(a: seq<Name>, b: seq<Name>)
    ensures Names(a + b) == Names(a) + Names(b)
  {
    assert forall i :: 0 <= i < |a| ==> (a + b)[i] == a[i];
    assert forall i :: 0 <= i < |b| ==> (a + b)[|a| + i] == b[i];
  }

  // ----- the same on sets -----

  datatype Sets = Sets(models: set<Name>, ignored: set<Name>, add: set<Name>, remove: set<Name>)
  datatype Choice = Choice(add: set<Name>, ignore: set<Name>, remove: set<Name>)

  ghost function SetsOf(s: Staged): Sets {
    Sets(Names(s.models), Names(s.ignored), Names(s.add), Names(s.remove))
  }

  ghost function ChoiceOf(sel: Selection): Choice {
    Choice(Names(sel.add), Names(sel.ignore), Names(sel.remove))
  }

  /** What applying a choice means: only pending names count, adding wins over removing and over
      ignoring, and what was chosen is no longer pending. */
  ghost function SetApply(s: Sets, c: Choice): Sets {
    var a, i := c.add * s.add, c.ignore * s.add;
    var r := c.remove * s.remove - a;
    Sets(s.models + a - r, s.ignored + i - a, s.add - a - i, s.remove - r)
  }

  lemma ApplyIsSetApply(s: Staged, sel: Selection)
    ensures SetsOf(Apply(s, sel)) == SetApply(SetsOf(s), ChoiceOf(sel))
  {
    var a, r := Names(ChosenAdds(s, sel)), Names(ChosenRemoves(s, sel));
    assert r - a == r;
  }

  // ----- two selections -----

  /** One choice adds a pending name that the other removes, or ignores without adding it. */
  ghost predicate Clash(s: Sets, c: Choice, d: Choice, n: Name) {
    n in s.add && n in c.add && ((n in d.ignore && n !in d.add) || (n in s.remove && n in d.remove))
  }

  ghost predicate Conflict(s: Sets, c: Choice, d: Choice) {
    exists n :: Clash(s, c, d, n) || Clash(s, d, c, n)
  }

  ghost function Both(c: Choice, d: Choice): Choice {
    Choice(c.add + d.add, c.ignore + d.ignore, c.remove + d.remove)
  }

  lemma InOrder(s: Sets, c: Choice, d: Choice)
    requires !Conflict(s, c, d)
    ensures SetApply(SetApply(s, c), d) == SetApply(s, Both(c, d))
  {
    var two, both := SetApply(SetApply(s, c), d), SetApply(s, Both(c, d));
    forall n
      ensures n in two.models <==> n in both.models
      ensures n in two.ignored <==> n in both.ignored
      ensures n in two.add <==> n in both.add
      ensures n in two.remove <==> n in both.remove
    {
      assert !Clash(s, c, d, n) && !Clash(s, d, c, n);
    }
    assert two.models == both.models && two.ignored == both.ignored;
    assert two.add == both.add && two.remove == both.remove;
  }

  lemma ClashShows(s: Sets, c: Choice, d: Choice, n: Name)
    requires Clash(s, c, d, n)
    ensures SetApply(SetApply(s, c), d) != SetApply(s, Both(c, d)) || SetApply(SetApply(s, d), c) != SetApply(s, Both(c, d))
  {
    var both := SetApply(s, Both(c, d));
    if n in s.remove && n in d.remove {
      assert n !in SetApply(SetApply(s, c), d).remove && n in both.remove;
    } else {
      assert n in SetApply(SetApply(s, d), c).ignored && n !in both.ignored;
    }
  }

  /** Two choices applied in either order give what they give together, exactly when neither
      adds a pending name that the other ignores or removes. */
  lemma ChoicesCommuteIff(s: Sets, c: Choice, d: Choice)
    ensures (SetApply(SetApply(s, c), d) == SetApply(s, Both(c, d)) && SetApply(SetApply(s, d), c) == SetApply(s, Both(c, d)))
       <==> !Conflict(s, c, d)
  {
    assert Both(c, d) == Both(d, c);
    if Conflict(s, c, d) {
      var n :| Clash(s, c, d, n) || Clash(s, d, c, n);
      if Clash(s, c, d, n) {
        ClashShows(s, c, d, n);
      } else {
        ClashShows(s, d, c, n);
      }
    } else {
      InOrder(s, c, d);
      InOrder(s, d, c);
    }
  }

  function Together(a: Selection, b: Selection): Selection {
    Selection(a.add + b.add, a.ignore + b.ignore, a.remove + b.remove)
  }

  /** The same for the lists the channel stores, as the sets of names they stand for. */
  lemma SelectionsCommuteIff(s: Staged, a: Selection, b: Selection)
    ensures SetsOf(Apply(Apply(s, a), b)) == SetsOf(Apply(Apply(s, b), a)) == SetsOf(Apply(s, Together(a, b)))
       <==> !Conflict(SetsOf(s), ChoiceOf(a), ChoiceOf(b))
  {
    ApplyIsSetApply(s, a);
    ApplyIsSetApply(s, b);
    ApplyIsSetApply(Apply(s, a), b);
    ApplyIsSetApply(Apply(s, b), a);
    ApplyIsSetApply(s, Together(a, b));
    NamesConcat(a.add, b.add);
    NamesConcat(a.ignore, b.ignore);
    NamesConcat(a.remove, b.remove);
    ChoicesCommuteIff(SetsOf(s), ChoiceOf(a), ChoiceOf(b));
  }

  /** Nothing pending is lost: each name is added, ignored or still pending, and what is still
      pending was neither; the same for removals. */
  lemma PendingAddsAccounted(s: Staged, sel: Selection)
    ensures Names(ChosenAdds(s, sel)) + Names(ChosenIgnores(s, sel)) + Names(Apply(s, sel).add) == Names(s.add)
    ensures Names(Apply(s, sel).add) !! Names(ChosenAdds(s, sel)) + Names(ChosenIgnores(s, sel))
  {
    var a, i, left := Names(ChosenAdds(s, sel)), Names(ChosenIgnores(s, sel)), Names(Apply(s, sel).add);
    assert a <= Names(s.add) && i <= Names(s.add) && left == Names(s.add) - a - i;
    SplitOff(Names(s.add), a, i);
  }

  lemma PendingRemovesAccounted(s: Staged, sel: Selection)
    ensures Names(ChosenRemoves(s, sel)) + Names(Apply(s, sel).remove) == Names(s.remove)
    ensures Names(Apply(s, sel).remove) !! Names(ChosenRemoves(s, sel))
  {
    var r := Names(ChosenRemoves(s, sel));
    assert r <= Names(s.remove) && Names(Apply(s, sel).remove) == Names(s.remove) - r;
    SplitOff(Names(s.remove), r, {});
  }

  lemma SplitOff<T>(pending: set<T>, x: set<T>, y: set<T>)
    requires x <= pending && y <= pending
    ensures x + y + (pending - x - y) == pending && (pending - x - y) !! x + y
    ensures y == {} ==> x + (pending - x) == pending && (pending - x) !! x
  {
  }

  // ----- detect, apply, detect -----

  lemma DetectSets(u: Upstream, local: seq<Name>, ignored: seq<Name>)
    ensures var p := Detect(u, local, ignored);
            && (forall n :: n in Names(p.add) <==> n in Names(u.models) && Addable(u, Names(local), Names(ignored), n))
            && (forall n :: n in Names(p.remove) <==> n in Names(local) && Removable(u, Names(u.models), n))
            && Names(p.add) !! Names(p.remove)
  {
    var p := Detect(u, local, ignored);
    DetectLists(u, local, ignored);
    NormalNames(p.add);
    NormalNames(p.remove);
    var up, lo := Normalize(u.models), Normalize(local);
    assert forall n :: n in p.add <==> n in Elems(p.add);
    assert forall n :: n in up <==> n in Elems(up);
    assert forall n :: n in p.remove <==> n in Elems(p.remove);
    assert forall n :: n in lo <==> n in Elems(lo);
  }

  /** A rule that ignores a name: the name itself, or a pattern behind "regex:" that matches it. */
  predicate Ignores(u: Upstream, rule: Name, name: Name) {
    if [114, 101, 103, 101, 120, 58] <= rule then u.matches(TrimSpace(rule[6..]), name) else rule == name
  }

  /** Pending to add are exactly the upstream names that are neither local, nor the target of a redirect,
      nor ignored by a rule; pending to remove are exactly the local names that are neither the source of
      a redirect nor upstream. */
  lemma DetectExact(u: Upstream, local: seq<Name>, ignored: seq<Name>, n: Name)
    ensures n in Names(Detect(u, local, ignored).add) <==>
      && n in Names(u.models) && n !in Names(local) && (forall source :: source in u.mapping ==> u.mapping[source] != n)
      && (forall rule :: rule in Names(ignored) ==> !Ignores(u, rule, n))
    ensures n in Names(Detect(u, local, ignored).remove) <==>
      n in Names(local) && n !in u.mapping.Keys && n !in Names(u.models)
  {
    DetectSets(u, local, ignored);
    assert forall rule :: RuleMatches(u.matches, rule, n) <==> Ignores(u, rule, n);
    assert n in u.mapping.Values <==> exists source :: source in u.mapping && u.mapping[source] == n;
  }

  /** Once a name is redirected it is never pending to remove, its target is never pending to add, and
      taking over everything pending keeps it. */
  lemma AliasKept(u: Upstream, s: Staged, a: Name, b: Name)
    ensures var v := u.(mapping := u.mapping[a := b]);
            && a !in Names(Detect(v, s.models, s.ignored).remove)
            && b !in Names(Detect(v, s.models, s.ignored).add)
            && (a in Names(s.models) ==> a in Names(Applied(v, s).models))
  {
    var v := u.(mapping := u.mapping[a := b]);
    assert v.mapping[a] == b;
    DetectExact(v, s.models, s.ignored, a);
    DetectExact(v, s.models, s.ignored, b);
    AppliedSets(v, s);
  }

  function Stage(s: Staged, p: Pending): Staged { s.(add := p.add, remove := p.remove) }

  function All(p: Pending): Selection { Selection(p.add, [], p.remove) }

  /** A name upstream that is not covered yet is ignored only by rules that are about to be added
      as models, and so are about to stop being rules. */
  ghost predicate LosesItsRules(u: Upstream, local: set<Name>, ignored: set<Name>, adds: set<Name>, n: Name) {
    && n in Names(u.models) && n !in local && n !in u.mapping.Values
    && IgnoredBy(u.matches, ignored, n) && !IgnoredBy(u.matches, ignored - adds, n)
  }

  ghost function Applied(u: Upstream, s: Staged): Staged {
    var p := Detect(u, s.models, s.ignored);
    Apply(Stage(s, p), All(p))
  }

  lemma TakeAll(s: Sets)
    requires s.add !! s.remove
    ensures SetApply(s, Choice(s.add, {}, s.remove)) == Sets(s.models + s.add - s.remove, s.ignored - s.add, {}, {})
  {
    assert s.add * s.add == s.add && s.remove * s.remove == s.remove && {} * s.add == {};
    assert s.remove - s.add == s.remove && s.ignored + {} == s.ignored;
  }

  lemma AppliedSets(u: Upstream, s: Staged)
    ensures var p := Detect(u, s.models, s.ignored);
            && Names(Applied(u, s).models) == Names(s.models) + Names(p.add) - Names(p.remove)
            && Names(Applied(u, s).ignored) == Names(s.ignored) - Names(p.add)
  {
    var p := Detect(u, s.models, s.ignored);
    assert Names(p.add) !! Names(p.remove) by { DetectSets(u, s.models, s.ignored); }
    ApplyIsSetApply(Stage(s, p), All(p));
    assert Names([]) == {};
    TakeAll(SetsOf(Stage(s, p)));
  }

  /** One name in the second detection, over the sets that the first one found. */
  lemma SecondDetection(u: Upstream, up: set<Name>, local: set<Name>, ignored: set<Name>, adds: set<Name>, removes: set<Name>, n: Name)
    requires forall m :: m in adds <==> m in up && Addable(u, local, ignored, m)
    requires forall m :: m in removes <==> m in local && Removable(u, up, m)
    ensures n in up && Addable(u, local + adds - removes, ignored - adds, n)
       <==> n in up && n !in local && n !in u.mapping.Values && IgnoredBy(u.matches, ignored, n) && !IgnoredBy(u.matches, ignored - adds, n)
    ensures !(n in local + adds - removes && Removable(u, up, n))
  {
  }

  /** After everything pending has been applied a second detection finds nothing, exactly when no
      name loses its rules. */
  lemma FixpointIff(u: Upstream, s: Staged)
    ensures Detect(u, Applied(u, s).models, Applied(u, s).ignored) == Pending([], [])
       <==> !(exists n :: LosesItsRules(u, Names(s.models), Names(s.ignored), Names(Detect(u, s.models, s.ignored).add), n))
  {
    var p := Detect(u, s.models, s.ignored);
    var t := Applied(u, s);
    var q := Detect(u, t.models, t.ignored);
    AppliedSets(u, s);
    DetectSets(u, s.models, s.ignored);
    DetectSets(u, t.models, t.ignored);
    forall n
      ensures n in Names(q.add) <==> LosesItsRules(u, Names(s.models), Names(s.ignored), Names(p.add), n)
      ensures n !in Names(q.remove)
    {
      SecondDetection(u, Names(u.models), Names(s.models), Names(s.ignored), Names(p.add), Names(p.remove), n);
    }
    EmptyNames(q.add);
    EmptyNames(q.remove);
  }

  lemma EmptyNames(names: seq<Name>)
    requires Normal(names)
    ensures Names(names) == {} <==> names == []
  {
    NormalNames(names);
    assert names != [] ==> names[0] in Elems(names);
  }

  /** In particular when no upstream name looks like a regex rule. */
  lemma Fixpoint(u: Upstream, s: Staged)
    requires forall n :: n in Names(u.models) ==> !(REGEX <= n)
    ensures Detect(u, Applied(u, s).models, Applied(u, s).ignored) == Pending([], [])
  {
    var adds := Names(Detect(u, s.models, s.ignored).add);
    DetectSets(u, s.models, s.ignored);
    forall n
      ensures !LosesItsRules(u, Names(s.models), Names(s.ignored), adds, n)
    {
      PlainRulesStay(u, s, adds, n);
    }
    FixpointIff(u, s);
  }

  lemma PlainRulesStay(u: Upstream, s: Staged, adds: set<Name>, n: Name)
    requires forall a :: a in adds ==> !(REGEX <= a) && Addable(u, Names(s.models), Names(s.ignored), a)
    ensures IgnoredBy(u.matches, Names(s.ignored), n) ==> IgnoredBy(u.matches, Names(s.ignored) - adds, n)
  {
    if rule :| rule in Names(s.ignored) && RuleMatches(u.matches, rule, n) {
      assert rule in adds ==> RuleMatches(u.matches, rule, rule);
      assert rule in Names(s.ignored) - adds;
    }
  }

  /** Without that assumption it fails: a rule that is itself offered as a model, and is ignored
      by nothing, stops ignoring once it has been added. */
  lemma RegexNamedModel()
    ensures var rule, hidden := REGEX + [120], [121];
            var u := Upstream([rule, hidden], map[], (pattern, name) => pattern == [120] && name == hidden);
            var s := Staged([], [rule], [], []);
            Detect(u, Applied(u, s).models, Applied(u, s).ignored) != Pending([], [])
  {
    var rule, hidden: Name := REGEX + [120], [121];
    var u := Upstream([rule, hidden], map[], (pattern, name) => pattern == [120] && name == hidden);
    var s := Staged([], [rule], [], []);
    TrimNothing(rule, IsSpace);
    TrimNothing(hidden, IsSpace);
    assert rule[|REGEX|..] == [120];
    TrimNothing([120], IsSpace);
    assert [rule, hidden][0] == rule && [rule, hidden][1] == hidden && [rule][0] == rule;
    assert rule in Names([rule, hidden]) && hidden in Names([rule, hidden]) && Names([rule]) == {rule};
    assert RuleMatches(u.matches, rule, hidden) && !RuleMatches(u.matches, rule, rule);
    DetectSets(u, s.models, s.ignored);
    assert rule in Names(Detect(u, s.models, s.ignored).add);
    assert LosesItsRules(u, Names(s.models), Names(s.ignored), Names(Detect(u, s.models, s.ignored).add), hidden);
    FixpointIff(u, s);
  }

  // ----- the automatic sync -----

  lemma AutoSyncList(u: Upstream, models: seq<Name>, ignored: seq<Name>)
    ensures var p := Detect(u, models, ignored);
            Merge(Normalized(models), p.add) == Normalize(models) + p.add && Normal(Normalize(models) + p.add)
  {
    var p, local := Detect(u, models, ignored), Normalize(models);
    NormalizeNormal(local);
    NormalizeNormal(p.add);
    DetectLists(u, models, ignored);
    KeepAll(p.add, NotIn(Elems(local)));
  }

  /** The sync adds exactly the pending adds behind the models there were; a second detection
      finds nothing to add and the same list to remove. */
  lemma AutoSyncSettles(u: Upstream, models: seq<Name>, ignored: seq<Name>)
    ensures var p := Detect(u, models, ignored);
            Detect(u, Merge(Normalized(models), p.add), ignored) == Pending([], p.remove)
  {
    var p, local := Detect(u, models, ignored), Normalize(models);
    var synced := local + p.add;
    AutoSyncList(u, models, ignored);
    NormalizeNormal(synced);
    NormalNames(synced);
    NamesConcat(local, p.add);
    NormalNames(local);
    DetectLists(u, models, ignored);
    DetectLists(u, synced, ignored);
    DetectSets(u, models, ignored);
    NothingLeftToAdd(u, Names(models), Names(ignored), Names(p.add));
    KeepNone(Normalize(u.models), CanAdd(u, Names(synced), Names(ignored)));
    KeepConcat(local, p.add, CanRemove(u, Names(u.models)));
    NormalNames(p.add);
    assert forall n :: n in p.add ==> n in Elems(p.add);
    KeepNone(p.add, CanRemove(u, Names(u.models)));
    EmptyConcat(p.remove);
  }

  lemma NothingLeftToAdd(u: Upstream, local: set<Name>, ignored: set<Name>, adds: set<Name>)
    requires forall n :: n in adds <==> n in Names(u.models) && Addable(u, local, ignored, n)
    ensures forall n :: n in Normalize(u.models) ==> !Addable(u, local + adds, ignored, n)
  {
    var up := Normalize(u.models);
    assert forall n :: n in up ==> n in Elems(up);
  }

  /** What the check stores against a fetched list. With `auto` the additions are taken over at
      once, and what is stored is what a second detection would find. */
  method Sync(u: Upstream, models: seq<Name>, ignored: seq<Name>, auto: bool)
    returns (models': seq<Name>, detected: seq<Name>, removed: seq<Name>, autoAdded: nat)
    ensures Pending(detected, removed) == Detect(u, models', ignored)
    ensures autoAdded == if auto then |Detect(u, models, ignored).add| else 0
    ensures models' == if autoAdded > 0 then Normalize(models) + Detect(u, models, ignored).add else models
    ensures auto ==> detected == []
  {
    var pending := Detect(u, models, ignored);
    models', autoAdded := models, 0;
    if auto && |pending.add| > 0 {
      AutoSyncList(u, models, ignored);
      AutoSyncSettles(u, models, ignored);
      var origin := Normalized(models);
      var merged := MergeModelNames(origin, pending.add);
      assert merged == origin + pending.add;
      if |merged| > |origin| {
        models' := merged;
        autoAdded := |merged| - |origin|;
      }
      detected := [];
    } else {
      detected := pending.add;
    }
    removed := pending.remove;
  }

  /** Applying a selection, and whether the models changed. */
  method ApplySelection(s: Staged, sel: Selection)
    returns (t: Staged, add: seq<Name>, remove: seq<Name>, modelsChanged: bool)
    ensures t == Apply(s, sel) && add == ChosenAdds(s, sel) && remove == ChosenRemoves(s, sel)
    ensures !modelsChanged ==> t.models == s.models
    ensures modelsChanged ==> Normal(t.models) && t.models != Normalize(s.models)
  {
    add, remove := ChosenAdds(s, sel), ChosenRemoves(s, sel);
    var ignore := ChosenIgnores(s, sel);
    var origin := Normalized(s.models);
    var next := ApplySelected(origin, add, remove);
    modelsChanged := origin != next;
    var models := s.models;
    if modelsChanged {
      models := next;
    }
    t := Staged(models, NextIgnored(s.ignored, ignore, add), StillPending(s.add, add, ignore),
                Subtract(Normalized(s.remove), remove));
  }

  // ----- the channel -----

  datatype Check = Skipped | FetchFailed | Checked(modelsChanged: bool, autoAdded: nat)

  /** A channel with the settings that the update task keeps on it. */
  class ModelSettings {
    var staged: Staged
    var lastCheck: int
    const autoSync: bool

    constructor (staged: Staged, lastCheck: int, autoSync: bool)
      ensures this.staged == staged && this.lastCheck == lastCheck && this.autoSync == autoSync
    {
      this.staged, this.lastCheck, this.autoSync := staged, lastCheck, autoSync;
    }

    /** `now` is the clock and `fetched` the upstream answer, if there was one. */
    method CheckAndPersist(now: int, minInterval: int, force: bool, allowAutoApply: bool, fetched: Option<Upstream>)
      returns (r: Check)
      modifies this
      ensures r == Skipped <==> !force && old(lastCheck) > 0 && now - old(lastCheck) < minInterval
      ensures lastCheck == if r == Skipped then old(lastCheck) else now
      ensures r != Skipped ==> (r == FetchFailed <==> fetched.None?)
      ensures !r.Checked? ==> staged == old(staged)
      ensures r.Checked? ==>
        Pending(staged.add, staged.remove) == Detect(fetched.value, staged.models, staged.ignored) && staged.ignored == old(staged.ignored)
      ensures r.Checked? && !(allowAutoApply && autoSync) ==> staged.models == old(staged.models) && r == Checked(false, 0)
      ensures r.Checked? && allowAutoApply && autoSync ==>
        staged.add == [] && r.modelsChanged == (r.autoAdded > 0)
        && r.autoAdded == |Detect(fetched.value, old(staged.models), staged.ignored).add|
      ensures r.Checked? && r.modelsChanged ==>
        staged.models == Normalize(old(staged.models)) + Detect(fetched.value, old(staged.models), staged.ignored).add
    {
      if !force {
        if lastCheck > 0 && now - lastCheck < minInterval {
          return Skipped;
        }
      }
      lastCheck := now;
      if fetched.None? {
        return FetchFailed;
      }
      var models, detected, removed, autoAdded :=
        Sync(fetched.value, staged.models, staged.ignored, allowAutoApply && autoSync);
      staged := Staged(models, staged.ignored, detected, removed);
      return Checked(autoAdded > 0, autoAdded);
    }

    method ApplyUpdates(sel: Selection, now: int) returns (added: seq<Name>, dropped: seq<Name>, modelsChanged: bool)
      modifies this
      ensures staged == Apply(old(staged), sel) && lastCheck == now
      ensures added == ChosenAdds(old(staged), sel) && dropped == ChosenRemoves(old(staged), sel)
      ensures !modelsChanged ==> staged.models == old(staged.models)
    {
      staged, added, dropped, modelsChanged := ApplySelection(staged, sel);
      lastCheck := now;
    }
  }
}
