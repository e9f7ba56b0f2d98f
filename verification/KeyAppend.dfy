/**
Appending keys to a multi-key channel (controller/channel.go, the "append" key mode of an
update): the new keys are trimmed, duplicates are dropped, and the list is stored one key per
line behind the existing keys.
*/
module KeyAppend {
  import opened Prelude
  import opened LineText
  import opened KeyText

  /** The existing keys as the append reads them; an array that does not decode yields none. */
  function Existing(decode: Decoder, stored: seq<Byte>): seq<Key> {
    if Bracketed(stored) then (if decode(stored).Some? then decode(stored).value else [])
    else Split(Trim(stored, IsNewline))
  }

  /** The trimmed, non-empty lines of the input. */
  function Candidates(lines: seq<Key>): seq<Key> {
    if lines == [] then []
    else
      var k := |lines| - 1;
      Candidates(lines[..k]) + if TrimSpace(lines[k]) != [] then [TrimSpace(lines[k])] else []
  }

  function Trimmed(keys: seq<Key>): set<Key> {
    set i | 0 <= i < |keys| && TrimSpace(keys[i]) != [] :: TrimSpace(keys[i])
  }

  // ----- the loops -----

  method ReadCandidates(input: seq<Byte>) returns (newKeys: seq<Key>)
    ensures newKeys == Candidates(Split(input))
  {
    var inputKeys := Split(input);
    newKeys := [];
    for i := 0 to |inputKeys|
      invariant newKeys == Candidates(inputKeys[..i])
    {
      assert inputKeys[..i + 1][..i] == inputKeys[..i];
      var key := TrimSpace(inputKeys[i]);
      if key != [] {
        newKeys := newKeys + [key];
      }
    }
    assert inputKeys[..|inputKeys|] == inputKeys;
  }

  /** The list that results from an append, said without a loop: the existing keys stay where
      they are, what follows is trimmed, new, free of duplicates and complete, and comes in the
      order of the input. */
  ghost predicate Appended(existing: seq<Key>, newKeys: seq<Key>, all: seq<Key>) {
    && existing <= all
    && (forall i :: |existing| <= i < |all| ==> all[i] in newKeys && all[i] !in Trimmed(existing))
    && (forall i, j :: |existing| <= i < j < |all| ==> all[i] != all[j])
    && (forall key :: key in newKeys ==> key in Trimmed(existing) || key in all[|existing|..])
    && (forall i, j :: |existing| <= i < j < |all| ==> FirstAt(newKeys, all[i]) < FirstAt(newKeys, all[j]))
  }

  /** The first position of a key, or the length if it does not occur. */
  function FirstAt(keys: seq<Key>, key: Key): (n: nat)
    ensures n <= |keys| && key !in keys[..n] && (n < |keys| ==> keys[n] == key)
  {
    if keys == [] || keys[0] == key then 0
    else
      var n := FirstAt(keys[1..], key);
      assert keys[..n + 1] == [keys[0]] + keys[1..][..n];
      n + 1
  }

  method SeenKeys(existing: seq<Key>) returns (seen: set<Key>)
    ensures seen == Trimmed(existing)
  {
    seen := {};
    for i := 0 to |existing|
      invariant seen == Trimmed(existing[..i])
    {
      TrimmedSnoc(existing, i);
      var normalized := TrimSpace(existing[i]);
      if normalized == [] {
        continue;
      }
      seen := seen + {normalized};
    }
    assert existing[..|existing|] == existing;
  }

  /** The new keys that an append puts behind the existing ones. */
  function Added(existing: seq<Key>, newKeys: seq<Key>): seq<Key> {
    if newKeys == [] then []
    else
      var k := |newKeys| - 1;
      var before := Added(existing, newKeys[..k]);
      if newKeys[k] in Trimmed(existing) || newKeys[k] in before then before else before + [newKeys[k]]
  }

  method Dedupe(existing: seq<Key>, newKeys: seq<Key>) returns (all: seq<Key>)
    ensures all == existing + Added(existing, Candidates(newKeys))
    ensures Appended(existing, Candidates(newKeys), all)
  {
    var seen := SeenKeys(existing);
    var deduped: seq<Key> := [];
    assert newKeys[..0] == [];
    for i := 0 to |newKeys|
      invariant Deduped(existing, newKeys, i, seen, deduped)
    {
      var normalized := TrimSpace(newKeys[i]);
      if normalized == [] || normalized in seen {
        SkipKey(existing, newKeys, i, seen, deduped);
        continue;
      }
      TakeKey(existing, newKeys, i, seen, deduped);
      seen := seen + {normalized};
      deduped := deduped + [normalized];
    }
    assert newKeys[..|newKeys|] == newKeys;
    all := existing + deduped;
    AddedAppended(existing, Candidates(newKeys));
  }

  /** Where the loop stands after the first n new keys. */
  ghost predicate Deduped(existing: seq<Key>, newKeys: seq<Key>, n: nat, seen: set<Key>, deduped: seq<Key>) {
    && n <= |newKeys|
    && deduped == Added(existing, Candidates(newKeys[..n]))
    && seen == Trimmed(existing) + (set key | key in deduped)
  }

  lemma AddedSnoc(existing: seq<Key>, newKeys: seq<Key>, key: Key)
    ensures Added(existing, newKeys + [key])
         == if key in Trimmed(existing) || key in Added(existing, newKeys) then Added(existing, newKeys)
            else Added(existing, newKeys) + [key]
  {
    assert (newKeys + [key])[..|newKeys|] == newKeys;
  }

  lemma SkipKey(existing: seq<Key>, newKeys: seq<Key>, n: nat, seen: set<Key>, deduped: seq<Key>)
    requires n < |newKeys| && Deduped(existing, newKeys, n, seen, deduped)
    requires TrimSpace(newKeys[n]) == [] || TrimSpace(newKeys[n]) in seen
    ensures Deduped(existing, newKeys, n + 1, seen, deduped)
  {
    CandidatesSnoc(newKeys, n);
    AddedSnoc(existing, Candidates(newKeys[..n]), TrimSpace(newKeys[n]));
  }

  lemma TakeKey(existing: seq<Key>, newKeys: seq<Key>, n: nat, seen: set<Key>, deduped: seq<Key>)
    requires n < |newKeys| && Deduped(existing, newKeys, n, seen, deduped)
    requires TrimSpace(newKeys[n]) != [] && TrimSpace(newKeys[n]) !in seen
    ensures var key := TrimSpace(newKeys[n]); Deduped(existing, newKeys, n + 1, seen + {key}, deduped + [key])
  {
    var key := TrimSpace(newKeys[n]);
    CandidatesSnoc(newKeys, n);
    AddedSnoc(existing, Candidates(newKeys[..n]), key);
    assert (set k | k in deduped + [key]) == (set k | k in deduped) + {key};
  }

  lemma {:induction false} AddedGrown(existing: seq<Key>, newKeys: seq<Key>)
    ensures Grown(existing, newKeys, Added(existing, newKeys))
  {
    if newKeys != [] {
      var k := |newKeys| - 1;
      AddedGrown(existing, newKeys[..k]);
      assert newKeys == newKeys[..k] + [newKeys[k]];
      if newKeys[k] in Trimmed(existing) || newKeys[k] in Added(existing, newKeys[..k]) {
        GrownSame(existing, newKeys[..k], newKeys[k], Added(existing, newKeys[..k]));
      } else {
        GrownSnoc(existing, newKeys[..k], newKeys[k], Added(existing, newKeys[..k]));
      }
    }
  }

  /** What is added is exactly what an append should add. */
  lemma AddedAppended(existing: seq<Key>, newKeys: seq<Key>)
    ensures Appended(existing, newKeys, existing + Added(existing, newKeys))
  {
    AddedGrown(existing, newKeys);
    GrownAll(existing, newKeys, Added(existing, newKeys));
  }

  lemma CandidatesSnoc(keys: seq<Key>, i: nat)
    requires i < |keys|
    ensures Candidates(keys[..i + 1])
         == if TrimSpace(keys[i]) == [] then Candidates(keys[..i]) else Candidates(keys[..i]) + [TrimSpace(keys[i])]
  {
    assert keys[..i + 1][..i] == keys[..i];
    EmptyConcat(Candidates(keys[..i]));
  }

  /** The new keys are exactly the lines of the input that are not blank, trimmed. */
  lemma {:induction false} CandidatesIff(lines: seq<Key>, key: Key)
    ensures key in Candidates(lines) <==> key != [] && exists i :: 0 <= i < |lines| && TrimSpace(lines[i]) == key
  {
    if lines != [] {
      var k := |lines| - 1;
      CandidatesIff(lines[..k], key);
      assert lines == lines[..k] + [lines[k]];
      assert forall i :: 0 <= i < k ==> lines[..k][i] == lines[i];
    }
  }

  /** In their order: a longer input only adds behind. */
  lemma {:induction false} CandidatesPrefix(a: seq<Key>, b: seq<Key>)
    ensures Candidates(a) <= Candidates(a + b)
  {
    if b == [] {
      EmptyConcat(a);
    } else {
      CandidatesPrefix(a, b[..|b| - 1]);
      assert (a + b)[..|a + b| - 1] == a + b[..|b| - 1];
    }
  }

  lemma {:induction false} CandidatesOfClean(keys: seq<Key>)
    requires Clean(keys)
    ensures Candidates(keys) == keys
  {
    if keys != [] {
      var k := |keys| - 1;
      CandidatesOfClean(keys[..k]);
      CandidatesSnoc(keys, k);
      assert keys[..k + 1] == keys == keys[..k] + [keys[k]];
    }
  }

  lemma TrimmedSnoc(keys: seq<Key>, i: nat)
    requires i < |keys|
    ensures Trimmed(keys[..i + 1]) == Trimmed(keys[..i]) + if TrimSpace(keys[i]) != [] then {TrimSpace(keys[i])} else {}
  {
    assert forall j :: 0 <= j < i ==> keys[..i][j] == keys[..i + 1][j];
    assert keys[..i + 1][i] == keys[i];
  }

  /** The deduplicated keys of the new keys read so far. */
  ghost predicate Grown(existing: seq<Key>, read: seq<Key>, deduped: seq<Key>) {
    && (forall i :: 0 <= i < |deduped| ==> deduped[i] in read && deduped[i] !in Trimmed(existing))
    && (forall i, j :: 0 <= i < j < |deduped| ==> deduped[i] != deduped[j])
    && (forall i :: 0 <= i < |read| ==> read[i] in Trimmed(existing) || read[i] in deduped)
    && (forall i, j :: 0 <= i < j < |deduped| ==> FirstAt(read, deduped[i]) < FirstAt(read, deduped[j]))
  }

  lemma {:induction false} FirstStays(read: seq<Key>, key: Key, x: Key)
    requires key in read
    ensures FirstAt(read + [x], key) == FirstAt(read, key) < |read|
  {
    if read[0] != key {
      assert (read + [x])[1..] == read[1..] + [x];
      assert read == [read[0]] + read[1..];
      FirstStays(read[1..], key, x);
    }
  }

  lemma GrownSame(existing: seq<Key>, read: seq<Key>, x: Key, deduped: seq<Key>)
    requires Grown(existing, read, deduped) && (x in Trimmed(existing) || x in deduped)
    ensures Grown(existing, read + [x], deduped)
  {
    forall i | 0 <= i < |deduped|
      ensures FirstAt(read + [x], deduped[i]) == FirstAt(read, deduped[i])
    {
      FirstStays(read, deduped[i], x);
    }
  }

  lemma GrownSnoc(existing: seq<Key>, read: seq<Key>, x: Key, deduped: seq<Key>)
    requires Grown(existing, read, deduped) && x !in Trimmed(existing) && x !in deduped
    ensures Grown(existing, read + [x], deduped + [x])
  {
    assert forall i :: 0 <= i < |read| ==> read[i] in Trimmed(existing) || read[i] in deduped;
    assert (read + [x])[|read|] == x;
    FirstHere(read + [x], |read|);
    forall i | 0 <= i < |deduped|
      ensures FirstAt(read + [x], deduped[i]) == FirstAt(read, deduped[i]) < |read|
    {
      FirstStays(read, deduped[i], x);
    }
  }

  lemma FirstHere(keys: seq<Key>, n: nat)
    requires n < |keys| && forall i :: 0 <= i < n ==> keys[i] != keys[n]
    ensures FirstAt(keys, keys[n]) == n
  {
    var m := FirstAt(keys, keys[n]);
    assert forall j :: 0 <= j < m ==> keys[..m][j] == keys[j];
  }

  lemma GrownAll(existing: seq<Key>, read: seq<Key>, deduped: seq<Key>)
    requires Grown(existing, read, deduped)
    ensures Appended(existing, read, existing + deduped)
  {
    var all := existing + deduped;
    assert all[|existing|..] == deduped;
    assert forall i :: |existing| <= i < |all| ==> all[i] == deduped[i - |existing|];
  }

  // ----- through the stored string -----

  ghost predicate Clean(newKeys: seq<Key>) {
    forall i :: 0 <= i < |newKeys| ==> newKeys[i] != [] && NEWLINE !in newKeys[i] && TrimSpace(newKeys[i]) == newKeys[i]
  }

  lemma {:induction false} CandidatesClean(lines: seq<Key>)
    requires OneLiners(lines)
    ensures Clean(Candidates(lines))
  {
    if lines != [] {
      var k := |lines| - 1;
      CandidatesClean(lines[..k]);
      TrimTwice(lines[k], IsSpace);
    }
  }

  /** Something visible comes first, and it does not open a JSON array. */
  ghost predicate Visible(s: seq<Byte>) {
    var t := TrimLeft(s, IsSpace);
    t != [] && t[0] != 91
  }

  lemma {:induction false} TrimLeftNewlines(s: seq<Byte>)
    ensures TrimLeft(TrimLeft(s, IsNewline), IsSpace) == TrimLeft(s, IsSpace)
  {
    if s != [] && s[0] == NEWLINE {
      TrimLeftNewlines(s[1..]);
    }
  }

  lemma {:induction false} TrimRightVisible(s: seq<Byte>)
    requires Visible(s)
    ensures Visible(TrimRight(s, IsNewline))
  {
    if s[|s| - 1] == NEWLINE {
      var k := |s| - 1;
      assert s == s[..k] + [NEWLINE];
      if TrimLeft(s[..k], IsSpace) == [] {
        AllSpace(s[..k], [NEWLINE]);
      } else {
        TrimLeftConcat(s[..k], [NEWLINE], IsSpace);
        TrimRightVisible(s[..k]);
      }
    }
  }

  lemma {:induction false} AllSpace(a: seq<Byte>, b: seq<Byte>)
    requires TrimLeft(a, IsSpace) == []
    ensures TrimLeft(a + b, IsSpace) == TrimLeft(b, IsSpace)
  {
    if a == [] {
      assert a + b == b;
    } else {
      assert (a + b)[1..] == a[1..] + b;
      AllSpace(a[1..], b);
    }
  }

  lemma TrimVisible(s: seq<Byte>)
    requires Visible(s)
    ensures Visible(Trim(s, IsNewline)) && Trim(s, IsNewline) != []
  {
    TrimLeftNewlines(s);
    TrimRightVisible(TrimLeft(s, IsNewline));
  }

  lemma JoinSnoc(keys: seq<Key>, key: Key)
    requires keys != []
    ensures Join(keys + [key]) == Join(keys) + ([NEWLINE] + key)
  {
    assert (keys + [key])[..|keys|] == keys;
  }

  lemma {:induction false} JoinExtends(a: seq<Key>, b: seq<Key>) returns (rest: seq<Byte>)
    requires a != []
    ensures Join(a + b) == Join(a) + rest
  {
    if b == [] {
      assert a + b == a;
      rest := [];
    } else {
      var k := |b| - 1;
      rest := JoinExtends(a, b[..k]);
      assert b == b[..k] + [b[k]];
      Assoc(a, b[..k], [b[k]]);
      JoinSnoc(a + b[..k], b[k]);
      Assoc(Join(a), rest, [NEWLINE] + b[k]);
      rest := rest + ([NEWLINE] + b[k]);
    }
  }

  lemma CleanMember(newKeys: seq<Key>, key: Key)
    requires Clean(newKeys) && key in newKeys
    ensures key != [] && NEWLINE !in key
  {
  }

  /** The ends of the list that was read are not empty, so neither are those of the longer list. */
  lemma ListEnds(stored: seq<Byte>, newKeys: seq<Key>, all: seq<Key>)
    requires Appended(Split(Trim(stored, IsNewline)), newKeys, all) && Clean(newKeys)
    ensures OneLiners(all) && all != []
    ensures all[0] != [] && all[|all| - 1] != [] <==> Trim(stored, IsNewline) != []
  {
    var t := Trim(stored, IsNewline);
    var existing := Split(t);
    JoinSplit(t);
    JoinEnds(existing);
    forall i | |existing| <= i < |all|
      ensures all[i] != [] && NEWLINE !in all[i]
    {
      CleanMember(newKeys, all[i]);
    }
    assert all[0] == existing[0];
    if |all| == |existing| {
      assert all == existing;
    }
  }

  /** What can be told from the key string before an append: lines are read back unless there are
      none; the elements of an array only if each is on one line and none is empty at an end;
      and a result that happens to be an array again only if it holds just those keys. */
  ghost predicate Rereadable(decode: Decoder, stored: seq<Byte>, all: seq<Key>) {
    var existing := Existing(decode, stored);
    if Bracketed(Join(all)) && decode(Join(all)).Some? then decode(Join(all)).value == all
    else if !Bracketed(stored) then Trim(stored, IsNewline) != []
    else
      all == [] ||
      (OneLiners(existing) && (existing != [] ==> existing[0] != [])
       && (|all| == |existing| ==> existing[|existing| - 1] != []))
  }

  lemma ArrayEnds(existing: seq<Key>, newKeys: seq<Key>, all: seq<Key>)
    requires Appended(existing, newKeys, all) && Clean(newKeys) && all != []
    ensures OneLiners(all) <==> OneLiners(existing)
    ensures existing != [] ==> all[0] == existing[0]
    ensures existing == [] ==> all[0] != []
    ensures |all| > |existing| ==> all[|all| - 1] != []
    ensures |all| == |existing| ==> all == existing
  {
    forall i | |existing| <= i < |all|
      ensures all[i] != [] && NEWLINE !in all[i]
    {
      CleanMember(newKeys, all[i]);
    }
    assert forall i :: 0 <= i < |existing| ==> all[i] == existing[i];
  }

  /** Every existing key keeps its position and every new key follows it in the stored channel,
      exactly when the list is read back. */
  lemma AppendStoredIff(decode: Decoder, stored: seq<Byte>, newKeys: seq<Key>, all: seq<Key>)
    requires Appended(Existing(decode, stored), newKeys, all) && Clean(newKeys)
    ensures GetKeys(decode, Join(all)) == all <==> Rereadable(decode, stored, all)
  {
    StoredKeysIff(decode, all);
    if !Bracketed(stored) {
      ListEnds(stored, newKeys, all);
    } else if all != [] {
      ArrayEnds(Existing(decode, stored), newKeys, all);
    }
  }

  /** For a string of visible, newline-separated keys the append can be read back, and stays in
      that format. */
  lemma AppendStored(decode: Decoder, stored: seq<Byte>, newKeys: seq<Key>, all: seq<Key>)
    requires Visible(stored) && Appended(Existing(decode, stored), newKeys, all) && Clean(newKeys)
    ensures Existing(decode, stored) == GetKeys(decode, stored)
    ensures GetKeys(decode, Join(all)) == Existing(decode, Join(all)) == all && Visible(Join(all))
  {
    var t := Trim(stored, IsNewline);
    TrimVisible(stored);
    JoinSplit(t);
    assert all == Split(t) + all[|Split(t)|..];
    var rest := JoinExtends(Split(t), all[|Split(t)|..]);
    TrimLeftConcat(t, rest, IsSpace);
    AppendStoredIff(decode, stored, newKeys, all);
  }

  // ----- appending twice -----

  function Members(keys: seq<Key>): set<Key> {
    set key | key in keys
  }

  lemma SomeMember(keys: seq<Key>)
    ensures keys == [] <==> Members(keys) == {}
  {
    if keys != [] {
      assert keys[0] in Members(keys);
    }
  }

  /** Keys of a list in the order of their first occurrence. */
  ghost predicate InOrder(newKeys: seq<Key>, keys: seq<Key>) {
    && (forall i :: 0 <= i < |keys| ==> FirstAt(newKeys, keys[i]) < |newKeys|)
    && (forall i, j :: 0 <= i < j < |keys| ==> FirstAt(newKeys, keys[i]) < FirstAt(newKeys, keys[j]))
  }

  lemma LastOfBoth(newKeys: seq<Key>, a: seq<Key>, b: seq<Key>)
    requires InOrder(newKeys, a) && InOrder(newKeys, b) && a != [] && b != [] && Members(a) == Members(b)
    ensures a[|a| - 1] == b[|b| - 1]
  {
    var x, y := a[|a| - 1], b[|b| - 1];
    assert x in Members(b) && y in Members(a);
    assert FirstAt(newKeys, x) <= FirstAt(newKeys, y) && FirstAt(newKeys, y) <= FirstAt(newKeys, x);
  }

  lemma InitMembers(newKeys: seq<Key>, a: seq<Key>)
    requires InOrder(newKeys, a) && a != []
    ensures InOrder(newKeys, a[..|a| - 1])
    ensures Members(a[..|a| - 1]) == Members(a) - {a[|a| - 1]}
  {
    var init, last := a[..|a| - 1], a[|a| - 1];
    assert a == init + [last];
    assert forall i :: 0 <= i < |init| ==> FirstAt(newKeys, a[i]) < FirstAt(newKeys, last) && init[i] == a[i];
  }

  lemma {:induction false} InOrderUnique(newKeys: seq<Key>, a: seq<Key>, b: seq<Key>)
    requires InOrder(newKeys, a) && InOrder(newKeys, b) && Members(a) == Members(b)
    ensures a == b
    decreases |a|
  {
    SomeMember(a);
    SomeMember(b);
    if a != [] {
      LastOfBoth(newKeys, a, b);
      InitMembers(newKeys, a);
      InitMembers(newKeys, b);
      InOrderUnique(newKeys, a[..|a| - 1], b[..|b| - 1]);
      SnocEqual(a, b);
    }
  }

  /** The result of an append is determined by the existing and the new keys. */
  lemma AppendedUnique(existing: seq<Key>, newKeys: seq<Key>, a: seq<Key>, b: seq<Key>)
    requires Appended(existing, newKeys, a) && Appended(existing, newKeys, b)
    ensures a == b
  {
    var x, y := a[|existing|..], b[|existing|..];
    TailInOrder(existing, newKeys, a);
    TailInOrder(existing, newKeys, b);
    InOrderUnique(newKeys, x, y);
    assert a == existing + x && b == existing + y;
  }

  lemma TailInOrder(existing: seq<Key>, newKeys: seq<Key>, all: seq<Key>)
    requires Appended(existing, newKeys, all)
    ensures InOrder(newKeys, all[|existing|..])
    ensures Members(all[|existing|..]) == Members(newKeys) - Trimmed(existing)
  {
    var x := all[|existing|..];
    forall i | 0 <= i < |x|
      ensures x[i] in newKeys && x[i] !in Trimmed(existing) && FirstAt(newKeys, x[i]) < |newKeys|
    {
      assert x[i] == all[|existing| + i];
      assert newKeys[..|newKeys|] == newKeys;
    }
    forall i, j | 0 <= i < j < |x|
      ensures FirstAt(newKeys, x[i]) < FirstAt(newKeys, x[j])
    {
      assert x[i] == all[|existing| + i] && x[j] == all[|existing| + j];
    }
  }

  lemma {:induction false} TrimKeepsSome(s: seq<Byte>)
    requires s != [] && s[|s| - 1] != NEWLINE
    ensures Trim(s, IsNewline) != []
  {
    if s[0] == NEWLINE {
      TrimKeepsSome(s[1..]);
    }
  }

  /** The lines read again end the list that was written, all but blank ends. */
  lemma ReadAgain(once: seq<Key>, newKeys: seq<Key>)
    requires Join(once) != [] && Clean(newKeys)
    requires var again := Split(Trim(Join(once), IsNewline));
             again <= once && forall i :: |again| <= i < |once| ==> once[i] in newKeys
    ensures OneLiners(once) && once[0] != [] && once[|once| - 1] != []
  {
    var j := Join(once);
    var again := Split(Trim(j, IsNewline));
    JoinSplit(Trim(j, IsNewline));
    forall i | 0 <= i < |once|
      ensures NEWLINE !in once[i] && (i >= |again| ==> once[i] != [])
    {
      if i < |again| {
        assert once[i] == again[i];
      } else {
        CleanMember(newKeys, once[i]);
      }
    }
    LinesReadBackIff(once);
    if |again| < |once| {
      JoinEnds(once);
      assert once[0] == again[0];
      if |once| > 1 {
        TrimKeepsSome(j);
      }
      JoinEnds(again);
    } else {
      assert again == once;
    }
  }

  /** Adding the new keys to part of what they were added to before completes it again. */
  lemma AddedToMore(a: seq<Key>, b: seq<Key>, newKeys: seq<Key>)
    requires Clean(newKeys) && a <= b <= a + Added(a, newKeys)
    ensures a + Added(a, newKeys) == b + Added(b, newKeys)
  {
    var x := a + Added(a, newKeys);
    AddedAppended(a, newKeys);
    AddedAppended(b, newKeys);
    forall i | |a| <= i < |b|
      ensures b[i] == x[i] && b[i] in Trimmed(b) && b[i] in newKeys
    {
      assert b[i] == x[i];
      CleanTrimmed(newKeys, x[i]);
    }
    TrimmedOfMore(a, b);
    MoreAppended(a, b, newKeys, x);
    AppendedUnique(b, newKeys, x, b + Added(b, newKeys));
  }

  lemma CleanTrimmed(newKeys: seq<Key>, key: Key)
    requires Clean(newKeys) && key in newKeys
    ensures key != [] && TrimSpace(key) == key
  {
  }

  lemma TrimmedOfMore(a: seq<Key>, b: seq<Key>)
    requires a <= b
    ensures Trimmed(b) == Trimmed(a) + Trimmed(b[|a|..])
  {
    forall key | key in Trimmed(b)
      ensures key in Trimmed(a) + Trimmed(b[|a|..])
    {
      var i :| 0 <= i < |b| && TrimSpace(b[i]) != [] && TrimSpace(b[i]) == key;
      if i < |a| { assert a[i] == b[i]; } else { assert b[|a|..][i - |a|] == b[i]; }
    }
    forall key | key in Trimmed(a) + Trimmed(b[|a|..])
      ensures key in Trimmed(b)
    {
      if i :| 0 <= i < |a| && TrimSpace(a[i]) != [] && TrimSpace(a[i]) == key {
        assert b[i] == a[i];
      } else {
        var i :| 0 <= i < |b[|a|..]| && TrimSpace(b[|a|..][i]) != [] && TrimSpace(b[|a|..][i]) == key;
        assert b[|a| + i] == b[|a|..][i];
      }
    }
  }

  lemma TrimmedOfClean(keys: seq<Key>)
    requires Clean(keys)
    ensures Trimmed(keys) == Members(keys)
  {
  }

  lemma MoreAppended(a: seq<Key>, b: seq<Key>, newKeys: seq<Key>, x: seq<Key>)
    requires Clean(newKeys) && Appended(a, newKeys, x) && a <= b <= x
    requires Trimmed(b) == Trimmed(a) + Trimmed(b[|a|..])
    requires forall i :: |a| <= i < |b| ==> b[i] == x[i] && b[i] in Trimmed(b) && b[i] in newKeys
    ensures Appended(b, newKeys, x)
  {
    var part := b[|a|..];
    forall i | 0 <= i < |part|
      ensures part[i] == x[|a| + i] && part[i] != [] && NEWLINE !in part[i] && TrimSpace(part[i]) == part[i]
    {
      CleanTrimmed(newKeys, b[|a| + i]);
      CleanMember(newKeys, b[|a| + i]);
    }
    TrimmedOfClean(part);
    forall key | key in newKeys
      ensures key in Trimmed(b) || key in x[|b|..]
    {
      if key !in Trimmed(a) {
        var i :| |a| <= i < |x| && x[i] == key;
        if i >= |b| { assert x[|b|..][i - |b|] == key; }
      }
    }
  }

  /** Each list begins with what the other keeps, just when both are the same. */
  lemma AddedMeetIff(a: seq<Key>, b: seq<Key>, newKeys: seq<Key>)
    requires Clean(newKeys)
    ensures a + Added(a, newKeys) == b + Added(b, newKeys)
       <==> a <= b + Added(b, newKeys) && b <= a + Added(a, newKeys)
  {
    if a <= b + Added(b, newKeys) && b <= a + Added(a, newKeys) {
      if |a| <= |b| {
        AddedToMore(a, b, newKeys);
      } else {
        AddedToMore(b, a, newKeys);
      }
    }
  }

  /** The existing keys that a second append of the same input meets: an empty string is not written. */
  function ReadNext(decode: Decoder, stored: seq<Byte>, once: seq<Key>): seq<Key> {
    Existing(decode, if Join(once) == [] then stored else Join(once))
  }

  /** Appending the same keys again changes nothing: always when an empty string was not written; for a
      list written as lines exactly when they are read back; and for one whose string opens like
      an array exactly when the elements read of it (none, if it does not decode) begin the list, and
      the keys there were at first begin what the elements are extended to. */
  lemma AppendTwiceIff(decode: Decoder, stored: seq<Byte>, newKeys: seq<Key>)
    requires Clean(newKeys)
    ensures var existing := Existing(decode, stored);
            var once := existing + Added(existing, newKeys);
            var again := ReadNext(decode, stored, once);
            var same := again + Added(again, newKeys) == once;
            if Join(once) == [] then same
            else if !Bracketed(Join(once)) then same <==> OneLiners(once) && once[0] != [] && once[|once| - 1] != []
            else
              var elements := if decode(Join(once)).Some? then decode(Join(once)).value else [];
              same <==> elements <= once && existing <= elements + Added(elements, newKeys)
  {
    var existing := Existing(decode, stored);
    var once := existing + Added(existing, newKeys);
    var again := ReadNext(decode, stored, once);
    AddedAppended(existing, newKeys);
    AddedAppended(again, newKeys);
    AddedMeetIff(again, existing, newKeys);
    if Join(once) != [] && !Bracketed(Join(once)) {
      LinesTwice(once, existing, newKeys);
    }
  }

  lemma LinesTwice(once: seq<Key>, existing: seq<Key>, newKeys: seq<Key>)
    requires Clean(newKeys) && Appended(existing, newKeys, once) && Join(once) != []
    ensures var again := Split(Trim(Join(once), IsNewline));
            again + Added(again, newKeys) == once <==> OneLiners(once) && once[0] != [] && once[|once| - 1] != []
  {
    var again := Split(Trim(Join(once), IsNewline));
    AddedAppended(again, newKeys);
    if OneLiners(once) && once[0] != [] && once[|once| - 1] != [] {
      LinesReadBackIff(once);
      AppendedToItself(existing, newKeys, once);
      AppendedUnique(once, newKeys, once, once + Added(once, newKeys));
    }
    if again + Added(again, newKeys) == once {
      ReadAgain(once, newKeys);
    }
  }

  lemma AppendedToItself(existing: seq<Key>, newKeys: seq<Key>, once: seq<Key>)
    requires Clean(newKeys) && Appended(existing, newKeys, once)
    ensures Appended(once, newKeys, once)
  {
    forall key | key in newKeys
      ensures key in Trimmed(once)
    {
      AlreadyThere(existing, newKeys, once, key);
    }
  }

  /** In particular for visible, newline-separated keys. */
  lemma AppendTwice(decode: Decoder, stored: seq<Byte>, newKeys: seq<Key>, once: seq<Key>, twice: seq<Key>)
    requires Visible(stored) && Clean(newKeys)
    requires Appended(Existing(decode, stored), newKeys, once)
    requires Appended(Existing(decode, Join(once)), newKeys, twice)
    ensures twice == once && Join(twice) == Join(once)
  {
    AppendStored(decode, stored, newKeys, once);
    AppendedToItself(Existing(decode, stored), newKeys, once);
    AppendedUnique(once, newKeys, once, twice);
  }

  lemma AlreadyThere(existing: seq<Key>, newKeys: seq<Key>, all: seq<Key>, key: Key)
    requires Appended(existing, newKeys, all) && Clean(newKeys) && key in newKeys
    ensures key in Trimmed(all)
  {
    if key in Trimmed(existing) {
      var i :| 0 <= i < |existing| && TrimSpace(existing[i]) != [] && TrimSpace(existing[i]) == key;
      assert all[i] == existing[i];
    } else {
      var i :| |existing| <= i < |all| && all[i] == key;
    }
  }
}
