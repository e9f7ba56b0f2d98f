/**
The stored form of a channel's key list: one byte string with a key per line, or a JSON array
(model/channel.go). Reading it back after a write is where keys can be lost.
*/
module KeyText {
  import opened Prelude
  import opened LineText

  type Key = seq<Byte>

  /** `json.Unmarshal` of a trimmed key string into a list of raw elements. */
  type Decoder = seq<Byte> -> Option<seq<Key>>

  predicate IsNewline(b: Byte) { b == NEWLINE }

  /** The ASCII white space that `strings.TrimSpace` removes. */
  predicate IsSpace(b: Byte) { b == 32 || 9 <= b <= 13 }

  function Split(s: seq<Byte>): seq<Key> { Lines(s) + [Rest(s)] }

  function Join(keys: seq<Key>): seq<Byte> {
    if keys == [] then [] else Unlines(keys[..|keys| - 1]) + keys[|keys| - 1]
  }

  function TrimLeft(s: seq<Byte>, cut: Byte -> bool): (r: seq<Byte>)
    ensures r != [] ==> !cut(r[0])
    ensures forall b :: b in r ==> b in s
  {
    if s != [] && cut(s[0]) then TrimLeft(s[1..], cut) else s
  }

  function TrimRight(s: seq<Byte>, cut: Byte -> bool): (r: seq<Byte>)
    ensures r <= s
    ensures r != [] ==> !cut(r[|r| - 1])
  {
    if s != [] && cut(s[|s| - 1]) then TrimRight(s[..|s| - 1], cut) else s
  }

  function Trim(s: seq<Byte>, cut: Byte -> bool): (r: seq<Byte>)
    ensures r != [] ==> !cut(r[0]) && !cut(r[|r| - 1])
    ensures forall b :: b in r ==> b in s
  {
    TrimRight(TrimLeft(s, cut), cut)
  }

  function TrimSpace(s: seq<Byte>): (r: seq<Byte>)
    ensures NEWLINE !in s ==> NEWLINE !in r
  {
    Trim(s, IsSpace)
  }

  /** `strings.HasPrefix(strings.TrimSpace(s), "[")`. */
  predicate Bracketed(s: seq<Byte>) {
    var t := TrimLeft(s, IsSpace);
    t != [] && t[0] == 91
  }

  function GetKeys(decode: Decoder, stored: seq<Byte>): seq<Key> {
    if stored == [] then []
    else if Bracketed(stored) && decode(stored).Some? then decode(stored).value
    else Split(Trim(stored, IsNewline))
  }

  ghost predicate OneLiners(keys: seq<Key>) {
    forall i :: 0 <= i < |keys| ==> NEWLINE !in keys[i]
  }

  // ----- joining and splitting -----

  lemma SplitJoin(keys: seq<Key>)
    requires keys != [] && OneLiners(keys)
    ensures Split(Join(keys)) == keys
  {
    var k := |keys| - 1;
    WholeLines(keys[..k]);
    ConcatAtBreak(Unlines(keys[..k]), keys[k]);
    Unbroken(keys[k]);
    assert keys == keys[..k] + [keys[k]];
  }

  lemma JoinSplit(s: seq<Byte>)
    ensures Join(Split(s)) == s
    ensures OneLiners(Split(s))
  {
    LinesRoundTrip(s);
    assert Split(s)[..|Lines(s)|] == Lines(s);
  }

  /** The characters that are trimmed, the one that separates keys and the one that opens an array. */
  lemma Characters(b: Byte)
    ensures IsNewline(b) <==> b as int as char == '\n'
    ensures IsSpace(b) <==> b as int as char in {' ', '\t', '\n', '\r', 11 as char, 12 as char}
    ensures Bracketed([b]) <==> b as int as char == '['
  {
    assert [b][1..] == [];
    assert TrimLeft([b], IsSpace) == if IsSpace(b) then [] else [b];
  }

  lemma {:induction false} TrimLeftCuts(s: seq<Byte>, cut: Byte -> bool) returns (n: nat)
    ensures n <= |s| && TrimLeft(s, cut) == s[n..] && forall i :: 0 <= i < n ==> cut(s[i])
  {
    if s != [] && cut(s[0]) {
      n := TrimLeftCuts(s[1..], cut);
      assert s[1..][n..] == s[n + 1..] && forall i :: 1 <= i < n + 1 ==> s[i] == s[1..][i - 1];
      n := n + 1;
    } else {
      n := 0;
    }
  }

  lemma {:induction false} TrimRightCuts(s: seq<Byte>, cut: Byte -> bool)
    ensures forall i :: |TrimRight(s, cut)| <= i < |s| ==> cut(s[i])
  {
    if s != [] && cut(s[|s| - 1]) {
      TrimRightCuts(s[..|s| - 1], cut);
    }
  }

  /** Trimming takes exactly what can be cut off at either end. */
  lemma TrimCuts(s: seq<Byte>, cut: Byte -> bool) returns (n: nat)
    ensures var t := Trim(s, cut);
            && n + |t| <= |s| && t == s[n..n + |t|]
            && (forall i :: 0 <= i < |s| && !(n <= i < n + |t|) ==> cut(s[i]))
            && (t != [] ==> !cut(t[0]) && !cut(t[|t| - 1]))
  {
    n := TrimLeftCuts(s, cut);
    var left := TrimLeft(s, cut);
    TrimRightCuts(left, cut);
    assert forall i :: n <= i < |s| ==> s[i] == left[i - n];
  }

  lemma TrimNothing(s: seq<Byte>, cut: Byte -> bool)
    requires s == [] || (!cut(s[0]) && !cut(s[|s| - 1]))
    ensures Trim(s, cut) == s
  {
  }

  lemma TrimTwice(s: seq<Byte>, cut: Byte -> bool)
    ensures Trim(Trim(s, cut), cut) == Trim(s, cut)
  {
    TrimNothing(Trim(s, cut), cut);
  }

  lemma {:induction false} TrimLeftLines(s: seq<Byte>)
    ensures |Lines(TrimLeft(s, IsNewline))| <= |Lines(s)|
    ensures s != [] && s[0] == NEWLINE ==> |Lines(TrimLeft(s, IsNewline))| < |Lines(s)|
  {
    if s != [] && s[0] == NEWLINE {
      TrimLeftLines(s[1..]);
      LeadingNewline(s);
    }
  }

  lemma LeadingNewline(s: seq<Byte>)
    requires s != [] && s[0] == NEWLINE
    ensures |Lines(s)| == 1 + |Lines(s[1..])|
  {
    CutAt(s, 0);
    FirstLine(s[..0], s[1..]);
  }

  lemma {:induction false} TrimRightLines(s: seq<Byte>)
    ensures |Lines(TrimRight(s, IsNewline))| <= |Lines(s)|
    ensures s != [] && s[|s| - 1] == NEWLINE ==> |Lines(TrimRight(s, IsNewline))| < |Lines(s)|
  {
    if s != [] && s[|s| - 1] == NEWLINE {
      TrimRightLines(s[..|s| - 1]);
    }
  }

  lemma TrimLosesLines(s: seq<Byte>)
    requires s != [] && (s[0] == NEWLINE || s[|s| - 1] == NEWLINE)
    ensures |Lines(Trim(s, IsNewline))| < |Lines(s)|
  {
    TrimLeftLines(s);
    TrimRightLines(TrimLeft(s, IsNewline));
  }

  lemma {:induction false} JoinEnds(keys: seq<Key>)
    requires OneLiners(keys) && keys != []
    ensures |keys| == 1 ==> Join(keys) == keys[0]
    ensures |keys| >= 2 ==> Join(keys) != []
    ensures |keys| >= 2 ==> (Join(keys)[0] == NEWLINE <==> keys[0] == [])
    ensures |keys| >= 2 ==> (Join(keys)[|Join(keys)| - 1] == NEWLINE <==> keys[|keys| - 1] == [])
  {
    var k := |keys| - 1;
    if k >= 1 {
      UnlinesStart(keys[..k]);
    }
  }

  lemma {:induction false} UnlinesStart(keys: seq<Key>)
    requires OneLiners(keys) && keys != []
    ensures Unlines(keys) != [] && (Unlines(keys)[0] == NEWLINE <==> keys[0] == [])
    ensures Unlines(keys)[|Unlines(keys)| - 1] == NEWLINE
  {
    if |keys| > 1 {
      UnlinesStart(keys[..|keys| - 1]);
    }
  }

  /** A list that its joined string gives back: as a JSON array that happens to hold it, or line by
      line, with every key on one line and no empty key at either end. */
  ghost predicate Readable(decode: Decoder, keys: seq<Key>) {
    var s := Join(keys);
    if Bracketed(s) && decode(s).Some? then decode(s).value == keys
    else keys == [] || (OneLiners(keys) && keys[0] != [] && keys[|keys| - 1] != [])
  }

  /** Writing any key list and reading it back gives the list exactly when it is readable. */
  lemma StoredKeysIff(decode: Decoder, keys: seq<Key>)
    ensures GetKeys(decode, Join(keys)) == keys <==> Readable(decode, keys)
  {
    var s := Join(keys);
    if keys != [] && !(Bracketed(s) && decode(s).Some?) {
      if OneLiners(keys) {
        LinesReadBackIff(keys);
      } else {
        JoinSplit(Trim(s, IsNewline));
      }
    }
  }

  lemma LinesReadBackIff(keys: seq<Key>)
    requires keys != [] && OneLiners(keys)
    ensures Join(keys) == [] ==> keys[0] == []
    ensures Join(keys) != [] ==> (Split(Trim(Join(keys), IsNewline)) == keys <==> keys[0] != [] && keys[|keys| - 1] != [])
  {
    var s := Join(keys);
    JoinEnds(keys);
    SplitJoin(keys);
    if s != [] {
      if s[0] == NEWLINE || s[|s| - 1] == NEWLINE {
        TrimLosesLines(s);
      } else {
        TrimNothing(s, IsNewline);
      }
    }
  }

  /** How many keys a save counts in a key string: an array that decodes to nothing is counted by lines. */
  function CountKeys(decode: Decoder, stored: seq<Byte>): nat {
    if stored == [] then 0
    else if Bracketed(stored) && decode(stored).Some? && decode(stored).value != [] then |decode(stored).value|
    else |Split(Trim(stored, IsNewline))|
  }

  /** The count is the number of keys read, exactly when the string is not an empty JSON array. */
  lemma CountedIff(decode: Decoder, stored: seq<Byte>)
    ensures CountKeys(decode, stored) >= |GetKeys(decode, stored)|
    ensures CountKeys(decode, stored) == |GetKeys(decode, stored)|
       <==> !(stored != [] && Bracketed(stored) && decode(stored) == Some([]))
  {
  }

  /** The empty array holds no key and is counted as one. */
  lemma EmptyArrayCounted(decode: Decoder)
    requires decode([91, 93]) == Some([])
    ensures GetKeys(decode, [91, 93]) == [] && CountKeys(decode, [91, 93]) == 1
  {
    TrimNothing([91, 93], IsNewline);
    Unbroken([91, 93]);
  }

  // ----- keys that survive every edit -----

  /** A key on one line with something visible in it that does not open a JSON array. */
  ghost predicate PlainKey(key: Key) {
    && NEWLINE !in key
    && var t := TrimLeft(key, IsSpace); t != [] && t[0] != 91
  }

  ghost predicate PlainKeys(keys: seq<Key>) {
    forall i :: 0 <= i < |keys| ==> PlainKey(keys[i])
  }

  lemma {:induction false} TrimLeftConcat(a: seq<Byte>, b: seq<Byte>, cut: Byte -> bool)
    requires TrimLeft(a, cut) != []
    ensures TrimLeft(a + b, cut) == TrimLeft(a, cut) + b
  {
    if cut(a[0]) {
      assert (a + b)[1..] == a[1..] + b;
      TrimLeftConcat(a[1..], b, cut);
    }
  }

  lemma {:induction false} UnlinesPlain(keys: seq<Key>)
    requires keys != [] && PlainKey(keys[0])
    ensures var t := TrimLeft(Unlines(keys), IsSpace); t != [] && t[0] != 91
  {
    var k := |keys| - 1;
    if k == 0 {
      assert Unlines(keys[..0]) == [];
      EmptyConcat(keys[0] + [NEWLINE]);
      TrimLeftConcat(keys[0], [NEWLINE], IsSpace);
    } else {
      UnlinesPlain(keys[..k]);
      TrimLeftConcat(Unlines(keys[..k]), keys[k] + [NEWLINE], IsSpace);
    }
  }

  lemma PlainKeysStored(decode: Decoder, keys: seq<Key>)
    requires PlainKeys(keys)
    ensures GetKeys(decode, Join(keys)) == keys
    ensures keys != [] ==> Join(keys) != [] && !Bracketed(Join(keys))
  {
    if keys != [] {
      var k := |keys| - 1;
      if k > 0 {
        UnlinesPlain(keys[..k]);
        TrimLeftConcat(Unlines(keys[..k]), keys[k], IsSpace);
      } else {
        assert Unlines(keys[..0]) == [];
        EmptyConcat(keys[0]);
      }
      assert !Bracketed(Join(keys));
      StoredKeysIff(decode, keys);
    }
  }
}
