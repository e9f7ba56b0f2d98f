// What the masker makes of an assignment as it is written: a value in quotes with
// its escapes, a quoted value that is never closed, and a bare value.

module LogAssignments {

  import opened Prelude
  import opened LogText
  import opened LogCredentials
  import opened LogMasker

  // ---- Quoted values ----------------------------------------------------------------

  /** What a quoted value is made of: an ordinary byte, or a backslash and the byte it escapes. */
  predicate Piece(quote: Byte, p: Text) {
    || (|p| == 1 && p[0] != quote && p[0] as int != '\\' as int)
    || (|p| == 2 && p[0] as int == '\\' as int)
  }

  predicate Pieces(quote: Byte, ps: seq<Text>) {
    forall i :: 0 <= i < |ps| ==> Piece(quote, ps[i])
  }

  function Body(ps: seq<Text>): Text {
    if ps == [] then [] else Body(ps[..|ps| - 1]) + ps[|ps| - 1]
  }

  lemma BodySnoc(ps: seq<Text>, p: Text)
    ensures Body(ps + [p]) == Body(ps) + p
  {
    assert (ps + [p])[..|ps|] == ps;
  }

  /** Whole pieces never close the value, and leave no escape open. */
  lemma {:induction false} PiecesStayOpen(value: Text, from: nat, quote: Byte, ps: seq<Text>)
    requires Quote(quote) && Pieces(quote, ps)
    requires from <= |value| && Body(ps) <= value[from..]
    ensures Slashes(value, from, from + |Body(ps)|) % 2 == 0
    ensures forall j :: from <= j < from + |Body(ps)| ==> !Closes(value, from, quote, j)
    decreases |ps|
  {
    if ps != [] {
      var init, last := ps[..|ps| - 1], ps[|ps| - 1];
      var mid := from + |Body(init)|;
      assert forall k :: 0 <= k < |Body(ps)| ==> Body(ps)[k] == value[from + k];
      assert Body(init) == Body(ps)[..|Body(init)|] <= value[from..];
      PiecesStayOpen(value, from, quote, init);
      assert value[mid] == last[0] && (|last| == 2 ==> value[mid + 1] == last[1]);
      assert |last| == 2 ==> Slashes(value, from, mid + 1) == 1 + Slashes(value, from, mid);
      assert |last| == 2 && last[1] == BACKSLASH ==> Slashes(value, from, mid + 2) == 1 + Slashes(value, from, mid + 1);
    }
  }

  /** A closed quoted value is what stands between the quotes, escaped quotes included. */
  lemma QuotedSpan(before: Text, quote: Byte, ps: seq<Text>, rest: Text)
    requires Quote(quote) && Pieces(quote, ps)
    ensures var value := before + [quote] + Body(ps) + [quote] + rest;
            && From(value, |before|) == |before| + 1
            && End(value, |before|) == |before| + 1 + |Body(ps)|
            && After(value, |before|) == |before| + 1 + |Body(ps)| + 1
  {
    var value := before + [quote] + Body(ps) + [quote] + rest;
    var from := |before| + 1;
    assert value[from..] == Body(ps) + ([quote] + rest);
    PiecesStayOpen(value, from, quote, ps);
    assert Quoted(value, |before|) && value[|before|] == quote;
    assert Closes(value, from, quote, from + |Body(ps)|);
    EndUnique(value, |before|, from + |Body(ps)|);
  }

  /** A quoted value that is not closed runs to the end of the input, with a last backslash if there is one. */
  lemma OpenSpan(before: Text, quote: Byte, ps: seq<Text>, dangling: bool)
    requires Quote(quote) && Pieces(quote, ps)
    ensures var value := before + [quote] + Body(ps) + (if dangling then [BACKSLASH] else []);
            && From(value, |before|) == |before| + 1
            && End(value, |before|) == After(value, |before|) == |value|
  {
    var tail := if dangling then [BACKSLASH] else [];
    var value := before + [quote] + Body(ps) + tail;
    var from := |before| + 1;
    assert value[from..] == Body(ps) + tail;
    PiecesStayOpen(value, from, quote, ps);
    assert Quoted(value, |before|) && value[|before|] == quote;
    assert dangling ==> value[from + |Body(ps)|] == BACKSLASH;
    EndUnique(value, |before|, |value|);
  }

  /** Every text after an opening quote is one of the two. */
  lemma QuotedOrOpen(text: Text, quote: Byte) returns (ps: seq<Text>, rest: Text)
    requires Quote(quote)
    ensures Pieces(quote, ps) && text == Body(ps) + rest
    ensures rest == [] || rest == [BACKSLASH] || rest[0] == quote
  {
    ps, rest := [], text;
    while rest != [] && rest != [BACKSLASH] && rest[0] != quote
      invariant Pieces(quote, ps) && text == Body(ps) + rest
      decreases |rest|
    {
      var n := if rest[0] == BACKSLASH then 2 else 1;
      BodySnoc(ps, rest[..n]);
      Rejoin(rest, n);
      Assoc(Body(ps), rest[..n], rest[n..]);
      ps, rest := ps + [rest[..n]], rest[n..];
    }
  }

  // ---- Bare values ------------------------------------------------------------------

  predicate Bare(text: Text) {
    forall i :: 0 <= i < |text| ==> !Delimiter(text[i])
  }

  /** A bare value runs up to the first delimiter or the end of the input. */
  lemma BareSpan(before: Text, bare: Text, rest: Text)
    requires Bare(bare) && (rest != [] ==> Delimiter(rest[0]))
    requires bare == [] && rest != [] ==> !Quote(rest[0])
    ensures var value := before + bare + rest;
            && From(value, |before|) == |before|
            && End(value, |before|) == After(value, |before|) == |before| + |bare|
  {
    var value := before + bare + rest;
    assert |before| < |value| ==> value[|before|] == if bare == [] then rest[0] else bare[0];
    assert !Quoted(value, |before|);
    assert forall j :: |before| <= j < |before| + |bare| ==> value[j] == bare[j - |before|];
    EndUnique(value, |before|, |before| + |bare|);
  }

  // ---- What is written ---------------------------------------------------------------

  /** One match: under a sensitive key the span of the value gives way to its mask, and all else stays. */
  lemma OneMasked(rules: Rules, value: Text, m: Match)
    requires InBounds(value, m)
    ensures var key, from, to := value[m.keyStart..m.keyEnd], From(value, m.end), End(value, m.end);
            Masked(rules, value, [m])
              == if rules.sensitive(key) then value[..from] + MaskedFor(rules, key, value[from..to]) + value[to..] else value
  {
    var taken := Taken(rules, value, [m], 1);
    assert Taken(rules, value, [m], 0) == [];
    assert taken == [rules.sensitive(value[m.keyStart..m.keyEnd])] && taken[..0] == [];
    if taken[0] {
      var e := EditOf(rules, value, m);
      assert Edits(rules, value, [m], taken) == [e] && [e][..0] == [];
      assert Spliced(value, [], e.from) == value[..e.from] && value[e.to..|value|] == value[e.to..];
    } else {
      assert Edits(rules, value, [m], taken) == [] && value[..|value|] == value;
    }
  }

  lemma SpanMasked(rules: Rules, before: Text, secret: Text, after: Text, m: Match)
    requires InBounds(before, m) && rules.sensitive(before[m.keyStart..m.keyEnd])
    requires var value := before + secret + after;
             From(value, m.end) == |before| && End(value, m.end) == |before| + |secret|
    ensures Masked(rules, before + secret + after, [m])
         == before + MaskedFor(rules, before[m.keyStart..m.keyEnd], secret) + after
  {
    var value := before + secret + after;
    SpanIs(value, before, secret, after);
    assert value[m.keyStart..m.keyEnd] == before[m.keyStart..m.keyEnd];
    OneMasked(rules, value, m);
  }

  /** An assignment whose key is matched in the text before the value. */
  predicate Assigns(rules: Rules, before: Text, m: Match) {
    InBounds(before, m) && m.end == |before| && rules.sensitive(before[m.keyStart..m.keyEnd])
  }

  /** `key="secret" rest`: both quotes stay, and all between them is masked. */
  lemma QuotedMasked(rules: Rules, before: Text, m: Match, quote: Byte, ps: seq<Text>, rest: Text)
    requires Assigns(rules, before, m) && Quote(quote) && Pieces(quote, ps)
    ensures Masked(rules, before + [quote] + Body(ps) + [quote] + rest, [m])
         == before + [quote] + MaskedFor(rules, before[m.keyStart..m.keyEnd], Body(ps)) + ([quote] + rest)
  {
    QuotedSpan(before, quote, ps, rest);
    Assoc(before + [quote] + Body(ps), [quote], rest);
    KeyIs(before, [quote], m);
    SpanMasked(rules, before + [quote], Body(ps), [quote] + rest, m);
  }

  /** `key="secret` without a closing quote: nothing of the rest of the input is shown. */
  lemma OpenMasked(rules: Rules, before: Text, m: Match, quote: Byte, ps: seq<Text>, dangling: bool)
    requires Assigns(rules, before, m) && Quote(quote) && Pieces(quote, ps)
    ensures var secret := Body(ps) + (if dangling then [BACKSLASH] else []);
            Masked(rules, before + [quote] + secret, [m])
              == before + [quote] + MaskedFor(rules, before[m.keyStart..m.keyEnd], secret)
  {
    var tail := if dangling then [BACKSLASH] else [];
    OpenSpan(before, quote, ps, dangling);
    Assoc(before + [quote], Body(ps), tail);
    KeyIs(before, [quote], m);
    EmptyConcat(before + [quote] + (Body(ps) + tail));
    EmptyConcat(before + [quote] + MaskedFor(rules, before[m.keyStart..m.keyEnd], Body(ps) + tail));
    SpanMasked(rules, before + [quote], Body(ps) + tail, [], m);
  }

  /** `key=secret,rest`: the value is masked up to the delimiter. */
  lemma BareMasked(rules: Rules, before: Text, m: Match, bare: Text, rest: Text)
    requires Assigns(rules, before, m) && Bare(bare) && (rest != [] ==> Delimiter(rest[0]))
    requires bare == [] && rest != [] ==> !Quote(rest[0])
    ensures Masked(rules, before + bare + rest, [m])
         == before + MaskedFor(rules, before[m.keyStart..m.keyEnd], bare) + rest
  {
    BareSpan(before, bare, rest);
    SpanMasked(rules, before, bare, rest, m);
  }

  lemma SpanIs(value: Text, a: Text, b: Text, c: Text)
    requires value == a + b + c
    ensures value[..|a|] == a && value[|a|..|a| + |b|] == b && value[|a| + |b|..] == c
  {
  }

  lemma KeyIs(before: Text, more: Text, m: Match)
    requires InBounds(before, m)
    ensures InBounds(before + more, m) && (before + more)[m.keyStart..m.keyEnd] == before[m.keyStart..m.keyEnd]
  {
  }
}
