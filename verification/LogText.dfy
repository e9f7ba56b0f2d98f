// Text of one request-log field: cutting a string to a byte limit without
// splitting a character, writing it on one line, and marking what was cut
// (common/request_log.go).

module LogText {

  import opened Prelude
  import Utf8

  type Text = seq<Byte>

  const LF: Byte := 10
  const CR: Byte := 13
  const ESCAPED_LF: Text := [92, 110]
  const ESCAPED_CR: Text := [92, 114]

  predicate Printable(s: Text) {
    forall i :: 0 <= i < |s| ==> 32 <= s[i] < 127
  }

  /** The bytes of a literal, all of them printable ASCII. */
  function Ascii(s: string): (r: Text)
    ensures |r| == |s| && Printable(r)
  {
    seq(|s|, i requires 0 <= i < |s| => if 32 <= s[i] as int < 127 then s[i] as int as Byte else 63)
  }

  predicate OneLine(s: Text) {
    forall i :: 0 <= i < |s| ==> s[i] != CR && s[i] != LF
  }

  // ---- One line -------------------------------------------------------------------

  /** strings.ReplaceAll for a one-byte pattern. */
  function ReplaceByte(s: Text, b: Byte, with: Text): Text {
    if s == [] then []
    else ReplaceByte(s[..|s| - 1], b, with) + (if s[|s| - 1] == b then with else [s[|s| - 1]])
  }

  function SingleLine(s: Text): Text {
    ReplaceByte(ReplaceByte(s, CR, ESCAPED_CR), LF, ESCAPED_LF)
  }

  /** What one byte becomes. */
  function Escape(b: Byte): (r: Text)
    ensures OneLine(r) && 1 <= |r| <= 2
    ensures r == [b] || ((b == CR || b == LF) && |r| == 2)
  {
    if b == CR then ESCAPED_CR else if b == LF then ESCAPED_LF else [b]
  }

  /** The reference: every byte escaped by itself, in order. */
  function EscapeAll(s: Text): Text {
    if s == [] then [] else EscapeAll(s[..|s| - 1]) + Escape(s[|s| - 1])
  }

  lemma ReplaceSnoc(s: Text, x: Byte, b: Byte, with: Text)
    ensures ReplaceByte(s + [x], b, with) == ReplaceByte(s, b, with) + (if x == b then with else [x])
  {
    assert (s + [x])[..|s|] == s;
  }

  lemma ReplaceTwo(s: Text, x: Byte, y: Byte, b: Byte, with: Text)
    requires x != b && y != b
    ensures ReplaceByte(s + [x, y], b, with) == ReplaceByte(s, b, with) + [x, y]
  {
    assert s + [x, y] == (s + [x]) + [y];
    ReplaceSnoc(s, x, b, with);
    ReplaceSnoc(s + [x], y, b, with);
    Assoc(ReplaceByte(s, b, with), [x], [y]);
  }

  /** Replacing the carriage returns and then the newlines escapes each byte once. */
  lemma {:induction false} SingleLineIsEscapeAll(s: Text)
    ensures SingleLine(s) == EscapeAll(s)
  {
    if s != [] {
      var init, x := s[..|s| - 1], s[|s| - 1];
      SingleLineIsEscapeAll(init);
      var once := ReplaceByte(init, CR, ESCAPED_CR);
      if x == CR {
        ReplaceTwo(once, 92, 114, LF, ESCAPED_LF);
      } else {
        ReplaceSnoc(once, x, LF, ESCAPED_LF);
      }
    }
  }

  lemma {:induction false} EscapeAllConcat(a: Text, b: Text)
    ensures EscapeAll(a + b) == EscapeAll(a) + EscapeAll(b)
  {
    if b == [] {
      EmptyConcat(a);
      EmptyConcat(EscapeAll(a));
    } else {
      var init := b[..|b| - 1];
      assert (a + b)[..|a + b| - 1] == a + init;
      EscapeAllConcat(a, init);
      Assoc(EscapeAll(a), EscapeAll(init), Escape(b[|b| - 1]));
    }
  }

  lemma EscapeSplit(s: Text, n: nat)
    requires n <= |s|
    ensures EscapeAll(s) == EscapeAll(s[..n]) + EscapeAll(s[n..])
  {
    Rejoin(s, n);
    EscapeAllConcat(s[..n], s[n..]);
  }

  lemma {:induction false} EscapeAllLength(s: Text)
    ensures OneLine(EscapeAll(s))
    ensures |s| <= |EscapeAll(s)| <= 2 * |s|
  {
    if s != [] {
      EscapeAllLength(s[..|s| - 1]);
    }
  }

  lemma {:induction false} EscapeAllSame(s: Text)
    requires OneLine(s)
    ensures EscapeAll(s) == s
  {
    if s != [] {
      InitLast(s);
      EscapeAllSame(s[..|s| - 1]);
    }
  }

  /** The result is one line of at most twice the length, and the input itself exactly when that was one line. */
  lemma SingleLineShape(s: Text)
    ensures OneLine(SingleLine(s))
    ensures |s| <= |SingleLine(s)| <= 2 * |s|
    ensures SingleLine(s) == s <==> OneLine(s)
  {
    SingleLineIsEscapeAll(s);
    EscapeAllLength(s);
    if OneLine(s) {
      EscapeAllSame(s);
    }
  }

  lemma SingleLineTwice(s: Text)
    ensures SingleLine(SingleLine(s)) == SingleLine(s)
  {
    SingleLineShape(s);
    SingleLineShape(SingleLine(s));
  }

  lemma EscapeFirst(s: Text)
    requires Utf8.FirstLength(s) > 0
    ensures Utf8.Valid(EscapeAll(s[..Utf8.FirstLength(s)]))
  {
    var n := Utf8.FirstLength(s);
    var first := s[..n];
    if n == 1 {
      assert EscapeAll(first) == Escape(first[0]);
      AsciiIsValid(Escape(first[0]));
    } else {
      FirstIsOneLine(s);
      EscapeAllSame(first);
      Utf8.FirstIsValid(s);
    }
  }

  lemma FirstIsOneLine(s: Text)
    requires Utf8.FirstLength(s) > 1
    ensures OneLine(s[..Utf8.FirstLength(s)])
  {
  }

  lemma {:induction false} AsciiIsValid(s: Text)
    requires forall i :: 0 <= i < |s| ==> s[i] < 128
    ensures Utf8.Valid(s)
  {
    if s != [] {
      AsciiIsValid(s[1..]);
    }
  }

  /** Escaping never breaks a character apart. */
  lemma {:induction false} SingleLineKeepsValid(s: Text)
    requires Utf8.Valid(s)
    ensures Utf8.Valid(EscapeAll(s))
    decreases |s|
  {
    if s != [] {
      var n := Utf8.FirstLength(s);
      SingleLineKeepsValid(s[n..]);
      EscapeFirst(s);
      EscapeSplit(s, n);
      Utf8.ValidConcat(EscapeAll(s[..n]), EscapeAll(s[n..]));
    }
  }

  // ---- Cutting --------------------------------------------------------------------

  /** The last position up to the limit where the text before it is valid. */
  ghost function Cut(value: Text, limit: nat): nat
    requires limit <= |value|
  {
    if limit == 0 || Utf8.Valid(value[..limit]) then limit else Cut(value, limit - 1)
  }

  ghost function Truncated(value: Text, limit: int): Text {
    if |value| <= limit then value
    else if limit <= 0 then []
    else value[..CutWithin(value, limit)]
  }

  ghost function CutWithin(value: Text, limit: nat): (cut: nat)
    requires limit <= |value|
    ensures cut <= limit
  {
    CutLongest(value, limit);
    Cut(value, limit)
  }

  lemma {:induction false} CutLongest(value: Text, limit: nat)
    requires limit <= |value|
    ensures Cut(value, limit) <= limit && Utf8.Valid(value[..Cut(value, limit)])
    ensures forall n :: Cut(value, limit) < n <= limit ==> !Utf8.Valid(value[..n])
  {
    if limit > 0 && !Utf8.Valid(value[..limit]) {
      CutLongest(value, limit - 1);
    }
  }

  method TruncateUtf8(value: Text, limit: int) returns (r: Text)
    ensures r == Truncated(value, limit)
  {
    if |value| <= limit {
      return value;
    }
    if limit <= 0 {
      return [];
    }
    var n: nat := limit;
    while n > 0 && !Utf8.Valid(value[..n])
      invariant n <= limit && Cut(value, n) == Cut(value, limit)
    {
      n := n - 1;
    }
    r := value[..n];
  }

  /** A text over the limit is cut to its longest valid prefix within the limit. */
  lemma TruncatedLongest(value: Text, limit: int)
    requires |value| > limit
    ensures var r := Truncated(value, limit);
            r <= value && Utf8.Valid(r) && (|r| <= limit || r == [])
    ensures forall n :: |Truncated(value, limit)| < n <= limit ==> !Utf8.Valid(value[..n])
  {
    if limit > 0 {
      CutLongest(value, limit);
    }
  }

  /** On valid text the cut loses at most three bytes of the limit. */
  lemma TruncatedNearLimit(value: Text, limit: nat)
    requires Utf8.Valid(value)
    ensures Utf8.Valid(Truncated(value, limit))
    ensures |value| > limit ==> limit - 3 <= |Truncated(value, limit)| <= limit
  {
    if |value| > limit {
      TruncatedLongest(value, limit);
      var m := Utf8.BoundaryNear(value, limit);
    }
  }

  /** A four-byte character just over the limit does cost three bytes. */
  lemma ThreeBytesLost(value: Text)
    requires |value| == 4 && Utf8.FirstLength(value) == 4
    ensures Utf8.Valid(value) && Truncated(value, 3) == []
  {
    TruncatedLongest(value, 3);
    assert forall n :: 0 < n <= 3 ==> Utf8.FirstLength(value[..n]) == 0;
  }

  // ---- Bounded fields --------------------------------------------------------------

  const CUT := Ascii("... [truncated, original_length=")
  const LIMIT := Ascii(", limit=")
  const CLOSE := Ascii("]")

  function Signed(n: int): (r: Text)
    ensures Printable(r)
  {
    if n < 0 then Ascii("-") + Decimal(-n) else Decimal(n)
  }

  /** A limit can be read back from the mark, its sign included. */
  lemma SignedReadBack(n: int)
    ensures n >= 0 ==> Numeral(Signed(n)) == n
    ensures n < 0 ==> Signed(n)[0] as int == '-' as int && Numeral(Signed(n)[1..]) == -n
  {
    if n < 0 {
      MinusSign(Decimal(-n));
      DecimalReadBack(-n);
    } else {
      DecimalReadBack(n);
    }
  }

  lemma MinusSign(digits: Text)
    ensures (Ascii("-") + digits)[0] as int == '-' as int && (Ascii("-") + digits)[1..] == digits
  {
  }

  /** The mark of a truncated string. */
  function LengthMark(length: nat): (r: Text)
    ensures Printable(r)
  {
    CUT + Decimal(length) + CLOSE
  }

  /** The mark of truncated content. */
  function LimitMark(length: nat, limit: int): (r: Text)
    ensures Printable(r)
  {
    CUT + Decimal(length) + LIMIT + Signed(limit) + CLOSE
  }

  ghost function Bounded(content: Text, limit: int, mark: Text): Text {
    if |content| <= limit then SingleLine(content) else SingleLine(Truncated(content, limit)) + mark
  }

  method BoundedContent(content: Text, limit: int) returns (r: Text)
    ensures r == Bounded(content, limit, LimitMark(|content|, limit))
  {
    if |content| <= limit {
      return SingleLine(content);
    }
    var prefix := TruncateUtf8(content, limit);
    r := SingleLine(prefix) + LimitMark(|content|, limit);
  }

  method TruncateString(value: Text, limit: int) returns (r: Text)
    ensures r == Bounded(value, limit, LengthMark(|value|))
  {
    if |value| <= limit {
      return SingleLine(value);
    }
    var prefix := TruncateUtf8(value, limit);
    r := SingleLine(prefix) + LengthMark(|value|);
  }

  /** A bounded field is one line of at most twice the limit plus its mark, and stays valid. */
  lemma BoundedShape(content: Text, limit: nat, mark: Text)
    requires Printable(mark)
    ensures var r := Bounded(content, limit, mark);
            && OneLine(r)
            && |r| <= 2 * limit + (if |content| <= limit then 0 else |mark|)
            && SingleLine(Truncated(content, limit)) <= r
    ensures Utf8.Valid(content) ==> Utf8.Valid(Bounded(content, limit, mark))
  {
    var kept := Truncated(content, limit);
    SingleLineShape(kept);
    if |content| > limit {
      TruncatedLongest(content, limit);
    }
    if Utf8.Valid(content) {
      AsciiIsValid(mark);
      SingleLineIsEscapeAll(kept);
      TruncatedNearLimit(content, limit);
      SingleLineKeepsValid(kept);
      Utf8.ValidConcat(SingleLine(kept), mark);
    }
  }

  /** Content within the limit is shown on one line; longer content is cut, and the mark tells how long it was. */
  lemma BoundedTells(content: Text, limit: int)
    ensures |content| <= limit ==>
      Bounded(content, limit, LengthMark(|content|)) == Bounded(content, limit, LimitMark(|content|, limit)) == SingleLine(content)
    ensures |content| > limit ==>
      && Bounded(content, limit, LengthMark(|content|)) == SingleLine(Truncated(content, limit))
           + (Ascii("... [truncated, original_length=") + Decimal(|content|) + Ascii("]"))
      && Bounded(content, limit, LimitMark(|content|, limit)) == SingleLine(Truncated(content, limit))
           + (Ascii("... [truncated, original_length=") + Decimal(|content|) + Ascii(", limit=") + Signed(limit) + Ascii("]"))
  {
  }

  /** A line break is written as a backslash and a letter. */
  lemma BreaksEscaped()
    ensures EscapeAll([13]) == Ascii("\\r") && EscapeAll([10]) == Ascii("\\n")
    ensures forall b: Byte :: b != 13 && b != 10 ==> Escape(b) == [b]
  {
    assert [13 as Byte][..0] == [] && [10 as Byte][..0] == [];
    assert Ascii("\\r") == [92, 114] && Ascii("\\n") == [92, 110];
  }
}
