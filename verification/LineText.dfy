/**
Byte strings as lines: cutting at newlines, joining, trimming. Go strings are byte strings.
*/
module LineText {
  import opened Prelude

  const NEWLINE: Byte := 10

  // ----- bytes to lines -----

  /** `bytes.IndexByte`. */
  function IndexOf(data: seq<Byte>, b: Byte): (n: int)
    ensures -1 <= n < |data|
    ensures n < 0 ==> b !in data
    ensures 0 <= n ==> data[n] == b && b !in data[..n]
  {
    if data == [] then -1
    else if data[0] == b then 0
    else
      var n := IndexOf(data[1..], b);
      if n < 0 then -1 else assert data[..n + 1] == [data[0]] + data[1..][..n]; n + 1
  }

  /** The bytes before the first newline and those after it. */
  function NextLine(data: seq<Byte>): (r: Option<(seq<Byte>, seq<Byte>)>)
    ensures r.None? <==> NEWLINE !in data
    ensures r.Some? ==> data == r.value.0 + [NEWLINE] + r.value.1 && NEWLINE !in r.value.0
  {
    var n := IndexOf(data, NEWLINE);
    if n < 0 then None else CutAt(data, n); Some((data[..n], data[n + 1..]))
  }

  /** The complete lines of a byte stream, without their newlines. */
  function Lines(data: seq<Byte>): seq<seq<Byte>> {
    if data == [] then []
    else
      var k := |data| - 1;
      if data[k] == NEWLINE then Lines(data[..k]) + [Rest(data[..k])] else Lines(data[..k])
  }

  /** What follows the last newline. */
  function Rest(data: seq<Byte>): seq<Byte> {
    if data == [] then []
    else
      var k := |data| - 1;
      if data[k] == NEWLINE then [] else Rest(data[..k]) + [data[k]]
  }

  // ----- lines: the cut is exact and does not depend on chunking -----

  function Unlines(lines: seq<seq<Byte>>): seq<Byte> {
    if lines == [] then [] else Unlines(lines[..|lines| - 1]) + (lines[|lines| - 1] + [NEWLINE])
  }

  lemma {:induction false} LinesRoundTrip(data: seq<Byte>)
    ensures Unlines(Lines(data)) + Rest(data) == data
    ensures 10 !in Rest(data)
    ensures forall i :: 0 <= i < |Lines(data)| ==> 10 !in Lines(data)[i]
  {
    if data != [] {
      var k := |data| - 1;
      LinesRoundTrip(data[..k]);
      assert data == data[..k] + [data[k]];
    }
  }

  lemma {:induction false} LinesConcat(a: seq<Byte>, b: seq<Byte>)
    ensures Lines(a + b) == Lines(a) + Lines(Rest(a) + b)
    ensures Rest(a + b) == Rest(Rest(a) + b)
  {
    if b == [] {
      assert a + b == a && Rest(a) + b == Rest(a);
      NoNewline(a);
    } else {
      var k := |b| - 1;
      assert (a + b)[..|a + b| - 1] == a + b[..k];
      assert (Rest(a) + b)[..|Rest(a) + b| - 1] == Rest(a) + b[..k];
      LinesConcat(a, b[..k]);
    }
  }

  lemma NoNewline(a: seq<Byte>)
    ensures Lines(Rest(a)) == [] && Rest(Rest(a)) == Rest(a)
  {
    LinesRoundTrip(a);
    Unbroken(Rest(a));
  }

  lemma {:induction false} Unbroken(a: seq<Byte>)
    requires NEWLINE !in a
    ensures Lines(a) == [] && Rest(a) == a
  {
    if a != [] {
      var k := |a| - 1;
      Unbroken(a[..k]);
      assert a == a[..k] + [a[k]];
    }
  }

  lemma ConcatAtBreak(a: seq<Byte>, b: seq<Byte>)
    requires Rest(a) == []
    ensures Lines(a + b) == Lines(a) + Lines(b)
    ensures Rest(a + b) == Rest(b)
  {
    LinesConcat(a, b);
    assert [] + b == b;
  }

  lemma OneLine(line: seq<Byte>)
    requires NEWLINE !in line
    ensures Lines(line + [NEWLINE]) == [line] && Rest(line + [NEWLINE]) == []
  {
    assert (line + [NEWLINE])[..|line|] == line;
    Unbroken(line);
  }

  /** One turn of the reading loop takes the first line off. */
  lemma FirstLine(line: seq<Byte>, tail: seq<Byte>)
    requires NEWLINE !in line
    ensures Lines(line + [NEWLINE] + tail) == [line] + Lines(tail)
    ensures Rest(line + [NEWLINE] + tail) == Rest(tail)
  {
    OneLine(line);
    ConcatAtBreak(line + [NEWLINE], tail);
  }

  lemma {:induction false} WholeLines(lines: seq<seq<Byte>>)
    requires forall i :: 0 <= i < |lines| ==> NEWLINE !in lines[i]
    ensures Lines(Unlines(lines)) == lines && Rest(Unlines(lines)) == []
  {
    if lines != [] {
      var k := |lines| - 1;
      WholeLines(lines[..k]);
      OneLine(lines[k]);
      ConcatAtBreak(Unlines(lines[..k]), lines[k] + [NEWLINE]);
      assert lines == lines[..k] + [lines[k]];
    }
  }

}
