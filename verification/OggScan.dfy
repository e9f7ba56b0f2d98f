/**
The Ogg page scanner that measures Opus audio (common/audio.go): it walks the pages of an Ogg
stream (section 6 of RFC 3533), resynchronizes byte by byte when it is not at a page, and keeps
the largest granule position, which counts samples at 48 kHz (section 4 of RFC 7845).
*/
module OggScan {
  import opened Prelude

  const CAPTURE: seq<Byte> := [79, 103, 103, 83]   // "OggS"
  const HEADER_SIZE := 27
  const SAMPLE_RATE := 48000.0
  const TWO_63 := 0x8000_0000_0000_0000
  const TWO_64 := 0x1_0000_0000_0000_0000

  // ----- numbers -----

  function LittleEndian(bytes: seq<Byte>): nat {
    if bytes == [] then 0 else bytes[0] as int + 256 * LittleEndian(bytes[1..])
  }

  function EncodeLittleEndian(n: nat, width: nat): (bytes: seq<Byte>)
    ensures |bytes| == width
  {
    if width == 0 then [] else [(n % 256) as Byte] + EncodeLittleEndian(n / 256, width - 1)
  }

  function Power256(n: nat): (p: nat)
    ensures p > 0
  {
    if n == 0 then 1 else 256 * Power256(n - 1)
  }

  lemma {:induction false} LittleEndianRoundTrip(n: nat, width: nat)
    requires n < Power256(width)
    ensures LittleEndian(EncodeLittleEndian(n, width)) == n
  {
    if width > 0 {
      LittleEndianRoundTrip(n / 256, width - 1);
      var b := EncodeLittleEndian(n, width);
      assert b[1..] == EncodeLittleEndian(n / 256, width - 1);
    }
  }

  lemma EightBytes()
    ensures Power256(8) == TWO_64
  {
    assert Power256(2) == 0x1_0000;
    assert Power256(4) == 0x1_0000_0000;
    assert Power256(6) == 0x1_0000_0000_0000;
  }

  /** `int64` of an unsigned 64-bit number. */
  function Signed(n: int): int { if n >= TWO_63 then n - TWO_64 else n }

  function Unsigned(n: int): int { if n < 0 then n + TWO_64 else n }

  function Sum(bytes: seq<Byte>): nat {
    if bytes == [] then 0 else Sum(bytes[..|bytes| - 1]) + bytes[|bytes| - 1] as int
  }

  function Max(a: int, b: int): int { if a >= b then a else b }

  // ----- well-formed streams -----

  /** An Ogg page: the fields the scanner skips are kept as bytes. */
  datatype Page = Page(version: Byte, flags: Byte, granule: int, rest: seq<Byte>, segments: seq<Byte>, payload: seq<Byte>)

  predicate WellFormed(p: Page) {
    && -TWO_63 <= p.granule < TWO_63
    && |p.rest| == 12
    && |p.segments| <= 255
    && |p.payload| == Sum(p.segments)
  }

  function Header(p: Page): seq<Byte>
    requires WellFormed(p)
  {
    CAPTURE + [p.version, p.flags] + EncodeLittleEndian(Unsigned(p.granule), 8) + p.rest + [|p.segments| as Byte]
  }

  function EncodePage(p: Page): seq<Byte>
    requires WellFormed(p)
  {
    Header(p) + p.segments + p.payload
  }

  /** A stream is made of pages and of stray bytes between them. */
  datatype Piece = Stray(byte: Byte) | PagePiece(page: Page)

  function EncodePiece(p: Piece): seq<Byte>
    requires p.PagePiece? ==> WellFormed(p.page)
  {
    match p case Stray(b) => [b] case PagePiece(page) => EncodePage(page)
  }

  predicate AllWellFormed(pieces: seq<Piece>) {
    forall i :: 0 <= i < |pieces| && pieces[i].PagePiece? ==> WellFormed(pieces[i].page)
  }

  function Encode(pieces: seq<Piece>): seq<Byte>
    requires AllWellFormed(pieces)
  {
    if pieces == [] then [] else EncodePiece(pieces[0]) + Encode(pieces[1..])
  }

  /** No stray byte starts the capture pattern. */
  predicate Unambiguous(pieces: seq<Piece>)
    requires AllWellFormed(pieces)
  {
    forall i :: 0 <= i < |pieces| && pieces[i].Stray? ==> !(CAPTURE <= Encode(pieces[i..]))
  }

  /** The largest granule position, and at least zero. */
  function MaxGranule(pieces: seq<Piece>): (m: int)
    ensures m >= 0
  {
    if pieces == [] then 0
    else
      var rest := MaxGranule(pieces[1..]);
      if pieces[0].PagePiece? then Max(rest, pieces[0].page.granule) else rest
  }

  // ----- the scan, as a function of what is left to read -----

  /** One turn of the loop. */
  datatype Turn = Stop | Skip | Granule(value: int, length: nat) | LastGranule(value: int)

  predicate Captured(data: seq<Byte>, pos: nat)
    requires pos + 4 <= |data|
  {
    data[pos] == 79 && data[pos + 1] == 103 && data[pos + 2] == 103 && data[pos + 3] == 83
  }

  lemma CapturedIs(data: seq<Byte>, pos: nat)
    requires pos + 4 <= |data|
    ensures Captured(data, pos) <==>
      && data[pos] as int == 'O' as int && data[pos + 1] as int == 'g' as int
      && data[pos + 2] as int == 'g' as int && data[pos + 3] as int == 'S' as int
    ensures Captured(data, pos) <==> CAPTURE <= data[pos..]
  {
  }

  function Word(data: seq<Byte>, at: nat): (n: nat)
    requires at + 8 <= |data|
    ensures n < TWO_64
  {
    data[at] as int + 0x100 * data[at + 1] as int + 0x1_0000 * data[at + 2] as int
    + 0x100_0000 * data[at + 3] as int + 0x1_0000_0000 * data[at + 4] as int
    + 0x100_0000_0000 * data[at + 5] as int + 0x1_0000_0000_0000 * data[at + 6] as int
    + 0x100_0000_0000_0000 * data[at + 7] as int
  }

  function SumOf(data: seq<Byte>, from: nat, to: nat): nat
    requires from <= to <= |data|
  {
    if from == to then 0 else SumOf(data, from, to - 1) + data[to - 1] as int
  }

  function Look(data: seq<Byte>, pos: nat): (t: Turn)
    ensures !t.Stop? ==> pos + HEADER_SIZE <= |data|
    ensures t.Granule? ==> t.length >= HEADER_SIZE
    ensures t.Granule? || t.LastGranule? ==> -TWO_63 <= t.value < TWO_63
  {
    if pos + HEADER_SIZE > |data| then Stop
    else if !Captured(data, pos) then Skip
    else
      var value, table := Signed(Word(data, pos + 6)), pos + HEADER_SIZE;
      var n := data[pos + 26] as int;
      if table + n > |data| then LastGranule(value)
      else Granule(value, HEADER_SIZE + n + SumOf(data, table, table + n))
  }

  /** A page the scanner met. */
  datatype Found = Found(pos: nat, granule: int)

  type Looker = nat -> Turn

  function LookIn(data: seq<Byte>): Looker { (pos: nat) => Look(data, pos) }

  /** Every turn but the last moves on, and none goes on beyond the end. */
  ghost predicate Advances(look: Looker, size: nat) {
    forall p: nat :: (!look(p).Stop? ==> p < size) && (look(p).Granule? ==> look(p).length > 0)
  }

  /** The pages met from a position on. */
  ghost function Walk(look: Looker, size: nat, pos: nat): seq<Found>
    requires Advances(look, size)
    decreases size - pos
  {
    match look(pos)
    case Stop => []
    case Skip => Walk(look, size, pos + 1)
    case LastGranule(value) => [Found(pos, value)]
    case Granule(value, length) => [Found(pos, value)] + Walk(look, size, pos + length)
  }

  ghost function Pages(data: seq<Byte>): seq<Found> {
    assert forall p: nat :: LookIn(data)(p) == Look(data, p);
    Walk(LookIn(data), |data|, 0)
  }

  /** The largest granule position of some pages, starting from one already known. */
  function Largest(best: int, pages: seq<Found>): (r: int)
    ensures best <= r && (r == best || exists i :: 0 <= i < |pages| && pages[i].granule == r)
    ensures forall i :: 0 <= i < |pages| ==> pages[i].granule <= r
    decreases |pages|
  {
    if pages == [] then best
    else
      var rest := Largest(Max(best, pages[0].granule), pages[1..]);
      assert forall i :: 1 <= i < |pages| ==> pages[i] == pages[1..][i - 1];
      rest
  }

  // ----- the scanner -----

  /** Reads the page header and the segment table at a position. A read at the end of the stream
      finds nothing, also when a seek went past the end. */
  method ReadPage(data: seq<Byte>, start: nat) returns (turn: Turn)
    ensures turn == Look(data, start)
  {
    if start >= |data| {
      return Stop;
    }
    var pos := start;
    var n := if |data| - pos < HEADER_SIZE then |data| - pos else HEADER_SIZE;
    var buf := data[pos..pos + n];
    pos := pos + n;
    if n < HEADER_SIZE {
      return Stop;
    }
    if !Captured(buf, 0) {
      return Skip;
    }
    var granulePos := Signed(Word(buf, 6));
    var numSegments := buf[26] as int;
    if |data| - pos < numSegments {
      return LastGranule(granulePos);
    }
    var segmentTable := data[pos..pos + numSegments];
    var pageSize := 0;
    for i := 0 to |segmentTable|
      invariant pageSize == SumOf(data, pos, pos + i)
    {
      pageSize := pageSize + segmentTable[i] as int;
    }
    return Granule(granulePos, HEADER_SIZE + numSegments + pageSize);
  }

  /** The scan loop: every turn moves on by at least one byte. */
  method GetOpusDuration(data: seq<Byte>) returns (totalGranulePos: int, duration: real)
    ensures totalGranulePos == Largest(0, Pages(data))
    ensures duration * 48000.0 == totalGranulePos as real
  {
    totalGranulePos := 0;
    var pos := 0;
    ghost var look := LookIn(data);
    assert forall p: nat :: look(p) == Look(data, p);
    while true
      invariant pos >= 0
      invariant Largest(totalGranulePos, Walk(look, |data|, pos)) == Largest(0, Pages(data))
      decreases |data| - pos
    {
      var turn := ReadPage(data, pos);
      if turn.Stop? {
        break;
      }
      if turn.Skip? {
        pos := pos + HEADER_SIZE - 26;
        continue;
      }
      if turn.value > totalGranulePos {
        totalGranulePos := turn.value;
      }
      if turn.LastGranule? {
        break;
      }
      pos := pos + turn.length;
    }
    duration := totalGranulePos as real / SAMPLE_RATE;
  }

  // ----- on well-formed streams -----

  lemma SignedRoundTrip(n: int)
    requires -TWO_63 <= n < TWO_63
    ensures 0 <= Unsigned(n) < Power256(8) && Signed(Unsigned(n)) == n
  {
    EightBytes();
  }

  /** The fields of a page lie where the scanner reads them. */
  lemma HeaderFields(p: Page)
    requires WellFormed(p)
    ensures |Header(p)| == HEADER_SIZE && Captured(Header(p), 0)
    ensures Header(p)[6..14] == EncodeLittleEndian(Unsigned(p.granule), 8)
    ensures Header(p)[26] as int == |p.segments|
  {
  }

  lemma WordIsLittleEndian(data: seq<Byte>)
    requires |data| == 8
    ensures Word(data, 0) == LittleEndian(data)
  {
    assert data[1..][1..] == data[2..] && data[2..][1..] == data[3..] && data[3..][1..] == data[4..];
    assert data[4..][1..] == data[5..] && data[5..][1..] == data[6..] && data[6..][1..] == data[7..];
    assert LittleEndian(data[7..]) == data[7] as int;
    assert LittleEndian(data[6..]) == data[6] as int + 256 * LittleEndian(data[7..]);
    assert LittleEndian(data[5..]) == data[5] as int + 256 * LittleEndian(data[6..]);
    assert LittleEndian(data[4..]) == data[4] as int + 256 * LittleEndian(data[5..]);
    assert LittleEndian(data[3..]) == data[3] as int + 256 * LittleEndian(data[4..]);
    assert LittleEndian(data[2..]) == data[2] as int + 256 * LittleEndian(data[3..]);
    assert LittleEndian(data[1..]) == data[1] as int + 256 * LittleEndian(data[2..]);
  }

  lemma GranuleRead(p: Page)
    requires WellFormed(p)
    ensures |Header(p)| == HEADER_SIZE && Signed(Word(Header(p), 6)) == p.granule
  {
    var field := EncodeLittleEndian(Unsigned(p.granule), 8);
    HeaderFields(p);
    assert forall i :: 0 <= i < 8 ==> Header(p)[6..14][i] == Header(p)[6 + i];
    assert Word(Header(p), 6) == Word(field, 0);
    WordIsLittleEndian(field);
    SignedRoundTrip(p.granule);
    LittleEndianRoundTrip(Unsigned(p.granule), 8);
  }

  lemma {:induction false} SumRead(data: seq<Byte>, at: nat, table: seq<Byte>, n: nat)
    requires at + |table| <= |data| && n <= |table|
    requires forall i :: 0 <= i < |table| ==> data[at + i] == table[i]
    ensures SumOf(data, at, at + n) == Sum(table[..n])
  {
    if n > 0 {
      SumRead(data, at, table, n - 1);
      assert table[..n][..n - 1] == table[..n - 1];
    }
  }

  ghost predicate LiesAt(data: seq<Byte>, pos: nat, part: seq<Byte>) {
    pos + |part| <= |data| && forall i :: 0 <= i < |part| ==> data[pos + i] == part[i]
  }

  lemma LookHeader(data: seq<Byte>, pos: nat, p: Page)
    requires WellFormed(p) && LiesAt(data, pos, Header(p))
    ensures |Header(p)| == HEADER_SIZE && Captured(data, pos)
    ensures Signed(Word(data, pos + 6)) == p.granule && data[pos + 26] as int == |p.segments|
  {
    HeaderFields(p);
    GranuleRead(p);
    var h := Header(p);
    assert forall i :: 6 <= i < 14 ==> data[pos + i] == h[i];
    assert Word(data, pos + 6) == Word(h, 6);
  }

  lemma LiesInParts(data: seq<Byte>, pos: nat, a: seq<Byte>, b: seq<Byte>, c: seq<Byte>)
    requires LiesAt(data, pos, a + b + c)
    ensures LiesAt(data, pos, a) && LiesAt(data, pos + |a|, b)
  {
    var all := a + b + c;
    assert forall i :: 0 <= i < |a| ==> all[i] == a[i];
    forall i | 0 <= i < |b|
      ensures data[pos + |a| + i] == b[i]
    {
      assert all[|a| + i] == b[i];
      assert data[pos + (|a| + i)] == all[|a| + i];
    }
  }

  /** Where a page lies in the data, the scanner reads its granule position and its length. */
  lemma LookPage(data: seq<Byte>, pos: nat, p: Page)
    requires WellFormed(p) && LiesAt(data, pos, EncodePage(p))
    ensures Look(data, pos) == Granule(p.granule, |EncodePage(p)|)
  {
    LiesInParts(data, pos, Header(p), p.segments, p.payload);
    LookHeader(data, pos, p);
    SumRead(data, pos + HEADER_SIZE, p.segments, |p.segments|);
    assert p.segments[..|p.segments|] == p.segments;
  }

  /** A last page whose segment table is cut off still tells its granule position, and ends the scan. */
  lemma CutPageRead(data: seq<Byte>, pos: nat, p: Page, part: seq<Byte>)
    requires WellFormed(p) && part < p.segments && pos <= |data| && data[pos..] == Header(p) + part
    ensures Look(data, pos) == LastGranule(p.granule)
    ensures Advances(LookIn(data), |data|) && Walk(LookIn(data), |data|, pos) == [Found(pos, p.granule)]
  {
    assert forall i :: 0 <= i < |Header(p)| ==> data[pos + i] == data[pos..][i];
    LookHeader(data, pos, p);
    assert LookIn(data)(pos) == Look(data, pos);
  }

  /** The pages of a stream and where they start. */
  function Laid(pieces: seq<Piece>, pos: nat): seq<Found>
    requires AllWellFormed(pieces)
  {
    if pieces == [] then []
    else
      var rest := Laid(pieces[1..], pos + |EncodePiece(pieces[0])|);
      if pieces[0].PagePiece? then [Found(pos, pieces[0].page.granule)] + rest else rest
  }

  lemma {:induction false} ShortHasNoPages(pieces: seq<Piece>, pos: nat)
    requires AllWellFormed(pieces) && |Encode(pieces)| < HEADER_SIZE
    ensures Laid(pieces, pos) == []
  {
    if pieces != [] {
      if pieces[0].PagePiece? {
        HeaderFields(pieces[0].page);
        assert false;
      }
      ShortHasNoPages(pieces[1..], pos + 1);
    }
  }

  lemma TailPieces(pieces: seq<Piece>)
    requires pieces != [] && AllWellFormed(pieces) && Unambiguous(pieces)
    ensures AllWellFormed(pieces[1..]) && Unambiguous(pieces[1..])
  {
    forall i | 0 <= i < |pieces[1..]| && pieces[1..][i].Stray?
      ensures !(CAPTURE <= Encode(pieces[1..][i..]))
    {
      assert pieces[1..][i..] == pieces[i + 1..];
    }
  }

  /** The bytes from a position on are those of a list of pieces. */
  ghost predicate Holds(data: seq<Byte>, pos: nat, pieces: seq<Piece>)
    requires AllWellFormed(pieces)
  {
    pos <= |data| && data[pos..] == Encode(pieces)
  }

  lemma HoldsNext(data: seq<Byte>, pos: nat, pieces: seq<Piece>)
    requires pieces != [] && AllWellFormed(pieces) && Holds(data, pos, pieces)
    ensures LiesAt(data, pos, EncodePiece(pieces[0]))
    ensures Holds(data, pos + |EncodePiece(pieces[0])|, pieces[1..])
  {
    var first, rest, here := EncodePiece(pieces[0]), Encode(pieces[1..]), data[pos..];
    assert here == first + rest;
    assert forall i :: 0 <= i < |first| ==> data[pos + i] == here[i];
    assert data[pos + |first|..] == here[|first|..] == rest;
  }

  lemma LookStray(data: seq<Byte>, pos: nat, pieces: seq<Piece>)
    requires pieces != [] && AllWellFormed(pieces) && Unambiguous(pieces) && Holds(data, pos, pieces)
    requires pieces[0].Stray?
    ensures Look(data, pos) == Skip || (Look(data, pos) == Stop && |Encode(pieces)| < HEADER_SIZE)
  {
    assert pieces[0..] == pieces;
    if pos + HEADER_SIZE <= |data| {
      CapturedIsPrefix(data, pos);
    }
  }

  lemma CapturedIsPrefix(data: seq<Byte>, pos: nat)
    requires pos + 4 <= |data|
    ensures Captured(data, pos) <==> CAPTURE <= data[pos..]
  {
    var here := data[pos..];
    assert here[0] == data[pos] && here[1] == data[pos + 1] && here[2] == data[pos + 2] && here[3] == data[pos + 3];
    assert CAPTURE[0] == 79 && CAPTURE[1] == 103 && CAPTURE[2] == 103 && CAPTURE[3] == 83;
  }

  /** At every piece the scanner sees what is there. */
  ghost predicate Sees(look: Looker, pos: nat, pieces: seq<Piece>)
    requires AllWellFormed(pieces)
    decreases |pieces|
  {
    if pieces == [] then look(pos).Stop?
    else
      var next := pos + |EncodePiece(pieces[0])|;
      || (look(pos).Stop? && Laid(pieces, pos) == [])
      || (pieces[0].Stray? && look(pos).Skip? && Sees(look, next, pieces[1..]))
      || (pieces[0].PagePiece? && look(pos) == Granule(pieces[0].page.granule, next - pos) && Sees(look, next, pieces[1..]))
  }

  lemma {:induction false} SeesPieces(data: seq<Byte>, pos: nat, pieces: seq<Piece>)
    requires AllWellFormed(pieces) && Unambiguous(pieces) && Holds(data, pos, pieces)
    ensures Sees(LookIn(data), pos, pieces)
    decreases |pieces|
  {
    if pieces != [] {
      TailPieces(pieces);
      HoldsNext(data, pos, pieces);
      if pieces[0].PagePiece? {
        LookPage(data, pos, pieces[0].page);
        assert LookIn(data)(pos) == Granule(pieces[0].page.granule, |EncodePiece(pieces[0])|);
        SeesPieces(data, pos + |EncodePiece(pieces[0])|, pieces[1..]);
      } else {
        LookStray(data, pos, pieces);
        if Look(data, pos).Stop? {
          ShortHasNoPages(pieces, pos);
        } else {
          SeesPieces(data, pos + 1, pieces[1..]);
        }
      }
    }
  }

  lemma WalkFirst(look: Looker, size: nat, pos: nat, pieces: seq<Piece>)
    requires Advances(look, size) && pieces != [] && AllWellFormed(pieces)
    requires Sees(look, pos, pieces) && !look(pos).Stop?
    requires var next := pos + |EncodePiece(pieces[0])|; Walk(look, size, next) == Laid(pieces[1..], next)
    ensures Walk(look, size, pos) == Laid(pieces, pos)
  {
    if pieces[0].PagePiece? {
      assert look(pos).Granule?;
    } else {
      assert look(pos).Skip?;
    }
  }

  lemma {:induction false} WalkPieces(look: Looker, size: nat, pos: nat, pieces: seq<Piece>)
    requires Advances(look, size) && AllWellFormed(pieces) && Sees(look, pos, pieces)
    ensures Walk(look, size, pos) == Laid(pieces, pos)
    decreases |pieces|
  {
    if pieces != [] && !look(pos).Stop? {
      WalkPieces(look, size, pos + |EncodePiece(pieces[0])|, pieces[1..]);
      WalkFirst(look, size, pos, pieces);
    }
  }

  lemma {:induction false} LargestLaid(pieces: seq<Piece>, pos: nat, best: int)
    requires AllWellFormed(pieces) && best >= 0
    ensures Largest(best, Laid(pieces, pos)) == Max(best, MaxGranule(pieces))
    decreases |pieces|
  {
    if pieces != [] {
      var next := pos + |EncodePiece(pieces[0])|;
      if pieces[0].PagePiece? {
        LargestLaid(pieces[1..], next, Max(best, pieces[0].page.granule));
        assert Laid(pieces, pos)[1..] == Laid(pieces[1..], next);
      } else {
        LargestLaid(pieces[1..], next, best);
        assert Laid(pieces, pos) == Laid(pieces[1..], next);
      }
    }
  }

  /** On pages with any stray bytes between them that do not start a capture pattern, the scanner
      lands exactly on the page starts, reads each granule position and keeps the largest. */
  lemma ScanCorrect(pieces: seq<Piece>)
    requires AllWellFormed(pieces) && Unambiguous(pieces)
    ensures Pages(Encode(pieces)) == Laid(pieces, 0)
    ensures Largest(0, Pages(Encode(pieces))) == MaxGranule(pieces)
  {
    var data := Encode(pieces);
    assert data[0..] == data;
    SeesPieces(data, 0, pieces);
    assert forall p: nat :: LookIn(data)(p) == Look(data, p);
    WalkPieces(LookIn(data), |data|, 0, pieces);
    LargestLaid(pieces, 0, 0);
  }

  /** A plain concatenation of pages has no stray bytes at all. */
  lemma PagesOnly(pages: seq<Page>)
    requires forall i :: 0 <= i < |pages| ==> WellFormed(pages[i])
    ensures var pieces := seq(|pages|, i requires 0 <= i < |pages| => PagePiece(pages[i]));
            AllWellFormed(pieces) && Unambiguous(pieces) && Largest(0, Pages(Encode(pieces))) == MaxGranule(pieces)
  {
    ScanCorrect(seq(|pages|, i requires 0 <= i < |pages| => PagePiece(pages[i])));
  }
}
