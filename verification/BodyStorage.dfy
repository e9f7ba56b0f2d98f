// Request-body storage (common/body_storage.go): a body kept in memory or in a
// temporary file, both behind one reader with a cursor, and the choice between
// the two when a body arrives.

module BodyStorage {

  import opened Prelude
  import opened CacheStats

  // ---- One body, whatever holds it -------------------------------------------------

  datatype Body = Body(content: seq<Byte>, cursor: nat, closed: bool)

  datatype Whence = FromStart | FromCursor | FromEnd

  datatype ReadResult = Data(bytes: seq<Byte>) | EndOfBody | ReadClosed

  datatype SeekResult = At(position: nat) | NegativePosition | SeekClosed

  datatype BytesResult = Whole(bytes: seq<Byte>) | BytesClosed

  function Least(a: nat, b: nat): nat {
    if a < b then a else b
  }

  /** What a read of up to n bytes finds. An empty read at the end is the one case the holders
      answer differently. */
  function ReadOf(b: Body, n: nat, emptyReadEnds: bool): ReadResult {
    if b.closed then ReadClosed
    else if b.cursor < |b.content| then Data(b.content[b.cursor..Least(b.cursor + n, |b.content|)])
    else if n == 0 && !emptyReadEnds then Data([])
    else EndOfBody
  }

  function AfterRead(b: Body, n: nat): Body {
    if b.closed || b.cursor >= |b.content| then b else b.(cursor := Least(b.cursor + n, |b.content|))
  }

  function Target(b: Body, offset: int, whence: Whence): int {
    match whence
    case FromStart => offset
    case FromCursor => b.cursor + offset
    case FromEnd => |b.content| + offset
  }

  function SeekOf(b: Body, offset: int, whence: Whence): SeekResult {
    if b.closed then SeekClosed
    else if Target(b, offset, whence) < 0 then NegativePosition
    else At(Target(b, offset, whence))
  }

  function AfterSeek(b: Body, offset: int, whence: Whence): Body {
    if SeekOf(b, offset, whence).At? then b.(cursor := Target(b, offset, whence)) else b
  }

  /** The whole body, wherever the cursor stands. */
  function BytesOf(b: Body): BytesResult {
    if b.closed then BytesClosed else Whole(b.content)
  }

  /** The body after reads of the given sizes. */
  function Drained(b: Body, sizes: seq<nat>): Body {
    if sizes == [] then b else AfterRead(Drained(b, sizes[..|sizes| - 1]), sizes[|sizes| - 1])
  }

  /** The bytes that reads of the given sizes return, one after the other. */
  function ReadOut(b: Body, sizes: seq<nat>): seq<Byte> {
    if sizes == [] then []
    else ReadOut(b, sizes[..|sizes| - 1]) + Piece(Drained(b, sizes[..|sizes| - 1]), sizes[|sizes| - 1])
  }

  function Piece(b: Body, n: nat): seq<Byte> {
    var r := ReadOf(b, n, true);
    if r.Data? then r.bytes else []
  }

  function Sum(sizes: seq<nat>): nat {
    if sizes == [] then 0 else Sum(sizes[..|sizes| - 1]) + sizes[|sizes| - 1]
  }

  /** The next so many bytes from the cursor, or all that are left. */
  function Window(b: Body, total: nat): seq<Byte>
    requires b.cursor <= |b.content|
  {
    b.content[b.cursor..Least(b.cursor + total, |b.content|)]
  }

  function Advanced(b: Body, total: nat): Body {
    b.(cursor := Least(b.cursor + total, |b.content|))
  }

  lemma WindowGrows(b: Body, total: nat, n: nat)
    requires !b.closed && b.cursor <= |b.content|
    ensures Window(b, total + n) == Window(b, total) + Piece(Advanced(b, total), n)
  {
    var middle := Least(b.cursor + total, |b.content|);
    var end := Least(b.cursor + total + n, |b.content|);
    PieceIsSlice(Advanced(b, total), n);
    assert Least(middle + n, |b.content|) == end;
    SliceGrows(b.content, b.cursor, middle, end);
  }

  lemma PieceIsSlice(b: Body, n: nat)
    requires !b.closed && b.cursor <= |b.content|
    ensures Piece(b, n) == b.content[b.cursor..Least(b.cursor + n, |b.content|)]
  {
  }

  lemma SliceGrows(s: seq<Byte>, i: nat, j: nat, k: nat)
    requires i <= j <= k <= |s|
    ensures s[i..j] + s[j..k] == s[i..k]
  {
  }

  lemma {:induction false} DrainedCursor(b: Body, sizes: seq<nat>)
    requires !b.closed && b.cursor <= |b.content|
    ensures Drained(b, sizes) == Advanced(b, Sum(sizes))
  {
    if sizes != [] {
      DrainedCursor(b, sizes[..|sizes| - 1]);
    }
  }

  /** However it is cut into reads, an open body is read on from its cursor without gap or repeat. */
  lemma {:induction false} ReadOutIsWindow(b: Body, sizes: seq<nat>)
    requires !b.closed && b.cursor <= |b.content|
    ensures ReadOut(b, sizes) == Window(b, Sum(sizes))
  {
    if sizes != [] {
      var init := sizes[..|sizes| - 1];
      ReadOutIsWindow(b, init);
      DrainedCursor(b, init);
      WindowGrows(b, Sum(init), sizes[|sizes| - 1]);
    }
  }

  /** The whole body is what reads from its start return, once they are long enough. */
  lemma BytesAreReads(b: Body, sizes: seq<nat>)
    requires !b.closed && Sum(sizes) >= |b.content|
    ensures BytesOf(b) == Whole(ReadOut(AfterSeek(b, 0, FromStart), sizes))
  {
    ReadOutIsWindow(AfterSeek(b, 0, FromStart), sizes);
    assert b.content[0..|b.content|] == b.content;
  }

  /** Where a seek leads: to a position from the start, so far on from the cursor, or so far from the end;
      a position before the start is refused, and a closed body refuses every seek. */
  lemma SeekLeads(b: Body, offset: int)
    requires !b.closed
    ensures SeekOf(b, offset, FromStart).At? <==> offset >= 0
    ensures offset >= 0 ==> SeekOf(b, offset, FromStart) == At(offset) && AfterSeek(b, offset, FromStart) == b.(cursor := offset)
    ensures SeekOf(b, offset, FromCursor) == SeekOf(b, b.cursor + offset, FromStart)
    ensures AfterSeek(b, offset, FromCursor) == AfterSeek(b, b.cursor + offset, FromStart)
    ensures SeekOf(b, offset, FromEnd) == SeekOf(b, |b.content| + offset, FromStart)
    ensures AfterSeek(b, offset, FromEnd) == AfterSeek(b, |b.content| + offset, FromStart)
    ensures offset < 0 ==> AfterSeek(b, offset, FromStart) == b
  {
  }

  /** The last n bytes are read after a seek to n before the end. */
  lemma LastBytes(b: Body, n: nat, sizes: seq<nat>)
    requires !b.closed && n <= |b.content| && Sum(sizes) >= n
    ensures ReadOut(AfterSeek(b, -(n as int), FromEnd), sizes) == b.content[|b.content| - n..]
  {
    SeekLeads(b, -(n as int));
    ReadOutIsWindow(AfterSeek(b, -(n as int), FromEnd), sizes);
  }

  /** Nothing is read from a closed body, and nothing moves its cursor. */
  lemma ClosedStays(b: Body, n: nat, offset: int, whence: Whence)
    requires b.closed
    ensures ReadOf(b, n, true) == ReadOf(b, n, false) == ReadClosed && AfterRead(b, n) == b
    ensures SeekOf(b, offset, whence) == SeekClosed && AfterSeek(b, offset, whence) == b && BytesOf(b) == BytesClosed
  {
  }

  /** The two holders answer a read alike except for an empty read at the end of an open body. */
  lemma HoldersAgreeIff(b: Body, n: nat)
    ensures ReadOf(b, n, true) == ReadOf(b, n, false) <==> b.closed || n > 0 || b.cursor < |b.content|
  {
  }

  // ---- In memory --------------------------------------------------------------------

  class MemoryStorage {
    const data: seq<Byte>
    var cursor: nat
    var closed: bool
    const stats: Stats

    ghost function Abs(): Body
      reads this
    {
      Body(data, cursor, closed)
    }

    constructor (data: seq<Byte>, stats: Stats)
      modifies stats
      ensures Abs() == Body(data, 0, false) && this.stats == stats
      ensures stats.counts == Opened(old(stats.counts), false, |data|)
    {
      this.data, this.cursor, this.closed, this.stats := data, 0, false, stats;
      new;
      stats.IncrementMemoryBuffers(|data|);
    }

    method Read(n: nat) returns (r: ReadResult)
      modifies this
      ensures Abs() == AfterRead(old(Abs()), n) && r == ReadOf(old(Abs()), n, true)
    {
      if closed {
        return ReadClosed;
      }
      if cursor >= |data| {
        return EndOfBody;
      }
      var end := Least(cursor + n, |data|);
      r := Data(data[cursor..end]);
      cursor := end;
    }

    method Seek(offset: int, whence: Whence) returns (r: SeekResult)
      modifies this
      ensures Abs() == AfterSeek(old(Abs()), offset, whence) && r == SeekOf(old(Abs()), offset, whence)
    {
      if closed {
        return SeekClosed;
      }
      var base := match whence case FromStart => 0 case FromCursor => cursor case FromEnd => |data|;
      if base + offset < 0 {
        return NegativePosition;
      }
      cursor := base + offset;
      r := At(cursor);
    }

    method Bytes() returns (r: BytesResult)
      ensures r == BytesOf(Abs())
    {
      r := if closed then BytesClosed else Whole(data);
    }

    method Close()
      modifies this, stats
      ensures Abs() == old(Abs()).(closed := true)
      ensures stats.counts == if old(closed) then old(stats.counts) else Closed(old(stats.counts), false, |data|)
    {
      if !closed {
        closed := true;
        stats.DecrementMemoryBuffers(|data|);
      }
    }
  }

  // ---- On disk ----------------------------------------------------------------------

  /** An open file of the operating system. */
  class File {
    var content: seq<Byte>
    var position: nat

    constructor ()
      ensures content == [] && position == 0
    {
      content, position := [], 0;
    }

    /** Appends: the program writes only to a file it has just created. */
    method Write(data: seq<Byte>)
      requires position == |content|
      modifies this
      ensures content == old(content) + data && position == |content|
    {
      content := content + data;
      position := |content|;
    }

    method Read(n: nat) returns (bytes: seq<Byte>)
      modifies this`position
      ensures var end := Least(old(position) + n, |content|);
              if old(position) <= |content| then bytes == content[old(position)..end] && position == end
              else bytes == [] && position == old(position)
    {
      bytes := [];
      if position <= |content| {
        var end := Least(position + n, |content|);
        bytes := content[position..end];
        position := end;
      }
    }

    method Seek(offset: int, whence: Whence) returns (ok: bool)
      modifies this`position
      ensures var target := Target(Body(content, old(position), false), offset, whence);
              ok == (target >= 0) && position == if ok then target else old(position)
    {
      var base := match whence case FromStart => 0 case FromCursor => position case FromEnd => |content|;
      ok := base + offset >= 0;
      if ok {
        position := base + offset;
      }
    }
  }

  class DiskStorage {
    const file: File
    const size: nat
    var closed: bool
    const stats: Stats

    ghost predicate Valid()
      reads file
    {
      size == |file.content|
    }

    ghost function Abs(): Body
      reads this, file
    {
      Body(file.content, file.position, closed)
    }

    /** The file has been written; the cursor goes back to its start. */
    constructor (file: File, stats: Stats)
      modifies file`position, stats
      ensures Valid() && Abs() == Body(file.content, 0, false) && this.file == file && this.stats == stats
      ensures stats.counts == Opened(old(stats.counts), true, |file.content|)
    {
      this.file, this.size, this.closed, this.stats := file, |file.content|, false, stats;
      new;
      var ok := file.Seek(0, FromStart);
      stats.IncrementDiskFiles(size);
    }

    method Read(n: nat) returns (r: ReadResult)
      requires Valid()
      modifies file`position
      ensures Valid() && Abs() == AfterRead(old(Abs()), n) && r == ReadOf(old(Abs()), n, false)
    {
      if closed {
        return ReadClosed;
      }
      if n == 0 {
        return Data([]);
      }
      var bytes := file.Read(n);
      r := if bytes == [] then EndOfBody else Data(bytes);
    }

    method Seek(offset: int, whence: Whence) returns (r: SeekResult)
      requires Valid()
      modifies file`position
      ensures Valid() && Abs() == AfterSeek(old(Abs()), offset, whence) && r == SeekOf(old(Abs()), offset, whence)
    {
      if closed {
        return SeekClosed;
      }
      var ok := file.Seek(offset, whence);
      r := if ok then At(file.position) else NegativePosition;
    }

    /** Reads the whole file from its start and puts the cursor back. */
    method Bytes() returns (r: BytesResult)
      requires Valid()
      modifies file`position
      ensures Valid() && Abs() == old(Abs())
      ensures r == BytesOf(Abs())
    {
      if closed {
        return BytesClosed;
      }
      var cursor := file.position;
      var ok := file.Seek(0, FromStart);
      var bytes := file.Read(size);
      assert bytes == file.content;
      ok := file.Seek(cursor, FromStart);
      r := Whole(bytes);
    }

    method Close()
      modifies this, stats
      ensures Abs() == old(Abs()).(closed := true)
      ensures stats.counts == if old(closed) then old(stats.counts) else Closed(old(stats.counts), true, size)
    {
      if !closed {
        closed := true;
        stats.DecrementDiskFiles(size);
      }
    }
  }

  // ---- A body arrives -----------------------------------------------------------------

  datatype CacheConfig = CacheConfig(enabled: bool, threshold: int, maxBytes: int)

  datatype Storage = InMemory(memory: MemoryStorage) | OnDisk(disk: DiskStorage)

  datatype Created = Stored(storage: Storage) | TooLarge | Failed

  /** A request body being read: its bytes, and whether it breaks off with an error after them. */
  datatype Source = Source(content: seq<Byte>, fails: bool)

  const MAX_INT64: int := 0x7FFF_FFFF_FFFF_FFFF
  const MIN_INT64: int := -0x8000_0000_0000_0000

  type Int64 = n: int | MIN_INT64 <= n <= MAX_INT64

  /** One more byte than allowed, in 64-bit arithmetic. */
  function ReadLimit(maxBytes: Int64): Int64 {
    if maxBytes == MAX_INT64 then MIN_INT64 else maxBytes + 1
  }

  /** The bytes read before the limit. */
  function Received(source: Source, maxBytes: Int64): seq<Byte> {
    var limit := ReadLimit(maxBytes);
    if limit <= 0 then [] else source.content[..Least(limit, |source.content|)]
  }

  predicate ReadFails(source: Source, maxBytes: Int64) {
    source.fails && ReadLimit(maxBytes) > |source.content|
  }

  predicate Available(cfg: CacheConfig, c: Counts, size: int) {
    cfg.enabled && c.diskBytes + size <= cfg.maxBytes
  }

  /** A body announced as large enough is written to disk as it is read. */
  predicate Direct(cfg: CacheConfig, c: Counts, contentLength: int) {
    contentLength > 0 && contentLength >= cfg.threshold && Available(cfg, c, contentLength)
  }

  /** Where an accepted body goes. */
  predicate GoesToDisk(cfg: CacheConfig, c: Counts, contentLength: int, size: nat, diskFails: bool) {
    Direct(cfg, c, contentLength) || (size >= cfg.threshold && Available(cfg, c, size) && !diskFails)
  }

  function ObjectOf(s: Storage): object {
    match s case InMemory(m) => m case OnDisk(d) => d
  }

  function StatsOf(s: Storage): Stats {
    match s case InMemory(m) => m.stats case OnDisk(d) => d.stats
  }

  ghost function View(s: Storage): Body
    reads match s case InMemory(m) => {m as object} case OnDisk(d) => {d as object, d.file}
  {
    match s case InMemory(m) => m.Abs() case OnDisk(d) => d.Abs()
  }

  ghost predicate WellSized(s: Storage)
    reads match s case InMemory(m) => {} case OnDisk(d) => {d.file}
  {
    s.OnDisk? ==> s.disk.Valid()
  }

  method CreateFile(stats: Stats, data: seq<Byte>) returns (d: DiskStorage)
    modifies stats
    ensures fresh(d) && fresh(d.file) && d.stats == stats && d.Valid() && d.Abs() == Body(data, 0, false)
    ensures stats.counts == Opened(old(stats.counts), true, |data|)
  {
    var file := new File();
    file.Write(data);
    d := new DiskStorage(file, stats);
  }

  /** Large bodies go to disk while there is room; when that fails, to memory. */
  method CreateBodyStorage(cfg: CacheConfig, stats: Stats, data: seq<Byte>, diskFails: bool) returns (s: Storage)
    modifies stats
    ensures fresh(ObjectOf(s)) && StatsOf(s) == stats && View(s) == Body(data, 0, false) && WellSized(s)
    ensures s.OnDisk? <==> |data| >= cfg.threshold && Available(cfg, old(stats.counts), |data|) && !diskFails
    ensures stats.counts == Opened(old(stats.counts), s.OnDisk?, |data|)
    ensures old(stats.counts).diskBytes <= cfg.maxBytes ==> stats.counts.diskBytes <= cfg.maxBytes
  {
    if cfg.enabled && |data| >= cfg.threshold && Available(cfg, stats.counts, |data|) && !diskFails {
      var d := CreateFile(stats, data);
      return OnDisk(d);
    }
    var m := new MemoryStorage(data, stats);
    s := InMemory(m);
  }

  function Hit(c: Counts, disk: bool): Counts {
    if disk then c.(diskHits := c.diskHits + 1) else c.(memoryHits := c.memoryHits + 1)
  }

  method CreateFromReader(cfg: CacheConfig, stats: Stats, source: Source, contentLength: int, maxBytes: Int64, diskFails: bool)
    returns (r: Created)
    modifies stats
    ensures r.Failed? <==> (Direct(cfg, old(stats.counts), contentLength) && diskFails) || ReadFails(source, maxBytes)
    ensures !r.Failed? ==> (r.TooLarge? <==> |Received(source, maxBytes)| > maxBytes)
    ensures !r.Stored? ==> stats.counts == old(stats.counts)
    ensures r.Stored? ==>
              var size := |Received(source, maxBytes)|;
              && fresh(ObjectOf(r.storage)) && StatsOf(r.storage) == stats && WellSized(r.storage)
              && View(r.storage) == Body(Received(source, maxBytes), 0, false)
              && (r.storage.OnDisk? <==> GoesToDisk(cfg, old(stats.counts), contentLength, size, diskFails))
              && stats.counts == Hit(Opened(old(stats.counts), r.storage.OnDisk?, size), r.storage.OnDisk?)
  {
    var data := Received(source, maxBytes);
    if cfg.enabled && contentLength > 0 && contentLength >= cfg.threshold && Available(cfg, stats.counts, contentLength) {
      if diskFails || ReadFails(source, maxBytes) {
        return Failed;
      }
      if |data| > maxBytes {
        return TooLarge;
      }
      var d := CreateFile(stats, data);
      stats.CountHit(true);
      return Stored(OnDisk(d));
    }
    if ReadFails(source, maxBytes) {
      return Failed;
    }
    if |data| > maxBytes {
      return TooLarge;
    }
    var s := CreateBodyStorage(cfg, stats, data, diskFails);
    stats.CountHit(s.OnDisk?);
    r := Stored(s);
  }

  /** A body is within the limit as read exactly when it is within the limit; the largest
      possible limit wraps round, and lets every body through as an empty one. */
  lemma AcceptedIff(source: Source, maxBytes: Int64)
    ensures maxBytes < MAX_INT64 ==> (|Received(source, maxBytes)| <= maxBytes <==> |source.content| <= maxBytes)
    ensures |Received(source, maxBytes)| <= maxBytes ==>
              (Received(source, maxBytes) == source.content <==> maxBytes < MAX_INT64 || source.content == [])
  {
    assert source.content[..|source.content|] == source.content;
  }

  /** For every limit but the largest a refusal is told by its cause: a body over the limit is too large, whether or
      not it breaks off behind it, and a body within the limit fails exactly when it breaks off. */
  lemma RefusedIff(source: Source, maxBytes: Int64)
    requires maxBytes < 0x7FFF_FFFF_FFFF_FFFF
    ensures |Received(source, maxBytes)| > maxBytes <==> |source.content| > maxBytes
    ensures ReadFails(source, maxBytes) <==> source.fails && |source.content| <= maxBytes
  {
  }

  // ---- A run of requests ---------------------------------------------------------------

  /** What a server does with bodies: take one in, or close one, perhaps again. */
  datatype Request =
    | Arrive(source: Source, contentLength: int, maxBytes: Int64, diskFails: bool)
    | Finish(i: nat)

  function SizeOf(s: Storage): nat {
    match s case InMemory(m) => |m.data| case OnDisk(d) => d.size
  }

  ghost predicate IsOpen(s: Storage)
    reads ObjectOf(s)
  {
    match s case InMemory(m) => !m.closed case OnDisk(d) => !d.closed
  }

  /** A storage as the accounting sees it. */
  ghost function EntryOf(s: Storage): Entry
    reads ObjectOf(s)
  {
    Entry(s.OnDisk?, SizeOf(s), IsOpen(s), s.OnDisk? && IsOpen(s))
  }

  method CloseStorage(s: Storage)
    modifies ObjectOf(s), StatsOf(s)
    ensures EntryOf(s) == old(EntryOf(s)).(open := false, file := false)
    ensures StatsOf(s).counts
         == if old(IsOpen(s)) then Closed(old(StatsOf(s).counts), s.OnDisk?, SizeOf(s)) else old(StatsOf(s).counts)
  {
    match s {
      case InMemory(m) => m.Close();
      case OnDisk(d) => d.Close();
    }
  }

  /** A server without objects: its counters, the storages ever created and their contents. */
  datatype Server = Server(counts: Counts, entries: seq<Entry>, bodies: seq<seq<Byte>>)

  const IDLE := Server(EMPTY.counts, [], [])

  /** What a request does: a body that can be read and is within the limit is stored and counted, and
      a storage is counted off when it is first closed. */
  function ServerStep(cfg: CacheConfig, s: Server, request: Request): Server {
    match request
    case Arrive(source, contentLength, maxBytes, diskFails) =>
      var data := Received(source, maxBytes);
      if (Direct(cfg, s.counts, contentLength) && diskFails) || ReadFails(source, maxBytes) || |data| > maxBytes then s
      else
        var disk := GoesToDisk(cfg, s.counts, contentLength, |data|, diskFails);
        Server(Hit(Opened(s.counts, disk, |data|), disk), s.entries + [Entry(disk, |data|, true, disk)], s.bodies + [data])
    case Finish(i) =>
      if i < |s.entries| && s.entries[i].open then
        var e := s.entries[i];
        s.(counts := Closed(s.counts, e.disk, e.size), entries := s.entries[i := e.(open := false, file := false)])
      else s
  }

  function ServerRun(cfg: CacheConfig, requests: seq<Request>): Server {
    if requests == [] then IDLE
    else ServerStep(cfg, ServerRun(cfg, requests[..|requests| - 1]), requests[|requests| - 1])
  }

  // ---- What is stored, and where --------------------------------------------------------

  /** Room on the disk for so many bytes more. */
  predicate Room(cfg: CacheConfig, diskBytes: int, size: int) {
    cfg.enabled && diskBytes + size <= cfg.maxBytes
  }

  /** For every limit but the largest: an arriving body is stored whole exactly when it does not break off, is
      within the limit, and is not to be written to a failing disk as it is read. */
  lemma StoredIff(cfg: CacheConfig, s: Server, source: Source, contentLength: int, maxBytes: Int64, diskFails: bool)
    requires maxBytes < 0x7FFF_FFFF_FFFF_FFFF
    ensures var announced := contentLength > 0 && contentLength >= cfg.threshold && Room(cfg, s.counts.diskBytes, contentLength);
            var size := |source.content|;
            var disk := announced || (size >= cfg.threshold && Room(cfg, s.counts.diskBytes, size) && !diskFails);
            var t := ServerStep(cfg, s, Arrive(source, contentLength, maxBytes, diskFails));
            if !source.fails && size <= maxBytes && !(announced && diskFails)
            then t.bodies == s.bodies + [source.content] && t.entries == s.entries + [Entry(disk, size, true, disk)]
            else t == s
  {
    AcceptedIff(source, maxBytes);
  }

  /** The contents of the arrivals that do not break off and are within their limit, in order. */
  function Intact(requests: seq<Request>): seq<seq<Byte>> {
    if requests == [] then []
    else
      var last := requests[|requests| - 1];
      Intact(requests[..|requests| - 1]) +
      if last.Arrive? && !last.source.fails && |last.source.content| <= last.maxBytes then [last.source.content] else []
  }

  /** With a working disk a server stores exactly the intact bodies, each whole. */
  lemma {:induction false} WholeBodies(cfg: CacheConfig, requests: seq<Request>)
    requires forall r :: r in requests && r.Arrive? ==> !r.diskFails && r.maxBytes < 0x7FFF_FFFF_FFFF_FFFF
    ensures ServerRun(cfg, requests).bodies == Intact(requests)
  {
    if requests != [] {
      var k := |requests| - 1;
      assert forall r :: r in requests[..k] ==> r in requests;
      WholeBodies(cfg, requests[..k]);
      var s := ServerRun(cfg, requests[..k]);
      if requests[k].Arrive? {
        assert requests[k] in requests;
        var Arrive(source, contentLength, maxBytes, diskFails) := requests[k];
        StoredIff(cfg, s, source, contentLength, maxBytes, diskFails);
      }
      EmptyConcat(Intact(requests[..k]));
    }
  }

  /** Whatever fails, no body that breaks off is ever stored, and none over its limit. */
  lemma {:induction false} NothingBroken(cfg: CacheConfig, requests: seq<Request>, i: nat) returns (j: nat)
    requires forall r :: r in requests && r.Arrive? ==> r.maxBytes < 0x7FFF_FFFF_FFFF_FFFF
    requires i < |ServerRun(cfg, requests).bodies|
    ensures j < |requests| && requests[j].Arrive? && !requests[j].source.fails
    ensures requests[j].source.content == ServerRun(cfg, requests).bodies[i] && |requests[j].source.content| <= requests[j].maxBytes
  {
    var k := |requests| - 1;
    var s := ServerRun(cfg, requests[..k]);
    assert forall r :: r in requests[..k] ==> r in requests;
    if i < |s.bodies| {
      j := NothingBroken(cfg, requests[..k], i);
    } else {
      j := k;
      assert requests[k] in requests;
      var Arrive(source, contentLength, maxBytes, diskFails) := requests[k];
      StoredIff(cfg, s, source, contentLength, maxBytes, diskFails);
    }
  }

  /** Without the disk cache nothing is on disk. */
  lemma {:induction false} NothingOnDisk(cfg: CacheConfig, requests: seq<Request>)
    requires !cfg.enabled
    ensures forall e :: e in ServerRun(cfg, requests).entries ==> !e.disk
  {
    if requests != [] {
      NothingOnDisk(cfg, requests[..|requests| - 1]);
    }
  }

  /** No request announces less than it sends. */
  ghost predicate Honest(requests: seq<Request>) {
    forall r :: r in requests && r.Arrive? && r.contentLength > 0 ==> |r.source.content| <= r.contentLength
  }

  /** Where no request announces less than it sends, the disk counter never passes its maximum. */
  lemma {:induction false} WithinRoom(cfg: CacheConfig, requests: seq<Request>)
    requires Honest(requests) && cfg.maxBytes >= 0
    ensures ServerRun(cfg, requests).counts.diskBytes <= cfg.maxBytes
  {
    if requests != [] {
      var k := |requests| - 1;
      assert forall r :: r in requests[..k] ==> r in requests;
      WithinRoom(cfg, requests[..k]);
      if requests[k].Arrive? {
        assert requests[k] in requests;
        assert |Received(requests[k].source, requests[k].maxBytes)| <= |requests[k].source.content|;
      }
    }
  }

  function Placed(entries: seq<Entry>, disk: bool): nat {
    if entries == [] then 0 else Placed(entries[..|entries| - 1], disk) + if entries[|entries| - 1].disk == disk then 1 else 0
  }

  lemma {:induction false} PlacedStays(entries: seq<Entry>, i: nat, e: Entry, disk: bool)
    requires i < |entries| && e.disk == entries[i].disk
    ensures Placed(entries[i := e], disk) == Placed(entries, disk)
  {
    var last := |entries| - 1;
    if i < last {
      PlacedStays(entries[..last], i, e, disk);
      assert entries[i := e][..last] == entries[..last][i := e];
    } else {
      assert entries[i := e][..last] == entries[..last];
    }
  }

  predicate HitsAre(s: Server) {
    s.counts.diskHits == Placed(s.entries, true) && s.counts.memoryHits == Placed(s.entries, false)
  }

  lemma PlacedSnoc(entries: seq<Entry>, e: Entry, disk: bool)
    ensures Placed(entries + [e], disk) == Placed(entries, disk) + if e.disk == disk then 1 else 0
  {
    assert (entries + [e])[..|entries|] == entries;
  }

  lemma StepHits(cfg: CacheConfig, s: Server, request: Request)
    requires HitsAre(s)
    ensures HitsAre(ServerStep(cfg, s, request))
  {
    match request
    case Arrive(source, contentLength, maxBytes, diskFails) =>
      var size := |Received(source, maxBytes)|;
      var disk := GoesToDisk(cfg, s.counts, contentLength, size, diskFails);
      PlacedSnoc(s.entries, Entry(disk, size, true, disk), true);
      PlacedSnoc(s.entries, Entry(disk, size, true, disk), false);
    case Finish(i) =>
      if i < |s.entries| {
        PlacedStays(s.entries, i, s.entries[i].(open := false, file := false), true);
        PlacedStays(s.entries, i, s.entries[i].(open := false, file := false), false);
      }
  }

  /** The hits are the numbers of bodies ever placed on disk and in memory. */
  lemma {:induction false} HitsExact(cfg: CacheConfig, requests: seq<Request>)
    ensures HitsAre(ServerRun(cfg, requests))
  {
    if requests != [] {
      HitsExact(cfg, requests[..|requests| - 1]);
      StepHits(cfg, ServerRun(cfg, requests[..|requests| - 1]), requests[|requests| - 1]);
    }
  }

  /** The same usage, whatever the hits. */
  predicate SameUsage(c: Counts, d: Counts) {
    c.diskFiles == d.diskFiles && c.diskBytes == d.diskBytes && c.buffers == d.buffers && c.bufferBytes == d.bufferBytes
  }

  /** The accounting has followed a run of openings and closings. */
  ghost predicate Follows(counts: Counts, entries: seq<Entry>, steps: seq<Step>) {
    && (forall i :: 0 <= i < |steps| ==> !steps[i].Cleanup?)
    && Run(EMPTY, steps).entries == entries && SameUsage(counts, Run(EMPTY, steps).counts)
  }

  lemma FollowsOpen(counts: Counts, entries: seq<Entry>, steps: seq<Step>, disk: bool, size: nat)
    requires Follows(counts, entries, steps)
    ensures Follows(Hit(Opened(counts, disk, size), disk), entries + [Entry(disk, size, true, disk)], steps + [Open(disk, size)])
  {
    RunSnoc(EMPTY, steps, Open(disk, size));
  }

  lemma FollowsClose(counts: Counts, entries: seq<Entry>, steps: seq<Step>, i: nat)
    requires Follows(counts, entries, steps) && i < |entries| && entries[i].open
    ensures Follows(Closed(counts, entries[i].disk, entries[i].size),
                    entries[i := entries[i].(open := false, file := false)], steps + [Close(i)])
  {
    RunSnoc(EMPTY, steps, Close(i));
  }

  /** The requests of any run open and close storages as the accounting has it, without cleanup. */
  lemma {:induction false} ServerFollows(cfg: CacheConfig, requests: seq<Request>) returns (steps: seq<Step>)
    ensures Follows(ServerRun(cfg, requests).counts, ServerRun(cfg, requests).entries, steps)
  {
    steps := [];
    if requests != [] {
      var k := |requests| - 1;
      var s := ServerRun(cfg, requests[..k]);
      var t := ServerStep(cfg, s, requests[k]);
      steps := ServerFollows(cfg, requests[..k]);
      if requests[k].Finish? && t != s {
        FollowsClose(s.counts, s.entries, steps, requests[k].i);
        steps := steps + [Close(requests[k].i)];
      } else if t != s {
        var entry := t.entries[|s.entries|];
        FollowsOpen(s.counts, s.entries, steps, entry.disk, entry.size);
        steps := steps + [Open(entry.disk, entry.size)];
      }
    }
  }

  /** After any run the counters are the number and total size of the storages still open. */
  lemma ServerExact(cfg: CacheConfig, requests: seq<Request>)
    ensures Exact(World(ServerRun(cfg, requests).counts, ServerRun(cfg, requests).entries))
  {
    var steps := ServerFollows(cfg, requests);
    ExactWithoutCleanup(steps);
  }

  function FilesOf(s: Storage): set<object> {
    match s case InMemory(m) => {} case OnDisk(d) => {d.file}
  }

  ghost function ContentOf(s: Storage): seq<Byte>
    reads FilesOf(s)
  {
    match s case InMemory(m) => m.data case OnDisk(d) => d.file.content
  }

  /** The storage objects are distinct, and are the entries and contents of the server. */
  ghost predicate Mirrors(stats: Stats, storages: seq<Storage>, s: Server)
    reads stats, set st | st in storages :: ObjectOf(st), set st, f | st in storages && f in FilesOf(st) :: f
  {
    && stats.counts == s.counts && |storages| == |s.entries| == |s.bodies|
    && (forall i :: 0 <= i < |storages| ==> StatsOf(storages[i]) == stats)
    && (forall i :: 0 <= i < |storages| ==> EntryOf(storages[i]) == s.entries[i] && ContentOf(storages[i]) == s.bodies[i])
    && (forall i, j :: 0 <= i < j < |storages| ==> ObjectOf(storages[i]) != ObjectOf(storages[j]))
  }

  method TakeIn(cfg: CacheConfig, stats: Stats, storages: seq<Storage>, request: Request, ghost s: Server) returns (more: seq<Storage>)
    requires request.Arrive? && Mirrors(stats, storages, s)
    modifies stats
    ensures storages <= more && forall k :: |storages| <= k < |more| ==> fresh(ObjectOf(more[k]))
    ensures Mirrors(stats, more, ServerStep(cfg, s, request))
  {
    more := storages;
    var r := CreateFromReader(cfg, stats, request.source, request.contentLength, request.maxBytes, request.diskFails);
    if r.Stored? {
      more := storages + [r.storage];
    }
  }

  method CloseAt(cfg: CacheConfig, stats: Stats, storages: seq<Storage>, k: nat, ghost s: Server)
    requires k < |storages| && Mirrors(stats, storages, s)
    modifies stats, ObjectOf(storages[k])
    ensures Mirrors(stats, storages, ServerStep(cfg, s, Finish(k)))
  {
    CloseStorage(storages[k]);
  }

  /** Storage objects driven through any run of requests, closing twice included: they are the storages
      of the run with the contents that were read, and the counters are the number and total size
      of those still open. */
  method Replay(cfg: CacheConfig, requests: seq<Request>) returns (stats: Stats, storages: seq<Storage>)
    ensures Mirrors(stats, storages, ServerRun(cfg, requests))
    ensures Exact(World(stats.counts, ServerRun(cfg, requests).entries))
  {
    stats := new Stats();
    storages := [];
    for i := 0 to |requests|
      invariant fresh(stats) && forall k :: 0 <= k < |storages| ==> fresh(ObjectOf(storages[k]))
      invariant Mirrors(stats, storages, ServerRun(cfg, requests[..i]))
    {
      assert requests[..i + 1][..i] == requests[..i];
      if requests[i].Arrive? {
        storages := TakeIn(cfg, stats, storages, requests[i], ServerRun(cfg, requests[..i]));
      } else if requests[i].i < |storages| {
        CloseAt(cfg, stats, storages, requests[i].i, ServerRun(cfg, requests[..i]));
      }
    }
    assert requests[..|requests|] == requests;
    ServerExact(cfg, requests);
  }
}
