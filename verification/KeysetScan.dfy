/**
The keyset-paginated scan over enabled channels (controller/channel_upstream_update.go). Between
two queries other requests may insert, delete, enable or disable any channels; each query sees
some state of the table.
*/
module KeysetScan {

  const MAX_ID := 0x7fff_ffff_ffff_ffff

  /** What query k meets: the ids of the enabled channels at that moment in ascending order, an
      error, or a cancelled context. */
  datatype Reply = Rows(enabled: seq<int>) | QueryError | Cancelled

  /** The world outside: the reply to each query, and whether the context is found cancelled
      before item i of batch k. */
  datatype World = World(reply: nat -> Reply, cancelled: (nat, nat) -> bool)

  /** Ids are positive and fit 64 bits, and a table has an id once. */
  ghost predicate Keyed(w: World) {
    forall k: nat :: w.reply(k).Rows? ==>
      Ascending(w.reply(k).enabled) && forall id :: id in w.reply(k).enabled ==> 0 < id <= MAX_ID
  }

  predicate Ascending(ids: seq<int>) {
    forall i, j :: 0 <= i < j < |ids| ==> ids[i] < ids[j]
  }

  /** A world whose tables are keyed. */
  type KeyedWorld = w: World | Keyed(w) ghost witness World(_ => Rows([]), (_, _) => false)

  /** How many ids at the front are not above `lastID`. */
  function Skipped(enabled: seq<int>, lastID: int): (n: nat)
    ensures n <= |enabled|
  {
    if enabled == [] || enabled[0] > lastID then 0 else 1 + Skipped(enabled[1..], lastID)
  }

  /** `WHERE id > lastID ORDER BY id ASC LIMIT limit`, the condition only when lastID is positive. */
  function Query(enabled: seq<int>, lastID: int, limit: nat): seq<int> {
    var from := if lastID > 0 then Skipped(enabled, lastID) else 0;
    enabled[from..if from + limit < |enabled| then from + limit else |enabled|]
  }

  /** The channel was enabled at every query of the scan. */
  ghost predicate Throughout(w: World, queries: nat, id: int) {
    forall k: nat :: k < queries ==> w.reply(k).Rows? && id in w.reply(k).enabled
  }

  /** The query returned rows, this channel among the enabled ones. */
  predicate Enabled(w: World, k: nat, id: int) {
    w.reply(k).Rows? && id in w.reply(k).enabled
  }

  function LastOf(visited: seq<int>): int {
    if visited == [] then 0 else visited[|visited| - 1]
  }

  /** What query k returns after the batches before it: beyond the last of their ids. */
  function Batch(w: World, limit: nat, k: nat): seq<int>
    decreases k, 1
  {
    if w.reply(k).Rows? then Query(w.reply(k).enabled, LastOf(Batches(w, limit, k)), limit) else []
  }

  /** The first k batches one after the other. */
  function Batches(w: World, limit: nat, k: nat): seq<int>
    decreases k, 0
  {
    if k == 0 then [] else Batches(w, limit, k - 1) + Batch(w, limit, k - 1)
  }

  /** The context was found alive before each of the first n items of batch k. */
  ghost predicate Alive(w: World, k: nat, n: nat) {
    forall i: nat :: i < n ==> !w.cancelled(k, i)
  }

  ghost predicate Full(w: World, limit: nat, k: nat) {
    w.reply(k).Rows? && |Batch(w, limit, k)| == limit && Alive(w, k, limit)
  }

  ghost predicate FullUntil(w: World, limit: nat, k: nat) {
    forall q: nat :: q < k ==> Full(w, limit, q)
  }

  /** Query k failed, and the visits are the full batches before it. */
  ghost predicate FailedAt(w: World, limit: nat, k: nat, visited: seq<int>) {
    FullUntil(w, limit, k) && !w.reply(k).Rows? && visited == Batches(w, limit, k)
  }

  /** The context was found cancelled inside batch k, and the visits are the full batches before it and
      its items up to there. */
  ghost predicate StoppedAt(w: World, limit: nat, k: nat, visited: seq<int>) {
    && FullUntil(w, limit, k)
    && exists n: nat :: w.cancelled(k, n) && n < |Batch(w, limit, k)| && Alive(w, k, n)
         && visited == Batches(w, limit, k) + Batch(w, limit, k)[..n]
  }

  /** Batch k was not full, and the visits are all batches. */
  ghost predicate EndedAt(w: World, limit: nat, k: nat, visited: seq<int>) {
    && FullUntil(w, limit, k) && w.reply(k).Rows? && |Batch(w, limit, k)| < limit
    && Alive(w, k, |Batch(w, limit, k)|) && visited == Batches(w, limit, k + 1)
  }

  /** No query fails and the context is never cancelled. */
  ghost predicate Undisturbed(w: World) {
    (forall k: nat :: w.reply(k).Rows?) && forall k: nat, i: nat :: !w.cancelled(k, i)
  }

  /** What a scan has done so far: everything up to `lastID` that stayed enabled, in order. */
  ghost predicate Progress(w: World, queries: nat, lastID: int, visited: seq<int>) {
    && Ascending(visited)
    && (forall id :: id in visited ==> id <= lastID)
    && (forall id :: Throughout(w, queries, id) && 0 < id <= lastID ==> id in visited)
  }

  // ----- one batch -----

  lemma {:induction false} SkippedAll(enabled: seq<int>, lastID: int)
    ensures var n := Skipped(enabled, lastID);
            (forall i :: 0 <= i < n ==> enabled[i] <= lastID) && (n < |enabled| ==> enabled[n] > lastID)
  {
    if enabled != [] && enabled[0] <= lastID {
      SkippedAll(enabled[1..], lastID);
      assert forall i :: 1 <= i < |enabled| ==> enabled[i] == enabled[1..][i - 1];
    }
  }

  /** A batch is in order and beyond what was read before. */
  lemma BatchAbove(enabled: seq<int>, lastID: int, limit: nat)
    requires Ascending(enabled) && lastID >= 0 && forall id :: id in enabled ==> id > 0
    ensures var b := Query(enabled, lastID, limit);
            Ascending(b) && forall j :: 0 <= j < |b| ==> b[j] > lastID && b[j] in enabled
  {
    var b := Query(enabled, lastID, limit);
    var from := if lastID > 0 then Skipped(enabled, lastID) else 0;
    SkippedAll(enabled, lastID);
    assert forall j :: 0 <= j < |b| ==> b[j] == enabled[from + j];
    assert forall j :: 0 <= j < |b| ==> b[j] in enabled;
  }

  /** An enabled id beyond what was read before is in the batch, unless a full batch ends below it. */
  lemma BatchTakes(enabled: seq<int>, lastID: int, limit: nat, id: int)
    requires Ascending(enabled) && id in enabled && id > lastID
    ensures var b := Query(enabled, lastID, limit);
            id in b || (|b| == limit && (b != [] ==> b[|b| - 1] < id))
  {
    var b := Query(enabled, lastID, limit);
    var i :| 0 <= i < |enabled| && enabled[i] == id;
    var from := if lastID > 0 then Skipped(enabled, lastID) else 0;
    SkippedAll(enabled, lastID);
    assert from <= i;
    assert i < from + |b| ==> b[i - from] == id;
  }

  lemma JoinAscending(a: seq<int>, b: seq<int>, lastID: int)
    requires Ascending(a) && Ascending(b)
    requires forall id :: id in a ==> id <= lastID
    requires forall j :: 0 <= j < |b| ==> b[j] > lastID
    ensures Ascending(a + b)
  {
    assert forall i :: 0 <= i < |a| ==> a[i] in a;
  }

  /** A channel enabled throughout is among those visited, in the batch, or beyond a full batch. */
  lemma Covered(w: KeyedWorld, queries: nat, lastID: int, visited: seq<int>, limit: nat, id: int)
    requires Progress(w, queries, lastID, visited) && 0 <= lastID
    requires w.reply(queries).Rows? && Throughout(w, queries + 1, id)
    ensures var b := Query(w.reply(queries).enabled, lastID, limit);
            id in visited || id in b || (|b| == limit && (b != [] ==> b[|b| - 1] < id))
  {
    assert Throughout(w, queries, id) && id in w.reply(queries).enabled;
    if id > lastID {
      BatchTakes(w.reply(queries).enabled, lastID, limit, id);
    }
  }

  lemma NextProgress(w: KeyedWorld, queries: nat, lastID: int, visited: seq<int>, limit: nat)
    requires Progress(w, queries, lastID, visited) && 0 <= lastID
    requires w.reply(queries).Rows? && Query(w.reply(queries).enabled, lastID, limit) != []
    ensures var b := Query(w.reply(queries).enabled, lastID, limit);
            lastID < b[|b| - 1] <= MAX_ID && Progress(w, queries + 1, b[|b| - 1], visited + b)
  {
    var b := Query(w.reply(queries).enabled, lastID, limit);
    BatchAbove(w.reply(queries).enabled, lastID, limit);
    JoinAscending(visited, b, lastID);
    UpToLast(visited, b, lastID);
    forall id | Throughout(w, queries + 1, id) && 0 < id <= b[|b| - 1]
      ensures id in visited + b
    {
      Covered(w, queries, lastID, visited, limit, id);
    }
  }

  lemma UpToLast(visited: seq<int>, b: seq<int>, lastID: int)
    requires b != [] && Ascending(b) && b[|b| - 1] > lastID && forall id :: id in visited ==> id <= lastID
    ensures forall id :: id in visited + b ==> id <= b[|b| - 1]
  {
  }

  /** Visits the channels of one batch in order until the context is found cancelled. */
  method VisitBatch(w: World, k: nat, channels: seq<int>) returns (n: nat, cancelled: bool)
    ensures n <= |channels|
    ensures cancelled <==> n < |channels|
    ensures cancelled ==> w.cancelled(k, n)
    ensures Alive(w, k, n)
  {
    n, cancelled := 0, false;
    while n < |channels|
      invariant n <= |channels| && Alive(w, k, n)
    {
      if w.cancelled(k, n) {
        cancelled := true;
        return;
      }
      n := n + 1;
    }
  }

  // ----- the batches in turn -----

  lemma LastOfMore(a: seq<int>, b: seq<int>)
    requires b != []
    ensures LastOf(a + b) == b[|b| - 1]
  {
  }

  /** The full batches so far leave nothing out up to the last of their ids. */
  ghost predicate Sound(w: World, limit: nat, k: nat) {
    var visited := Batches(w, limit, k);
    0 <= LastOf(visited) <= MAX_ID && Progress(w, k, LastOf(visited), visited)
  }

  lemma SoundStart(w: World, limit: nat)
    ensures Sound(w, limit, 0)
  {
  }

  lemma SoundNext(w: KeyedWorld, limit: nat, k: nat)
    requires limit >= 1 && Full(w, limit, k) && Sound(w, limit, k)
    ensures Sound(w, limit, k + 1) && LastOf(Batches(w, limit, k)) < LastOf(Batches(w, limit, k + 1))
  {
    var visited := Batches(w, limit, k);
    NextProgress(w, k, LastOf(visited), visited, limit);
    LastOfMore(visited, Batch(w, limit, k));
  }

  lemma AllSound(w: KeyedWorld, limit: nat, k: nat)
    requires limit >= 1 && FullUntil(w, limit, k)
    ensures Sound(w, limit, k)
  {
    SoundStart(w, limit);
    for i := 0 to k
      invariant Sound(w, limit, i)
    {
      assert Full(w, limit, i);
      SoundNext(w, limit, i);
    }
  }

  lemma {:induction false} BatchesLength(w: World, limit: nat, k: nat)
    requires FullUntil(w, limit, k)
    ensures |Batches(w, limit, k)| == k * limit
  {
    if k > 0 {
      assert Full(w, limit, k - 1);
      BatchesLength(w, limit, k - 1);
      assert k * limit == (k - 1) * limit + limit;
    }
  }

  /** Each channel was enabled in the query that read it. */
  lemma {:induction false} EnabledWhenRead(w: KeyedWorld, limit: nat, k: nat, i: nat) returns (q: nat)
    requires limit >= 1 && FullUntil(w, limit, k) && i < |Batches(w, limit, k + 1)|
    ensures q <= k && q * limit <= i < q * limit + limit && Enabled(w, q, Batches(w, limit, k + 1)[i])
    decreases k
  {
    BatchesLength(w, limit, k);
    if i < |Batches(w, limit, k)| {
      assert Full(w, limit, k - 1);
      q := EnabledWhenRead(w, limit, k - 1, i);
    } else {
      q := k;
      AllSound(w, limit, k);
      BatchAbove(w.reply(k).enabled, LastOf(Batches(w, limit, k)), limit);
      assert Batches(w, limit, k + 1)[i] == Batch(w, limit, k)[i - |Batches(w, limit, k)|];
    }
  }

  lemma BatchAscends(w: KeyedWorld, limit: nat, k: nat, n: nat)
    requires limit >= 1 && FullUntil(w, limit, k) && n <= |Batch(w, limit, k)|
    ensures Ascending(Batches(w, limit, k) + Batch(w, limit, k)[..n])
  {
    AllSound(w, limit, k);
    if w.reply(k).Rows? {
      BatchAbove(w.reply(k).enabled, LastOf(Batches(w, limit, k)), limit);
      JoinAscending(Batches(w, limit, k), Batch(w, limit, k)[..n], LastOf(Batches(w, limit, k)));
    } else {
      EmptyRest(Batches(w, limit, k), Batch(w, limit, k)[..n]);
    }
  }

  lemma EmptyRest(a: seq<int>, b: seq<int>)
    requires b == []
    ensures a + b == a
  {
  }

  /** However a scan ends, its visits ascend. */
  lemma VisitsAscend(w: KeyedWorld, limit: nat, k: nat, visited: seq<int>)
    requires limit >= 1
    requires FailedAt(w, limit, k, visited) || StoppedAt(w, limit, k, visited) || EndedAt(w, limit, k, visited)
    ensures Ascending(visited)
  {
    if FailedAt(w, limit, k, visited) {
      AllSound(w, limit, k);
    } else if EndedAt(w, limit, k, visited) {
      BatchAscends(w, limit, k, |Batch(w, limit, k)|);
      assert Batch(w, limit, k)[..|Batch(w, limit, k)|] == Batch(w, limit, k);
    } else {
      var n: nat :| w.cancelled(k, n) && n < |Batch(w, limit, k)| && visited == Batches(w, limit, k) + Batch(w, limit, k)[..n];
      BatchAscends(w, limit, k, n);
    }
  }

  /** No channel is visited twice. */
  lemma NoneTwice(w: KeyedWorld, limit: nat, k: nat, visited: seq<int>, i: nat, j: nat)
    requires limit >= 1 && i < j < |visited|
    requires FailedAt(w, limit, k, visited) || StoppedAt(w, limit, k, visited) || EndedAt(w, limit, k, visited)
    ensures visited[i] < visited[j]
  {
    VisitsAscend(w, limit, k, visited);
  }

  /** A complete scan has visited every channel that stayed enabled. */
  lemma NoneMissed(w: KeyedWorld, limit: nat, k: nat, visited: seq<int>, id: int)
    requires limit >= 1 && EndedAt(w, limit, k, visited) && Throughout(w, k + 1, id)
    ensures id in visited
  {
    AllSound(w, limit, k);
    Covered(w, k, LastOf(Batches(w, limit, k)), Batches(w, limit, k), limit, id);
  }

  /** How a scan can end: with a failed query, at a cancelled item, or complete. */
  ghost predicate Outcome(w: World, limit: nat, visited: seq<int>, queries: nat, complete: bool) {
    && Ascending(visited)
    && (if !complete then FailedAt(w, limit, queries, visited) || (queries > 0 && StoppedAt(w, limit, queries - 1, visited))
        else
          && queries > 0 && EndedAt(w, limit, queries - 1, visited)
          && forall id :: Throughout(w, queries, id) ==> id in visited)
  }

  lemma Fails(w: KeyedWorld, limit: nat, k: nat)
    requires limit >= 1 && FullUntil(w, limit, k) && !w.reply(k).Rows?
    ensures Outcome(w, limit, Batches(w, limit, k), k, false)
  {
    VisitsAscend(w, limit, k, Batches(w, limit, k));
  }

  lemma Stops(w: KeyedWorld, limit: nat, k: nat, n: nat)
    requires limit >= 1 && FullUntil(w, limit, k)
    requires n < |Batch(w, limit, k)| && w.cancelled(k, n) && Alive(w, k, n)
    ensures Outcome(w, limit, Batches(w, limit, k) + Batch(w, limit, k)[..n], k + 1, false)
  {
    var visited := Batches(w, limit, k) + Batch(w, limit, k)[..n];
    assert StoppedAt(w, limit, k, visited);
    VisitsAscend(w, limit, k, visited);
  }

  lemma Ends(w: KeyedWorld, limit: nat, k: nat)
    requires limit >= 1 && FullUntil(w, limit, k) && w.reply(k).Rows?
    requires |Batch(w, limit, k)| < limit && Alive(w, k, |Batch(w, limit, k)|)
    ensures Outcome(w, limit, Batches(w, limit, k + 1), k + 1, true)
  {
    var visited := Batches(w, limit, k + 1);
    VisitsAscend(w, limit, k, visited);
    forall id | Throughout(w, k + 1, id)
      ensures id in visited
    {
      NoneMissed(w, limit, k, visited, id);
    }
  }

  lemma GoesOn(w: KeyedWorld, limit: nat, k: nat)
    requires limit >= 1 && FullUntil(w, limit, k) && Full(w, limit, k)
    ensures FullUntil(w, limit, k + 1)
    ensures LastOf(Batches(w, limit, k)) < LastOf(Batches(w, limit, k + 1)) <= MAX_ID
  {
    AllSound(w, limit, k);
    SoundNext(w, limit, k);
  }

  /** The visits are the items of the batches in turn, so none is visited twice. A scan that is not
      complete has visited every batch before a failed query, or every item before the one at
      which the context was found cancelled; a complete scan has visited every channel that
      stayed enabled. */
  method Scan(w: KeyedWorld, limit: nat) returns (visited: seq<int>, queries: nat, complete: bool)
    requires limit >= 1
    ensures Outcome(w, limit, visited, queries, complete)
    ensures Undisturbed(w) ==> complete
  {
    visited, queries := [], 0;
    var lastID := 0;
    while true
      invariant FullUntil(w, limit, queries) && visited == Batches(w, limit, queries) && lastID == LastOf(visited)
      decreases MAX_ID - lastID
    {
      var reply := w.reply(queries);
      if !reply.Rows? {
        Fails(w, limit, queries);
        return visited, queries, false;
      }
      var channels := Query(reply.enabled, lastID, limit);
      assert channels == Batch(w, limit, queries);
      var n, cancelled := VisitBatch(w, queries, channels);
      if cancelled {
        Stops(w, limit, queries, n);
        return visited + channels[..n], queries + 1, false;
      }
      if |channels| < limit {
        Ends(w, limit, queries);
        return visited + channels, queries + 1, true;
      }
      GoesOn(w, limit, queries);
      visited, queries, lastID := visited + channels, queries + 1, channels[|channels| - 1];
    }
  }
}
