// The counters of the body cache (common/disk_cache_config.go) and what they
// mean over every sequential run: how many bodies are open and how large they are.

module CacheStats {

  datatype Counts = Counts(diskFiles: int, diskBytes: int, buffers: int, bufferBytes: int, diskHits: nat, memoryHits: nat)

  function AtLeastZero(n: int): int {
    if n < 0 then 0 else n
  }

  function Opened(c: Counts, disk: bool, size: nat): Counts {
    if disk then c.(diskFiles := c.diskFiles + 1, diskBytes := c.diskBytes + size)
    else c.(buffers := c.buffers + 1, bufferBytes := c.bufferBytes + size)
  }

  /** Only the disk counters are held at zero. */
  function Closed(c: Counts, disk: bool, size: nat): Counts {
    if disk then c.(diskFiles := AtLeastZero(c.diskFiles - 1), diskBytes := AtLeastZero(c.diskBytes - size))
    else c.(buffers := c.buffers - 1, bufferBytes := c.bufferBytes - size)
  }

  class Stats {
    var counts: Counts

    constructor ()
      ensures counts == Counts(0, 0, 0, 0, 0, 0)
    {
      counts := Counts(0, 0, 0, 0, 0, 0);
    }

    method IncrementDiskFiles(size: nat)
      modifies this
      ensures counts == Opened(old(counts), true, size)
    {
      counts := counts.(diskFiles := counts.diskFiles + 1);
      counts := counts.(diskBytes := counts.diskBytes + size);
    }

    method DecrementDiskFiles(size: nat)
      modifies this
      ensures counts == Closed(old(counts), true, size)
    {
      counts := counts.(diskFiles := counts.diskFiles - 1);
      if counts.diskFiles < 0 {
        counts := counts.(diskFiles := 0);
      }
      counts := counts.(diskBytes := counts.diskBytes - size);
      if counts.diskBytes < 0 {
        counts := counts.(diskBytes := 0);
      }
    }

    method IncrementMemoryBuffers(size: nat)
      modifies this
      ensures counts == Opened(old(counts), false, size)
    {
      counts := counts.(buffers := counts.buffers + 1);
      counts := counts.(bufferBytes := counts.bufferBytes + size);
    }

    method DecrementMemoryBuffers(size: nat)
      modifies this
      ensures counts == Closed(old(counts), false, size)
    {
      counts := counts.(buffers := counts.buffers - 1);
      counts := counts.(bufferBytes := counts.bufferBytes - size);
    }

    method CountHit(disk: bool)
      modifies this
      ensures counts == if disk then old(counts).(diskHits := old(counts).diskHits + 1)
                        else old(counts).(memoryHits := old(counts).memoryHits + 1)
    {
      if disk {
        counts := counts.(diskHits := counts.diskHits + 1);
      } else {
        counts := counts.(memoryHits := counts.memoryHits + 1);
      }
    }
  }

  // ---- Runs ---------------------------------------------------------------------------

  /** A storage ever created: its kind and size, whether it is open, whether its file is there. */
  datatype Entry = Entry(disk: bool, size: nat, open: bool, file: bool)

  datatype World = World(counts: Counts, entries: seq<Entry>)

  datatype Step = Open(disk: bool, size: nat) | Close(i: nat) | Cleanup(i: nat)

  const EMPTY := World(Counts(0, 0, 0, 0, 0, 0), [])

  /** Closing twice counts once; cleanup by age takes a file from the directory, open or not. */
  function Next(w: World, step: Step): World {
    match step
    case Open(disk, size) =>
      World(Opened(w.counts, disk, size), w.entries + [Entry(disk, size, true, disk)])
    case Close(i) =>
      if i < |w.entries| && w.entries[i].open then
        var e := w.entries[i];
        World(Closed(w.counts, e.disk, e.size), w.entries[i := e.(open := false, file := false)])
      else w
    case Cleanup(i) =>
      if i < |w.entries| && w.entries[i].file then
        var e := w.entries[i];
        World(Closed(w.counts, true, e.size), w.entries[i := e.(file := false)])
      else w
  }

  function Run(w: World, steps: seq<Step>): World {
    if steps == [] then w else Next(Run(w, steps[..|steps| - 1]), steps[|steps| - 1])
  }

  function Number(entries: seq<Entry>, disk: bool): nat {
    if entries == [] then 0
    else Number(entries[..|entries| - 1], disk) + (if Counted(entries[|entries| - 1], disk) then 1 else 0)
  }

  function Bytes(entries: seq<Entry>, disk: bool): nat {
    if entries == [] then 0
    else Bytes(entries[..|entries| - 1], disk) + (if Counted(entries[|entries| - 1], disk) then entries[|entries| - 1].size else 0)
  }

  predicate Counted(e: Entry, disk: bool) {
    e.open && e.disk == disk
  }

  /** The counters are the number and total size of the open storages of each kind. */
  predicate Exact(w: World) {
    && w.counts.diskFiles == Number(w.entries, true) && w.counts.diskBytes == Bytes(w.entries, true)
    && w.counts.buffers == Number(w.entries, false) && w.counts.bufferBytes == Bytes(w.entries, false)
  }

  /** Only an open disk storage has a file. */
  predicate FilesOpen(w: World) {
    forall i :: 0 <= i < |w.entries| && w.entries[i].file ==> w.entries[i].open && w.entries[i].disk
  }

  /** A cleanup that takes the file of a storage still open. */
  predicate TakesOpenFile(w: World, step: Step) {
    step.Cleanup? && step.i < |w.entries| && w.entries[step.i].file
  }

  lemma {:induction false} Changed(entries: seq<Entry>, i: nat, e: Entry, disk: bool)
    requires i < |entries| && e.size == entries[i].size
    ensures Number(entries[i := e], disk)
         == Number(entries, disk) - (if Counted(entries[i], disk) then 1 else 0) + (if Counted(e, disk) then 1 else 0)
    ensures Bytes(entries[i := e], disk)
         == Bytes(entries, disk) - (if Counted(entries[i], disk) then e.size else 0) + (if Counted(e, disk) then e.size else 0)
  {
    var last := |entries| - 1;
    if i < last {
      Changed(entries[..last], i, e, disk);
      assert entries[i := e][..last] == entries[..last][i := e];
    } else {
      assert entries[i := e][..last] == entries[..last];
    }
  }

  lemma {:induction false} Present(entries: seq<Entry>, i: nat, disk: bool)
    requires i < |entries| && Counted(entries[i], disk)
    ensures Number(entries, disk) >= 1 && Bytes(entries, disk) >= entries[i].size
  {
    if i < |entries| - 1 {
      Present(entries[..|entries| - 1], i, disk);
    }
  }

  lemma OpenExact(w: World, disk: bool, size: nat)
    requires Exact(w)
    ensures Exact(Next(w, Open(disk, size)))
  {
    assert (w.entries + [Entry(disk, size, true, disk)])[..|w.entries|] == w.entries;
  }

  lemma CloseExact(w: World, i: nat)
    requires Exact(w)
    ensures Exact(Next(w, Close(i)))
  {
    if i < |w.entries| && w.entries[i].open {
      var e := w.entries[i];
      Present(w.entries, i, e.disk);
      Changed(w.entries, i, e.(open := false, file := false), true);
      Changed(w.entries, i, e.(open := false, file := false), false);
    }
  }

  lemma CleanupInexact(w: World, i: nat)
    requires Exact(w) && FilesOpen(w)
    ensures Exact(Next(w, Cleanup(i))) <==> !TakesOpenFile(w, Cleanup(i))
  {
    if i < |w.entries| && w.entries[i].file {
      Present(w.entries, i, true);
      Changed(w.entries, i, w.entries[i].(file := false), true);
    }
  }

  lemma StepExact(w: World, step: Step)
    requires Exact(w) && FilesOpen(w)
    ensures Exact(Next(w, step)) <==> !TakesOpenFile(w, step)
  {
    match step
    case Open(disk, size) => OpenExact(w, disk, size);
    case Close(i) => CloseExact(w, i);
    case Cleanup(i) => CleanupInexact(w, i);
  }

  /** The counters are exact after every step. */
  predicate ExactThroughout(w: World, steps: seq<Step>) {
    Exact(Run(w, steps)) && (steps != [] ==> ExactThroughout(w, steps[..|steps| - 1]))
  }

  predicate NoOpenFileTaken(w: World, steps: seq<Step>) {
    steps == [] ||
    (NoOpenFileTaken(w, steps[..|steps| - 1]) && !TakesOpenFile(Run(w, steps[..|steps| - 1]), steps[|steps| - 1]))
  }

  lemma {:induction false} RunFilesOpen(steps: seq<Step>)
    ensures FilesOpen(Run(EMPTY, steps))
  {
    if steps != [] {
      RunFilesOpen(steps[..|steps| - 1]);
    }
  }

  /** The counters are exact all through a run exactly when no cleanup takes an open storage's file. */
  lemma {:induction false} ExactIff(steps: seq<Step>)
    ensures ExactThroughout(EMPTY, steps) <==> NoOpenFileTaken(EMPTY, steps)
  {
    if steps != [] {
      var init := steps[..|steps| - 1];
      ExactIff(init);
      if ExactThroughout(EMPTY, init) {
        RunFilesOpen(init);
        StepExact(Run(EMPTY, init), steps[|steps| - 1]);
      }
    }
  }

  /** Without cleanup the counters are always exact. */
  lemma {:induction false} ExactWithoutCleanup(steps: seq<Step>)
    requires forall i :: 0 <= i < |steps| ==> !steps[i].Cleanup?
    ensures Exact(Run(EMPTY, steps))
  {
    NothingTaken(steps);
    ExactIff(steps);
  }

  lemma {:induction false} NothingTaken(steps: seq<Step>)
    requires forall i :: 0 <= i < |steps| ==> !steps[i].Cleanup?
    ensures NoOpenFileTaken(EMPTY, steps)
  {
    if steps != [] {
      NothingTaken(steps[..|steps| - 1]);
    }
  }

  /** Whatever cleanup takes, the disk counters never fall below zero. */
  lemma {:induction false} DiskNeverNegative(steps: seq<Step>)
    ensures Run(EMPTY, steps).counts.diskFiles >= 0 && Run(EMPTY, steps).counts.diskBytes >= 0
  {
    if steps != [] {
      DiskNeverNegative(steps[..|steps| - 1]);
    }
  }

  /** Two open bodies; cleanup takes the file of the first, which is then closed: nothing is counted,
      and the second is still open. */
  lemma CleanupMiscounts(a: nat, b: nat) returns (steps: seq<Step>)
    ensures var w := Run(EMPTY, steps);
            w.counts.diskFiles == 0 && w.entries == [Entry(true, a, false, false), Entry(true, b, true, true)]
    ensures Number(Run(EMPTY, steps).entries, true) == 1
  {
    var opens := [Open(true, a)] + [Open(true, b)];
    steps := opens + [Cleanup(0)] + [Close(0)];
    OneStep(Open(true, a));
    RunSnoc(EMPTY, [Open(true, a)], Open(true, b));
    RunSnoc(EMPTY, opens, Cleanup(0));
    RunSnoc(EMPTY, opens + [Cleanup(0)], Close(0));
    var w := Run(EMPTY, opens);
    assert w.entries == [Entry(true, a, true, true), Entry(true, b, true, true)] && w.counts.diskFiles == 2;
    OneOfTwo(Entry(true, a, false, false), Entry(true, b, true, true));
  }

  lemma OneStep(step: Step)
    ensures Run(EMPTY, [step]) == Next(EMPTY, step)
  {
    assert [step][..0] == [];
  }

  lemma OneOfTwo(closed: Entry, open: Entry)
    requires !closed.open && Counted(open, true)
    ensures Number([closed, open], true) == 1
  {
    assert [closed, open][..1] == [closed];
    assert Number([closed], true) == 0;
  }

  lemma RunSnoc(w: World, steps: seq<Step>, step: Step)
    ensures Run(w, steps + [step]) == Next(Run(w, steps), step)
  {
    assert (steps + [step])[..|steps|] == steps;
  }
}
