/** Histories of the heap: what any sequence of guarded calls leaves in the table. */
module HeapRuns {
  import opened Ram
  import opened HeapTable

  /** One completed call: an allocation with the pointer it returned, or a free. */
  datatype HeapCall = Malloc(size: Word, ptr: Word) | Free(ptr: Word)

  /** The allocations a history leaves outstanding, by first block. */
  ghost function Ledger(calls: seq<HeapCall>): Runs {
    if calls == [] then map[]
    else
      var before, c := Ledger(calls[..|calls| - 1]), calls[|calls| - 1];
      match c
      case Malloc(size, p) => if p == 0 then before else before[BlockIndex(p) := Blocks(size)]
      case Free(p) => before - {BlockIndex(p)}
  }

  /** The code's effect of one call under its guard: room or a taken last block for an
      allocation, an outstanding pointer for a free. */
  ghost predicate GuardedStep(m: Mem, outstanding: Runs, c: HeapCall, m': Mem) {
    match c
    case Malloc(size, p) => Guard(m, Blocks(size)) && MallocEffect(m, size, p, m')
    case Free(p) => Start(outstanding, p) && MarkedFree(m, m', BlockIndex(p))
  }

  ghost predicate GuardedRun(ms: seq<Mem>, calls: seq<HeapCall>) {
    && |ms| == |calls| + 1
    && Encodes(ms[0], map[])
    && forall i :: 0 <= i < |calls| ==> GuardedStep(ms[i], Ledger(calls[..i]), calls[i], ms[i + 1])
  }

  /** After every guarded run the table is the chain encoding of exactly the outstanding allocations. */
  lemma {:induction false} TableIsLedger(ms: seq<Mem>, calls: seq<HeapCall>)
    requires GuardedRun(ms, calls)
    ensures Encodes(ms[|calls|], Ledger(calls))
  {
    hide Encodes, BlockIndex, Guard, MallocEffect;
    if calls != [] {
      var n := |calls| - 1;
      var before := calls[..n];
      forall i | 0 <= i < n ensures GuardedStep(ms[i], Ledger(before[..i]), before[i], ms[i + 1]) {
        assert before[..i] == calls[..i];
        assert GuardedStep(ms[i], Ledger(calls[..i]), calls[i], ms[i + 1]);
      }
      TableIsLedger(ms[..n + 1], before);
      StepEncodes(ms[n], Ledger(before), calls[n], ms[n + 1]);
    }
  }

  ghost function After(live: Runs, c: HeapCall): Runs {
    match c
    case Malloc(size, p) => if p == 0 then live else live[BlockIndex(p) := Blocks(size)]
    case Free(p) => live - {BlockIndex(p)}
  }

  lemma StepEncodes(m: Mem, live: Runs, c: HeapCall, m': Mem)
    requires Encodes(m, live) && GuardedStep(m, live, c, m')
    ensures Encodes(m', After(live, c))
  {
    match c
    case Malloc(size, p) =>
      MallocIffGuard(m, live, size, p, m');
      if p != 0 {
        var s :| p == BlockAddr(s) && NewRun(m, live, s, Blocks(size), m');
        BlockIndexOfBlock(s);
      }
    case Free(p) => FreeEncodes(m, m', live, BlockIndex(p));
  }

  /** Two histories with the same outstanding allocations leave the same table bytes. */
  lemma SameLedgerSameTable(ms: seq<Mem>, calls: seq<HeapCall>, ms': seq<Mem>, calls': seq<HeapCall>)
    requires GuardedRun(ms, calls) && GuardedRun(ms', calls') && Ledger(calls) == Ledger(calls')
    ensures Same(ms[|calls|], ms'[|calls'|], 0x7E00, 0x7E00 + 25600)
  {
    TableIsLedger(ms, calls);
    TableIsLedger(ms', calls');
    TableOfRuns(ms[|calls|], ms'[|calls'|], Ledger(calls));
  }

  /** Freeing everything leaves the all-zero table. */
  lemma AllFreedIsZero(ms: seq<Mem>, calls: seq<HeapCall>)
    requires GuardedRun(ms, calls) && Ledger(calls) == map[]
    ensures forall i :: 0 <= i < 25600 ==> Entry(ms[|calls|], i) == 0
  {
    TableIsLedger(ms, calls);
    assert forall i :: !Taken(Ledger(calls), i);
  }

  /** The byte ranges behind the live runs: page-aligned, inside the pool, pairwise disjoint. */
  lemma RangesDisjoint(live: Runs, s: int, t: int)
    requires WellFormed(live) && s in live && t in live && s != t
    ensures BlockAddr(s) % 4096 == 0 && 0x0100_0000 <= BlockAddr(s)
    ensures BlockAddr(s) + 4096 * live[s] <= 0x0100_0000 + 104857600
    ensures BlockAddr(s) + 4096 * live[s] <= BlockAddr(t) || BlockAddr(t) + 4096 * live[t] <= BlockAddr(s)
  {
    assert s < t ==> s + live[s] <= t;
    assert BlockAddr(s) == 4096 * (0x1000 + s);
  }

  /** An allocation followed by its free restores every byte of memory the two calls can touch. */
  lemma MallocFreeRestores(m: Mem, live: Runs, size: Word, p: Word, m1: Mem, m2: Mem)
    requires Encodes(m, live) && Guard(m, Blocks(size)) && MallocEffect(m, size, p, m1) && p != 0
    requires MarkedFree(m1, m2, BlockIndex(p))
    ensures m2 == m
  {
    MallocIffGuard(m, live, size, p, m1);
    var s :| p == BlockAddr(s) && NewRun(m, live, s, Blocks(size), m1);
    BlockIndexOfBlock(s);
    var live1 := live[s := Blocks(size)];
    AddRun(live, s, Blocks(size));
    FreeEncodes(m1, m2, live1, s);
    assert Covers(live1, s, s);
    ChainOfRun(m1, live1, s, s);
    assert live1 - {s} == live;
    TableOfRuns(m, m2, live);
    forall a: Word ensures m2[a] == m[a] {
      if !(0x7E00 <= a < 0x7E00 + 25600) { assert !(s <= Index(a) < s + Blocks(size)); }
    }
  }
}
