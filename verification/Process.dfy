/** process.c: the allocations of a process, kept in step with the kernel heap and
    the page tables of its task. */
module ProcessCode {
  import opened Ram
  import opened HeapTable
  import opened PageTables
  import opened Paging
  import opened Kheap
  import opened ProcessMemory

  class Process {
    const chunk: Frame
    const allocations: array<Slot>
    ghost const sh: Space
    const parts: Holdings
    var argc: int
    var argv: Word
    ghost const low: seq<Word>

    constructor (chunk: Frame, ghost sh: Space, parts: Holdings, ghost low: seq<Word>)
      ensures this.chunk == chunk && fresh(allocations)
      ensures View() == Proc(sh, parts, seq(1024, _ => Slot(0, 0)), low)
    {
      this.chunk := chunk;
      this.sh := sh;
      this.parts := parts;
      this.low := low;
      argc, argv := 0, 0;
      allocations := new Slot[1024](_ => Slot(0, 0));
      new;
      assert allocations[..] == seq(1024, _ => Slot(0, 0));
    }

    ghost function View(): Proc
      reads allocations
    {
      Proc(sh, parts, allocations[..], low)
    }

    ghost predicate Consistent(k: Machine)
      reads allocations, k, k.ram
    {
      k.Valid() && chunk == sh.chunk && allocations.Length == 1024 && Agree(k.ram[..], k.live, View())
    }

    method FindFreeAllocationIndex() returns (r: int)
      requires allocations.Length == 1024
      ensures r == -3 || 0 <= r < 1024
      ensures 0 <= r ==> allocations[r].ptr == 0
      ensures forall i :: 0 <= i < (if r < 0 then 1024 else r) ==> allocations[i].ptr != 0
    {
      r := -3;
      for i := 0 to 1024
        invariant r == -3 && forall j :: 0 <= j < i ==> allocations[j].ptr != 0
      {
        if allocations[i].ptr == 0 {
          r := i;
          break;
        }
      }
    }

    /** The slot of the first record with this address; -1 when there is none. */
    method GetAllocationByAddr(addr: Word) returns (r: int)
      requires allocations.Length == 1024
      ensures r == -1 || 0 <= r < 1024
      ensures 0 <= r ==> allocations[r].ptr == addr
      ensures forall i :: 0 <= i < (if r < 0 then 1024 else r) ==> allocations[i].ptr != addr
    {
      for i := 0 to 1024
        invariant forall j :: 0 <= j < i ==> allocations[j].ptr != addr
      {
        if allocations[i].ptr == addr {
          return i;
        }
      }
      r := -1;
    }

    method AllocationUnjoin(ptr: Word)
      requires allocations.Length == 1024
      modifies allocations
      ensures forall i :: 0 <= i < 1024 ==>
        allocations[i] == if old(allocations[i].ptr) == ptr then Slot(0, 0) else old(allocations[i])
    {
      for i := 0 to 1024
        invariant forall j :: 0 <= j < 1024 ==>
          allocations[j] == if j < i && old(allocations[j].ptr) == ptr then Slot(0, 0) else old(allocations[j])
      {
        if allocations[i].ptr == ptr {
          allocations[i] := Slot(0, 0);
        }
      }
    }

    /** Gives the process a zeroed, writable allocation; on failure nothing is recorded or kept. */
    method Malloc(k: Machine, size: Word) returns (p: Word)
      requires Consistent(k) && Guard(k.ram[..], Blocks(size))
      modifies k, k.ram, allocations
      ensures Consistent(k)
      ensures p == 0 <==>
        !SomeFit(old(k.ram[..]), Blocks(size)) || forall i :: 0 <= i < 1024 ==> old(allocations[i].ptr) != 0
      ensures p == 0 ==> allocations[..] == old(allocations[..]) && k.live == old(k.live)
      ensures p == 0 ==> forall v: Page :: Pte(k.ram[..], sh, v) == Pte(old(k.ram[..]), sh, v)
      ensures p != 0 ==> Recorded(old(allocations[..]), allocations[..], Slot(p, size))
      ensures p != 0 ==> Allocated(old(k.live), size, p, k.live) && BlockIndex(p) !in old(k.live)
      ensures p != 0 ==> FirstFit(old(k.ram[..]), Blocks(size), p)
      ensures p != 0 ==> p + size <= 0x0740_0000 && forall a: Word :: p <= a < p + size ==> k.ram[a] == 0
      ensures p != 0 ==> forall v: Page ::
        Pte(k.ram[..], sh, v) == if p <= 4096 * v < p + size then 4096 * v + 7 else Pte(old(k.ram[..]), sh, v)
      ensures Confined(old(k.ram[..]), old(k.live), old(View()), k.ram[..], k.live)
      ensures SameLow(old(k.ram[..]), k.ram[..]) && KeptLive(old(k.ram[..]), old(k.live), k.ram[..], sh)
    {
      hide WordAt, BlockIndex, Agree, Pte, Confined, Allocated, KeptLive;
      ghost var m, live, v0 := k.ram[..], k.live, View();
      NothingConfined(m, live, v0);
      p := k.Kzalloc(size);
      if p == 0 {
        return;
      }
      ghost var m1, live1 := k.ram[..], k.live;
      FreshRun(m, live, v0, size, p, m1, live1);
      var index := FindFreeAllocationIndex();
      if index >= 0 {
        EndOfRun(p, size);
        var res := MapTo(k.ram, chunk, p, p, AlignAddress(p + size), 7, sh);
        if res == 0 {
          allocations[index] := Slot(p, size);
          MallocRecorded(m, live, v0, size, p, m1, live1, index, k.ram[..]);
          MallocEntries(m, live, v0, size, p, m1, live1, k.ram[..]);
          assert Recorded(v0.slots, allocations[..], Slot(p, size));
          return;
        }
      }
      k.Free(p);
      MallocUndone(m, live, v0, size, p, m1, live1, k.ram[..]);
      p := 0;
    }

    /** Unmaps, forgets and frees a recorded allocation; ignores pointers it has no record of.
        The null pointer is found in an empty slot, and the heap is then asked to free it. */
    method Free(k: Machine, ptr: Word)
      requires Consistent(k) && (ptr == 0 ==> LowStop(k.ram[..]))
      modifies k, k.ram, allocations
      ensures Consistent(k) && Confined(old(k.ram[..]), old(k.live), old(View()), k.ram[..], k.live)
      ensures Unrecorded(old(allocations[..]), allocations[..], old(k.live), k.live, ptr)
      ensures ptr == 0 || (forall i :: 0 <= i < 1024 ==> old(allocations[i].ptr) != ptr) ==>
        forall v: Page :: Pte(k.ram[..], sh, v) == Pte(old(k.ram[..]), sh, v)
      ensures forall i, v: Page :: 0 <= i < 1024 && old(allocations[i].ptr) == ptr != 0 ==>
        Pte(k.ram[..], sh, v) ==
          if ptr <= 4096 * v < ptr + old(allocations[i].size) then 4096 * v else Pte(old(k.ram[..]), sh, v)
      ensures ptr != 0 ==> SameLow(old(k.ram[..]), k.ram[..])
      ensures old(LowStop(k.ram[..])) ==> LowStop(k.ram[..])
    {
      hide WordAt, BlockIndex, Agree, Pte, Confined, LowStop;
      ghost var m, live, v0 := k.ram[..], k.live, View();
      NothingConfined(m, live, v0);
      var a := GetAllocationByAddr(ptr);
      if a < 0 {
        return;
      }
      SlotFacts(m, live, v0, a);
      var size := allocations[a].size;
      var res := MapTo(k.ram, chunk, ptr, ptr, AlignAddress(ptr + size), 0, sh);
      if res < 0 {
        return;
      }
      ghost var m1: Mem := k.ram[..];
      TablesKeep(m, live, v0, m1);
      AllocationUnjoin(ptr);
      k.Free(ptr);
      if ptr == 0 {
        if LowStop(m) { LowStopKept(m, m1); }
        assert allocations[..] == v0.slots;
        NullFreed(m, live, v0, m1, k.ram[..]);
      } else {
        assert allocations[..] == v0.slots[a := Slot(0, 0)];
        FreeErased(m, live, v0, a, m1, k.ram[..], k.live, View());
        if LowStop(m) { LowStopKept(m, k.ram[..]); }
      }
    }

    /** Frees every recorded allocation; empty slots reach the heap as null pointers. */
    method TerminateAllocations(k: Machine)
      requires Consistent(k) && LowStop(k.ram[..])
      modifies k, k.ram, allocations
      ensures Consistent(k) && LowStop(k.ram[..])
      ensures forall i :: 0 <= i < 1024 ==> allocations[i] == Slot(0, 0)
      ensures k.live == old(k.live) - SlotRuns(old(allocations[..]))
      ensures Confined(old(k.ram[..]), old(k.live), old(View()), k.ram[..], k.live)
    {
      hide WordAt, BlockIndex, Agree, Pte, Confined, LowStop, SlotRuns, Unrecorded, Encodes;
      ghost var m, live, v0 := k.ram[..], k.live, View();
      NothingConfined(m, live, v0);
      assert SlotRuns(v0.slots[..0]) == {} by { NoRuns(v0.slots[..0]); }
      for i := 0 to 1024
        invariant Consistent(k) && LowStop(k.ram[..])
        invariant ClearedUpTo(v0.slots, allocations[..], i)
        invariant k.live == live - SlotRuns(v0.slots[..i])
        invariant Confined(m, live, v0, k.ram[..], k.live)
      {
        ghost var m1, live1, v1 := k.ram[..], k.live, View();
        SlotFacts(m1, live1, v1, i);
        Free(k, allocations[i].ptr);
        NextCleared(v0.slots, v1.slots, allocations[..], live1, k.live, i);
        SlotRunsNext(v0.slots, i);
        ConfinedTrans(m, live, v0, m1, live1, v1, k.ram[..], k.live) by { SlotRunsSuffix(v0.slots, v1.slots, i); }
      }
      assert v0.slots[..1024] == v0.slots;
    }
  }

  /** The first empty slot of `s` received `a`. */
  ghost predicate Recorded(s: seq<Slot>, s': seq<Slot>, a: Slot) {
    exists i :: 0 <= i < |s| && s[i].ptr == 0 && (forall j :: 0 <= j < i ==> s[j].ptr != 0) && s' == s[i := a]
  }

  /** What an allocation tells about the whole process. */
  lemma MallocStays(m: Mem, live: Runs, p: Proc, m1: Mem, live1: Runs, p1: Proc, a: Slot)
    requires Confined(m, live, p, m1, live1) && SameLow(m, m1) && p1 == p.(slots := p1.slots)
    requires if a.ptr == 0 then p1.slots == p.slots else Recorded(p.slots, p1.slots, a) && BlockIndex(a.ptr) !in live
    ensures Stays(m, live, p, m1, live1, p1)
  {
    hide Confined, BlockIndex;
    if a.ptr != 0 {
      var i :| 0 <= i < |p.slots| && p.slots[i].ptr == 0 && (forall j :: 0 <= j < i ==> p.slots[j].ptr != 0)
        && p1.slots == p.slots[i := a];
      SlotRunsSet(p.slots, i, a);
    }
  }

  /** The record of `ptr`, if there is one, was cleared and its run released. */
  ghost predicate Unrecorded(s: seq<Slot>, s': seq<Slot>, live: Runs, live': Runs, ptr: Word) {
    if ptr != 0 && exists i :: 0 <= i < |s| && s[i].ptr == ptr then
      live' == live - {BlockIndex(ptr)} && exists i :: 0 <= i < |s| && s[i].ptr == ptr && s' == s[i := Slot(0, 0)]
    else s' == s && live' == live
  }

  /** The first `i` slots were emptied, the others are as they were. */
  ghost predicate ClearedUpTo(s: seq<Slot>, s': seq<Slot>, i: int) {
    && |s'| == |s|
    && (forall j :: 0 <= j < i && j < |s| ==> s'[j] == Slot(0, 0))
    && (forall j :: i <= j < |s| ==> 0 <= j && s'[j] == s[j])
  }

  lemma NextCleared(s: seq<Slot>, s1: seq<Slot>, s2: seq<Slot>, live1: Runs, live2: Runs, i: int)
    requires 0 <= i < |s| && ClearedUpTo(s, s1, i) && Unrecorded(s1, s2, live1, live2, s1[i].ptr)
    requires s1[i].ptr == 0 ==> s1[i] == Slot(0, 0)
    requires forall j :: 0 <= j < |s| && j != i && s1[i].ptr != 0 ==> s1[j].ptr != s1[i].ptr
    ensures ClearedUpTo(s, s2, i + 1)
    ensures live2 == live1 - (if s[i].ptr != 0 then {BlockIndex(s[i].ptr)} else {})
  {
    hide BlockIndex;
    assert s1[i] == s[i];
  }

  lemma NoRuns(s: seq<Slot>)
    requires s == []
    ensures SlotRuns(s) == {}
  {
  }

  lemma SlotRunsNext(s: seq<Slot>, i: int)
    requires 0 <= i < |s|
    ensures SlotRuns(s[..i + 1]) == SlotRuns(s[..i]) + (if s[i].ptr != 0 then {BlockIndex(s[i].ptr)} else {})
  {
    hide BlockIndex;
    var t := s[..i + 1];
    forall b | b in SlotRuns(s[..i]) ensures b in SlotRuns(t) {
      var j :| 0 <= j < i && s[j].ptr != 0 && b == BlockIndex(s[j].ptr);
      assert t[j].ptr != 0;
    }
    assert t[i] == s[i];
    forall b | b in SlotRuns(t) && (s[i].ptr == 0 || b != BlockIndex(s[i].ptr)) ensures b in SlotRuns(s[..i]) {
      var j :| 0 <= j <= i && t[j].ptr != 0 && b == BlockIndex(t[j].ptr);
      assert s[..i][j].ptr != 0;
    }
  }

  lemma SlotRunsSuffix(s: seq<Slot>, s': seq<Slot>, i: int)
    requires 0 <= i <= |s| && ClearedUpTo(s, s', i)
    ensures SlotRuns(s') <= SlotRuns(s)
  {
    forall b | b in SlotRuns(s') ensures b in SlotRuns(s) {
      var j :| 0 <= j < |s'| && s'[j].ptr != 0 && b == BlockIndex(s'[j].ptr);
      assert s[j].ptr != 0;
    }
  }
}
