/** Whole runs: any sequence of loads, exits, allocations, frees, string copies and
    user-mode stores by any number of processes. */
module SystemRun {
  import opened Ram
  import opened HeapTable
  import opened PageTables
  import opened Paging
  import opened Kheap
  import opened ProcessMemory
  import opened ProcessCode
  import opened Loader
  import opened LoadProcess
  import opened TaskMemory
  import opened Protection
  import opened Placement
  import opened Arguments
  import opened TaskList
  import opened TaskLinks

  /** The table of processes, by process number. */
  type Table = ps: seq<Process?> | |ps| == 12 ghost witness seq(12, _ => null)

  ghost function Arrays(ps: Table): set<object> {
    set i | 0 <= i < 12 && ps[i] != null :: ps[i].allocations
  }

  ghost function Views(ps: Table): map<int, Proc>
    reads Arrays(ps)
  {
    map i | 0 <= i < 12 && ps[i] != null :: ps[i].View()
  }

  ghost predicate Separate(ps: Table) {
    && (forall i :: 0 <= i < 12 && ps[i] != null ==> ps[i].chunk == ps[i].sh.chunk && ps[i].allocations.Length == 1024)
    && (forall i, j :: 0 <= i < j < 12 && ps[i] != null && ps[j] != null ==>
          ps[i] != ps[j] && ps[i].allocations != ps[j].allocations)
  }

  /** Processes, heap, page tables and the list of tasks fit together. */
  ghost predicate Sys(k: Machine, s: Scheduler, ps: Table)
    reads k, k.ram, s, Arrays(ps)
  {
    && k.ram.Length == 0x1_0000_0000 && LowStop(k.ram[..]) && Separate(ps)
    && AllAgree(k.ram[..], k.live, Views(ps)) && Scheduled(k.ram[..], s.View(), s.order, Views(ps))
  }

  // ---- the end of a process -----------------------------------------------

  /** The tasks of other processes are blocks that do not go with this one. */
  ghost predicate OtherTasks(live: Runs, p: Proc, ts: seq<Frame>) {
    forall t :: t in ts && t != p.parts.task ==> OneBlock(live, t) && BlockIndex(t) !in OwnRuns(p)
  }

  lemma NoSlotRuns(slots: seq<Slot>)
    requires forall i :: 0 <= i < |slots| ==> slots[i] == Slot(0, 0)
    ensures SlotRuns(slots) == {}
  {
  }

  /** The runs of the file, its record and the stack. */
  ghost function DataParts(q: Holdings): set<int> {
    {BlockIndex(q.image), BlockIndex(q.elf), BlockIndex(q.stack)}
  }

  lemma PartsStand(m: Mem, live: Runs, p: Proc)
    requires Agree(m, live, p)
    ensures PartsApart(p.parts) && Start(live, p.parts.image) && Start(live, p.parts.elf) && Start(live, p.parts.stack)
    ensures Owned(live - DataParts(p.parts), p.sh) && Owned(live, p.sh) && Wired(m, p.sh)
    ensures Start(live - DataParts(p.parts) - BlocksOf(Foot(p.sh)), p.parts.task) && TaskStands(live, p)
  {
    hide WordAt, Pte, BlockIndex, RecordsAgree, PagesAgree;
    forall t | t in Foot(p.sh) ensures BlockIndex(t) !in DataParts(p.parts) {
      assert BlockIndex(t) in BlocksOf(Foot(p.sh));
    }
  }

  /** The file, its record and the stack. */
  method FreeParts(k: Machine, p: Process)
    requires k.Valid() && Owned(k.live, p.sh) && Wired(k.ram[..], p.sh) && PartsApart(p.parts)
    requires Start(k.live, p.parts.image) && Start(k.live, p.parts.elf) && Start(k.live, p.parts.stack)
    modifies k, k.ram
    ensures k.Valid() && k.live == old(k.live) - DataParts(p.parts)
    ensures OnlyTable(old(k.ram[..]), k.ram[..]) && Wired(k.ram[..], p.sh)
  {
    hide WordAt, BlockIndex, Encodes, Owned, Wired;
    ghost var m, live := k.ram[..], k.live;
    k.Free(p.parts.image);
    k.Free(p.parts.elf);
    k.Free(p.parts.stack);
    EncodesWell(m, live);
    WiredKept(m, k.ram[..], live, p.sh);
    assert k.live == live - {BlockIndex(p.parts.image)} - {BlockIndex(p.parts.elf)} - {BlockIndex(p.parts.stack)};
  }

  /** Changes to the heap table, and runs of the process that go, keep a step confined. */
  lemma ConfinedTable(m: Mem, live: Runs, p: Proc, m1: Mem, live1: Runs, m2: Mem, live2: Runs)
    requires WellFormed(live) && Confined(m, live, p, m1, live1) && OnlyTable(m1, m2) && !HeapPage(p.parts.task)
    requires forall b :: b in live1 && b !in OwnRuns(p) ==> b in live2 && live2[b] == live1[b]
    ensures Confined(m, live, p, m2, live2)
  {
    hide OwnRuns;
    forall t: Frame | !HeapPage(t) && SamePage(m, m1, t) ensures SamePage(m, m2, t) { assert SamePage(m1, m2, t); }
    forall b, t: Frame | b !in OwnRuns(p) && Covers(live, b, t / 4096 - 0x1000) ensures SamePage(m, m2, t) {
      CoveredInPool(live, b, t);
    }
  }

  /** The same link write on two memories that agree on a page. */
  lemma CutSame(m: Mem, m': Mem, t: Frame, u: Frame)
    requires SamePage(m, m', t) && SamePage(m, m', u) && PrevOf(m, t) % 4096 == 0
    ensures PrevOf(m', t) == PrevOf(m, t) && NextOf(m', t) == NextOf(m, t) && SamePage(Cut(m, t), Cut(m', t), u)
  {
    hide NextOf, PrevOf, WordAt;
    SameLinks(m, m', t);
    NextWrite(m, PrevOf(m, t), NextOf(m, t));
  }

  lemma CutConfined(m: Mem, live: Runs, p: Proc, m1: Mem, live1: Runs)
    requires Confined(m, live, p, m1, live1) && PrevOf(m, p.parts.task) % 4096 == 0
    ensures PrevOf(m1, p.parts.task) == PrevOf(m, p.parts.task) && NextOf(m1, p.parts.task) == NextOf(m, p.parts.task)
    ensures Confined(Cut(m, p.parts.task), live, p, Cut(m1, p.parts.task), live1)
  {
    hide NextOf, PrevOf, WordAt, OwnRuns, Cut;
    var t := p.parts.task;
    CutSame(m, m1, t, t);
    forall u: Frame | SamePage(m, m1, u) ensures SamePage(Cut(m, t), Cut(m1, t), u) { CutSame(m, m1, t, u); }
  }

  /** A link write in the pool leaves the heap alone. */
  lemma PoolWrite(m: Mem, live: Runs, t: Frame)
    requires Encodes(m, live) && PrevOf(m, t) % 4096 == 0 && NullOrPool(PrevOf(m, t))
    ensures Encodes(Cut(m, t), live) && SameLow(m, Cut(m, t))
  {
    hide NextOf, PrevOf, WordAt, Encodes, Cut;
    CutLinks(m, t);
    forall u: Frame | HeapPage(u) ensures SamePage(m, Cut(m, t), u) {}
    TableUntouched(m, Cut(m, t), live);
    SameLowPages(m, Cut(m, t));
  }

  lemma TasksKept(m: Mem, live: Runs, p: Proc, m1: Mem, live1: Runs, q: Queue, ts: seq<Frame>)
    requires Confined(m, live, p, m1, live1) && OtherTasks(live, p, ts) && ListOk(m, q, ts)
    ensures ListOk(m1, q, ts)
  {
    hide NextOf, PrevOf, BlockIndex, OwnRuns, ListOk;
    forall t | t in ts ensures SamePage(m, m1, t) {
      if t != p.parts.task { TaskCovered(live, t); }
    }
    SameForward(m, m1, q, ts);
  }

  lemma TaskCovered(live: Runs, t: Frame)
    requires OneBlock(live, t)
    ensures Covers(live, BlockIndex(t), t / 4096 - 0x1000)
  {
  }

  /** Freeing a record leaves the rest of the list. */
  lemma ListAfterFree(m: Mem, m': Mem, live: Runs, p: Proc, q: Queue, ts: seq<Frame>, x: int)
    requires WellFormed(live) && OtherTasks(live, p, ts) && OnlyTable(m, m') && !HeapPage(p.parts.task) && 0 <= x < |ts|
    ensures ListOk(m', q, Without(ts, x)) <==> ListOk(m, q, Without(ts, x))
  {
    hide NextOf, PrevOf, BlockIndex, OwnRuns, ListOk, Without;
    var us := Without(ts, x);
    forall t | t in us ensures SamePage(m, m', t) && SamePage(m', m, t) {
      StillThere(ts, x, t);
      if t != p.parts.task { OneBlockInPool(live, t); }
    }
    SameForward(m, m', q, us);
    SameForward(m', m, q, us);
  }

  /** What is left of the heap. */
  lemma RunsGone(m: Mem, live: Runs, p: Proc, live1: Runs, live2: Runs)
    requires Agree(m, live, p) && live1 == live - SlotRuns(p.slots)
    requires live2 == live1 - DataParts(p.parts) - BlocksOf(Foot(p.sh)) - {BlockIndex(p.parts.task)}
    ensures live2 == live - (OwnRuns(p) - {BlockIndex(p.parts.record)})
    ensures forall b :: b in live1 && b !in OwnRuns(p) ==> b in live2 && live2[b] == live1[b]
  {
    hide WordAt, Pte, BlockIndex, RecordsAgree, PagesAgree, LowConfined, SlotRuns, BlocksOf, Foot;
    var q := p.parts;
    assert PartRuns(q) - {BlockIndex(q.record)} == DataParts(q) + {BlockIndex(q.task)} by { PartsSplit(q); }
    assert OwnRuns(p) - {BlockIndex(q.record)}
      == SlotRuns(p.slots) + DataParts(q) + BlocksOf(Foot(p.sh)) + {BlockIndex(q.task)};
  }

  lemma PartsSplit(q: Holdings)
    requires PartsApart(q)
    ensures PartRuns(q) - {BlockIndex(q.record)} == DataParts(q) + {BlockIndex(q.task)}
  {
    hide BlockIndex;
  }

  lemma BackSame(m: Mem, m': Mem, q: Queue, ts: seq<Frame>, x: int)
    requires 0 <= x < |ts| && PrevOf(m', ts[x]) == PrevOf(m, ts[x]) && NextOf(m', ts[x]) == NextOf(m, ts[x])
    ensures (Unlinkable(m', ts, x) <==> Unlinkable(m, ts, x)) && Left(m', q, ts[x]) == Left(m, q, ts[x])
  {
    hide PrevOf, NextOf;
  }

  lemma OnlyTableTwice(m: Mem, m1: Mem, m2: Mem)
    requires (OnlyTable(m, m1) || m1 == m) && OnlyTable(m1, m2)
    ensures OnlyTable(m, m2) && SameLow(m, m2)
  {
  }

  /** `process_terminate`: allocations, file, file record, stack, address space and task record are given back,
      and the process record is not. Besides that memory exactly one word changes: the next link at whatever
      the back link of the task leads to. */
  method Terminate(k: Machine, s: Scheduler, p: Process, ghost x: int)
    requires p.Consistent(k) && LowStop(k.ram[..]) && s.Valid(k.ram[..])
    requires 0 <= x < |s.order| && s.order[x] == p.parts.task && OtherTasks(k.live, p.View(), s.order)
    requires NullOrPool(PrevOf(k.ram[..], p.parts.task))
    modifies k, k.ram, s, p.allocations
    ensures k.Valid() && LowStop(k.ram[..])
    ensures k.live == old(k.live) - (OwnRuns(old(p.View())) - {BlockIndex(p.parts.record)})
    ensures old(PrevOf(k.ram[..], p.parts.task)) % 4096 == 0
    ensures Confined(Cut(old(k.ram[..]), p.parts.task), old(k.live), old(p.View()), k.ram[..], k.live)
    ensures s.View() == Left(old(k.ram[..]), old(s.View()), p.parts.task) && s.order == Without(old(s.order), x)
    ensures s.Valid(k.ram[..]) <==> old(Unlinkable(k.ram[..], s.order, x))
  {
    hide WordAt, Pte, BlockIndex, Confined, LowStop, Encodes, RecordsAgree, PagesAgree, ListOk, Forward, Unlinkable,
      NextOf, PrevOf, Cut, Left, Without, OtherTasks, Agree, OwnRuns, SamePage, OnlyTable, SlotRuns, Owned, Wired,
      Start, BlocksOf, NullOrPool, DataParts, HeapPage, PartsApart, Foot, FixedRuns, WellFormed, TaskStands,
      SameLow;
    ghost var m, live, v, q, ts := k.ram[..], k.live, p.View(), s.View(), s.order;
    ghost var t := p.parts.task;
    BackAligned(m, q, ts, x);
    p.TerminateAllocations(k);
    ghost var m1, live1, v1 := k.ram[..], k.live, p.View();
    PartsStand(m1, live1, v1);
    FreeParts(k, p);
    ghost var m2: Mem := k.ram[..];
    Free4gb(k, p.chunk, p.sh);
    ghost var m3, live3 := k.ram[..], k.live;
    OnlyTableTwice(m1, m2, m3);
    Taskless(m, live, v);
    RunsGone(m, live, v, live1, live3 - {BlockIndex(t)});
    ConfinedTable(m, live, v, m1, live1, m3, live3 - {BlockIndex(t)});
    TasksKept(m, live, v, m3, live3 - {BlockIndex(t)}, q, ts);
    CutConfined(m, live, v, m3, live3 - {BlockIndex(t)});
    s.Remove(k.ram, p.parts.task, x);
    ghost var m4: Mem := k.ram[..];
    PoolWrite(m3, live3, t);
    k.Free(p.parts.task);
    ConfinedTable(Cut(m, t), live, v, m4, k.live, k.ram[..], k.live);
    ListAfterFree(m4, k.ram[..], live, v, s.View(), ts, x);
    BackSame(m, m3, q, ts, x);
    OnlyTableTwice(m4, m4, k.ram[..]);
    LowStopKept(m1, m3);
    LowStopKept(m3, m4);
    LowStopKept(m4, k.ram[..]);
  }

  lemma Taskless(m: Mem, live: Runs, p: Proc)
    requires Agree(m, live, p)
    ensures WellFormed(live) && !HeapPage(p.parts.task)
  {
    hide WordAt, Pte, BlockIndex, RecordsAgree, PagesAgree, LowConfined;
    TaskInPool(live, p);
  }

  /** Processes other than `i` translate every address as before. */
  ghost predicate OthersSee(m: Mem, m': Mem, ps: Table, i: int) {
    forall j, v: Page :: 0 <= j < 12 && j != i && ps[j] != null ==> Pte(m', ps[j].sh, v) == Pte(m, ps[j].sh, v)
  }

  lemma SysOne(k: Machine, s: Scheduler, ps: Table, i: int)
    requires Sys(k, s, ps) && 0 <= i < 12 && ps[i] != null
    ensures i in Views(ps) && ps[i].Consistent(k)
  {
    hide Agree, LowStop, OwnRuns;
    assert Views(ps)[i] == ps[i].View();
  }

  method SysMalloc(k: Machine, s: Scheduler, ps: Table, i: int, size: Word) returns (r: Word)
    requires Sys(k, s, ps) && 0 <= i < 12 && ps[i] != null && Guard(k.ram[..], Blocks(size))
    modifies k, k.ram, ps[i].allocations
    ensures Sys(k, s, ps) && OthersSee(old(k.ram[..]), k.ram[..], ps, i)
    ensures OthersKeep(old(k.ram[..]), old(k.live), k.ram[..], k.live, old(Views(ps)), i)
    ensures UnownedKeep(old(k.ram[..]), old(k.live), old(Views(ps)), k.ram[..], k.live, Views(ps), {})
    ensures LineOf(k.ram[..], s.order) == old(LineOf(k.ram[..], s.order))
    ensures if r == 0 then ps[i].allocations[..] == old(ps[i].allocations[..]) && k.live == old(k.live)
      else
        && Recorded(old(ps[i].allocations[..]), ps[i].allocations[..], Slot(r, size))
        && Allocated(old(k.live), size, r, k.live)
    ensures forall v: Page ::
      Pte(k.ram[..], ps[i].sh, v) ==
        if r != 0 && r <= 4096 * v < r + size then 4096 * v + 7 else Pte(old(k.ram[..]), ps[i].sh, v)
    ensures r != 0 ==> r + size <= 0x0740_0000 && forall a: Word :: r <= a < r + size ==> k.ram[a] == 0
  {
    hide Scheduled, TasksSame, SameLow, WordAt, Pte, BlockIndex, Agree, Confined, OwnRuns, LowStop, Allocated,
      OthersKeep, UnownedKeep, LineOf;
    ghost var m, live, vs := k.ram[..], k.live, Views(ps);
    SysOne(k, s, ps, i);
    r := ps[i].Malloc(k, size);
    ghost var v1 := ps[i].View();
    assert Views(ps) == vs[i := v1];
    if r != 0 { MallocRuns(vs[i], v1, Slot(r, size)); }
    StepKeeps(m, live, vs, i, k.ram[..], k.live, v1);
    NothingUnowned(m, live, vs);
    UnownedStep(m, live, vs, i, m, k.ram[..], k.live, Views(ps), {});
    ScheduledKept(m, k.ram[..], s.View(), s.order, vs, Views(ps));
    forall j | 0 <= j < 12 && j != i && ps[j] != null ensures j in vs && vs[j].sh == ps[j].sh {}
    LowStopKept(m, k.ram[..]);
  }

  lemma MallocRuns(p: Proc, p': Proc, s: Slot)
    requires p' == p.(slots := p'.slots) && Recorded(p.slots, p'.slots, s) && s.ptr != 0
    ensures OwnRuns(p') == OwnRuns(p) + {BlockIndex(s.ptr)}
  {
    var i :| 0 <= i < |p.slots| && p.slots[i].ptr == 0 && (forall j :: 0 <= j < i ==> p.slots[j].ptr != 0)
      && p'.slots == p.slots[i := s];
    SlotRunsSet(p.slots, i, s);
  }

  method SysFree(k: Machine, s: Scheduler, ps: Table, i: int, ptr: Word)
    requires Sys(k, s, ps) && 0 <= i < 12 && ps[i] != null
    modifies k, k.ram, ps[i].allocations
    ensures Sys(k, s, ps) && OthersSee(old(k.ram[..]), k.ram[..], ps, i)
    ensures OthersKeep(old(k.ram[..]), old(k.live), k.ram[..], k.live, old(Views(ps)), i)
    ensures UnownedKeep(old(k.ram[..]), old(k.live), old(Views(ps)), k.ram[..], k.live, Views(ps), {})
    ensures LineOf(k.ram[..], s.order) == old(LineOf(k.ram[..], s.order))
    ensures Unrecorded(old(ps[i].allocations[..]), ps[i].allocations[..], old(k.live), k.live, ptr)
    ensures ptr == 0 || (forall q :: 0 <= q < 1024 ==> old(ps[i].allocations[q].ptr) != ptr) ==>
      forall v: Page :: Pte(k.ram[..], ps[i].sh, v) == Pte(old(k.ram[..]), ps[i].sh, v)
    ensures forall q, v: Page :: 0 <= q < 1024 && old(ps[i].allocations[q].ptr) == ptr != 0 ==>
      Pte(k.ram[..], ps[i].sh, v) ==
        if ptr <= 4096 * v < ptr + old(ps[i].allocations[q].size) then 4096 * v
        else Pte(old(k.ram[..]), ps[i].sh, v)
  {
    hide Scheduled, TasksSame, SameLow, WordAt, Pte, BlockIndex, Agree, Confined, OwnRuns, LowStop, OthersKeep,
      UnownedKeep, LineOf;
    ghost var m, live, vs := k.ram[..], k.live, Views(ps);
    SysOne(k, s, ps, i);
    ps[i].Free(k, ptr);
    ghost var v1 := ps[i].View();
    assert Views(ps) == vs[i := v1];
    FreeRuns(vs[i], v1, live, k.live, ptr);
    StepKeeps(m, live, vs, i, k.ram[..], k.live, v1);
    NothingUnowned(m, live, vs);
    UnownedStep(m, live, vs, i, m, k.ram[..], k.live, Views(ps), {});
    ScheduledKept(m, k.ram[..], s.View(), s.order, vs, Views(ps));
    forall j | 0 <= j < 12 && j != i && ps[j] != null ensures j in vs && vs[j].sh == ps[j].sh {}
  }

  lemma FreeRuns(p: Proc, p': Proc, live: Runs, live': Runs, ptr: Word)
    requires p' == p.(slots := p'.slots) && Unrecorded(p.slots, p'.slots, live, live', ptr)
    ensures OwnRuns(p') <= OwnRuns(p)
  {
    if p'.slots != p.slots {
      var i :| 0 <= i < |p.slots| && p.slots[i].ptr == ptr && p'.slots == p.slots[i := Slot(0, 0)];
      forall b | b in SlotRuns(p'.slots) ensures b in SlotRuns(p.slots) {
        var j :| 0 <= j < |p'.slots| && p'.slots[j].ptr != 0 && b == BlockIndex(p'.slots[j].ptr);
        assert p.slots[j].ptr != 0;
      }
    }
  }

  method SysCopy(k: Machine, s: Scheduler, ps: Table, i: int, va: Word, pa: Word, max: int)
    returns (r: int, ghost t: seq<Byte>)
    requires Sys(k, s, ps) && 0 <= i < 12 && ps[i] != null && 0 < max && KernelBuffer(pa, max)
    modifies k, k.ram
    ensures Sys(k, s, ps) && OthersSee(old(k.ram[..]), k.ram[..], ps, -1) && k.live == old(k.live)
    ensures OthersKeep(old(k.ram[..]), old(k.live), k.ram[..], k.live, old(Views(ps)), i)
    ensures UnownedKeep(old(k.ram[..]), old(k.live), old(Views(ps)), k.ram[..], k.live, Views(ps), {})
    ensures LineOf(k.ram[..], s.order) == old(LineOf(k.ram[..], s.order))
    ensures r == if max >= 4096 then -2 else if SomeFit(old(k.ram[..]), 1) then 0 else -3
    ensures r == 0 && OwnSource(old(k.ram[..]), ps[i].sh, va, max - 1) ==>
      && (forall x :: 0 <= x < |t| ==>
            t[x] == old(k.ram[..])[Physical(old(k.ram[..]), ps[i].sh, (va + x) % 0x1_0000_0000)] != 0)
      && |t| < max
      && (|t| == max - 1 ||
          old(k.ram[..])[Physical(old(k.ram[..]), ps[i].sh, (va + |t|) % 0x1_0000_0000)] == 0)
      && pa + |t| < 0x1_0000_0000 && k.ram[..][pa..pa + |t|] == t && k.ram[..][pa + |t|] == 0
  {
    hide Scheduled, SameLow, WordAt, Pte, BlockIndex, Agree, OwnRuns, LowStop, UserWritable, SomeFit, Physical,
      SourceClear, OwnSource, Undisturbed, UnownedKeep, LineOf;
    ghost var m, live, vs := k.ram[..], k.live, Views(ps);
    SysOne(k, s, ps, i);
    ghost var tmp;
    r, tmp, t := CopyStringFromTask(k, ps[i], va, pa, max);
    if r == 0 && OwnSource(m, ps[i].sh, va, max - 1) { OwnSourceClear(m, live, vs[i], va, max - 1, tmp); }
    assert Views(ps) == vs;
    forall j | 0 <= j < 12 && ps[j] != null
      ensures j in vs && vs[j] == ps[j].View() && Agree(k.ram[..], live, vs[j])
      ensures forall v: Page :: Pte(k.ram[..], ps[j].sh, v) == Pte(m, ps[j].sh, v)
      ensures j != i ==> Undisturbed(m, live, k.ram[..], live, vs[j])
    {
      assert vs[j] == ps[j].View();
      if j != i { CopyKeeps(m, live, vs[i], k.ram[..], vs[j], pa, max); }
    }
    forall j | j in vs ensures SamePage(m, k.ram[..], vs[j].parts.task) {
      TaskTable(m, live, vs, i, j);
      CopyTask(m, live, vs[i], k.ram[..], vs[j], pa, max);
    }
    CopyUnowned(m, live, vs, i, k.ram[..], pa, max);
    ScheduledKept(m, k.ram[..], s.View(), s.order, vs, vs);
    LowStopKept(m, k.ram[..]);
  }

  /** Copying one task's string disturbs no other process. */
  lemma CopyKeeps(m: Mem, live: Runs, p: Proc, m': Mem, q: Proc, pa: Word, max: int)
    requires Agree(m, live, p) && Agree(m, live, q) && OwnRuns(p) !! OwnRuns(q)
    requires KeptCopy(m, live, m', p.sh, pa, max) && KernelBuffer(pa, max)
    ensures Agree(m', live, q) && (forall v: Page :: Pte(m', q.sh, v) == Pte(m, q.sh, v))
    ensures Undisturbed(m, live, m', live, q)
  {
    hide WordAt, Pte, BlockIndex, PagesAgree, RecordsAgree, LowConfined, OwnRuns;
    forall b, t: Frame | b in OwnRuns(q) && Covers(live, b, t / 4096 - 0x1000) ensures SamePage(m, m', t) {
      CoveredInPool(live, b, t);
      if t in p.sh.tables {
        TableInPool(live, p, t);
        assert false;
      }
    }
    AloneAgrees(m, live, m', q);
  }

  /** It meets no run of no process either. */
  lemma CopyUnowned(m: Mem, live: Runs, ps: map<int, Proc>, i: int, m': Mem, pa: Word, max: int)
    requires AllAgree(m, live, ps) && i in ps && KeptCopy(m, live, m', ps[i].sh, pa, max) && KernelBuffer(pa, max)
    ensures UnownedKeep(m, live, ps, m', live, ps, {})
  {
    hide WordAt, Pte, BlockIndex, PagesAgree, RecordsAgree, LowConfined, OwnRuns, Encodes;
    EncodesWell(m, live);
    forall b, t: Frame | Unowned(live, ps, b) && Covers(live, b, t / 4096 - 0x1000) ensures SamePage(m, m', t) {
      CoveredInPool(live, b, t);
      forall u | u in ps[i].sh.tables ensures u != t { TableInPool(live, ps[i], u); }
    }
  }

  /** A task record is no page table. */
  lemma TaskTable(m: Mem, live: Runs, ps: map<int, Proc>, i: int, j: int)
    requires AllAgree(m, live, ps) && i in ps && j in ps
    ensures BlockIndex(ps[j].parts.task) !in BlocksOf(Foot(ps[i].sh))
  {
    hide WordAt, Pte, BlockIndex, PagesAgree, RecordsAgree, LowConfined, Encodes;
    DataApart(m, live, ps[j]);
  }

  lemma CopyTask(m: Mem, live: Runs, p: Proc, m': Mem, q: Proc, pa: Word, max: int)
    requires Agree(m, live, p) && Agree(m, live, q) && BlockIndex(q.parts.task) !in BlocksOf(Foot(p.sh))
    requires KeptCopy(m, live, m', p.sh, pa, max) && KernelBuffer(pa, max)
    ensures SamePage(m, m', q.parts.task)
  {
    hide WordAt, Pte, BlockIndex, PagesAgree, RecordsAgree, LowConfined;
    TaskInPool(live, q);
    forall t | t in p.sh.tables ensures t != q.parts.task { assert t in Foot(p.sh); }
  }

  /** A store by a task running in user mode: the walk decides whether it happens. */
  method UserStore(ram: array<Byte>, dir: Frame, va: Word, b: Byte, ghost sh: Space)
    requires ram.Length == 0x1_0000_0000 && Ready(ram[..], sh) && dir == sh.dir
    modifies ram
    ensures ram[..] == Stored(old(ram[..]), sh, va, b)
    ensures ram[..] ==
      if old(Pte(ram[..], sh, va / 4096)) % 8 == 7 && sh.flags % 8 == 7 then
        old(ram[..])[old(Physical(ram[..], sh, va)) := b]
      else old(ram[..])
  {
    hide WordAt, Distinct;
    ModAdd(va / 4096, 0);
    var pde := LoadWord(ram, dir + 4 * (va / 4096 / 1024));
    assert pde == WordIn(ram[..], dir, va / 4096 / 1024);
    ModEight((sh.tables[va / 4096 / 1024] as int) / 4096, sh.flags);
    var pte := Get(ram, dir, AlignToLowerPage(va), sh);
    if Grants(pde) && Grants(pte) {
      var a := GetPhysicalAddress(ram, dir, va, sh);
      ram[a] := b;
    }
  }

  method SysStore(k: Machine, s: Scheduler, ps: Table, i: int, va: Word, b: Byte)
    requires Sys(k, s, ps) && 0 <= i < 12 && ps[i] != null
    modifies k.ram
    ensures Sys(k, s, ps) && OthersSee(old(k.ram[..]), k.ram[..], ps, -1)
    ensures OthersKeep(old(k.ram[..]), old(k.live), k.ram[..], k.live, old(Views(ps)), i)
    ensures UnownedKeep(old(k.ram[..]), old(k.live), old(Views(ps)), k.ram[..], k.live, Views(ps), {})
    ensures LineOf(k.ram[..], s.order) == old(LineOf(k.ram[..], s.order))
    ensures k.ram[..] == Stored(old(k.ram[..]), ps[i].sh, va, b)
  {
    hide Scheduled, TasksSame, SameLow, WordAt, Pte, BlockIndex, Agree, OwnRuns, LowStop, Stored, OthersKeep,
      UnownedKeep, LineOf;
    ghost var m, live, vs := k.ram[..], k.live, Views(ps);
    SysOne(k, s, ps, i);
    SpaceOf(m, live, vs[i]);
    var dir := LoadWord(k.ram, ps[i].chunk);
    UserStore(k.ram, dir, va, b, ps[i].sh);
    StoreKeeps(m, live, vs, i, va, b);
    StoreUnowned(m, live, vs, i, va, b);
    ScheduledKept(m, k.ram[..], s.View(), s.order, vs, vs);
    assert Views(ps) == vs;
    forall j | 0 <= j < 12 && ps[j] != null ensures j in vs && vs[j].sh == ps[j].sh {}
    LowStopKept(m, k.ram[..]);
  }

  lemma SpaceOf(m: Mem, live: Runs, p: Proc)
    requires Agree(m, live, p)
    ensures Ready(m, p.sh) && WordAt(m, p.sh.chunk) == p.sh.dir
  {
  }

  // ---- when an exit goes right --------------------------------------------

  /** `t` is the task of a process that is present. */
  predicate IsTask(ps: Table, t: Word) {
    exists j | 0 <= j < 12 :: ps[j] != null && ps[j].parts.task == t
  }

  /** No page of a process other than that in place `i` lies at `x`. */
  predicate NoOther(m: Mem, ps: Table, i: int, x: Frame)
    reads Arrays(ps)
  {
    forall j | 0 <= j < 12 :: j != i && ps[j] != null ==> !HoldsPage(m, ps[j], x)
  }

  /** The exit of the process in place `i` goes right, as head, links, heap table, directories and slots
      tell. The first task may have any back link that leads to no other task and to no page of another
      process; any other task must be the next of the one that its back link leads to. */
  predicate ExitFine(m: Mem, head: Word, ps: Table, i: int)
    requires Present(ps, i)
    reads Arrays(ps)
  {
    var t := ps[i].parts.task;
    var p := PrevOf(m, t);
    p % 4096 == 0 &&
    if t != head then IsTask(ps, p) && NextOf(m, p) == t
    else
      || p == 0
      || (NextOf(m, t) != 0 &&
          (p == t || (!IsTask(ps, p) && (NextOf(m, p) == NextOf(m, t) || NoOther(m, ps, i, p)))))
  }

  lemma IsTaskIs(k: Machine, s: Scheduler, ps: Table, t: Word)
    requires Sys(k, s, ps)
    ensures IsTask(ps, t) <==> t in s.order
  {
    hide WordAt, Pte, AllAgree, LowStop, ListOk, PrevOf;
    var vs := Views(ps);
    if t in s.order {
      var j :| j in vs && vs[j].parts.task == t;
      assert ps[j] != null && ps[j].parts.task == t;
    }
    if j :| 0 <= j < 12 && ps[j] != null && ps[j].parts.task == t { assert j in vs && vs[j].parts.task == t; }
  }

  lemma NoOtherIs(k: Machine, s: Scheduler, ps: Table, i: int, x: Frame)
    requires Sys(k, s, ps)
    ensures NoOther(k.ram[..], ps, i, x) <==> forall j :: j in Views(ps) && j != i ==> !HasPage(k.live, Views(ps)[j], x)
  {
    hide WordAt, Pte, Agree, LowStop, ListOk, PrevOf, HasPage, HoldsPage, OwnRuns, Encodes;
    var vs := Views(ps);
    forall j | 0 <= j < 12 && ps[j] != null
      ensures j in vs && (HoldsPage(k.ram[..], ps[j], x) <==> HasPage(k.live, vs[j], x))
    {
      assert vs[j] == ps[j].View();
      HoldsIs(k.ram[..], k.live, ps[j], x);
    }
  }

  /** Which of the tasks it is. */
  lemma TaskAt(k: Machine, s: Scheduler, ps: Table, i: int) returns (x: int)
    requires Sys(k, s, ps) && Present(ps, i)
    ensures 0 <= x < |s.order| && s.order[x] == ps[i].parts.task && i in Views(ps) && Views(ps)[i].parts == ps[i].parts
  {
    hide WordAt, Pte, AllAgree, LowStop, ListOk, PrevOf;
    assert Views(ps)[i] == ps[i].View();
    x :| 0 <= x < |s.order| && s.order[x] == ps[i].parts.task;
  }

  lemma FineIsRight(k: Machine, s: Scheduler, ps: Table, i: int, x: int)
    requires Sys(k, s, ps) && Present(ps, i) && 0 <= x < |s.order| && s.order[x] == ps[i].parts.task
    ensures ExitFine(k.ram[..], s.head, ps, i) <==> ExitRight(k.ram[..], k.live, Views(ps), i, s.order, x)
  {
    hide WordAt, Pte, AllAgree, LowStop, PrevOf, NextOf, IsTask, NoOther, HasPage, Views;
    ghost var m: Mem, ts := k.ram[..], s.order;
    var p := PrevOf(m, ts[x]);
    IsTaskIs(k, s, ps, p);
    BackAligned(m, s.View(), ts, x);
    NoOtherIs(k, s, ps, i, p);
    FirstOrNot(m, s.View(), ts, x, p);
  }

  lemma FirstOrNot(m: Mem, q: Queue, ts: seq<Frame>, x: int, p: Frame)
    requires Forward(m, q, ts) && 0 <= x < |ts| && p == PrevOf(m, ts[x])
    ensures ts[x] == q.head <==> x == 0
    ensures NextOf(m, ts[x]) == 0 <==> x == |ts| - 1
    ensures x > 0 ==> (Unlinkable(m, ts, x) <==> p in ts && NextOf(m, p) == ts[x])
    ensures x == 0 ==> (Unlinkable(m, ts, x) <==> p == 0 || (|ts| > 1 && (p == ts[x] || p !in ts)))
  {
    hide PrevOf, NextOf;
    assert NextOf(m, ts[x]) == After(ts, x);
    if x > 0 {
      assert NextOf(m, ts[x - 1]) == After(ts, x - 1) == ts[x];
      if p in ts {
        var y :| 0 <= y < |ts| && ts[y] == p;
        assert NextOf(m, p) == After(ts, y);
      }
    }
  }

  /** An exit leaves the order of the other tasks and all memory of the other processes right exactly when
      it is fine: the condition can be read off memory before the call. */
  lemma ExitFineExactly(k: Machine, s: Scheduler, ps: Table, i: int, x: int)
    requires Sys(k, s, ps) && Present(ps, i) && 0 <= x < |s.order| && s.order[x] == ps[i].parts.task
    ensures PrevOf(k.ram[..], s.order[x]) % 4096 == 0
    ensures ExitFine(k.ram[..], s.head, ps, i) <==>
      && Forward(Cut(k.ram[..], s.order[x]), Left(k.ram[..], s.View(), s.order[x]), Without(s.order, x))
      && forall j :: j in Views(ps) && j != i ==>
        LeavesAlone(k.ram[..], k.live, Cut(k.ram[..], s.order[x]), Views(ps)[j])
  {
    hide WordAt, Pte, AllAgree, LowStop, PrevOf, NextOf, ExitFine, ExitRight, Forward, Cut, Left, Without,
      LeavesAlone, Scheduled;
    FineIsRight(k, s, ps, i, x);
    var j := TaskAt(k, s, ps, i);
    ExitExactly(k.ram[..], k.live, Views(ps), s.View(), s.order, i, x);
  }

  lemma OthersStay(m: Mem, live: Runs, ps: map<int, Proc>, q: Queue, ts: seq<Frame>, i: int)
    requires AllAgree(m, live, ps) && Scheduled(m, q, ts, ps) && i in ps
    ensures OtherTasks(live, ps[i], ts) && NullOrPool(PrevOf(m, ps[i].parts.task))
  {
    hide WordAt, Pte, BlockIndex, Agree, LowConfined, Encodes, ListOk, OwnRuns, PrevOf;
    TasksInUse(m, live, q, ts, ps);
    forall t | t in ts && t != ps[i].parts.task ensures OneBlock(live, t) && BlockIndex(t) !in OwnRuns(ps[i]) {
      var j :| j in ps && ps[j].parts.task == t;
      TaskPage(m, live, ps[j]);
    }
  }

  /** The list goes on without the task. */
  lemma ScheduledWithout(m: Mem, m': Mem, q: Queue, q': Queue, ts: seq<Frame>, x: int, ps: map<int, Proc>, i: int)
    requires Scheduled(m, q, ts, ps) && i in ps && 0 <= x < |ts| && ts[x] == ps[i].parts.task
    requires PrevOf(m, ts[x]) % 4096 == 0
    requires ListOk(m', q', Without(ts, x)) && TasksSame(Cut(m, ts[x]), m', ps)
    requires forall j :: j in ps && j != i ==> ps[j].parts.task != ts[x]
    ensures Scheduled(m', q', Without(ts, x), ps - {i})
  {
    hide NextOf, PrevOf, ListOk, Without, Cut;
    CutLinks(m, ts[x]);
    DifferentOrder(m, q, ts);
    WithoutAt(ts, x);
    var ps', us := ps - {i}, Without(ts, x);
    forall j | j in ps' ensures ps'[j].parts.task in us { Survives(ts, x, ps[j].parts.task); }
    forall t | t in us ensures NullOrPool(PrevOf(m', t)) && exists j :: j in ps' && ps'[j].parts.task == t {
      StillThere(ts, x, t);
      var j :| j in ps && ps[j].parts.task == t;
      assert j in ps' && ps'[j].parts.task == t;
      SameLinks(Cut(m, ts[x]), m', t);
    }
  }

  lemma DifferentOrder(m: Mem, q: Queue, ts: seq<Frame>)
    requires ListOk(m, q, ts)
    ensures Different(ts) && Forward(m, q, ts)
  {
    hide NextOf, PrevOf;
  }

  lemma TaskOnce(m: Mem, live: Runs, ps: map<int, Proc>, i: int)
    requires AllAgree(m, live, ps) && i in ps
    ensures forall j :: j in ps && j != i ==> ps[j].parts.task != ps[i].parts.task
  {
    hide WordAt, Pte, BlockIndex, Agree, Encodes, OwnRuns;
    TaskPage(m, live, ps[i]);
    forall j | j in ps && j != i ensures ps[j].parts.task != ps[i].parts.task { TaskPage(m, live, ps[j]); }
  }

  method SysExit(k: Machine, s: Scheduler, ps: Table, i: int) returns (ps': Table, ghost x: nat)
    requires Sys(k, s, ps) && Present(ps, i) && ExitFine(k.ram[..], s.head, ps, i)
    modifies k, k.ram, s, ps[i].allocations
    ensures ps' == ps[i := null] && Sys(k, s, ps') && OthersSee(old(k.ram[..]), k.ram[..], ps, i)
    ensures OthersKeep(old(k.ram[..]), old(k.live), k.ram[..], k.live, old(Views(ps)), i)
    ensures k.live == old(k.live) - (OwnRuns(old(ps[i].View())) - {BlockIndex(ps[i].parts.record)})
    ensures x < |old(s.order)| && old(s.order)[x] == ps[i].parts.task
    ensures s.View() == Left(old(k.ram[..]), old(s.View()), ps[i].parts.task)
    ensures LineOf(k.ram[..], s.order) == Stepped(old(LineOf(k.ram[..], s.order)), Drop(x))
    ensures UnownedKeep(old(k.ram[..]), old(k.live), old(Views(ps)), k.ram[..], k.live, Views(ps'),
      Strays(old(LineOf(k.ram[..], s.order)), Drop(x)))
  {
    hide WordAt, Pte, BlockIndex, Agree, Confined, OwnRuns, LowStop, ListOk, Scheduled, ExitFine, ExitRight, PrevOf,
      NextOf, Cut, Left, Without, Forward, Unlinkable, LeavesAlone, OtherTasks, TasksSame, Encodes, OthersKeep,
      UnownedKeep, UnownedBytes, LineOf, Stepped, Strays;
    ghost var m, live, vs, q, ts := k.ram[..], k.live, Views(ps), s.View(), s.order;
    SysOne(k, s, ps, i);
    x := TaskAt(k, s, ps, i);
    ExitFineExactly(k, s, ps, i, x);
    OthersStay(m, live, vs, q, ts, i);
    CutRight(m, live, vs, q, ts, i, x) by { FineIsRight(k, s, ps, i, x); }
    Terminate(k, s, ps[i], x);
    ps' := ps[i := null];
    ExitKeeps(m, live, vs, i, Cut(m, ts[x]), k.ram[..], k.live);
    TaskOnce(m, live, vs, i);
    ScheduledWithout(m, k.ram[..], q, s.View(), ts, x, vs, i);
    assert Views(ps') == vs - {i};
    forall j | 0 <= j < 12 && j != i && ps[j] != null ensures j in vs && vs[j].sh == ps[j].sh {}
    BacksStay(m, k.ram[..], q, ts, x, vs);
    CutUnowned(m, live, vs, q, ts, x);
    UnownedStep(m, live, vs, i, Cut(m, ts[x]), k.ram[..], k.live, Views(ps'), Strays(LineOf(m, ts), Drop(x)));
  }

  lemma BacksStay(m: Mem, m': Mem, q: Queue, ts: seq<Frame>, x: int, ps: map<int, Proc>)
    requires Scheduled(m, q, ts, ps) && 0 <= x < |ts| && PrevOf(m, ts[x]) % 4096 == 0
    requires TasksSame(Cut(m, ts[x]), m', ps)
    ensures LineOf(m', Without(ts, x)) == Stepped(LineOf(m, ts), Drop(x))
  {
    hide NextOf, PrevOf, ListOk, Without, Cut;
    LineCut(m, ts, x);
    forall t | t in Without(ts, x) ensures PrevOf(m', t) == PrevOf(Cut(m, ts[x]), t) {
      StillThere(ts, x, t);
      var j :| j in ps && ps[j].parts.task == t;
      SameLinks(Cut(m, ts[x]), m', t);
    }
    LineKept(Cut(m, ts[x]), m', Without(ts, x));
  }

  lemma CutRight(m: Mem, live: Runs, ps: map<int, Proc>, q: Queue, ts: seq<Frame>, i: int, x: int)
    requires 0 <= x < |ts| && Scheduled(m, q, ts, ps) && ExitRight(m, live, ps, i, ts, x)
    ensures ListOk(m, q, ts) && PrevOf(m, ts[x]) % 4096 == 0 && Unlinkable(m, ts, x)
  {
    hide PrevOf, NextOf, ListOk;
  }

  /** The constants of a process are what loading `segs` from an image of `n` blocks made them. */
  ghost predicate AsLoaded(p: Process, n: int, segs: seq<Segment>) {
    && p.parts.image % 4096 == 0 && GoodSegments(p.parts.image, n, segs)
    && (forall i :: 0 <= i < |segs| ==> !Rejected(p.parts.image, segs[i]))
    && |p.low| == 0x1000
    && forall v :: 0 <= v < 0x1000 ==> p.low[v] == LoadedEntry(p.parts.image, p.parts.stack, segs, v)
  }

  lemma IsAsLoaded(p: Process, n: int, segs: seq<Segment>)
    requires p.parts.image % 4096 == 0 && GoodSegments(p.parts.image, n, segs) && |p.low| == 0x1000
    requires forall i :: 0 <= i < |segs| ==> !Rejected(p.parts.image, segs[i])
    requires forall v :: 0 <= v < 0x1000 ==> p.low[v] == LoadedEntry(p.parts.image, p.parts.stack, segs, v)
    ensures AsLoaded(p, n, segs)
  {
    hide Rejected, GoodSegments, LoadedEntry;
  }

  lemma AllGood(image: Word, n: int, segs: seq<Segment>)
    requires image % 4096 == 0 && 0x0100_0000 <= image && image + 4096 * n <= 0x0740_0000
    requires forall i :: 0 <= i < |segs| ==> WellPlaced(n, segs[i]) && !Rejected(image, segs[i])
    ensures GoodSegments(image, n, segs)
  {
    hide Rejected, WellPlaced, GoodSegment;
    forall i | 0 <= i < |segs| ensures GoodSegment(image, n, segs[i]) { WellPlacedIsGood(image, n, segs[i]); }
  }

  /** The place a new process takes. */
  predicate FirstEmpty(ps: Table, j: int) {
    0 <= j < 12 && ps[j] == null && forall q :: 0 <= q < j ==> ps[q] != null
  }

  lemma OwnImage(p: Proc)
    ensures BlockIndex(p.parts.image) in OwnRuns(p)
  {
  }

  method SysLoad(k: Machine, s: Scheduler, ps: Table, file: seq<Byte>, segs: seq<Segment>)
    returns (r: int, ps': Table, ghost image: Word, ghost path: seq<Word>)
    requires Sys(k, s, ps) && 0 < |file| <= 0x0640_0000
    requires Room(k.live, Blocks(|file|) + 15) && |FreeSet(k.live)| >= Blocks(|file|) + 1038
    requires forall i :: 0 <= i < |segs| ==> WellPlaced(Blocks(|file|), segs[i])
    modifies k, k.ram, s
    ensures Sys(k, s, ps') && OthersSee(old(k.ram[..]), k.ram[..], ps, -1)
    ensures OthersKeep(old(k.ram[..]), old(k.live), k.ram[..], k.live, old(Views(ps)), -1)
    ensures ExtendsBut(old(k.ram[..]), old(k.live), k.ram[..], k.live, old(s.tail))
    ensures r == 0 || r == -3 || (r == -2 && exists i :: 0 <= i < |segs| && Rejected(image, segs[i]))
    ensures (forall j :: 0 <= j < 12 ==> ps[j] != null) <==> r == -3
    ensures r != 0 ==> ps' == ps && s.order == old(s.order)
    ensures r == -3 ==> k.ram[..] == old(k.ram[..])
    ensures r == 0 ==>
      exists j :: FirstEmpty(ps, j) && ps' == ps[j := ps'[j]] && Entered(ps'[j], image, Blocks(|file|), segs)
    ensures r == 0 ==> exists j ::
      && 0 <= j < 12 && ps[j] == null && ps'[j] != null && ps'[j].parts.image == image
      && (forall q :: 0 <= q < 12 && q != j ==> ps'[q] == ps[q]) && forall q :: 0 <= q < j ==> ps[q] != null
    ensures forall j :: 0 <= j < 12 && ps[j] == null && ps'[j] != null ==> fresh(ps'[j]) && fresh(ps'[j].allocations)
    ensures r == 0 ==>
      image + |file| <= 0x0740_0000 && k.ram[..][image..image + |file|] == file && BlockIndex(image) !in old(k.live)
    ensures r == 0 ==> |FreeSet(k.live)| == |FreeSet(old(k.live))| - Blocks(|file|) - 1038
    ensures r == 0 ==> forall j :: FirstEmpty(ps, j) ==> ps'[j].allocations[..] == seq(1024, _ => Slot(0, 0))
    ensures r == 0 ==> forall j :: FirstEmpty(ps, j) ==>
      LoadedLast(old(k.ram[..]), old(k.live), old(s.View()), old(s.order), k.ram[..], k.live, s.order, ps'[j].View(),
        path, Blocks(|file|))
    ensures UnownedKeep(old(k.ram[..]), old(k.live), old(Views(ps)), k.ram[..], k.live, Views(ps'), {})
    ensures r != 0 ==> LineOf(k.ram[..], s.order) == old(LineOf(k.ram[..], s.order))
    ensures r == 0 ==> forall j :: FirstEmpty(ps, j) ==>
      LineOf(k.ram[..], s.order) == Stepped(old(LineOf(k.ram[..], s.order)), Create(ps'[j].parts.task))
  {
    hide WordAt, Pte, BlockIndex, Agree, OwnRuns, LowStop, ExtendsBut, FreeSet, WellPlaced, GoodSegment, Rejected,
      LoadedEntry, Scheduled, ListOk, PrevOf, NextOf, Tasks, Encodes, LoadedLast, Joined, Room,
      WellFormed, GoodSegments, AsLoaded, OneBlock, NullOrTask, PartsIn, OthersKeep, UnownedKeep, LineOf, Stepped,
      Starts, AllAgree, SameLow, ProcessInRow;
    ghost var m, live, vs, q, ts := k.ram[..], k.live, Views(ps), s.View(), s.order;
    ps', image, path := ps, 0, [];
    var i := 0;
    while i < 12 && ps[i] != null
      invariant 0 <= i <= 12 && forall j :: 0 <= j < i ==> ps[j] != null
    {
      i := i + 1;
    }
    if i == 12 {
      ExtendsSelf(m, live, q.tail);
      NobodyMoved(m, live, vs);
      UnownedNow(m, live, vs);
      return -3, ps', 0, path;
    }
    SysEncodes(k, s, ps);
    EncodesWell(m, live);
    TasksThere(m, live, q, ts, vs);
    var p;
    r, p, image, path := Load(k, s, file, segs);
    assert Views(ps) == vs;
    LoadKeeps(m, live, vs, k.ram[..], k.live, q.tail);
    forall j | 0 <= j < 12 && ps[j] != null ensures j in vs && vs[j].sh == ps[j].sh {}
    LowExtends(m, live, k.ram[..], k.live, q.tail);
    ListLoaded(m, live, q, ts, vs, k.ram[..], s.View(), s.order, i, p);
    LineLoaded(m, live, q, ts, k.ram[..], s.order, p);
    if p == null {
      LoadUnowned(m, live, vs, k.ram[..], k.live, q.tail, vs);
    } else {
      assert BlockIndex(image) in OwnRuns(p.View()) by { OwnImage(p.View()); }
      AllGood(image, Blocks(|file|), segs);
      ps' := ps[i := p];
      assert Views(ps') == vs[i := p.View()];
      Joins(m, live, vs, i, k.ram[..], k.live, p.View());
      LoadUnowned(m, live, vs, k.ram[..], k.live, q.tail, Views(ps'));
      IsAsLoaded(p, Blocks(|file|), segs);
      IsLoadedLast(m, live, q, ts, k.ram[..], k.live, s.order, p.View(), path, Blocks(|file|));
      assert FirstEmpty(ps, i) && forall j :: FirstEmpty(ps, j) ==> j == i;
    }
  }

  /** Where a new process lies and what became of the list: its task is last, with a back link to the old
      last one, and the other back links stay. */
  ghost predicate LoadedLast(m: Mem, live: Runs, q: Queue, ts: seq<Frame>, m': Mem, live': Runs, ts': seq<Frame>,
      p: Proc, path: seq<Word>, n: int)
  {
    && ts' == ts + [p.parts.task] && PrevOf(m', p.parts.task) == q.tail
    && (forall t :: t in ts ==> PrevOf(m', t) == PrevOf(m, t))
    && ProcessInRow(live, live', p, n) && PartsIn(live', p.parts, n) && (forall b :: b in OwnRuns(p) ==> b !in live)
    && (forall b :: b in Starts(path) ==> b in live' && live'[b] == 1 && b !in live && b !in OwnRuns(p))
    && forall b :: b in live' ==> b in live || b in OwnRuns(p) || b in Starts(path)
  }

  lemma IsLoadedLast(m: Mem, live: Runs, q: Queue, ts: seq<Frame>, m': Mem, live': Runs, ts': seq<Frame>, p: Proc,
      path: seq<Word>, n: int)
    requires Tasks(live, ts) && ts' == ts + [p.parts.task] && PrevOf(m', p.parts.task) == q.tail
    requires (forall t: Frame :: OneBlock(live, t) ==> PrevOf(m', t) == PrevOf(m, t)) && ProcessInRow(live, live', p, n)
    requires PartsIn(live', p.parts, n) && (forall b :: b in OwnRuns(p) ==> b !in live)
    requires forall b :: b in Starts(path) ==> b in live' && live'[b] == 1 && b !in live && b !in OwnRuns(p)
    requires forall b :: b in live' ==> b in live || b in OwnRuns(p) || b in Starts(path)
    ensures LoadedLast(m, live, q, ts, m', live', ts', p, path, n)
  {
    hide PrevOf, OneBlock, ProcessInRow, PartsIn, OwnRuns, Starts;
  }

  lemma LineLoaded(m: Mem, live: Runs, q: Queue, ts: seq<Frame>, m': Mem, ts': seq<Frame>, p: Process?)
    requires ListOk(m, q, ts) && Tasks(live, ts) && forall t: Frame :: OneBlock(live, t) ==>
      PrevOf(m', t) == PrevOf(m, t)
    requires if p == null then ts' == ts else ts' == ts + [p.parts.task] && PrevOf(m', p.parts.task) == q.tail
    ensures LineOf(m', ts') == if p == null then LineOf(m, ts) else Stepped(LineOf(m, ts), Create(p.parts.task))
  {
    hide PrevOf, NextOf, OneBlock, ListOk;
    LineKept(m, m', ts);
    TailInUse(m, live, q, ts);
    if p != null {
      var c, d := LineOf(m', ts'), Stepped(LineOf(m, ts), Create(p.parts.task));
      assert |c.bs| == |d.bs| == |ts| + 1;
      forall i | 0 <= i < |c.bs| ensures c.bs[i] == d.bs[i] {
        assert i < |ts| ==> LineOf(m', ts).bs[i] == LineOf(m, ts).bs[i];
      }
    }
  }

  lemma TasksThere(m: Mem, live: Runs, q: Queue, ts: seq<Frame>, ps: map<int, Proc>)
    requires AllAgree(m, live, ps) && Scheduled(m, q, ts, ps)
    ensures ListOk(m, q, ts) && Tasks(live, ts) && NullOrTask(ps, q.tail)
  {
    hide ListOk, PrevOf, AllAgree, OneBlock;
    TasksInUse(m, live, q, ts, ps);
    assert Tasks(live, ts);
    TailInUse(m, live, q, ts);
  }

  lemma ListLoaded(m: Mem, live: Runs, q: Queue, ts: seq<Frame>, ps: map<int, Proc>, m': Mem, q': Queue,
      ts': seq<Frame>, i: int, p: Process?)
    requires Scheduled(m, q, ts, ps) && Tasks(live, ts) && ListOk(m', q', ts') && WellFormed(live) && i !in ps
    requires forall t: Frame :: OneBlock(live, t) ==> PrevOf(m', t) == PrevOf(m, t)
    requires if p == null then ts' == ts else ts' == ts + [p.parts.task] && PrevOf(m', p.parts.task) == q.tail
    ensures Scheduled(m', q', ts', if p == null then ps else ps[i := p.View()])
  {
    hide ListOk, PrevOf, OneBlock;
    var ps' := if p == null then ps else ps[i := p.View()];
    TailInUse(m, live, q, ts);
    if q.tail != 0 { OneBlockInPool(live, q.tail); }
    assert forall j :: j in ps ==> ps'[j] == ps[j];
    forall t | t in ts' ensures NullOrPool(PrevOf(m', t)) && exists j :: j in ps' && ps'[j].parts.task == t {
      if t in ts {
        var j :| j in ps && ps[j].parts.task == t;
        assert ps'[j].parts.task == t && OneBlock(live, t);
      } else {
        assert ps'[i].parts.task == t;
      }
    }
    if p != null { assert ts'[|ts|] == p.parts.task; }
    forall j | j in ps' ensures ps'[j].parts.task in ts' { assert j in ps ==> ps[j].parts.task in ts; }
  }

  lemma NothingUnowned(m: Mem, live: Runs, ps: map<int, Proc>)
    ensures UnownedBytes(m, live, ps, m, {})
  {
  }

  lemma NobodyMoved(m: Mem, live: Runs, ps: map<int, Proc>)
    ensures OthersKeep(m, live, m, live, ps, -1)
  {
    hide OwnRuns;
  }

  lemma ExtendsSelf(m: Mem, live: Runs, x: Word)
    ensures ExtendsBut(m, live, m, live, x)
  {
  }

  /** The process in its place after a load. */
  ghost predicate Entered(p: Process?, image: Word, n: int, segs: seq<Segment>) {
    p != null && p.parts.image == image && AsLoaded(p, n, segs)
  }

  /** `process_inject_arguments` for the process in place `j`, with records in allocations of the one in place `i`. */
  method SysInject(k: Machine, s: Scheduler, ps: Table, i: int, j: int, root: Word, ghost nodes: seq<Word>)
    returns (r: int, ghost ptrs: seq<Word>)
    requires Sys(k, s, ps) && 0 <= i < 12 && ps[i] != null && 0 <= j < 12 && ps[j] != null
    requires root == First(nodes) && Injectable(k.ram[..], ps[i].allocations[..], nodes)
    modifies k, k.ram, ps[j], ps[j].allocations
    ensures Sys(k, s, ps) && OthersSee(old(k.ram[..]), k.ram[..], ps, j)
    ensures OthersKeep(old(k.ram[..]), old(k.live), k.ram[..], k.live, old(Views(ps)), j)
    ensures UnownedKeep(old(k.ram[..]), old(k.live), old(Views(ps)), k.ram[..], k.live, Views(ps), {})
    ensures LineOf(k.ram[..], s.order) == old(LineOf(k.ram[..], s.order))
    ensures if nodes == [] then r == -1 else r == 0 || r == -3
    ensures nodes != [] && old(Enough(k.ram[..], k.live, ps[j].allocations[..], |nodes|)) ==> r == 0
    ensures r != 0 ==> ps[j].argc == old(ps[j].argc) && ps[j].argv == old(ps[j].argv)
    ensures r == 0 ==>
      ps[j].argc == |nodes| == |ptrs| && Vector(k.ram[..], k.live, ps[j].View(), ps[j].argv, ps[j].argc, ptrs,
      Texts(old(k.ram[..]), nodes, |nodes|))
  {
    hide Scheduled, TasksSame, SameLow, WordAt, Pte, BlockIndex, Agree, Confined, OwnRuns, LowStop, Vector, ArgList,
      Safe, HeldBy, Guard, Enough, Texts, OthersKeep, UnownedKeep, LineOf;
    ghost var m, live, vs := k.ram[..], k.live, Views(ps);
    SysOne(k, s, ps, i);
    SysOne(k, s, ps, j);
    forall q | 0 <= q < |nodes| ensures Safe(live, ps[j].sh, nodes[q], nodes[q] as int + 516) {
      assert vs[i].slots == ps[i].allocations[..];
      SenderSafe(m, live, vs, i, j, nodes[q], 516);
    }
    r, ptrs := InjectArguments(k, ps[j], root, nodes);
    ghost var v1 := ps[j].View();
    assert Views(ps) == vs[j := v1];
    StepKeeps(m, live, vs, j, k.ram[..], k.live, v1);
    NothingUnowned(m, live, vs);
    UnownedStep(m, live, vs, j, m, k.ram[..], k.live, Views(ps), {});
    ScheduledKept(m, k.ram[..], s.View(), s.order, vs, Views(ps));
    forall q | 0 <= q < 12 && q != j && ps[q] != null ensures q in vs && vs[q].sh == ps[q].sh {}
    LowStopKept(m, k.ram[..]);
  }

  function First(nodes: seq<Word>): Word {
    if nodes == [] then 0 else nodes[0]
  }

  /** A list of argument records in the allocations `slots`, and a vector that meets the heap's guard. */
  predicate Injectable(m: Mem, slots: seq<Slot>, nodes: seq<Word>) {
    && ArgList(m, First(nodes), nodes) && (forall q :: 0 <= q < |nodes| ==> HeldBy(slots, nodes[q], 516))
    && 4 * |nodes| < 0x1_0000_0000 && Guard(m, Blocks(4 * |nodes|))
  }

  lemma FitIsRoom(m: Mem, live: Runs, n: int)
    requires Encodes(m, live) && SomeFit(m, n)
    ensures Room(live, n)
  {
    var s :| 0 <= s < 25600 && FreeRun(m, s, n);
    FreeRunFits(m, live, s, n);
  }

  lemma LowExtends(m: Mem, live: Runs, m': Mem, live': Runs, x: Word)
    requires LowStop(m) && ExtendsBut(m, live, m', live', x)
    ensures LowStop(m')
  {
    LowStopKept(m, m');
  }

  /** The system at boot: an empty heap and no process. */
  method Boot(k: Machine) returns (r: int, s: Scheduler, ps: Table)
    requires k.ram.Length == 0x1_0000_0000 && LowStop(k.ram[..])
    modifies k, k.ram
    ensures r == 0 && Sys(k, s, ps) && k.live == map[] && fresh(s) && s.order == [] && forall i :: 0 <= i < 12 ==>
      ps[i] == null
  {
    ghost var m: Mem := k.ram[..];
    r := k.HeapCreate(0x0100_0000, 0x0100_0000 + 104857600, 104857600 / 4096);
    s := new Scheduler();
    ps := seq(12, _ => null);
    LowStopKept(m, k.ram[..]);
    assert Views(ps) == map[];
  }

  // ---- runs ---------------------------------------------------------------

  /** The free blocks among the first `i`. */
  function FreeCount(m: Mem, i: nat): nat
    requires i <= 25600
  {
    if i == 0 then 0 else FreeCount(m, i - 1) + (if FreeBlock(m, i - 1) then 1 else 0)
  }

  lemma FreeIsFree(m: Mem, live: Runs, i: int)
    requires Encodes(m, live) && 0 <= i < 25600
    ensures FreeBlock(m, i) <==> i in FreeSet(live)
  {
    hide Encodes, FreeBlock, Taken;
    FreeIsUntaken(m, live, i);
  }

  lemma {:induction false} FreeCountIs(m: Mem, live: Runs, i: nat)
    requires Encodes(m, live) && i <= 25600
    ensures FreeCount(m, i) == |set j | 0 <= j < i && j in FreeSet(live)|
  {
    hide Encodes, FreeSet, FreeBlock;
    var X := set j | 0 <= j < i && j in FreeSet(live);
    if i == 0 {
      assert X == {};
    } else {
      FreeCountIs(m, live, i - 1);
      FreeIsFree(m, live, i - 1);
      var Y := set j | 0 <= j < i - 1 && j in FreeSet(live);
      assert X == if FreeBlock(m, i - 1) then Y + {i - 1} else Y;
    }
  }

  lemma FreeCountAll(m: Mem, live: Runs)
    requires Encodes(m, live)
    ensures FreeCount(m, 25600) == |FreeSet(live)|
  {
    FreeCountIs(m, live, 25600);
    assert FreeSet(live) == set j | 0 <= j < 25600 && j in FreeSet(live);
  }

  datatype Call =
    | CallMalloc(pid: int, size: Word)
    | CallFree(pid: int, ptr: Word)
    | CallCopy(pid: int, va: Word, pa: Word, max: int)
    | CallStore(pid: int, va: Word, b: Byte)
    | CallExit(pid: int)
    | CallLoad(file: seq<Byte>, segs: seq<Segment>)
    | CallInject(pid: int, from: int, nodes: seq<Word>)

  /** The place of the process that a call is about; a load is about none that is there. */
  function Subject(c: Call): int {
    if c.CallLoad? then -1 else c.pid
  }

  predicate Names(c: Call, pid: int) {
    Subject(c) == pid
  }

  predicate Present(ps: Table, i: int) {
    0 <= i < 12 && ps[i] != null
  }

  ghost function Objects(ps: Table): set<object> {
    set i | 0 <= i < 12 && ps[i] != null :: ps[i]
  }

  /** The caller's side of each call. A program must be well placed; an allocation must meet the heap's
      guard; a list of arguments must lie in allocations of the process it comes from; the link write of
      an exit must go right. */
  predicate Enabled(m: Mem, head: Word, ps: Table, c: Call)
    reads Arrays(ps)
  {
    match c
    case CallLoad(file, segs) =>
      && 0 < |file| <= 0x0640_0000 && SomeFit(m, Blocks(|file|) + 15) && FreeCount(m, 25600) >= Blocks(|file|) + 1038
      && forall i :: 0 <= i < |segs| ==> WellPlaced(Blocks(|file|), segs[i])
    case CallMalloc(i, size) => Present(ps, i) && Guard(m, Blocks(size))
    case CallCopy(i, va, pa, max) => Present(ps, i) && 0 < max && KernelBuffer(pa, max)
    case CallExit(i) => Present(ps, i) && ExitFine(m, head, ps, i)
    case CallInject(j, i, nodes) => Present(ps, j) && Present(ps, i) && Injectable(m, ps[i].allocations[..], nodes)
    case _ => Present(ps, c.pid)
  }

  /** What a call is to the list: an exit takes the task of its process out, and a load may put a task at the end. */
  ghost predicate Matches(c: Call, st: TaskList.Step, ts: seq<Frame>, ps: Table, ps': Table) {
    match c
    case CallExit(i) => Present(ps, i) && st.Drop? && st.at < |ts| && ts[st.at] == ps[i].parts.task
    case CallLoad(_, _) =>
      st.Next? || (st.Create? && exists j :: FirstEmpty(ps, j) && ps'[j] != null && ps'[j].parts.task == st.t)
    case _ => st.Next?
  }

  method Step(k: Machine, s: Scheduler, ps: Table, c: Call) returns (ps': Table, ghost st: TaskList.Step)
    requires Sys(k, s, ps) && Enabled(k.ram[..], s.head, ps, c)
    modifies k, k.ram, s, Arrays(ps), Objects(ps)
    ensures Sys(k, s, ps')
    ensures forall j :: Present(ps, j) && !Names(c, j) ==>
      && ps'[j] == ps[j] && ps[j].allocations[..] == old(ps[j].allocations[..])
      && ps[j].argc == old(ps[j].argc) && ps[j].argv == old(ps[j].argv)
    ensures forall j, v: Page :: Present(ps, j) && !Names(c, j) ==>
      Pte(k.ram[..], ps[j].sh, v) == Pte(old(k.ram[..]), ps[j].sh, v)
    ensures OthersKeep(old(k.ram[..]), old(k.live), k.ram[..], k.live, old(Views(ps)), Subject(c))
    ensures UnownedKeep(old(k.ram[..]), old(k.live), old(Views(ps)), k.ram[..], k.live, Views(ps'),
      Strays(old(LineOf(k.ram[..], s.order)), st))
    ensures LineOf(k.ram[..], s.order) == Stepped(old(LineOf(k.ram[..], s.order)), st)
    ensures Matches(c, st, old(s.order), ps, ps')
    ensures forall j :: 0 <= j < 12 && ps[j] == null && ps'[j] != null ==> fresh(ps'[j]) && fresh(ps'[j].allocations)
    ensures forall j :: Present(ps, j) ==> ps'[j] == ps[j] || ps'[j] == null
  {
    hide Scheduled, WordAt, Pte, AllAgree, LowStop, Guard, SomeFit, Blocks, WellPlaced, Injectable, FreeSet,
      FreeCount, LoadedLast, ExtendsBut, Without, ExitFine, OwnRuns, KernelBuffer, OthersKeep, Views, UnownedKeep,
      LineOf, AsLoaded;
    ps', st := ps, Next;
    match c
    case CallMalloc(i, size) => var _ := SysMalloc(k, s, ps, i, size);
    case CallFree(i, ptr) => SysFree(k, s, ps, i, ptr);
    case CallCopy(i, va, pa, max) => var _, _ := SysCopy(k, s, ps, i, va, pa, max);
    case CallStore(i, va, b) => SysStore(k, s, ps, i, va, b);
    case CallExit(i) =>
      ghost var x;
      ps', x := SysExit(k, s, ps, i);
      st := Drop(x);
    case CallInject(j, i, nodes) =>
      var r;
      ghost var ptrs;
      r, ptrs := SysInject(k, s, ps, i, j, First(nodes), nodes);
    case CallLoad(file, segs) =>
      var r;
      ghost var image, path;
      SysEncodes(k, s, ps);
      FitIsRoom(k.ram[..], k.live, Blocks(|file|) + 15);
      FreeCountAll(k.ram[..], k.live);
      r, ps', image, path := SysLoad(k, s, ps, file, segs);
      if r == 0 {
        ghost var j :| FirstEmpty(ps, j) && ps' == ps[j := ps'[j]] && Entered(ps'[j], image, Blocks(|file|), segs);
        st := Create(ps'[j].parts.task);
      }
  }

  lemma SysEncodes(k: Machine, s: Scheduler, ps: Table)
    requires Sys(k, s, ps)
    ensures Encodes(k.ram[..], k.live)
  {
    hide Agree, LowStop, OwnRuns;
  }

  lemma KeptOne(m: Mem, live: Runs, m': Mem, live': Runs, ps: map<int, Proc>, c: Call, j: int, p: Proc)
    requires OthersKeep(m, live, m', live', ps, Subject(c)) && j in ps && !Names(c, j) && ps[j] == p
    ensures Undisturbed(m, live, m', live', p)
  {
    hide Undisturbed;
  }

  /** None of the calls is about the process in place `j`. */
  ghost predicate Spared(calls: seq<Call>, j: int) {
    forall c :: c in calls ==> !Names(c, j)
  }

  lemma SparedNext(calls: seq<Call>, done: nat)
    requires done < |calls|
    ensures forall j :: Spared(calls[..done + 1], j) ==> Spared(calls[..done], j) && !Names(calls[done], j)
  {
    assert calls[..done + 1] == calls[..done] + [calls[done]];
    assert calls[done] in calls[..done + 1];
  }

  /** What the steps `sts` of the list make of order and back links, and that runs of no process keep what they
      are but for stray links. */
  ghost predicate Followed(m: Mem, live: Runs, ps: map<int, Proc>, c: Line, m': Mem, live': Runs, ps': map<int, Proc>,
      c': Line, sts: seq<TaskList.Step>)
  {
    c' == Lines(c, sts) && UnownedKeep(m, live, ps, m', live', ps', AllStrays(c, sts))
  }

  /** The list steps of the calls, kind by kind. */
  ghost predicate Kinds(calls: seq<Call>, sts: seq<TaskList.Step>) {
    && |sts| <= |calls|
    && forall q :: 0 <= q < |sts| ==> (sts[q].Drop? <==> calls[q].CallExit?) && (sts[q].Create? ==> calls[q].CallLoad?)
  }

  lemma FollowedNow(m: Mem, live: Runs, ps: map<int, Proc>, c: Line, calls: seq<Call>)
    ensures Followed(m, live, ps, c, m, live, ps, c, []) && Kinds(calls, [])
  {
    UnownedNow(m, live, ps);
  }

  lemma FollowedNext(m: Mem, live: Runs, ps: map<int, Proc>, c: Line, m1: Mem, live1: Runs, ps1: map<int, Proc>,
      c1: Line, m2: Mem, live2: Runs, ps2: map<int, Proc>, c2: Line, sts: seq<TaskList.Step>, st: TaskList.Step)
    requires Followed(m, live, ps, c, m1, live1, ps1, c1, sts) && c2 == Stepped(c1, st)
    requires UnownedKeep(m1, live1, ps1, m2, live2, ps2, Strays(c1, st))
    ensures Followed(m, live, ps, c, m2, live2, ps2, c2, sts + [st])
  {
    hide Stepped, Strays, UnownedKeep;
    assert (sts + [st])[..|sts|] == sts;
    UnownedThen(m, live, ps, m1, live1, ps1, m2, live2, ps2, AllStrays(c, sts), Strays(c1, st));
  }

  lemma KindsNext(calls: seq<Call>, sts: seq<TaskList.Step>, st: TaskList.Step, ts: seq<Frame>, ps: Table, ps': Table)
    requires Kinds(calls, sts) && |sts| < |calls| && Matches(calls[|sts|], st, ts, ps, ps')
    ensures Kinds(calls, sts + [st])
  {
  }

  /** Every run of enabled calls, from every consistent system: consistent all the way, with every process
      that no call is about where it was, its record, its memory and its translations unchanged, and with the runs
      of no process unchanged but for stray links. Order and back links of the tasks are those of the loads and
      exits. The run goes on to the first call that is not enabled, or to the end. */
  method Run(k: Machine, s: Scheduler, ps: Table, calls: seq<Call>)
    returns (ps': Table, done: nat, ghost sts: seq<TaskList.Step>)
    requires Sys(k, s, ps)
    modifies k, k.ram, s, Arrays(ps), Objects(ps)
    ensures Sys(k, s, ps') && done <= |calls| && (done < |calls| ==> !Enabled(k.ram[..], s.head, ps', calls[done]))
    ensures forall j :: Present(ps, j) && Spared(calls[..done], j) ==>
      && ps'[j] == ps[j] && ps[j].allocations[..] == old(ps[j].allocations[..])
      && ps[j].argc == old(ps[j].argc) && ps[j].argv == old(ps[j].argv)
    ensures forall j, v: Page :: Present(ps, j) && Spared(calls[..done], j) ==>
      Pte(k.ram[..], ps[j].sh, v) == Pte(old(k.ram[..]), ps[j].sh, v)
    ensures forall j :: Present(ps, j) && Spared(calls[..done], j) ==>
      Undisturbed(old(k.ram[..]), old(k.live), k.ram[..], k.live, old(ps[j].View()))
    ensures forall j :: Present(ps, j) && ps'[j] != null && ps'[j] != ps[j] ==> fresh(ps'[j])
    ensures |sts| == done && Kinds(calls, sts)
    ensures Followed(old(k.ram[..]), old(k.live), old(Views(ps)), old(LineOf(k.ram[..], s.order)), k.ram[..], k.live,
      Views(ps'), LineOf(k.ram[..], s.order), sts)
  {
    hide Scheduled, WordAt, Pte, AllAgree, LowStop, Enabled, Undisturbed, OthersKeep, Spared, Names, UnownedKeep,
      LineOf, Stepped, Strays, Followed, Kinds, Matches, OthersSee, Separate, OwnRuns;
    ghost var m, live := k.ram[..], k.live;
    forall j | Present(ps, j)
      ensures Undisturbed(m, live, m, live, ps[j].View())
    {
      UndisturbedNow(m, live, ps[j].View());
    }
    ghost var line, vs := LineOf(m, s.order), Views(ps);
    FollowedNow(m, live, vs, line, calls);
    ps', done, sts := ps, 0, [];
    while done < |calls|
      invariant Sys(k, s, ps') && done <= |calls|
      invariant forall j :: Present(ps', j) && ps'[j] != ps[j] ==> fresh(ps'[j]) && fresh(ps'[j].allocations)
      invariant forall j :: Present(ps, j) && Spared(calls[..done], j) ==>
        && ps'[j] == ps[j] && ps[j].allocations[..] == old(ps[j].allocations[..])
        && ps[j].argc == old(ps[j].argc) && ps[j].argv == old(ps[j].argv)
      invariant forall j, v: Page :: Present(ps, j) && Spared(calls[..done], j) ==>
        Pte(k.ram[..], ps[j].sh, v) == Pte(m, ps[j].sh, v)
      invariant forall j :: Present(ps, j) && Spared(calls[..done], j) ==>
        Undisturbed(m, live, k.ram[..], k.live, old(ps[j].View()))
      invariant |sts| == done && Kinds(calls, sts)
      invariant Followed(m, live, vs, line, k.ram[..], k.live, Views(ps'), LineOf(k.ram[..], s.order), sts)
    {
      SparedNext(calls, done);
      if !Enabled(k.ram[..], s.head, ps', calls[done]) {
        return;
      }
      ghost var m1, live1, views, before, ts1 := k.ram[..], k.live, Views(ps'), ps', s.order;
      ghost var line1 := LineOf(m1, ts1);
      assert forall j :: Present(ps', j) ==> j in views && views[j] == ps'[j].View();
      ghost var st;
      ps', st := Step(k, s, ps', calls[done]);
      FollowedNext(m, live, vs, line, m1, live1, views, line1, k.ram[..], k.live, Views(ps'),
        LineOf(k.ram[..], s.order), sts, st);
      KindsNext(calls, sts, st, ts1, before, ps');
      sts := sts + [st];
      forall j | Present(ps, j) && Spared(calls[..done + 1], j)
        ensures Undisturbed(m, live, k.ram[..], k.live, old(ps[j].View()))
      {
        KeptOne(m1, live1, k.ram[..], k.live, views, calls[done], j, old(ps[j].View()));
        UndisturbedThen(m, live, m1, live1, k.ram[..], k.live, old(ps[j].View()));
      }
      done := done + 1;
    }
  }

  lemma UndisturbedNow(m: Mem, live: Runs, p: Proc)
    ensures Undisturbed(m, live, m, live, p)
  {
    hide OwnRuns;
  }

  // ---- runs in which only the last listed process exits -------------------

  /** An exit with the right back link is fine. */
  lemma RightBackIsFine(k: Machine, s: Scheduler, ps: Table, i: int, x: int)
    requires k.ram.Length == 0x1_0000_0000 && Present(ps, i) && 0 <= x < |s.order| && s.order[x] == ps[i].parts.task
    requires PrevOf(k.ram[..], s.order[x]) == Before(s.order, x)
    requires Sys(k, s, ps)
    ensures ExitFine(k.ram[..], s.head, ps, i)
  {
    hide WordAt, Pte, AllAgree, LowStop, PrevOf, NextOf, ExitFine, Forward, Views, ListOk, ExitRight;
    ghost var m: Mem, ts := k.ram[..], s.order;
    FineIsRight(k, s, ps, i, x);
    BackAligned(m, s.View(), ts, x);
    RightBack(m, k.live, Views(ps), i, ts, x);
  }

  lemma RightBack(m: Mem, live: Runs, ps: map<int, Proc>, i: int, ts: seq<Frame>, x: int)
    requires 0 <= x < |ts| && PrevOf(m, ts[x]) % 4096 == 0 && PrevOf(m, ts[x]) == Before(ts, x)
    ensures ExitRight(m, live, ps, i, ts, x)
  {
    hide PrevOf, NextOf, HasPage;
  }

  /** The list in memory is doubly linked. */
  ghost predicate InLine(k: Machine, s: Scheduler)
    requires k.ram.Length == 0x1_0000_0000
    reads k, k.ram, s
  {
    Linked(k.ram[..], s.View(), s.order)
  }

  lemma LastMayExit(k: Machine, s: Scheduler, ps: Table, i: int)
    requires k.ram.Length == 0x1_0000_0000 && Present(ps, i) && s.tail == ps[i].parts.task
    requires Sys(k, s, ps) && InLine(k, s)
    ensures ExitFine(k.ram[..], s.head, ps, i)
  {
    hide WordAt, Pte, AllAgree, LowStop, PrevOf, NextOf, ExitFine, ListOk, Sys, Different;
    var x := TaskAt(k, s, ps, i);
    LastIs(k.ram[..], s.View(), s.order, x);
    RightBackIsFine(k, s, ps, i, |s.order| - 1);
  }

  lemma LastIs(m: Mem, q: Queue, ts: seq<Frame>, x: int)
    requires Linked(m, q, ts) && 0 <= x < |ts|
    ensures q.tail == ts[|ts| - 1] && PrevOf(m, ts[|ts| - 1]) == Before(ts, |ts| - 1) && Different(ts)
  {
    hide NextOf, PrevOf;
  }

  /** A call that takes out at most the last task keeps the list doubly linked and writes no stray link. */
  lemma StaysInLine(m: Mem, q: Queue, ts: seq<Frame>, m': Mem, q': Queue, ts': seq<Frame>, st: TaskList.Step)
    requires Linked(m, q, ts) && ListOk(m', q', ts') && LineOf(m', ts') == Stepped(LineOf(m, ts), st)
    requires st.Drop? ==> st.at + 1 == |ts|
    ensures Linked(m', q', ts') && Strays(LineOf(m, ts), st) == {}
  {
    hide NextOf, PrevOf, LineOf, Stepped, Strays, Linked, Forward, Straight;
    var c, c' := LineOf(m, ts), LineOf(m', ts');
    LinkedIsStraight(m, q, ts);
    DifferentOrder(m', q', ts');
    LineTasks(m, ts);
    LineTasks(m', ts');
    TailStep(c, st);
    StraightOn(c, st);
    NotStray(c, st);
    LinkedIsStraight(m', q', ts');
  }

  lemma LineTasks(m: Mem, ts: seq<Frame>)
    ensures LineOf(m, ts).ts == ts
  {
  }

  lemma TailStep(c: Line, st: TaskList.Step)
    requires Different(Stepped(c, st).ts) && (st.Drop? ==> st.at + 1 == |c.ts|)
    ensures AtTail(c.ts, st)
  {
    if st.Create? {
      var ts := Stepped(c, st).ts;
      assert ts[|c.ts|] == st.t && forall i :: 0 <= i < |c.ts| ==> ts[i] == c.ts[i];
    }
  }

  lemma NotStray(c: Line, st: TaskList.Step)
    requires Straight(c) && AtTail(c.ts, st)
    ensures Strays(c, st) == {}
  {
    if st.Drop? { assert c.bs[st.at] == Before(c.ts, st.at); }
  }

  lemma NoStrays(m: Mem, live: Runs, ps: map<int, Proc>, m1: Mem, live1: Runs, ps1: map<int, Proc>, m2: Mem,
      live2: Runs, ps2: map<int, Proc>, X: set<Word>)
    requires UnownedKeep(m, live, ps, m1, live1, ps1, {}) && UnownedKeep(m1, live1, ps1, m2, live2, ps2, X) && X == {}
    ensures UnownedKeep(m, live, ps, m2, live2, ps2, {})
  {
    hide UnownedKeep;
    assert {} + X == {};
    UnownedThen(m, live, ps, m1, live1, ps1, m2, live2, ps2, {}, X);
  }

  /** As long as only the last listed process exits, every exit is enabled, the list stays doubly linked, and runs
      of no process keep every byte. The run ends at an exit of another process or at another call that is not
      enabled. */
  method LastOut(k: Machine, s: Scheduler, ps: Table, calls: seq<Call>) returns (ps': Table, done: nat)
    requires k.ram.Length == 0x1_0000_0000
    requires Sys(k, s, ps) && InLine(k, s)
    modifies k, k.ram, s, Arrays(ps), Objects(ps)
    ensures Sys(k, s, ps') && InLine(k, s) && done <= |calls|
    ensures done < |calls| && calls[done].CallExit? ==> !IsLast(s.tail, ps', calls[done].pid)
    ensures done < |calls| && !calls[done].CallExit? ==> !Enabled(k.ram[..], s.head, ps', calls[done])
    ensures UnownedKeep(old(k.ram[..]), old(k.live), old(Views(ps)), k.ram[..], k.live, Views(ps'), {})
  {
    hide WordAt, Pte, AllAgree, LowStop, Enabled, Undisturbed, OthersKeep, UnownedKeep, LineOf, Stepped, Strays,
      Scheduled, Linked, Names, PrevOf, NextOf, Matches;
    ghost var m, live, vs := k.ram[..], k.live, Views(ps);
    UnownedNow(m, live, vs);
    ps', done := ps, 0;
    while done < |calls|
      invariant Sys(k, s, ps') && InLine(k, s) && done <= |calls|
      invariant forall j :: Present(ps', j) && ps'[j] != ps[j] ==> fresh(ps'[j]) && fresh(ps'[j].allocations)
      invariant UnownedKeep(m, live, vs, k.ram[..], k.live, Views(ps'), {})
    {
      var c := calls[done];
      if c.CallExit? && !IsLast(s.tail, ps', c.pid) {
        return;
      }
      if c.CallExit? { LastEnabled(k, s, ps', c.pid); }
      if !Enabled(k.ram[..], s.head, ps', c) {
        return;
      }
      ghost var m1, live1, vs1, q1, ts1, before := k.ram[..], k.live, Views(ps'), s.View(), s.order, ps';
      ghost var st;
      ps', st := Step(k, s, ps', c);
      OnlyLast(m1, q1, ts1, c, st, before, ps');
      StaysInLine(m1, q1, ts1, k.ram[..], s.View(), s.order, st) by { InOrderNow(k, s, ps'); }
      NoStrays(m, live, vs, m1, live1, vs1, k.ram[..], k.live, Views(ps'), Strays(LineOf(m1, ts1), st));
      done := done + 1;
    }
  }

  /** The process in place `i` is there and listed last. */
  predicate IsLast(tail: Word, ps: Table, i: int) {
    Present(ps, i) && ps[i].parts.task == tail
  }

  lemma LastEnabled(k: Machine, s: Scheduler, ps: Table, i: int)
    requires k.ram.Length == 0x1_0000_0000 && IsLast(s.tail, ps, i)
    requires Sys(k, s, ps) && InLine(k, s)
    ensures Enabled(k.ram[..], s.head, ps, CallExit(i))
  {
    hide ExitFine, Sys, InLine;
    LastMayExit(k, s, ps, i);
  }

  lemma OnlyLast(m: Mem, q: Queue, ts: seq<Frame>, c: Call, st: TaskList.Step, ps: Table, ps': Table)
    requires Linked(m, q, ts) && Matches(c, st, ts, ps, ps') && (c.CallExit? ==> IsLast(q.tail, ps, c.pid))
    ensures st.Drop? ==> st.at + 1 == |ts|
  {
    hide NextOf, PrevOf;
    if st.Drop? { LastIs(m, q, ts, st.at); }
  }

  lemma InOrderNow(k: Machine, s: Scheduler, ps: Table)
    requires Sys(k, s, ps)
    ensures ListOk(k.ram[..], s.View(), s.order)
  {
    hide ListOk, AllAgree, LowStop, PrevOf;
  }

  /** After every run, whoever made whatever calls, a process that is still there can write exactly its
      stack pages, the pages of its PF_W segments and its live allocations. */
  method WritableInRun(k: Machine, s: Scheduler, ps: Table, i: int, calls: seq<Call>, ghost n: int,
      ghost segs: seq<Segment>)
    returns (ps': Table, done: nat)
    requires Sys(k, s, ps) && Present(ps, i) && AsLoaded(ps[i], n, segs) && PageDisjoint(ps[i].parts.image, segs)
    modifies k, k.ram, s, Arrays(ps), Objects(ps)
    ensures Sys(k, s, ps') && done <= |calls| && (done < |calls| ==> !Enabled(k.ram[..], s.head, ps', calls[done]))
    ensures ps'[i] == null || ps'[i] == ps[i] || fresh(ps'[i])
    ensures ps'[i] == ps[i] ==> forall v: Page :: UserWritable(k.ram[..], ps[i].sh, v) <==>
      || 0x3FF000 - 16384 <= 4096 * v < 0x3FF000
      || (exists x :: 0 <= x < |segs| && segs[x].flags / 2 % 2 == 1 && OnPage(ps[i].parts.image, segs[x], v))
      || exists x :: 0 <= x < 1024 && ps[i].allocations[x].ptr != 0 &&
           ps[i].allocations[x].ptr <= 4096 * v < ps[i].allocations[x].ptr + ps[i].allocations[x].size
    ensures ps'[i] == ps[i] ==> forall a: Word :: 0x3FF000 - 16384 <= a < 0x3FF000 ==>
      Physical(k.ram[..], ps[i].sh, a) == ps[i].parts.stack + (a - 0x3FB000)
  {
    hide WordAt, Pte, BlockIndex, Agree, OwnRuns, LowStop, UserWritable, Enabled, OnPage, Physical, AsLoaded,
      PageDisjoint, Sys;
    ghost var sts;
    ps', done, sts := Run(k, s, ps, calls);
    if ps'[i] == ps[i] {
      AgreesInRun(k, s, ps', i);
      WritableNow(k.ram[..], k.live, ps[i], n, segs);
      StackNow(k.ram[..], k.live, ps[i], n, segs);
    }
  }

  lemma AgreesInRun(k: Machine, s: Scheduler, ps: Table, i: int)
    requires Sys(k, s, ps) && Present(ps, i)
    ensures k.ram.Length == 0x1_0000_0000 && ps[i].allocations.Length == 1024
    ensures Agree(k.ram[..], k.live, ps[i].View())
  {
    SysOne(k, s, ps, i);
  }

  lemma WritableNow(m: Mem, live: Runs, p: Process, n: int, segs: seq<Segment>)
    requires p.allocations.Length == 1024 && Agree(m, live, p.View())
    requires AsLoaded(p, n, segs) && PageDisjoint(p.parts.image, segs)
    ensures forall v: Page :: UserWritable(m, p.sh, v) <==>
      || 0x3FF000 - 16384 <= 4096 * v < 0x3FF000
      || (exists x :: 0 <= x < |segs| && segs[x].flags / 2 % 2 == 1 && OnPage(p.parts.image, segs[x], v))
      || exists x :: 0 <= x < 1024 && p.allocations[x].ptr != 0 &&
           p.allocations[x].ptr <= 4096 * v < p.allocations[x].ptr + p.allocations[x].size
  {
    hide WordAt, Pte, BlockIndex, Agree, OwnRuns, UserWritable, LoadedEntry, OnPage;
    var slots := p.allocations[..];
    forall v: Page ensures UserWritable(m, p.sh, v) <==>
      || 0x3FF000 - 16384 <= 4096 * v < 0x3FF000
      || (exists x :: 0 <= x < |segs| && segs[x].flags / 2 % 2 == 1 && OnPage(p.parts.image, segs[x], v))
      || exists x :: 0 <= x < |slots| && slots[x].ptr != 0 && slots[x].ptr <= 4096 * v < slots[x].ptr + slots[x].size
    {
      WritablePages(m, live, p.View(), n, segs, v);
    }
  }

  /** The stack of a loaded process is at its place whatever the process allocates and frees. */
  lemma StackNow(m: Mem, live: Runs, p: Process, n: int, segs: seq<Segment>)
    requires Agree(m, live, p.View()) && AsLoaded(p, n, segs)
    ensures p.parts.stack % 4096 == 0 && 0x0100_0000 <= p.parts.stack < 0x0740_0000
    ensures forall a: Word :: 0x3FF000 - 16384 <= a < 0x3FF000 ==>
      UserWritable(m, p.sh, a / 4096) && Physical(m, p.sh, a) == p.parts.stack + (a - 0x3FB000)
  {
    hide WordAt, Pte, BlockIndex, UserWritable, Physical, Loaded;
    BlockAligned(BlockIndex(p.parts.stack));
    assert Start(live, p.parts.stack);
    StackAddresses(m, p.sh, p.parts.stack);
  }
}
