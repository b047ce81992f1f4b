/** What a process record, the kernel heap and the page tables must agree on, and
    what each change to one of them does to that agreement. */
module ProcessMemory {
  import opened Ram
  import opened HeapTable
  import opened PageTables
  import opened Paging

  /** One entry of the allocations array; the pointer is 0 in an empty slot. */
  datatype Slot = Slot(ptr: Word, size: Word)

  /** The runs of a process besides its address space and its allocations: program image, stack, and
      the records of its task, its file and itself. */
  datatype Holdings = Holdings(image: Word, stack: Word, task: Frame, elf: Word, record: Word)

  /** The memory of one loaded process: its address space, its parts, its allocation slots, and the page
      entries below the heap pool as loading left them. */
  datatype Proc = Proc(sh: Space, parts: Holdings, slots: seq<Slot>, low: seq<Word>)

  /** Present, writable and open to user mode. */
  predicate Grants(e: Word) {
    e % 8 == 7
  }

  /** A user-mode write to page `v` is allowed: both levels grant it. */
  predicate UserWritable(m: Mem, sh: Space, v: Page) {
    Grants(Pte(m, sh, v)) && sh.flags % 8 == 7
  }

  ghost predicate SlotCovers(live: Runs, s: Slot, v: Page) {
    s.ptr != 0 && Covers(live, BlockIndex(s.ptr), v - 0x1000)
  }

  /** Page `v` belongs to one of the recorded allocations. */
  ghost predicate InSlots(live: Runs, slots: seq<Slot>, v: Page) {
    exists i :: 0 <= i < |slots| && SlotCovers(live, slots[i], v)
  }

  /** Each nonzero slot names the start of its own live run of the recorded size. */
  ghost predicate RecordsAgree(live: Runs, slots: seq<Slot>) {
    && |slots| == 1024
    && (forall i :: 0 <= i < 1024 && slots[i].ptr == 0 ==> slots[i].size == 0)
    && (forall i :: 0 <= i < 1024 && slots[i].ptr != 0 ==>
          Start(live, slots[i].ptr) && live[BlockIndex(slots[i].ptr)] == Blocks(slots[i].size))
    && (forall i, j :: 0 <= i < j < 1024 && slots[i].ptr != 0 ==> slots[i].ptr != slots[j].ptr)
  }

  /** Runs of the process other than its recorded allocations. */
  ghost function FixedRuns(p: Proc): set<int> {
    BlocksOf(Foot(p.sh)) + PartRuns(p.parts)
  }

  ghost function PartRuns(q: Holdings): set<int> {
    {BlockIndex(q.image), BlockIndex(q.stack), BlockIndex(q.task), BlockIndex(q.elf), BlockIndex(q.record)}
  }

  /** The runs of a process one by one: image, stack, task, file and process record, the blocks of the address space,
      and the recorded allocations. */
  lemma OwnRunsAre(p: Proc, b: int)
    ensures b in OwnRuns(p) <==>
      || b == BlockIndex(p.parts.image) || b == BlockIndex(p.parts.stack) || b == BlockIndex(p.parts.task)
      || b == BlockIndex(p.parts.elf) || b == BlockIndex(p.parts.record)
      || b == BlockIndex(p.sh.chunk) || b == BlockIndex(p.sh.dir)
      || (exists i :: 0 <= i < 1024 && b == BlockIndex(p.sh.tables[i]))
      || exists i :: 0 <= i < |p.slots| && p.slots[i].ptr != 0 && b == BlockIndex(p.slots[i].ptr)
  {
    hide BlockIndex;
    forall i | 0 <= i < 1024 ensures p.sh.tables[i] in Foot(p.sh) {}
    assert p.sh.chunk in Foot(p.sh) && p.sh.dir in Foot(p.sh);
  }

  /** No two parts start at the same block. */
  ghost predicate PartsApart(q: Holdings) {
    && BlockIndex(q.image) !in {BlockIndex(q.stack), BlockIndex(q.task), BlockIndex(q.elf), BlockIndex(q.record)}
    && BlockIndex(q.stack) !in {BlockIndex(q.task), BlockIndex(q.elf), BlockIndex(q.record)}
    && BlockIndex(q.task) !in {BlockIndex(q.elf), BlockIndex(q.record)} && BlockIndex(q.elf) != BlockIndex(q.record)
  }

  ghost predicate PartsAgree(live: Runs, p: Proc) {
    && PartsApart(p.parts) && PartRuns(p.parts) !! BlocksOf(Foot(p.sh))
    && OneBlock(live, p.parts.task) && OneBlock(live, p.parts.elf) && Start(live, p.parts.record)
  }

  ghost function SlotRuns(slots: seq<Slot>): set<int> {
    set i | 0 <= i < |slots| && slots[i].ptr != 0 :: BlockIndex(slots[i].ptr)
  }

  ghost function OwnRuns(p: Proc): set<int> {
    FixedRuns(p) + SlotRuns(p.slots)
  }

  /** The entries of the flat map: as loaded below the pool, identity above it and
      writable exactly on the recorded allocations. */
  ghost predicate PagesAgree(m: Mem, live: Runs, p: Proc) {
    && |p.low| == 0x1000
    && (forall v: Page :: v < 0x1000 ==> Pte(m, p.sh, v) == p.low[v])
    && (forall v: Page :: v >= 0x1000 ==> Untag(Pte(m, p.sh, v)) == 4096 * v)
    && (forall v: Page :: v >= 0x1000 ==> (Grants(Pte(m, p.sh, v)) <==> InSlots(live, p.slots, v)))
  }

  /** The physical page of entry `e` lies in the image or the stack. */
  ghost predicate InFixed(live: Runs, p: Proc, e: Word) {
    || Covers(live, BlockIndex(p.parts.image), Untag(e) / 4096 - 0x1000)
    || Covers(live, BlockIndex(p.parts.stack), Untag(e) / 4096 - 0x1000)
  }

  /** Writable pages below the pool lie in the image or the stack. */
  ghost predicate LowConfined(live: Runs, p: Proc) {
    && Start(live, p.parts.image) && Start(live, p.parts.stack)
    && forall v :: 0 <= v < |p.low| && Grants(p.low[v]) ==> InFixed(live, p, p.low[v])
  }

  ghost predicate Agree(m: Mem, live: Runs, p: Proc) {
    && WellFormed(live)
    && Owned(live, p.sh) && Wired(m, p.sh) && p.sh.flags % 8 == 7
    && RecordsAgree(live, p.slots) && SlotRuns(p.slots) !! FixedRuns(p)
    && PartsAgree(live, p)
    && PagesAgree(m, live, p) && LowConfined(live, p)
  }

  /** The runs of `B` are still there, with their lengths. */
  ghost predicate RunsKept(live: Runs, live': Runs, B: set<int>) {
    forall b :: b in B && b in live ==> b in live' && live'[b] == live[b]
  }

  lemma OwnRunsLive(m: Mem, live: Runs, p: Proc)
    requires Agree(m, live, p)
    ensures forall b :: b in OwnRuns(p) ==> b in live
  {
    forall t | t in Foot(p.sh) ensures BlockIndex(t) in live { assert OneBlock(live, t); }
  }

  /** Nothing outside a process can disturb it: as long as its runs stay live and its
      page-table blocks keep their bytes, record, heap and tables agree as before. */
  lemma AgreeKept(m: Mem, live: Runs, m': Mem, live': Runs, p: Proc)
    requires Agree(m, live, p) && WellFormed(live') && RunsKept(live, live', OwnRuns(p))
    requires forall t: Frame :: InFoot(p.sh, t) ==> SamePage(m, m', t)
    ensures Agree(m', live', p)
    ensures forall v: Page :: Pte(m', p.sh, v) == Pte(m, p.sh, v)
  {
    hide WordAt, BlockIndex;
    OwnRunsLive(m, live, p);
    FootFrame(m, m', p.sh);
    forall t | t in Foot(p.sh) ensures OneBlock(live', t) {
      assert OneBlock(live, t) && BlockIndex(t) in BlocksOf(Foot(p.sh));
    }
    forall i | 0 <= i < 1024 && p.slots[i].ptr != 0
      ensures Start(live', p.slots[i].ptr) && live'[BlockIndex(p.slots[i].ptr)] == live[BlockIndex(p.slots[i].ptr)]
    {
      assert BlockIndex(p.slots[i].ptr) in SlotRuns(p.slots);
    }
    forall i, v: Page | 0 <= i < 1024 ensures SlotCovers(live', p.slots[i], v) <==> SlotCovers(live, p.slots[i], v) {}
    forall v: Page | v >= 0x1000 ensures InSlots(live', p.slots, v) <==> InSlots(live, p.slots, v) {}
    assert PagesAgree(m', live', p);
    assert PartRuns(p.parts) <= FixedRuns(p);
    assert LowConfined(live', p);
  }

  lemma EntryBits(v: Page, f: int)
    requires 0 <= f < 8
    ensures Untag(4096 * v + f) == 4096 * v && (Grants(4096 * v + f) <==> f == 7)
  {
    ModAdd(v, f);
    ModEight(v, f);
  }

  /** The pages a run occupies when it is mapped at its own address. */
  lemma RunPage(b: int, n: int, v: Page)
    requires 0 <= b && 1 <= n && b + n <= 25600
    ensures BlockAddr(b) == 4096 * (0x1000 + b) && BlockAddr(b) / 4096 == 0x1000 + b && BlockAddr(b) % 4096 == 0
    ensures Above(0x1000 + b, v) < n <==> b <= v - 0x1000 < b + n
    ensures b <= v - 0x1000 < b + n ==> Above(0x1000 + b, v) == v - 0x1000 - b
  {
    var d := v - (0x1000 + b);
    assert Above(0x1000 + b, v) == if d >= 0 then d else d + 0x10_0000;
  }

  /** Mapping a run at its own address sets the entries of the pages that it touches and no other. */
  lemma RunEntries(m: Mem, m': Mem, sh: Space, ptr: Word, size: Word, flags: int)
    requires 0x0100_0000 <= ptr && ptr + size <= 0x0740_0000 && ptr % 4096 == 0 && 1 <= Blocks(size)
    requires Mapped(m, m', sh, ptr / 4096, ptr, Blocks(size), flags)
    ensures forall v: Page ::
      Pte(m', sh, v) == if ptr <= 4096 * v < ptr + size then 4096 * v + flags else Pte(m, sh, v)
  {
    hide WordAt, Pte, Above;
    SizeInBlocks(size);
    var b := ptr / 4096 - 0x1000;
    assert ptr == 4096 * (0x1000 + b);
    forall v: Page ensures Pte(m', sh, v) == if ptr <= 4096 * v < ptr + size then 4096 * v + flags else Pte(m, sh, v) {
      RunPage(b, Blocks(size), v);
    }
  }

  /** Mapping the run of a new allocation and recording it. */
  lemma RecordSlot(m: Mem, m': Mem, live: Runs, p: Proc, i: int, ptr: Word, size: Word)
    requires Agree(m, live, p) && 0 <= i < 1024 && p.slots[i].ptr == 0
    requires ptr != 0 && Start(live, ptr) && live[BlockIndex(ptr)] == Blocks(size) && BlockIndex(ptr) !in OwnRuns(p)
    requires BlockAddr(BlockIndex(ptr)) % 4096 == 0
    requires Mapped(m, m', p.sh, ptr / 4096, ptr, Blocks(size), 7) && Wired(m', p.sh)
    ensures Agree(m', live, p.(slots := p.slots[i := Slot(ptr, size)]))
  {
    hide WordAt, Untag, Grants, BlockIndex, BlockAddr, Above;
    var slots' := p.slots[i := Slot(ptr, size)];
    var p' := p.(slots := slots');
    var b, n := BlockIndex(ptr), Blocks(size);
    SlotRunsSet(p.slots, i, Slot(ptr, size));
    forall j | 0 <= j < 1024 && p.slots[j].ptr != 0 ensures p.slots[j].ptr != ptr {
      assert BlockIndex(p.slots[j].ptr) in SlotRuns(p.slots);
    }
    assert RecordsAgree(live, slots');
    forall v: Page
      ensures Pte(m', p.sh, v) == if b <= v - 0x1000 < b + n then 4096 * v + 7 else Pte(m, p.sh, v)
      ensures Untag(4096 * v + 7) == 4096 * v && Grants(4096 * v + 7)
    {
      RunPage(b, n, v);
      EntryBits(v, 7);
    }
    InSlotsSet(live, p.slots, i, Slot(ptr, size));
    assert PagesAgree(m', live, p');
    assert LowConfined(live, p') by { assert forall e :: InFixed(live, p', e) <==> InFixed(live, p, e); }
  }

  lemma SlotRunsSet(slots: seq<Slot>, i: int, s: Slot)
    requires 0 <= i < |slots| && slots[i].ptr == 0 && s.ptr != 0
    ensures SlotRuns(slots[i := s]) == SlotRuns(slots) + {BlockIndex(s.ptr)}
  {
    var slots' := slots[i := s];
    forall b | b in SlotRuns(slots) ensures b in SlotRuns(slots') {
      var j :| 0 <= j < |slots| && slots[j].ptr != 0 && b == BlockIndex(slots[j].ptr);
      assert slots'[j].ptr != 0;
    }
    assert slots'[i].ptr != 0;
  }

  lemma InSlotsSet(live: Runs, slots: seq<Slot>, i: int, s: Slot)
    requires 0 <= i < |slots| && slots[i].ptr == 0 && s.ptr != 0 && BlockIndex(s.ptr) in live
    ensures forall v: Page :: InSlots(live, slots[i := s], v) <==>
      InSlots(live, slots, v) || Covers(live, BlockIndex(s.ptr), v - 0x1000)
  {
    hide BlockIndex;
    var slots' := slots[i := s];
    forall v: Page ensures InSlots(live, slots', v) <==> InSlots(live, slots, v) || SlotCovers(live, s, v) {
      if InSlots(live, slots, v) {
        var j :| 0 <= j < |slots| && SlotCovers(live, slots[j], v);
        assert SlotCovers(live, slots'[j], v);
      }
      if SlotCovers(live, s, v) { assert SlotCovers(live, slots'[i], v); }
      if InSlots(live, slots', v) {
        var j :| 0 <= j < |slots'| && SlotCovers(live, slots'[j], v);
        assert j != i ==> SlotCovers(live, slots[j], v);
      }
    }
  }

  lemma InSlotsDrop(live: Runs, slots: seq<Slot>, i: int)
    requires WellFormed(live) && RecordsAgree(live, slots) && 0 <= i < 1024 && slots[i].ptr != 0
    ensures var b := BlockIndex(slots[i].ptr);
      forall v: Page ::
        InSlots(live - {b}, slots[i := Slot(0, 0)], v) <==> InSlots(live, slots, v) && !Covers(live, b, v - 0x1000)
  {
    hide BlockIndex, BlockAddr, Blocks;
    var b := BlockIndex(slots[i].ptr);
    var slots', live' := slots[i := Slot(0, 0)], live - {b};
    forall j | 0 <= j < 1024 && j != i && slots[j].ptr != 0 ensures BlockIndex(slots[j].ptr) != b {
      assert slots[j].ptr != slots[i].ptr;
    }
    forall v: Page ensures InSlots(live', slots', v) <==> InSlots(live, slots, v) && !Covers(live, b, v - 0x1000) {
      if InSlots(live', slots', v) {
        var j :| 0 <= j < |slots'| && SlotCovers(live', slots'[j], v);
        assert SlotCovers(live, slots[j], v);
      }
      if InSlots(live, slots, v) && !Covers(live, b, v - 0x1000) {
        var j :| 0 <= j < |slots| && SlotCovers(live, slots[j], v);
        assert SlotCovers(live', slots'[j], v);
      }
    }
  }

  lemma RecordsDrop(live: Runs, slots: seq<Slot>, i: int)
    requires RecordsAgree(live, slots) && 0 <= i < 1024 && slots[i].ptr != 0
    ensures var b := BlockIndex(slots[i].ptr);
      b in SlotRuns(slots) && SlotRuns(slots[i := Slot(0, 0)]) == SlotRuns(slots) - {b} &&
      RecordsAgree(live - {b}, slots[i := Slot(0, 0)])
  {
    hide BlockIndex, BlockAddr, Blocks;
    var b := BlockIndex(slots[i].ptr);
    var slots' := slots[i := Slot(0, 0)];
    forall j | 0 <= j < 1024 && j != i && slots[j].ptr != 0 ensures BlockIndex(slots[j].ptr) != b {
      assert slots[j].ptr != slots[i].ptr;
    }
    forall c | c in SlotRuns(slots') ensures c in SlotRuns(slots) && c != b {
      var j :| 0 <= j < |slots'| && slots'[j].ptr != 0 && c == BlockIndex(slots'[j].ptr);
      assert slots[j].ptr != 0;
    }
    forall c | c in SlotRuns(slots) && c != b ensures c in SlotRuns(slots') {
      var j :| 0 <= j < |slots| && slots[j].ptr != 0 && c == BlockIndex(slots[j].ptr);
      assert slots'[j].ptr != 0;
    }
  }

  /** Unmapping the run of slot `i`, clearing the slot and freeing the run. */
  lemma EraseSlot(m: Mem, m': Mem, live: Runs, p: Proc, i: int)
    requires Agree(m, live, p) && 0 <= i < 1024 && p.slots[i].ptr != 0
    requires p.slots[i].ptr % 4096 == 0
    requires Mapped(m, m', p.sh, p.slots[i].ptr / 4096, p.slots[i].ptr, Blocks(p.slots[i].size), 0) && Wired(m', p.sh)
    ensures Agree(m', live - {BlockIndex(p.slots[i].ptr)}, p.(slots := p.slots[i := Slot(0, 0)]))
  {
    hide WordAt, Untag, Grants, BlockIndex, BlockAddr, Above;
    var slots' := p.slots[i := Slot(0, 0)];
    var p' := p.(slots := slots');
    var b, n := BlockIndex(p.slots[i].ptr), Blocks(p.slots[i].size);
    var live' := live - {b};
    DropRun(live, b);
    RecordsDrop(live, p.slots, i);
    forall t | t in Foot(p.sh) ensures OneBlock(live', t) { assert OneBlock(live, t) && BlockIndex(t) in FixedRuns(p); }
    forall v: Page
      ensures Pte(m', p.sh, v) == if b <= v - 0x1000 < b + n then 4096 * v else Pte(m, p.sh, v)
      ensures Untag(4096 * v) == 4096 * v && !Grants(4096 * v)
    {
      RunPage(b, n, v);
      EntryBits(v, 0);
    }
    InSlotsDrop(live, p.slots, i);
    assert PagesAgree(m', live', p');
    assert PartRuns(p.parts) <= FixedRuns(p);
    assert LowConfined(live', p') by { assert forall e :: InFixed(live', p', e) <==> InFixed(live, p, e); }
  }

  // ---- what one process may touch -----------------------------------------

  /** Page `t` is a pool page that belongs to no live run. */
  ghost predicate FreePage(live: Runs, t: Frame) {
    0x1000 <= t / 4096 < 0x7400 && !Taken(live, t / 4096 - 0x1000)
  }

  /** Apart from the heap's bookkeeping and pages that were free, only the tables of `sh` changed. */
  ghost predicate KeptLive(m: Mem, live: Runs, m': Mem, sh: Space) {
    forall t: Frame :: !HeapPage(t) && t !in sh.tables && !FreePage(live, t) ==> SamePage(m, m', t)
  }

  /** A step of process `p` that leaves every run of others, with its content, and all
      memory outside the pool and the heap's bookkeeping as it was. */
  ghost predicate Confined(m: Mem, live: Runs, p: Proc, m': Mem, live': Runs) {
    && (forall b :: b in live && b !in OwnRuns(p) ==> b in live' && live'[b] == live[b])
    && (forall b, t: Frame :: b !in OwnRuns(p) && Covers(live, b, t / 4096 - 0x1000) ==> SamePage(m, m', t))
    && (forall t: Frame :: !HeapPage(t) && !(0x1000 <= t / 4096 < 0x7400) ==> SamePage(m, m', t))
    && SamePage(m, m', p.parts.task)
  }

  /** The task record is a live block that holds no page table. */
  ghost predicate TaskStands(live: Runs, p: Proc) {
    OneBlock(live, p.parts.task) && BlockIndex(p.parts.task) !in BlocksOf(Foot(p.sh))
  }

  lemma TaskInPool(live: Runs, p: Proc)
    requires WellFormed(live) && Owned(live, p.sh) && TaskStands(live, p)
    ensures 0x0100_0000 <= p.parts.task < 0x0740_0000 && p.parts.task !in p.sh.tables
    ensures !HeapPage(p.parts.task) && !FreePage(live, p.parts.task)
    ensures Covers(live, BlockIndex(p.parts.task), p.parts.task / 4096 - 0x1000)
  {
    var t: Word := p.parts.task;
    assert t / 4096 - 0x1000 == BlockIndex(t) && Covers(live, BlockIndex(t), BlockIndex(t));
    forall u | u in p.sh.tables
      ensures u != p.parts.task
    {
      assert u in Foot(p.sh) && BlockIndex(u) in BlocksOf(Foot(p.sh));
    }
  }

  lemma KeptConfined(m: Mem, live: Runs, p: Proc, m': Mem, live': Runs)
    requires WellFormed(live) && Owned(live, p.sh) && KeptLive(m, live, m', p.sh) && TaskStands(live, p)
    requires forall b :: b in live && b !in OwnRuns(p) ==> b in live' && live'[b] == live[b]
    ensures Confined(m, live, p, m', live')
  {
    hide BlockIndex, Owned, SlotRuns, WellFormed;
    forall t | t in p.sh.tables
      ensures 0x1000 <= t / 4096 < 0x7400 && forall b :: Covers(live, b, t / 4096 - 0x1000) ==> b in OwnRuns(p)
    {
      TableInPool(live, p, t);
    }
    forall b, t: Frame | b !in OwnRuns(p) && Covers(live, b, t / 4096 - 0x1000) ensures SamePage(m, m', t) {
      assert Taken(live, t / 4096 - 0x1000);
      CoveredInPool(live, b, t);
    }
    TaskInPool(live, p);
  }

  lemma CoveredInPool(live: Runs, b: int, t: Frame)
    requires WellFormed(live) && Covers(live, b, t / 4096 - 0x1000)
    ensures 0x0100_0000 <= t < 0x0740_0000 && !HeapPage(t) && !FreePage(live, t)
  {
    assert t == 4096 * (t / 4096);
  }

  lemma TableInPool(live: Runs, p: Proc, t: Frame)
    requires WellFormed(live) && Owned(live, p.sh) && t in p.sh.tables
    ensures 0x1000 <= t / 4096 < 0x7400 && forall b :: Covers(live, b, t / 4096 - 0x1000) ==> b in OwnRuns(p)
  {
    hide BlockIndex;
    assert InFoot(p.sh, t);
    FootInPool(live, p.sh, t);
    assert Covers(live, BlockIndex(t), t / 4096 - 0x1000) && BlockIndex(t) in FixedRuns(p);
  }

  lemma ConfinedTrans(m: Mem, live: Runs, p: Proc, m1: Mem, live1: Runs, p1: Proc, m2: Mem, live2: Runs)
    requires Confined(m, live, p, m1, live1) && Confined(m1, live1, p1, m2, live2)
    requires p1.parts == p.parts && forall b :: b in live && b in OwnRuns(p1) ==> b in OwnRuns(p)
    ensures Confined(m, live, p, m2, live2)
  {
    forall b, t: Frame | b !in OwnRuns(p) && Covers(live, b, t / 4096 - 0x1000) ensures SamePage(m, m2, t) {
      assert Covers(live1, b, t / 4096 - 0x1000);
      assert SamePage(m, m1, t) && SamePage(m1, m2, t);
    }
    forall t: Frame | !HeapPage(t) && !(0x1000 <= t / 4096 < 0x7400) ensures SamePage(m, m2, t) {
      assert SamePage(m, m1, t) && SamePage(m1, m2, t);
    }
  }

  /** A step or several of one process, from `p` to `p1`: confined, with the bytes below the heap table as
      they were, and with runs that are its own or were free. */
  ghost predicate Stays(m: Mem, live: Runs, p: Proc, m1: Mem, live1: Runs, p1: Proc) {
    && Confined(m, live, p, m1, live1) && SameLow(m, m1) && p1 == p.(slots := p1.slots)
    && forall b :: b in OwnRuns(p1) ==> b in OwnRuns(p) || b !in live
  }

  lemma StaysTrans(m: Mem, live: Runs, p: Proc, m1: Mem, live1: Runs, p1: Proc, m2: Mem, live2: Runs, p2: Proc)
    requires Stays(m, live, p, m1, live1, p1) && Stays(m1, live1, p1, m2, live2, p2)
    ensures Stays(m, live, p, m2, live2, p2)
  {
    hide OwnRuns;
    ConfinedTrans(m, live, p, m1, live1, p1, m2, live2);
    forall b | b in OwnRuns(p2) && b in live ensures b in OwnRuns(p) {
      assert b !in OwnRuns(p) ==> b in live1;
      assert b in OwnRuns(p1) ==> b in OwnRuns(p) || b !in live;
    }
  }

  lemma StaysPut(m: Mem, live: Runs, p: Proc)
    ensures Stays(m, live, p, m, live, p)
  {
    NothingConfined(m, live, p);
  }

  lemma LowStopKept(m: Mem, m': Mem)
    requires LowStop(m) && SameLow(m, m')
    ensures LowStop(m')
  {
    var k :| BlockIndex(0) <= k < 0 && m[At(k)] < 128;
    assert m'[At(k)] < 128;
  }

  lemma FootInPool(live: Runs, sh: Space, t: Frame)
    requires WellFormed(live) && Owned(live, sh) && InFoot(sh, t)
    ensures OneBlock(live, t) && 0x0100_0000 <= t < 0x0740_0000 && !HeapPage(t)
    ensures t / 4096 - 0x1000 == BlockIndex(t) && Taken(live, BlockIndex(t)) && !FreePage(live, t)
    ensures BlockIndex(t) in BlocksOf(Foot(sh))
  {
    assert OneBlock(live, t) && t in Foot(sh);
    assert Covers(live, BlockIndex(t), BlockIndex(t));
  }

  lemma NotInRun(live: Runs, size: Word, ptr: Word, t: Frame)
    requires ptr == BlockAddr(BlockIndex(ptr)) && Fits(live, BlockIndex(ptr), Blocks(size)) && !FreePage(live, t)
    ensures t + 4096 <= ptr || ptr + size <= t
  {
    SizeInBlocks(size);
    var i := t / 4096 - 0x1000;
    assert t == 4096 * (t / 4096);
    assert BlockIndex(ptr) <= i < BlockIndex(ptr) + Blocks(size) ==> !Taken(live, i);
  }

  /** An allocation changes only the heap table and pages that were free. */
  lemma KzallocKeeps(m: Mem, live: Runs, p: Proc, size: Word, ptr: Word, m': Mem, live': Runs)
    requires Agree(m, live, p) && WellFormed(live') && ptr != 0 && Allocated(live, size, ptr, live')
    requires ZeroedAt(m, m', ptr, size) && ptr + size <= 0x0740_0000
    ensures Agree(m', live', p) && BlockIndex(ptr) !in live && BlockIndex(ptr) !in OwnRuns(p)
    ensures forall v: Page :: Pte(m', p.sh, v) == Pte(m, p.sh, v)
    ensures Confined(m, live, p, m', live') && KeptLive(m, live, m', p.sh) && SameLow(m, m')
  {
    hide WordAt;
    var b := BlockIndex(ptr);
    AddRun(live, b, Blocks(size));
    OwnRunsLive(m, live, p);
    forall t: Frame | !HeapPage(t) && !FreePage(live, t) ensures SamePage(m, m', t) {
      NotInRun(live, size, ptr, t);
    }
    forall t: Frame | InFoot(p.sh, t) ensures SamePage(m, m', t) { FootInPool(live, p.sh, t); }
    AgreeKept(m, live, m', live', p);
    KeptConfined(m, live, p, m', live');
  }

  lemma SizeInBlocks(size: Word)
    requires 1 <= Blocks(size)
    ensures 4096 * (Blocks(size) - 1) < size <= 4096 * Blocks(size)
  {
  }

  /** The aligned end of a new allocation lies exactly its blocks above its start. */
  lemma EndOfRun(ptr: Word, size: Word)
    requires ptr % 4096 == 0 && 1 <= Blocks(size) && ptr + size <= 0x0740_0000
    ensures AlignAddress(ptr + size) == ptr + 4096 * Blocks(size)
    ensures !BadRange(ptr, ptr, AlignAddress(ptr + size))
  {
    var n := Blocks(size);
    SizeInBlocks(size);
    assert (ptr + size) % 4096 == size % 4096;
  }

  lemma TablesKeep(m: Mem, live: Runs, p: Proc, m': Mem)
    requires Encodes(m, live) && Agree(m, live, p) && OnlyTables(m, m', p.sh)
    ensures Encodes(m', live) && SameLow(m, m') && Confined(m, live, p, m', live)
  {
    forall u: Frame | HeapPage(u) ensures SamePage(m, m', u) {
      if u in p.sh.tables { FootInPool(live, p.sh, u); }
    }
    TableUntouched(m, m', live);
    SameLowPages(m, m');
    KeptConfined(m, live, p, m', live);
  }

  lemma FreshRun(m: Mem, live: Runs, p: Proc, size: Word, ptr: Word, m1: Mem, live1: Runs)
    requires Agree(m, live, p) && WellFormed(live1) && ptr != 0 && Allocated(live, size, ptr, live1)
    requires ZeroedAt(m, m1, ptr, size) && ptr + size <= 0x0740_0000
    ensures Ready(m1, p.sh) && ptr % 4096 == 0 && Blocks(size) >= 1
    ensures BlockIndex(ptr) !in live && Start(live1, ptr)
  {
    hide WordAt, BlockIndex, Blocks, PagesAgree, RecordsAgree, LowConfined;
    KzallocKeeps(m, live, p, size, ptr, m1, live1);
    BlockAligned(BlockIndex(ptr));
  }

  lemma BlockAligned(b: int)
    ensures BlockAddr(b) % 4096 == 0
  {
    assert BlockAddr(b) == 4096 * (0x1000 + b);
  }

  lemma NothingConfined(m: Mem, live: Runs, p: Proc)
    ensures Confined(m, live, p, m, live) && KeptLive(m, live, m, p.sh)
  {
    assert forall t: Frame :: SamePage(m, m, t);
  }

  /** The pages of the new run become writable by the process, every other page keeps its entry. */
  lemma MallocEntries(m: Mem, live: Runs, p: Proc, size: Word, ptr: Word, m1: Mem, live1: Runs, m2: Mem)
    requires Agree(m, live, p) && WellFormed(live1) && ptr != 0 && Allocated(live, size, ptr, live1)
    requires ZeroedAt(m, m1, ptr, size) && ptr + size <= 0x0740_0000
    requires ptr % 4096 == 0 && Mapped(m1, m2, p.sh, ptr / 4096, ptr, Blocks(size), 7)
    ensures forall v: Page ::
      Pte(m2, p.sh, v) == if ptr <= 4096 * v < ptr + size then 4096 * v + 7 else Pte(m, p.sh, v)
  {
    hide WordAt, BlockIndex, BlockAddr, Pte, Blocks, Agree, Confined, KeptLive, Mapped, OwnRuns, Fits, WellFormed;
    KzallocKeeps(m, live, p, size, ptr, m1, live1);
    RunFits(live, size, ptr);
    RunEntries(m1, m2, p.sh, ptr, size, 7);
  }

  /** `process_malloc` when a slot is free: allocated, mapped and recorded. */
  lemma MallocRecorded(m: Mem, live: Runs, p: Proc, size: Word, ptr: Word, m1: Mem, live1: Runs, i: int, m2: Mem)
    requires Agree(m, live, p) && Encodes(m1, live1) && ptr != 0 && Allocated(live, size, ptr, live1)
    requires ZeroedAt(m, m1, ptr, size) && ptr + size <= 0x0740_0000
    requires 0 <= i < 1024 == |p.slots| && p.slots[i].ptr == 0
    requires Mapped(m1, m2, p.sh, ptr / 4096, ptr, Blocks(size), 7) && OnlyTables(m1, m2, p.sh)
    ensures Encodes(m2, live1) && Agree(m2, live1, p.(slots := p.slots[i := Slot(ptr, size)]))
    ensures Confined(m, live, p, m2, live1) && SameLow(m, m2) && KeptLive(m, live, m2, p.sh)
    ensures forall a: Word :: ptr <= a < ptr + size ==> m2[a] == 0
  {
    hide WordAt, BlockIndex, BlockAddr, Pte, RecordsAgree, PagesAgree, LowConfined, Encodes, Taken, Distinct,
      FixedRuns, Blocks, Agree, Confined, KeptLive, OnlyTables, Mapped, SlotRuns, OwnRuns, Fits, WellFormed,
      PartsAgree;
    EncodesWell(m1, live1);
    AgreeParts(m, live, p);
    KzallocKeeps(m, live, p, size, ptr, m1, live1);
    AgreeParts(m1, live1, p);
    BlockAligned(BlockIndex(ptr));
    TablesKeep(m1, live1, p, m2);
    TablesFrame(m1, m2, p.sh);
    RecordSlot(m1, m2, live1, p, i, ptr, size) by { AddRun(live, BlockIndex(ptr), Blocks(size)); }
    ThenTables(m, live, m1, m2, p.sh);
    KeptConfined(m, live, p, m2, live1);
    StillZero(m, live, p, size, ptr, m1, m2);
  }

  lemma RunFits(live: Runs, size: Word, ptr: Word)
    requires ptr == BlockAddr(BlockIndex(ptr)) && Fits(live, BlockIndex(ptr), Blocks(size))
    ensures 0x0100_0000 <= ptr && ptr % 4096 == 0 && 1 <= Blocks(size)
  {
    BlockAligned(BlockIndex(ptr));
  }

  lemma StillZero(m: Mem, live: Runs, p: Proc, size: Word, ptr: Word, m1: Mem, m2: Mem)
    requires WellFormed(live) && Owned(live, p.sh) && ptr == BlockAddr(BlockIndex(ptr))
    requires Fits(live, BlockIndex(ptr), Blocks(size))
    requires ZeroedAt(m, m1, ptr, size) && ptr + size <= 0x0740_0000 && OnlyTables(m1, m2, p.sh)
    ensures forall a: Word :: ptr <= a < ptr + size ==> m2[a] == 0
  {
    hide WordAt, BlockIndex;
    BlockAligned(BlockIndex(ptr));
    assert ptr >= 0x0100_0000;
    forall a: Word | ptr <= a < ptr + size ensures m2[a] == 0 {
      var t: Frame := Untag(a);
      if t in p.sh.tables {
        FootInPool(live, p.sh, t);
        NotInRun(live, size, ptr, t);
        PageEdge(ptr, t, a);
      }
      assert SamePage(m1, m2, t);
    }
  }

  lemma PageEdge(ptr: Word, t: Frame, a: Word)
    requires ptr % 4096 == 0 && t == Untag(a) && ptr <= a
    ensures ptr <= t
  {
  }

  lemma ThenTables(m: Mem, live: Runs, m1: Mem, m2: Mem, sh: Space)
    requires KeptLive(m, live, m1, sh) && OnlyTables(m1, m2, sh)
    ensures KeptLive(m, live, m2, sh)
  {
    forall t: Frame | !HeapPage(t) && t !in sh.tables && !FreePage(live, t) ensures SamePage(m, m2, t) {
      assert SamePage(m, m1, t) && SamePage(m1, m2, t);
    }
  }

  /** `process_malloc` when no slot is free: the allocation is taken back. */
  lemma MallocUndone(m: Mem, live: Runs, p: Proc, size: Word, ptr: Word, m1: Mem, live1: Runs, m2: Mem)
    requires Agree(m, live, p) && WellFormed(live1) && ptr != 0 && Allocated(live, size, ptr, live1)
    requires ZeroedAt(m, m1, ptr, size) && ptr + size <= 0x0740_0000 && OnlyTable(m1, m2)
    ensures live1 - {BlockIndex(ptr)} == live
    ensures Agree(m2, live, p) && Confined(m, live, p, m2, live) && SameLow(m, m2) && KeptLive(m, live, m2, p.sh)
    ensures forall v: Page :: Pte(m2, p.sh, v) == Pte(m, p.sh, v)
  {
    hide WordAt, BlockIndex;
    KzallocKeeps(m, live, p, size, ptr, m1, live1);
    forall t: Frame | !HeapPage(t) && !FreePage(live, t) ensures SamePage(m, m2, t) {
      NotInRun(live, size, ptr, t);
    }
    forall t: Frame | InFoot(p.sh, t) ensures SamePage(m, m2, t) { FootInPool(live, p.sh, t); }
    AgreeKept(m, live, m2, live, p);
    KeptConfined(m, live, p, m2, live);
  }

  /** `process_free` of a recorded pointer: unmapped, forgotten and freed. */
  lemma FreeErased(m: Mem, live: Runs, p: Proc, i: int, m1: Mem, m2: Mem, live2: Runs, p2: Proc)
    requires 0 <= i < 1024 == |p.slots| && p.slots[i].ptr != 0 && p.slots[i].ptr % 4096 == 0
    requires Encodes(m, live) && Agree(m, live, p)
    requires Mapped(m, m1, p.sh, p.slots[i].ptr / 4096, p.slots[i].ptr, Blocks(p.slots[i].size), 0)
    requires OnlyTables(m, m1, p.sh) && OnlyTable(m1, m2) && Encodes(m2, live2)
    requires live2 == live - {BlockIndex(p.slots[i].ptr)} && p2 == p.(slots := p.slots[i := Slot(0, 0)])
    ensures Agree(m2, live2, p2) && Confined(m, live, p, m2, live2) && SameLow(m, m2)
    ensures forall v: Page ::
      Pte(m2, p.sh, v) ==
        if p.slots[i].ptr <= 4096 * v < p.slots[i].ptr + p.slots[i].size then 4096 * v else Pte(m, p.sh, v)
  {
    hide WordAt, BlockIndex, BlockAddr, Pte, RecordsAgree, PagesAgree, LowConfined, Encodes, Taken, Distinct,
      FixedRuns, Blocks, Agree, Confined, KeptLive, OnlyTables, Mapped, SlotRuns;
    EncodesWell(m, live);
    EncodesWell(m2, live2);
    AgreeParts(m, live, p);
    TablesFrame(m, m1, p.sh);
    SlotAligned(live, p.slots, i);
    SlotInPool(live, p.slots, i);
    RunEntries(m, m1, p.sh, p.slots[i].ptr, p.slots[i].size, 0);
    EraseSlot(m, m1, live, p, i);
    TablesKeep(m, live, p, m1);
    TablesThenFree(m, live, m1, m2, p.sh);
    assert BlockIndex(p.slots[i].ptr) in OwnRuns(p) by { RecordsDrop(live, p.slots, i); }
    KeptConfined(m, live, p, m2, live2);
    forall t: Frame | InFoot(p2.sh, t) ensures SamePage(m1, m2, t) { FootInPool(live, p.sh, t); }
    AgreeKept(m1, live2, m2, live2, p2);
  }

  lemma SlotInPool(live: Runs, slots: seq<Slot>, i: int)
    requires WellFormed(live) && RecordsAgree(live, slots) && 0 <= i < 1024 && slots[i].ptr != 0
    ensures 0x0100_0000 <= slots[i].ptr
  {
  }

  lemma AgreeParts(m: Mem, live: Runs, p: Proc)
    requires Agree(m, live, p)
    ensures WellFormed(live) && RecordsAgree(live, p.slots) && Owned(live, p.sh) && Distinct(p.sh) && Wired(m, p.sh)
    ensures TaskStands(live, p)
  {
  }

  lemma EncodesWell(m: Mem, live: Runs)
    requires Encodes(m, live)
    ensures WellFormed(live)
  {
  }

  lemma TablesThenFree(m: Mem, live: Runs, m1: Mem, m2: Mem, sh: Space)
    requires OnlyTables(m, m1, sh) && OnlyTable(m1, m2)
    ensures KeptLive(m, live, m2, sh)
    ensures forall t: Frame :: !HeapPage(t) ==> SamePage(m1, m2, t)
  {
    forall t: Frame | !HeapPage(t) && t !in sh.tables && !FreePage(live, t) ensures SamePage(m, m2, t) {
      assert SamePage(m, m1, t);
    }
  }

  lemma SlotAligned(live: Runs, slots: seq<Slot>, i: int)
    requires WellFormed(live) && RecordsAgree(live, slots) && 0 <= i < 1024 && slots[i].ptr != 0
    ensures slots[i].ptr % 4096 == 0 && slots[i].ptr + slots[i].size <= 0x0740_0000 && Blocks(slots[i].size) >= 1
    ensures Start(live, slots[i].ptr)
  {
    BlockAligned(BlockIndex(slots[i].ptr));
    SizeInBlocks(slots[i].size);
  }

  /** What slot `i` tells `process_free`. */
  lemma SlotFacts(m: Mem, live: Runs, p: Proc, i: int)
    requires Agree(m, live, p) && 0 <= i < 1024
    ensures |p.slots| == 1024 && Ready(m, p.sh)
    ensures var s := p.slots[i]; var ptr, size := s.ptr, s.size;
      && ptr + size <= 0x0740_0000 && !BadRange(ptr, ptr, AlignAddress(ptr + size))
      && AlignAddress(ptr + size) == ptr + 4096 * Blocks(size)
      && (if ptr == 0 then size == 0 && Blocks(size) == 0 else Start(live, ptr))
      && forall j :: 0 <= j < 1024 && j != i && ptr != 0 ==> p.slots[j].ptr != ptr
    ensures forall j :: 0 <= j < 1024 && p.slots[j].ptr == 0 ==> p.slots[j] == Slot(0, 0)
  {
    var s := p.slots[i];
    if s.ptr != 0 {
      SlotAligned(live, p.slots, i);
      EndOfRun(s.ptr, s.size);
    }
  }

  lemma NullFreed(m: Mem, live: Runs, p: Proc, m1: Mem, m2: Mem)
    requires Encodes(m2, live) && Agree(m, live, p) && OnlyBelowTable(m1, m2)
    requires Mapped(m, m1, p.sh, 0, 0, 0, 0) && OnlyTables(m, m1, p.sh)
    ensures Agree(m2, live, p) && Confined(m, live, p, m2, live)
    ensures forall v: Page :: Pte(m2, p.sh, v) == Pte(m, p.sh, v)
  {
    hide WordAt, BlockIndex;
    TablesFrame(m, m1, p.sh);
    forall v: Page ensures Pte(m1, p.sh, v) == Pte(m, p.sh, v) { assert Above(0, v) >= 0; }
    assert Agree(m1, live, p);
    forall t: Frame | !HeapPage(t) ensures SamePage(m1, m2, t) {}
    forall t: Frame | InFoot(p.sh, t) ensures SamePage(m1, m2, t) { FootInPool(live, p.sh, t); }
    AgreeKept(m1, live, m2, live, p);
    forall t: Frame | !HeapPage(t) && t !in p.sh.tables ensures SamePage(m, m2, t) {
      assert SamePage(m, m1, t) && SamePage(m1, m2, t);
    }
    KeptConfined(m, live, p, m2, live);
  }
}
