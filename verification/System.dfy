/** Any number of processes over one heap and one memory: no process can write to
    another's memory, to anyone's page tables or to the heap table. */
module Protection {
  import opened Ram
  import opened HeapTable
  import opened PageTables
  import opened Paging
  import opened ProcessMemory
  import opened TaskMemory
  import opened LoadProcess

  /** Every process is consistent and no two own a common run. */
  ghost predicate AllAgree(m: Mem, live: Runs, ps: map<int, Proc>) {
    && Encodes(m, live)
    && (forall i :: i in ps ==> Agree(m, live, ps[i]))
    && (forall i, j :: i in ps && j in ps && i != j ==> OwnRuns(ps[i]) !! OwnRuns(ps[j]))
  }

  /** The runs that hold neither page tables nor records of the kernel: image, stack and allocations. */
  ghost function DataRuns(p: Proc): set<int> {
    {BlockIndex(p.parts.image), BlockIndex(p.parts.stack)} + SlotRuns(p.slots)
  }

  lemma DataApart(m: Mem, live: Runs, p: Proc)
    requires Agree(m, live, p)
    ensures DataRuns(p) <= OwnRuns(p) && DataRuns(p) !! BlocksOf(Foot(p.sh)) && BlockIndex(p.parts.task) in OwnRuns(p)
    ensures BlockIndex(p.parts.task) !in BlocksOf(Foot(p.sh))
    ensures DataRuns(p) !! {BlockIndex(p.parts.task), BlockIndex(p.parts.elf), BlockIndex(p.parts.record)}
  {
    hide WordAt, Pte, BlockIndex, PagesAgree, RecordsAgree, LowConfined, BlocksOf, Foot, SlotRuns;
    var q := p.parts;
    assert PartRuns(q)
      == {BlockIndex(q.image), BlockIndex(q.stack), BlockIndex(q.task), BlockIndex(q.elf), BlockIndex(q.record)};
    assert PartRuns(q) <= FixedRuns(p);
  }

  /** The page that entry `e` points to lies in the image, the stack or an allocation of `p`. */
  ghost predicate InOwnMemory(live: Runs, p: Proc, e: Word) {
    exists b :: b in DataRuns(p) && Covers(live, b, Untag(e) / 4096 - 0x1000)
  }

  /** A user-writable page always stands for memory of its own process. */
  lemma WritableIsOwn(m: Mem, live: Runs, p: Proc, v: Page)
    requires Agree(m, live, p) && UserWritable(m, p.sh, v)
    ensures InOwnMemory(live, p, Pte(m, p.sh, v))
  {
    hide WordAt, Pte, BlockIndex, Untag;
    var e := Pte(m, p.sh, v);
    if v < 0x1000 {
      assert InFixed(live, p, e);
      assert BlockIndex(p.parts.image) in DataRuns(p) && BlockIndex(p.parts.stack) in DataRuns(p);
    } else {
      var i :| 0 <= i < |p.slots| && SlotCovers(live, p.slots[i], v);
      assert BlockIndex(p.slots[i].ptr) in DataRuns(p);
      ModAdd(v, 0);
    }
  }

  lemma OneOwner(live: Runs, b: int, c: int, i: int)
    requires WellFormed(live) && Covers(live, b, i) && Covers(live, c, i)
    ensures b == c
  {
  }

  /** A page in a run that is no block of `sh` is no page of `sh`. */
  lemma NotFoot(live: Runs, sh: Space, b: int, t: Frame)
    requires WellFormed(live) && Owned(live, sh) && b !in BlocksOf(Foot(sh)) && Covers(live, b, t / 4096 - 0x1000)
    ensures !InFoot(sh, t)
  {
    hide BlockIndex;
    if InFoot(sh, t) { FootInPool(live, sh, t); }
  }

  /** The memory behind process `i`'s writable pages is out of reach of process `j`'s, holds neither a
      page table nor a task, file or process record of any process, and lies inside the pool. */
  lemma Isolated(m: Mem, live: Runs, ps: map<int, Proc>, i: int, j: int, v: Page)
    requires AllAgree(m, live, ps) && i in ps && j in ps && UserWritable(m, ps[i].sh, v)
    ensures var t := Untag(Pte(m, ps[i].sh, v));
      && 0x0100_0000 <= t < 0x0740_0000 && !InFoot(ps[j].sh, t) && !FreePage(live, t)
      && forall b :: b in OwnRuns(ps[j]) && (j != i || b !in DataRuns(ps[j])) ==> !Covers(live, b, t / 4096 - 0x1000)
  {
    hide WordAt, Pte, BlockIndex, Untag;
    var p, q := ps[i], ps[j];
    var t: Frame := Untag(Pte(m, p.sh, v));
    var x := t / 4096 - 0x1000;
    WritableIsOwn(m, live, p, v);
    var b :| b in DataRuns(p) && Covers(live, b, x);
    DataApart(m, live, p);
    assert OwnRuns(p) !! OwnRuns(q) || i == j;
    assert b !in BlocksOf(Foot(q.sh));
    NotFoot(live, q.sh, b, t);
    forall c | c in OwnRuns(q) && (j != i || c !in DataRuns(q)) ensures !Covers(live, c, x) {
      if Covers(live, c, x) { OneOwner(live, b, c, x); }
    }
    assert Taken(live, x);
  }

  /** Two processes never have writable pages for the same frame. */
  lemma NoSharedFrame(m: Mem, live: Runs, ps: map<int, Proc>, i: int, j: int, u: Page, v: Page)
    requires AllAgree(m, live, ps) && i in ps && j in ps && i != j
    requires UserWritable(m, ps[i].sh, u) && UserWritable(m, ps[j].sh, v)
    ensures Untag(Pte(m, ps[i].sh, u)) != Untag(Pte(m, ps[j].sh, v))
  {
    hide WordAt, Pte, BlockIndex, Untag;
    Isolated(m, live, ps, i, j, u);
    WritableIsOwn(m, live, ps[j], v);
    DataApart(m, live, ps[j]);
  }

  /** No byte in the runs of `q` changes but those of its task record. */
  ghost predicate LeavesAlone(m: Mem, live: Runs, m': Mem, q: Proc) {
    forall b, t: Frame :: b in OwnRuns(q) && Covers(live, b, t / 4096 - 0x1000) && t != q.parts.task ==>
      SamePage(m, m', t)
  }

  /** Process `q` keeps its runs and every byte in them, apart from its task record. */
  ghost predicate Undisturbed(m: Mem, live: Runs, m': Mem, live': Runs, q: Proc) {
    LeavesAlone(m, live, m', q) && RunsKept(live, live', OwnRuns(q))
  }

  ghost predicate OthersKeep(m: Mem, live: Runs, m': Mem, live': Runs, ps: map<int, Proc>, i: int) {
    forall j :: j in ps && j != i ==> Undisturbed(m, live, m', live', ps[j])
  }

  lemma UndisturbedThen(m: Mem, live: Runs, m1: Mem, live1: Runs, m2: Mem, live2: Runs, q: Proc)
    requires Undisturbed(m, live, m1, live1, q) && Undisturbed(m1, live1, m2, live2, q)
    ensures Undisturbed(m, live, m2, live2, q)
  {
    hide OwnRuns;
    forall b, t: Frame | b in OwnRuns(q) && Covers(live, b, t / 4096 - 0x1000) && t != q.parts.task
      ensures SamePage(m, m2, t)
    {
      assert Covers(live1, b, t / 4096 - 0x1000);
      assert SamePage(m, m1, t) && SamePage(m1, m2, t);
    }
  }

  lemma UndisturbedBy(m: Mem, live: Runs, m1: Mem, p: Proc, m2: Mem, live2: Runs, q: Proc)
    requires LeavesAlone(m, live, m1, q) && Confined(m1, live, p, m2, live2) && OwnRuns(p) !! OwnRuns(q)
    ensures Undisturbed(m, live, m2, live2, q)
  {
    hide OwnRuns;
    forall b, t: Frame | b in OwnRuns(q) && Covers(live, b, t / 4096 - 0x1000) && t != q.parts.task
      ensures SamePage(m, m2, t)
    {
      assert SamePage(m, m1, t) && SamePage(m1, m2, t);
    }
  }

  /** A live run of no process, such as the kernel's own blocks or a process record left by an exit. */
  ghost predicate Unowned(live: Runs, ps: map<int, Proc>, b: int) {
    b in live && forall j :: j in ps ==> b !in OwnRuns(ps[j])
  }

  /** Such runs stay what they are, with every byte outside the pages `X`. */
  ghost predicate UnownedKeep(m: Mem, live: Runs, ps: map<int, Proc>, m': Mem, live': Runs, ps': map<int, Proc>,
      X: set<Word>)
  {
    && (forall b :: Unowned(live, ps, b) ==> Unowned(live', ps', b) && live'[b] == live[b])
    && UnownedBytes(m, live, ps, m', X)
  }

  ghost predicate UnownedBytes(m: Mem, live: Runs, ps: map<int, Proc>, m': Mem, X: set<Word>) {
    forall b, t: Frame :: Unowned(live, ps, b) && Covers(live, b, t / 4096 - 0x1000) && t !in X ==> SamePage(m, m', t)
  }

  lemma UnownedThen(m: Mem, live: Runs, ps: map<int, Proc>, m1: Mem, live1: Runs, ps1: map<int, Proc>, m2: Mem,
      live2: Runs, ps2: map<int, Proc>, X: set<Word>, Y: set<Word>)
    requires UnownedKeep(m, live, ps, m1, live1, ps1, X) && UnownedKeep(m1, live1, ps1, m2, live2, ps2, Y)
    ensures UnownedKeep(m, live, ps, m2, live2, ps2, X + Y)
  {
    hide OwnRuns;
    forall b, t: Frame | Unowned(live, ps, b) && Covers(live, b, t / 4096 - 0x1000) && t !in X + Y
      ensures SamePage(m, m2, t)
    {
      assert Covers(live1, b, t / 4096 - 0x1000);
      assert SamePage(m, m1, t) && SamePage(m1, m2, t);
    }
  }

  lemma UnownedStep(m: Mem, live: Runs, ps: map<int, Proc>, i: int, m1: Mem, m2: Mem, live2: Runs, ps': map<int, Proc>,
      X: set<Word>)
    requires i in ps && UnownedBytes(m, live, ps, m1, X) && Confined(m1, live, ps[i], m2, live2)
    requires forall j :: j in ps' ==>
      (j in ps && ps'[j] == ps[j]) || forall b :: b in OwnRuns(ps'[j]) ==> b in OwnRuns(ps[i]) || b !in live
    ensures UnownedKeep(m, live, ps, m2, live2, ps', X)
  {
    hide OwnRuns;
    forall b, t: Frame | Unowned(live, ps, b) && Covers(live, b, t / 4096 - 0x1000) && t !in X
      ensures SamePage(m, m2, t)
    {
      assert SamePage(m, m1, t) && SamePage(m1, m2, t);
    }
  }

  lemma UnownedNow(m: Mem, live: Runs, ps: map<int, Proc>)
    ensures UnownedKeep(m, live, ps, m, live, ps, {})
  {
    hide OwnRuns;
  }

  /** A write to a page of some process meets no other run. */
  lemma OwnedPage(m: Mem, live: Runs, ps: map<int, Proc>, i: int, b: int, t: Frame, m': Mem)
    requires WellFormed(live) && i in ps && b in OwnRuns(ps[i]) && Covers(live, b, t / 4096 - 0x1000)
    requires forall u: Frame :: u != t ==> SamePage(m, m', u)
    ensures UnownedKeep(m, live, ps, m', live, ps, {})
  {
    hide OwnRuns;
    forall c, u: Frame | Unowned(live, ps, c) && Covers(live, c, u / 4096 - 0x1000) ensures SamePage(m, m', u) {
      if u == t { OneOwner(live, b, c, t / 4096 - 0x1000); }
    }
  }

  lemma NothingAlone(m: Mem, live: Runs, q: Proc)
    ensures LeavesAlone(m, live, m, q)
  {
  }

  /** No task record changes. */
  ghost predicate TasksSame(m: Mem, m': Mem, ps: map<int, Proc>) {
    forall i :: i in ps ==> SamePage(m, m', ps[i].parts.task)
  }

  lemma TaskPage(m: Mem, live: Runs, p: Proc)
    requires Agree(m, live, p)
    ensures BlockIndex(p.parts.task) in OwnRuns(p) && BlockIndex(p.parts.task) !in DataRuns(p)
    ensures Covers(live, BlockIndex(p.parts.task), p.parts.task / 4096 - 0x1000)
  {
    hide WordAt, Pte, BlockIndex, PagesAgree, RecordsAgree, LowConfined, DataRuns;
    DataApart(m, live, p);
    TaskInPool(live, p);
  }

  /** What process `i` does when it stores a byte: nothing unless its tables let it. */
  ghost function Stored(m: Mem, sh: Space, va: Word, b: Byte): Mem {
    if UserWritable(m, sh, va / 4096) then m[Physical(m, sh, va) := b] else m
  }

  /** No user-mode store can break the system or touch a translation. */
  lemma StoreKeeps(m: Mem, live: Runs, ps: map<int, Proc>, i: int, va: Word, b: Byte)
    requires AllAgree(m, live, ps) && i in ps
    ensures var m' := Stored(m, ps[i].sh, va, b);
      && AllAgree(m', live, ps) && SameLow(m, m') && TasksSame(m, m', ps) && OthersKeep(m, live, m', live, ps, i)
      && forall j, v: Page :: j in ps ==> Pte(m', ps[j].sh, v) == Pte(m, ps[j].sh, v)
  {
    hide WordAt, Pte, BlockIndex, Physical, Encodes, Agree;
    var m' := Stored(m, ps[i].sh, va, b);
    if UserWritable(m, ps[i].sh, va / 4096) {
      var a := Physical(m, ps[i].sh, va);
      var t: Frame := Untag(a);
      PhysicalPage(m, ps[i].sh, va);
      forall u: Frame | u != t ensures SamePage(m, m', u) { PageOf(a, u); }
      Isolated(m, live, ps, i, i, va / 4096);
      TableUntouched(m, m', live) by { assert !HeapPage(t); }
      SameLowPages(m, m');
      forall j | j in ps
        ensures Agree(m', live, ps[j]) && forall v: Page :: Pte(m', ps[j].sh, v) == Pte(m, ps[j].sh, v)
        ensures SamePage(m, m', ps[j].parts.task) && (j != i ==> Undisturbed(m, live, m', live, ps[j]))
      {
        Isolated(m, live, ps, i, j, va / 4096);
        TaskPage(m, live, ps[j]);
        AgreeKept(m, live, m', live, ps[j]) by { EncodesWell(m, live); }
      }
    }
  }

  lemma PhysicalPage(m: Mem, sh: Space, va: Word)
    ensures Untag(Physical(m, sh, va)) == Untag(Pte(m, sh, va / 4096))
  {
    hide WordAt, Pte;
    ModAdd(Untag(Pte(m, sh, va / 4096)) / 4096, va % 4096);
  }

  lemma StoreUnowned(m: Mem, live: Runs, ps: map<int, Proc>, i: int, va: Word, b: Byte)
    requires AllAgree(m, live, ps) && i in ps
    ensures UnownedKeep(m, live, ps, Stored(m, ps[i].sh, va, b), live, ps, {})
  {
    hide WordAt, Pte, BlockIndex, Physical, Encodes, Agree, OwnRuns, DataRuns, UnownedKeep;
    EncodesWell(m, live);
    if UserWritable(m, ps[i].sh, va / 4096) {
      var a := Physical(m, ps[i].sh, va);
      var t: Frame := Untag(a);
      PhysicalPage(m, ps[i].sh, va);
      var m' := m[a := b];
      forall u: Frame | u != t ensures SamePage(m, m', u) { PageOf(a, u); }
      WritableIsOwn(m, live, ps[i], va / 4096);
      DataApart(m, live, ps[i]);
      var r :| r in DataRuns(ps[i]) && Covers(live, r, t / 4096 - 0x1000);
      OwnedPage(m, live, ps, i, r, t, m');
    } else {
      UnownedNow(m, live, ps);
    }
  }

  /** A step of one process leaves every other one consistent. */
  lemma OthersKept(m: Mem, live: Runs, p: Proc, m': Mem, live': Runs, q: Proc)
    requires Agree(m, live, q) && WellFormed(live') && Confined(m, live, p, m', live') && OwnRuns(p) !! OwnRuns(q)
    ensures Agree(m', live', q) && (forall v: Page :: Pte(m', q.sh, v) == Pte(m, q.sh, v))
    ensures SamePage(m, m', q.parts.task)
  {
    hide WordAt, Pte, BlockIndex;
    OwnRunsLive(m, live, q);
    TaskPage(m, live, q);
    forall t: Frame | InFoot(q.sh, t) ensures SamePage(m, m', t) {
      FootInPool(live, q.sh, t);
      assert BlockIndex(t) in OwnRuns(q);
      assert Covers(live, BlockIndex(t), t / 4096 - 0x1000);
    }
    AgreeKept(m, live, m', live', q);
  }

  /** All `n` bytes from `va` on lie in pages the task itself can write. */
  ghost predicate OwnSource(m: Mem, sh: Space, va: Word, n: int) {
    forall a: Word {:trigger Physical(m, sh, a)} :: (a - va) % 0x1_0000_0000 < n ==> UserWritable(m, sh, a / 4096)
  }

  /** Byte `i` of such a string is at `va + i`, counted round the end of the address space. */
  lemma OwnSourceIs(m: Mem, sh: Space, va: Word, n: nat, i: nat)
    requires OwnSource(m, sh, va, n) && i < n <= 0x1_0000_0000
    ensures UserWritable(m, sh, (va + i) % 0x1_0000_0000 / 4096)
  {
    hide UserWritable, Physical;
    Distance(va, i);
    assert Physical(m, sh, (va + i) % 0x1_0000_0000) >= 0;
  }

  /** Strings in a task's own writable memory meet the condition for being copied out. */
  lemma OwnSourceClear(m: Mem, live: Runs, p: Proc, va: Word, n: nat, tmp: Frame)
    requires Agree(m, live, p) && FreePage(live, tmp) && OwnSource(m, p.sh, va, n)
    ensures SourceClear(m, p.sh, va, n, tmp)
  {
    hide WordAt, Pte, BlockIndex, Physical, UserWritable, ByteClear, Agree;
    forall a: Word | (a - va) % 0x1_0000_0000 < n ensures ByteClear(m, p.sh, a, tmp) {
      assert Physical(m, p.sh, a) >= 0;
      OwnByteClear(m, live, p, a, tmp);
    }
  }

  lemma OwnByteClear(m: Mem, live: Runs, p: Proc, a: Word, tmp: Frame)
    requires Agree(m, live, p) && FreePage(live, tmp) && UserWritable(m, p.sh, a / 4096)
    ensures ByteClear(m, p.sh, a, tmp)
  {
    hide WordAt, Pte, BlockIndex, Untag, Physical, RecordsAgree, LowConfined, Agree, DataRuns, Owned, Taken, Covers,
      UserWritable, Readable, Wired, Distinct, WellFormed, TaskStands;
    var v: Page := a / 4096;
    GrantedReadable(m, p.sh, v);
    var t: Frame := Untag(Pte(m, p.sh, v));
    PhysicalPage(m, p.sh, a);
    WritableIsOwn(m, live, p, v);
    var b :| b in DataRuns(p) && Covers(live, b, t / 4096 - 0x1000);
    DataApart(m, live, p);
    AgreeParts(m, live, p);
    CoveredInPool(live, b, t);
    NotFoot(live, p.sh, b, t);
    PoolIdentity(m, live, p, v);
    ModAdd(v, 0);
  }

  lemma GrantedReadable(m: Mem, sh: Space, v: Page)
    requires UserWritable(m, sh, v)
    ensures Readable(m, sh, v)
  {
    hide WordAt, Pte;
  }

  lemma PoolIdentity(m: Mem, live: Runs, p: Proc, v: Page)
    requires Agree(m, live, p)
    ensures v >= 0x1000 ==> Untag(Pte(m, p.sh, v)) == 4096 * v
  {
    hide WordAt, Pte, BlockIndex, Untag, RecordsAgree, LowConfined;
  }

  /** A confined step of process `i` keeps the whole system, and no other process sees it. */
  lemma StepKeeps(m: Mem, live: Runs, ps: map<int, Proc>, i: int, m': Mem, live': Runs, p': Proc)
    requires AllAgree(m, live, ps) && i in ps && Encodes(m', live') && Agree(m', live', p')
    requires Confined(m, live, ps[i], m', live')
    requires forall b :: b in OwnRuns(p') ==> b in OwnRuns(ps[i]) || b !in live
    ensures AllAgree(m', live', ps[i := p']) && TasksSame(m, m', ps) && OthersKeep(m, live, m', live', ps, i)
    ensures forall j, v: Page :: j in ps && j != i ==> Pte(m', ps[j].sh, v) == Pte(m, ps[j].sh, v)
  {
    hide WordAt, Pte, BlockIndex, Agree, Confined, OwnRuns, Encodes, Undisturbed, LeavesAlone;
    OwnTaskSame(m, live, ps[i], m', live');
    forall j | j in ps && j != i
      ensures Agree(m', live', ps[j]) && OwnRuns(p') !! OwnRuns(ps[j]) && SamePage(m, m', ps[j].parts.task)
      ensures Undisturbed(m, live, m', live', ps[j])
      ensures forall v: Page :: Pte(m', ps[j].sh, v) == Pte(m, ps[j].sh, v)
    {
      EncodesWell(m', live');
      OthersKept(m, live, ps[i], m', live', ps[j]);
      NothingAlone(m, live, ps[j]);
      UndisturbedBy(m, live, m, ps[i], m', live', ps[j]);
      OwnRunsLive(m, live, ps[j]);
      assert forall b :: b in OwnRuns(p') ==> b !in OwnRuns(ps[j]);
    }
  }

  lemma OwnTaskSame(m: Mem, live: Runs, p: Proc, m': Mem, live': Runs)
    requires Confined(m, live, p, m', live')
    ensures SamePage(m, m', p.parts.task)
  {
  }

  lemma AloneAgrees(m: Mem, live: Runs, m': Mem, q: Proc)
    requires Agree(m, live, q) && LeavesAlone(m, live, m', q)
    ensures Agree(m', live, q) && forall v: Page :: Pte(m', q.sh, v) == Pte(m, q.sh, v)
  {
    hide WordAt, Pte, BlockIndex, PagesAgree, RecordsAgree, LowConfined;
    forall t: Frame | InFoot(q.sh, t) ensures SamePage(m, m', t) {
      FootInPool(live, q.sh, t);
      assert BlockIndex(t) in OwnRuns(q) && Covers(live, BlockIndex(t), t / 4096 - 0x1000);
    }
    AgreeKept(m, live, m', live, q);
  }

  /** The same when process `i` goes away, with a link write before that leaves the others alone. */
  lemma ExitKeeps(m: Mem, live: Runs, ps: map<int, Proc>, i: int, m1: Mem, m': Mem, live': Runs)
    requires AllAgree(m, live, ps) && i in ps && (forall j :: j in ps && j != i ==> LeavesAlone(m, live, m1, ps[j]))
    requires Encodes(m', live') && Confined(m1, live, ps[i], m', live')
    ensures AllAgree(m', live', ps - {i}) && TasksSame(m1, m', ps) && OthersKeep(m, live, m', live', ps, i)
    ensures forall j, v: Page :: j in ps && j != i ==> Pte(m', ps[j].sh, v) == Pte(m, ps[j].sh, v)
  {
    hide WordAt, Pte, BlockIndex, Agree, Confined, OwnRuns, Encodes, LeavesAlone, Undisturbed;
    OwnTaskSame(m1, live, ps[i], m', live');
    forall j | j in ps && j != i
      ensures Agree(m', live', ps[j]) && SamePage(m1, m', ps[j].parts.task) && Undisturbed(m, live, m', live', ps[j])
      ensures forall v: Page :: Pte(m', ps[j].sh, v) == Pte(m, ps[j].sh, v)
    {
      EncodesWell(m', live');
      AloneAgrees(m, live, m1, ps[j]);
      OthersKept(m1, live, ps[i], m', live', ps[j]);
      UndisturbedBy(m, live, m1, ps[i], m', live', ps[j]);
    }
  }

  /** The record of task `x`, if any, is one of the processes'. */
  predicate NullOrTask(ps: map<int, Proc>, x: Word) {
    x == 0 || exists i :: i in ps && x == ps[i].parts.task
  }

  /** A load takes free memory and writes one link of the last task: that keeps the system. */
  lemma LoadKeeps(m: Mem, live: Runs, ps: map<int, Proc>, m': Mem, live': Runs, x: Word)
    requires AllAgree(m, live, ps) && Encodes(m', live') && ExtendsBut(m, live, m', live', x) && NullOrTask(ps, x)
    ensures AllAgree(m', live', ps) && OthersKeep(m, live, m', live', ps, -1)
    ensures forall j, v: Page :: j in ps ==> Pte(m', ps[j].sh, v) == Pte(m, ps[j].sh, v)
  {
    hide WordAt, Pte, BlockIndex, Agree, OwnRuns, Encodes, ExtendsBut, Undisturbed, HasPage;
    forall j | j in ps
      ensures Agree(m', live', ps[j]) && Undisturbed(m, live, m', live', ps[j])
      ensures forall v: Page :: Pte(m', ps[j].sh, v) == Pte(m, ps[j].sh, v)
    {
      EncodesWell(m, live);
      EncodesWell(m', live');
      if x != 0 {
        var i :| i in ps && x == ps[i].parts.task;
        TaskNoFoot(m, live, ps, i, j);
        if i != j { OtherTask(m, live, ps, i, j); }
      }
      UndisturbedLoad(m, live, ps[j], m', live', x);
      ExtendsKeeps(m, live, ps[j], m', live', x);
    }
  }

  /** A load leaves such runs alone, and those it does not give to the new process join them. */
  lemma LoadUnowned(m: Mem, live: Runs, ps: map<int, Proc>, m': Mem, live': Runs, x: Word, ps': map<int, Proc>)
    requires AllAgree(m, live, ps) && ExtendsBut(m, live, m', live', x) && NullOrTask(ps, x)
    requires forall j :: j in ps' ==> (j in ps && ps'[j] == ps[j]) || forall b :: b in OwnRuns(ps'[j]) ==> b !in live
    ensures UnownedKeep(m, live, ps, m', live', ps', {})
  {
    hide WordAt, Pte, BlockIndex, Agree, OwnRuns, Encodes;
    EncodesWell(m, live);
    forall b, t: Frame | Unowned(live, ps, b) && Covers(live, b, t / 4096 - 0x1000) ensures SamePage(m, m', t) {
      CoveredInPool(live, b, t);
      if x != 0 {
        var i :| i in ps && x == ps[i].parts.task;
        TaskPage(m, live, ps[i]);
        if t == x { OneOwner(live, b, BlockIndex(t), t / 4096 - 0x1000); }
      }
    }
  }

  lemma UndisturbedLoad(m: Mem, live: Runs, q: Proc, m': Mem, live': Runs, x: Word)
    requires WellFormed(live) && ExtendsBut(m, live, m', live', x)
    requires x != 0 ==> x % 4096 == 0 && (x == q.parts.task || !HasPage(live, q, x))
    ensures Undisturbed(m, live, m', live', q)
  {
    hide OwnRuns;
    forall b, t: Frame | b in OwnRuns(q) && Covers(live, b, t / 4096 - 0x1000) && t != q.parts.task
      ensures SamePage(m, m', t)
    {
      CoveredInPool(live, b, t);
      assert HasPage(live, q, t);
    }
  }

  /** Page `x` belongs to one of the runs of `q`. */
  ghost predicate HasPage(live: Runs, q: Proc, x: Frame) {
    exists b :: b in OwnRuns(q) && Covers(live, b, x / 4096 - 0x1000)
  }

  /** The task record of one process is no page of another. */
  lemma OtherTask(m: Mem, live: Runs, ps: map<int, Proc>, r: int, j: int)
    requires AllAgree(m, live, ps) && r in ps && j in ps && r != j
    ensures !HasPage(live, ps[j], ps[r].parts.task)
  {
    hide WordAt, Pte, Agree, OwnRuns, Encodes, BlockIndex;
    EncodesWell(m, live);
    TaskPage(m, live, ps[r]);
    var t: Word := ps[r].parts.task;
    var i := t / 4096 - 0x1000;
    forall b | Covers(live, b, i) ensures b == BlockIndex(t) { OneOwner(live, b, BlockIndex(t), i); }
    assert BlockIndex(t) !in OwnRuns(ps[j]);
  }

  lemma TaskNoFoot(m: Mem, live: Runs, ps: map<int, Proc>, i: int, j: int)
    requires AllAgree(m, live, ps) && i in ps && j in ps
    ensures !InFoot(ps[j].sh, ps[i].parts.task)
  {
    hide WordAt, Pte, BlockIndex, PagesAgree, RecordsAgree, LowConfined, Encodes;
    EncodesWell(m, live);
    var x := ps[i].parts.task;
    TaskPage(m, live, ps[i]);
    DataApart(m, live, ps[i]);
    assert BlockIndex(x) !in BlocksOf(Foot(ps[j].sh));
    forall t: Frame | InFoot(ps[j].sh, t)
      ensures BlockIndex(t) in BlocksOf(Foot(ps[j].sh))
    {
      FootInPool(live, ps[j].sh, t);
    }
  }

  lemma ExtendsKeeps(m: Mem, live: Runs, p: Proc, m': Mem, live': Runs, x: Word)
    requires Agree(m, live, p) && WellFormed(live') && ExtendsBut(m, live, m', live', x)
    requires x != 0 ==> x % 4096 == 0 && !InFoot(p.sh, x)
    ensures Agree(m', live', p) && forall v: Page :: Pte(m', p.sh, v) == Pte(m, p.sh, v)
  {
    hide WordAt, Pte, BlockIndex;
    forall t: Frame | InFoot(p.sh, t) ensures SamePage(m, m', t) { FootInPool(live, p.sh, t); }
    AgreeKept(m, live, m', live', p);
  }

  lemma Joins(m: Mem, live: Runs, ps: map<int, Proc>, i: int, m': Mem, live': Runs, p: Proc)
    requires AllAgree(m, live, ps) && AllAgree(m', live', ps) && i !in ps && Agree(m', live', p)
    requires forall b :: b in OwnRuns(p) ==> b !in live
    ensures AllAgree(m', live', ps[i := p])
  {
    hide WordAt, Pte, BlockIndex, Agree, OwnRuns, Encodes;
    forall j | j in ps ensures OwnRuns(p) !! OwnRuns(ps[j]) {
      OwnRunsLive(m, live, ps[j]);
      assert forall b :: b in OwnRuns(p) ==> b !in OwnRuns(ps[j]);
    }
  }
}
