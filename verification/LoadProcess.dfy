/** Loading one process: image, stack, address space, mappings and an empty record. */
module LoadProcess {
  import opened Ram
  import opened HeapTable
  import opened PageTables
  import opened Paging
  import opened Kheap
  import opened ProcessMemory
  import opened ProcessCode
  import opened Loader
  import opened TaskList

  ghost predicate Room(live: Runs, n: int) {
    exists s :: Fits(live, s, n)
  }

  lemma RoomIsFit(m: Mem, live: Runs, n: int)
    requires Encodes(m, live) && Room(live, n)
    ensures SomeFit(m, n) && Guard(m, n)
  {
    var s :| Fits(live, s, n);
    FreeRunFits(m, live, s, n);
    assert FreeRun(m, s, n);
  }

  lemma FreeBlockFits(m: Mem, live: Runs)
    requires Encodes(m, live) && |FreeSet(live)| > 0
    ensures SomeFit(m, 1)
  {
    var i :| i in FreeSet(live);
    FreeIsUntaken(m, live, i);
    assert FreeRun(m, i, 1);
  }

  /** First fit eats room from below, so a longer free run leaves the rest. */
  lemma RoomAfter(m: Mem, live: Runs, size: Word, p: Word, live': Runs, k: int)
    requires Encodes(m, live) && p != 0 && Allocated(live, size, p, live') && FirstFit(m, Blocks(size), p)
    requires k >= 1 && Room(live, Blocks(size) + k)
    ensures Room(live', k)
  {
    hide BlockIndex, Blocks;
    var n, b := Blocks(size), BlockIndex(p);
    var s :| Fits(live, s, n + k);
    assert Fits(live, s, n);
    FreeRunFits(m, live, s, n);
    assert b <= s;
    AddRun(live, b, n);
    var t := if s < b + n then b + n else s;
    forall i | t <= i < t + k ensures !Taken(live', i) {
      assert s <= i < s + (n + k) && !(b <= i < b + n);
      assert !Taken(live, i);
      assert Taken(live[b := n], i) <==> Taken(live, i) || b <= i < b + n;
    }
    assert Fits(live', t, k);
  }

  ghost function Interval(s: int, n: nat): (X: set<int>)
    ensures |X| == n && forall i :: i in X <==> s <= i < s + n
  {
    if n == 0 then {} else Interval(s, n - 1) + {s + n - 1}
  }

  lemma RunCount(live: Runs, s: int, n: int)
    requires WellFormed(live) && Fits(live, s, n)
    ensures |FreeSet(live[s := n])| == |FreeSet(live)| - n
  {
    var live' := live[s := n];
    AddRun(live, s, n);
    var X := Interval(s, n);
    forall i ensures i in FreeSet(live) <==> i in FreeSet(live') + X {
      assert Taken(live[s := n], i) <==> Taken(live, i) || s <= i < s + n;
    }
    assert FreeSet(live) == FreeSet(live') + X && FreeSet(live') !! X;
  }

  lemma BlocksUsed(live: Runs, size: Word, p: Word, live': Runs)
    requires WellFormed(live) && p != 0 && Allocated(live, size, p, live')
    ensures |FreeSet(live')| == |FreeSet(live)| - Blocks(size)
  {
    hide BlockIndex, Blocks, FreeSet, Fits;
    RunCount(live, BlockIndex(p), Blocks(size));
  }

  /** Everything that was live is still there, with its content, and so is memory outside the pool. */
  ghost predicate Extends(m: Mem, live: Runs, m': Mem, live': Runs) {
    && (forall b :: b in live ==> b in live' && live'[b] == live[b])
    && (forall t: Frame :: !HeapPage(t) && !FreePage(live, t) ==> SamePage(m, m', t))
    && SameLow(m, m')
  }

  /** The same apart from page `x`, if that is not null. */
  ghost predicate ExtendsBut(m: Mem, live: Runs, m': Mem, live': Runs, x: Word) {
    && (forall b :: b in live ==> b in live' && live'[b] == live[b])
    && (forall t: Frame :: !HeapPage(t) && !FreePage(live, t) && (t != x || x == 0) ==> SamePage(m, m', t))
    && SameLow(m, m')
  }

  lemma ExtendsTrans(m: Mem, live: Runs, m1: Mem, live1: Runs, m2: Mem, live2: Runs)
    requires Extends(m, live, m1, live1) && Extends(m1, live1, m2, live2)
    ensures Extends(m, live, m2, live2)
  {
    forall t: Frame | !HeapPage(t) && !FreePage(live, t) ensures SamePage(m, m2, t) {
      assert SamePage(m, m1, t);
      if 0x1000 <= t / 4096 < 0x7400 {
        var b :| Covers(live, b, t / 4096 - 0x1000);
        assert Covers(live1, b, t / 4096 - 0x1000);
      }
      assert SamePage(m1, m2, t);
    }
  }

  /** Outside the heap table only bytes `p..p + size` changed. */
  ghost predicate OnlyAt(m: Mem, m': Mem, p: Word, size: int) {
    forall a: Word :: !(0x7E00 <= a < 0x7E00 + 25600) && !(p <= a < p + size) ==> m'[a] == m[a]
  }

  lemma KzallocExtends(m: Mem, live: Runs, size: Word, p: Word, m': Mem, live': Runs)
    requires WellFormed(live) && p != 0 && Allocated(live, size, p, live') && OnlyAt(m, m', p, size)
    ensures Extends(m, live, m', live') && WellFormed(live') && Start(live', p) && p % 4096 == 0
    ensures BlockIndex(p) !in live
  {
    hide BlockIndex, Blocks;
    AddRun(live, BlockIndex(p), Blocks(size));
    forall t: Frame | !HeapPage(t) && !FreePage(live, t) ensures SamePage(m, m', t) { NotInRun(live, size, p, t); }
    SizeInBlocks(size);
    BlockAligned(BlockIndex(p));
    assert SameLow(m, m') by { BlockAtLeast(p); }
  }

  lemma BlockAtLeast(p: Word)
    requires p == BlockAddr(BlockIndex(p)) && 0 <= BlockIndex(p)
    ensures p >= 0x0100_0000
  {
  }

  lemma GrownFree(live: Runs, live': Runs, X: set<Word>, t: Frame)
    requires WellFormed(live') && Grown(live, live', X) && t in X
    ensures FreePage(live, t)
  {
    var b := BlockIndex(t);
    assert OneBlock(live', t);
    assert forall c :: Covers(live, c, b) ==> c in live' && live'[c] == live[c];
  }

  // ---- the conditions on a program ----------------------------------------

  /** The segment stays below the heap pool, and a writable one inside the `n` blocks of the image. */
  predicate GoodSegment(image: Word, n: int, s: Segment) {
    && FirstPage(s) + PageCount(image, s) <= 0x1000
    && (s.flags / 2 % 2 == 1 ==> image <= PhysStart(image, s) && PhysEnd(image, s) <= image + 4096 * n)
  }

  predicate GoodSegments(image: Word, n: int, segs: seq<Segment>) {
    forall i :: 0 <= i < |segs| ==> GoodSegment(image, n, segs[i])
  }

  /** What loading leaves in the entry of page `v`. */
  ghost function LoadedEntry(image: Word, stack: Word, segs: seq<Segment>, v: Page): int {
    if StackPage(v) then stack + 4096 * (v - 0x3FB) + 7 else Loaded(image, segs, v, 4096 * v + 5)
  }

  /** Entries of well-placed segments: identity above the pool base; writable ones confined to the image. */
  lemma {:induction false} LoadedEntries(image: Word, n: int, segs: seq<Segment>, v: Page)
    requires GoodSegments(image, n, segs) && image % 4096 == 0
    requires forall i :: 0 <= i < |segs| ==> !Rejected(image, segs[i])
    ensures var e := Loaded(image, segs, v, 4096 * v + 5);
      && (v >= 0x1000 ==> e == 4096 * v + 5)
      && 0 <= e < 0x1_0000_0000
      && (e % 8 == 7 ==> image <= e - e % 4096 < image + 4096 * n)
  {
    hide PhysStart, PhysEnd, FirstPage, PageFlags, Above;
    if segs == [] {
      LowBits(4096 * v, 5);
    } else {
      var s := segs[|segs| - 1];
      assert GoodSegment(image, n, s);
      LoadedEntries(image, n, segs[..|segs| - 1], v);
      if OnPage(image, s, v) { SegmentEntry(image, n, s, v); }
    }
  }

  lemma SegmentEntry(image: Word, n: int, s: Segment, v: Page)
    requires GoodSegment(image, n, s) && image % 4096 == 0 && !Rejected(image, s) && OnPage(image, s, v)
    ensures var e := PhysStart(image, s) + 4096 * Above(FirstPage(s), v) + PageFlags(s);
      v < 0x1000 && 0 <= e < 0x1_0000_0000 && (e % 8 == 7 ==> image <= e - e % 4096 < image + 4096 * n)
  {
    hide PhysStart, PhysEnd, FirstPage, PageFlags, Above;
    AboveBelow(FirstPage(s), v);
    PageFlagsValue(s);
    AlignedSegment(image, s);
    var k := Above(FirstPage(s), v);
    InsidePages(PhysStart(image, s), PhysEnd(image, s), k);
    LowBits(PhysStart(image, s) + 4096 * k, PageFlags(s));
  }

  lemma LowBits(t: int, f: int)
    requires t % 4096 == 0 && 0 <= f < 8
    ensures (t + f) % 4096 == f && (t + f) % 8 == f
  {
    ModAdd(t / 4096, f);
    ModEight(t / 4096, f);
  }

  lemma InsidePages(start: Word, end: Word, k: int)
    requires start % 4096 == 0 && end % 4096 == 0 && 0 <= k < (end - start) / 4096
    ensures (start + 4096 * k) % 4096 == 0 && start + 4096 * k + 4096 <= end
  {
    ModAdd(start / 4096 + k, 0);
  }

  lemma AboveBelow(v0: Page, v: Page)
    ensures 0 <= Above(v0, v)
    ensures v0 + Above(v0, v) < 0x1000 ==> v == v0 + Above(v0, v)
  {
  }

  /** The parts of a process lie in runs of their own, an image of `n` blocks among them. */
  ghost predicate PartsIn(live: Runs, q: Holdings, n: int) {
    && PartsApart(q)
    && Start(live, q.image) && live[BlockIndex(q.image)] == n && Start(live, q.stack) && live[BlockIndex(q.stack)] == 4
    && OneBlock(live, q.task) && OneBlock(live, q.elf) && Start(live, q.record) && live[BlockIndex(q.record)] == 3
  }

  /** The freshly loaded process: record empty, tables as loaded, everything in its own runs. */
  lemma NewAgrees(m: Mem, live: Runs, live0: Runs, p: Proc, n: int, segs: seq<Segment>)
    requires WellFormed(live) && Owned(live, p.sh) && Wired(m, p.sh) && p.sh.flags == 7
    requires Grown(live0, live, Foot(p.sh)) && p.slots == seq(1024, _ => Slot(0, 0))
    requires PartsIn(live0, p.parts, n)
    requires GoodSegments(p.parts.image, n, segs) && forall i :: 0 <= i < |segs| ==> !Rejected(p.parts.image, segs[i])
    requires forall v: Page :: Pte(m, p.sh, v) == LoadedEntry(p.parts.image, p.parts.stack, segs, v)
    requires |p.low| == 0x1000 && forall v :: 0 <= v < 0x1000 ==> p.low[v] == Pte(m, p.sh, v)
    ensures Agree(m, live, p)
  {
    hide WordAt, BlockIndex, Pte, PhysStart, PhysEnd, Loaded, Untag;
    assert live - BlocksOf(Foot(p.sh)) == live0;
    BlockAligned(BlockIndex(p.parts.image));
    BlockAligned(BlockIndex(p.parts.stack));
    assert SlotRuns(p.slots) == {};
    forall v: Page ensures !InSlots(live, p.slots, v) {}
    forall v: Page | v >= 0x1000 ensures Untag(Pte(m, p.sh, v)) == 4096 * v && !Grants(Pte(m, p.sh, v)) {
      LoadedEntries(p.parts.image, n, segs, v);
      EntryBits(v, 5);
    }
    assert PagesAgree(m, live, p);
    forall v | 0 <= v < 0x1000 && Grants(p.low[v]) ensures InFixed(live, p, p.low[v]) {
      LowEntry(live, p, n, segs, v);
    }
    assert LowConfined(live, p);
  }

  lemma LowEntry(live: Runs, p: Proc, n: int, segs: seq<Segment>, v: Page)
    requires GoodSegments(p.parts.image, n, segs) && forall i :: 0 <= i < |segs| ==> !Rejected(p.parts.image, segs[i])
    requires Start(live, p.parts.image) && live[BlockIndex(p.parts.image)] == n && Start(live, p.parts.stack)
    requires live[BlockIndex(p.parts.stack)] == 4
    requires v < |p.low| && p.low[v] == LoadedEntry(p.parts.image, p.parts.stack, segs, v) && Grants(p.low[v])
    ensures InFixed(live, p, p.low[v])
  {
    hide BlockIndex, PhysStart, PhysEnd, Loaded;
    BlockAligned(BlockIndex(p.parts.image));
    BlockAligned(BlockIndex(p.parts.stack));
    if StackPage(v) {
      PageInRun(BlockIndex(p.parts.stack), 4, p.low[v]);
    } else {
      LoadedEntries(p.parts.image, n, segs, v);
      PageInRun(BlockIndex(p.parts.image), n, p.low[v]);
    }
  }

  lemma PageInRun(b: int, n: int, e: Word)
    requires BlockAddr(b) <= e < BlockAddr(b) + 4096 * n
    ensures b <= Untag(e) / 4096 - 0x1000 < b + n
  {
  }

  /** What an allocation of `n` blocks at `p` leaves of blocks and room, and that it is the first fit. */
  ghost predicate Shrinks(live: Runs, live': Runs, n: int, p: Word) {
    && |FreeSet(live')| == |FreeSet(live)| - n
    && (forall rest :: rest >= 1 && Room(live, n + rest) ==> Room(live', rest))
    && Lowest(live, n, BlockIndex(p))
  }

  /** A new run of `n` blocks at `p`. */
  ghost predicate NewRunAt(live: Runs, live': Runs, n: int, p: Word) {
    && p % 4096 == 0 && 0x0100_0000 <= p && p + 4096 * n <= 0x0740_0000
    && p == BlockAddr(BlockIndex(p)) && BlockIndex(p) !in live && live' == live[BlockIndex(p) := n]
  }

  /** A zeroed allocation where a fitting run exists. */
  method Allocate(k: Machine, size: Word) returns (p: Word)
    requires k.Valid() && Blocks(size) >= 1 && Room(k.live, Blocks(size))
    modifies k, k.ram
    ensures k.Valid() && size <= 4096 * Blocks(size) && Shrinks(old(k.live), k.live, Blocks(size), p)
    ensures NewRunAt(old(k.live), k.live, Blocks(size), p) && forall a: Word :: p <= a < p + size ==> k.ram[..][a] == 0
    ensures OnlyAt(old(k.ram[..]), k.ram[..], p, size) && Extends(old(k.ram[..]), old(k.live), k.ram[..], k.live)
  {
    hide BlockIndex, Blocks, FreeSet;
    ghost var m, live := k.ram[..], k.live;
    RoomIsFit(m, live, Blocks(size));
    p := k.Kzalloc(size);
    forall rest | rest >= 1 && Room(live, Blocks(size) + rest) ensures Room(k.live, rest) {
      RoomAfter(m, live, size, p, k.live, rest);
    }
    FirstIsLowest(m, live, size, p, k.live);
    EncodesWell(m, live);
    BlocksUsed(live, size, p, k.live);
    KzallocExtends(m, live, size, p, k.ram[..], k.live);
    SizeInBlocks(size);
    RunInPool(k.live, p, Blocks(size));
  }

  /** `elf_load`: a copy of the file in memory of its own. */
  method LoadImage(k: Machine, file: seq<Byte>) returns (image: Word)
    requires k.Valid() && 0 < |file| <= 0x0640_0000 && Room(k.live, Blocks(|file|))
    modifies k, k.ram
    ensures k.Valid() && |file| <= 4096 * Blocks(|file|) && Shrinks(old(k.live), k.live, Blocks(|file|), image)
    ensures NewRunAt(old(k.live), k.live, Blocks(|file|), image) && k.ram[..][image..image + |file|] == file
    ensures Extends(old(k.ram[..]), old(k.live), k.ram[..], k.live)
  {
    hide BlockIndex, Shrinks;
    ghost var m, live := k.ram[..], k.live;
    image := Allocate(k, |file|);
    ghost var m1: Mem := k.ram[..];
    CopyIn(k.ram, image, file);
    NewRunExtends(m, live, image, |file|, k.ram[..], k.live);
    assert Encodes(k.ram[..], k.live) by { SameEncodes(m1, k.ram[..], k.live); }
  }

  lemma NewRunExtends(m: Mem, live: Runs, p: Word, size: Word, m': Mem, live': Runs)
    requires WellFormed(live) && WellFormed(live') && Blocks(size) >= 1 && NewRunAt(live, live', Blocks(size), p)
    requires OnlyAt(m, m', p, size)
    ensures Extends(m, live, m', live')
  {
    hide BlockIndex, Blocks;
    NewRunFits(live, live', Blocks(size), p);
    KzallocExtends(m, live, size, p, m', live');
  }

  lemma NewRunFits(live: Runs, live': Runs, n: int, p: Word)
    requires WellFormed(live) && WellFormed(live') && n >= 1 && NewRunAt(live, live', n, p)
    ensures Fits(live, BlockIndex(p), n)
  {
    hide BlockIndex;
    var b := BlockIndex(p);
    assert b in live' && live'[b] == n;
    forall i | b <= i < b + n ensures !Taken(live, i) {
      forall c ensures !Covers(live, c, i) {
        if c in live { assert c in live' && live'[c] == live[c] && c != b; }
      }
    }
  }

  // ---- opening a file -----------------------------------------------------

  /** The first blocks of `bs`. */
  ghost function Starts(bs: seq<Word>): set<int> {
    set i | 0 <= i < |bs| :: BlockIndex(bs[i])
  }

  /** `bs` are new single blocks, and nothing else changed hands. */
  ghost predicate NewBlocks(live: Runs, live': Runs, bs: seq<Word>) {
    && (forall i :: 0 <= i < |bs| ==> OneBlock(live', bs[i]) && BlockIndex(bs[i]) !in live)
    && (forall i, j :: 0 <= i < j < |bs| ==> BlockIndex(bs[i]) != BlockIndex(bs[j]))
    && live' - Starts(bs) == live
  }

  lemma NewBlocksNext(live: Runs, live1: Runs, live2: Runs, bs: seq<Word>, p: Word)
    requires NewBlocks(live, live1, bs) && NewRunAt(live1, live2, 1, p)
    ensures NewBlocks(live, live2, bs + [p]) && OneBlock(live2, p)
  {
    hide BlockIndex;
    var bs' := bs + [p];
    forall i | 0 <= i < |bs'| ensures OneBlock(live2, bs'[i]) && BlockIndex(bs'[i]) !in live {
      assert i < |bs| ==> OneBlock(live1, bs[i]) && BlockIndex(bs[i]) in live1;
      assert BlockIndex(p) !in live by { assert live1 - Starts(bs) == live; }
    }
    forall i, j | 0 <= i < j < |bs'| ensures BlockIndex(bs'[i]) != BlockIndex(bs'[j]) {
      assert OneBlock(live1, bs[i]);
    }
    forall b ensures b in Starts(bs') <==> b in Starts(bs) || b == BlockIndex(p) {
      if b in Starts(bs) {
        var i :| 0 <= i < |bs| && b == BlockIndex(bs[i]);
        assert bs'[i] == bs[i];
      }
      assert bs'[|bs|] == p;
    }
    assert live2 - Starts(bs') == live;
  }

  /** One block for each record of `sizes`. */
  method TakeBlocks(k: Machine, sizes: seq<Word>) returns (bs: seq<Word>)
    requires k.Valid() && (forall i :: 0 <= i < |sizes| ==> Blocks(sizes[i]) == 1) && |FreeSet(k.live)| >= |sizes|
    modifies k, k.ram
    ensures k.Valid() && |bs| == |sizes| && NewBlocks(old(k.live), k.live, bs) && InRow(old(k.live), k.live, bs)
    ensures |FreeSet(k.live)| == |FreeSet(old(k.live))| - |sizes|
    ensures forall rest :: rest >= 1 && Room(old(k.live), |sizes| + rest) ==> Room(k.live, rest)
    ensures Extends(old(k.ram[..]), old(k.live), k.ram[..], k.live)
  {
    hide BlockIndex, BlockAddr, Extends, FreeSet, Room, Low, WellFormed, Encodes, OnlyAt, InRow, NewBlocks, Blocks,
      Lowest, Starts;
    ghost var m, live := k.ram[..], k.live;
    bs := [];
    NothingDone(m, live);
    for i := 0 to |sizes|
      invariant k.Valid() && |bs| == i && NewBlocks(live, k.live, bs) && InRow(live, k.live, bs)
      invariant |FreeSet(k.live)| == |FreeSet(live)| - i
      invariant forall rest :: rest >= 1 && Room(live, i + rest) ==> Room(k.live, rest)
      invariant Extends(m, live, k.ram[..], k.live)
    {
      ghost var m1, live1 := k.ram[..], k.live;
      FreeIsRoom(live1);
      EncodesWell(m1, live1);
      var p := Allocate(k, sizes[i]);
      OneInRow(live1, p);
      InRowNext(live, live1, k.live, bs, p);
      NewBlocksNext(live, live1, k.live, bs, p);
      ExtendsTrans(m, live, m1, live1, k.ram[..], k.live);
      forall rest | rest >= 1 && Room(live, i + 1 + rest) ensures Room(k.live, rest) {
        assert Room(live, i + (1 + rest)) && Room(live1, 1 + rest);
      }
      bs := bs + [p];
    }
  }

  lemma NothingDone(m: Mem, live: Runs)
    ensures NewBlocks(live, live, []) && InRow(live, live, []) && Extends(m, live, m, live)
    ensures forall rest :: rest >= 1 && Room(live, 0 + rest) ==> Room(live, rest)
  {
    hide Low, Room;
    assert live - Starts([]) == live;
  }

  /** Gives single blocks back. */
  method FreeBlocks(k: Machine, bs: seq<Word>)
    requires k.Valid() && forall i :: 0 <= i < |bs| ==> OneBlock(k.live, bs[i])
    requires forall i, j :: 0 <= i < j < |bs| ==> BlockIndex(bs[i]) != BlockIndex(bs[j])
    modifies k, k.ram
    ensures k.Valid() && k.live == old(k.live) - Starts(bs) && OnlyTable(old(k.ram[..]), k.ram[..])
  {
    hide BlockIndex, Encodes;
    ghost var live := k.live;
    assert live - Starts(bs[..0]) == live;
    for i := 0 to |bs|
      invariant k.Valid() && k.live == live - Starts(bs[..i]) && OnlyTable(old(k.ram[..]), k.ram[..])
    {
      assert OneBlock(live, bs[i]) && BlockIndex(bs[i]) !in Starts(bs[..i]);
      k.Free(bs[i]);
      StartsNext(bs, i);
    }
    assert bs[..|bs|] == bs;
  }

  lemma StartsNext(bs: seq<Word>, i: int)
    requires 0 <= i < |bs|
    ensures Starts(bs[..i + 1]) == Starts(bs[..i]) + {BlockIndex(bs[i])}
  {
    hide BlockIndex;
    var cs, ds := bs[..i], bs[..i + 1];
    forall b ensures b in Starts(ds) <==> b in Starts(cs) || b == BlockIndex(bs[i]) {
      if b in Starts(cs) {
        var j :| 0 <= j < i && b == BlockIndex(cs[j]);
        assert ds[j] == cs[j];
      }
      assert ds[i] == bs[i];
      if b in Starts(ds) {
        var j :| 0 <= j <= i && b == BlockIndex(ds[j]);
        assert j < i ==> cs[j] == ds[j];
      }
    }
  }

  /** The records of a parsed path with one part: its root, the name and the part. */
  const PATH: seq<Word> := [8, 128, 8]
  /** Those of an open file: the descriptor of the file system, the item, its copy, and the file descriptor. */
  const OPENED: seq<Word> := [8, 8, 32, 16]

  /** `fopen` of a file in the root directory. The path is never given back; the other blocks are, by `fclose`. */
  method OpenFile(k: Machine) returns (path: seq<Word>, handle: seq<Word>, ghost m1: Mem, ghost live1: Runs)
    requires k.Valid() && |FreeSet(k.live)| >= 7
    modifies k, k.ram
    ensures k.Valid() && |path| == 3 && |handle| == 4 && WellFormed(live1)
    ensures NewBlocks(old(k.live), live1, path) && InRow(old(k.live), live1, path)
    ensures NewBlocks(live1, k.live, handle) && InRow(live1, k.live, handle)
    ensures |FreeSet(live1)| == |FreeSet(old(k.live))| - 3
    ensures forall rest :: rest >= 1 && Room(old(k.live), 7 + rest) ==> Room(k.live, rest)
    ensures Extends(old(k.ram[..]), old(k.live), m1, live1) && Extends(m1, live1, k.ram[..], k.live)
  {
    hide BlockIndex, BlockAddr, Extends, FreeSet, Room, Low, WellFormed, Encodes, OnlyAt, InRow, NewBlocks, Starts,
      Lowest;
    assert Blocks(8) == 1 && Blocks(128) == 1 && Blocks(32) == 1 && Blocks(16) == 1;
    ghost var m, live := k.ram[..], k.live;
    path := TakeBlocks(k, PATH);
    live1 := k.live;
    m1 := k.ram[..];
    EncodesWell(m1, live1);
    FreeIsRoom(live1);
    var buffer := Allocate(k, 128);
    ghost var m2, live2 := k.ram[..], k.live;
    NewRunStarts(live1, live2, 1, buffer);
    k.Free(buffer);
    assert k.live == live1;
    ghost var m3: Mem := k.ram[..];
    TakenBack(m1, live1, m2, live2, m3, {BlockIndex(buffer)});
    handle := TakeBlocks(k, OPENED);
    ExtendsTrans(m1, live1, m3, live1, k.ram[..], k.live);
    forall rest | rest >= 1 && Room(live, 7 + rest) ensures Room(k.live, rest) {
      assert Room(live, 3 + (4 + rest)) && Room(live1, 4 + rest);
    }
  }

  /** Blocks taken and given back leave what was in use. */
  lemma TakenBack(m: Mem, live: Runs, m1: Mem, live1: Runs, m2: Mem, X: set<int>)
    requires Extends(m, live, m1, live1) && OnlyTable(m1, m2) && forall b :: b in X ==> b !in live
    ensures Extends(m, live, m2, live1 - X)
  {
    forall t: Frame | !HeapPage(t) && !FreePage(live, t) ensures SamePage(m, m2, t) { assert SamePage(m, m1, t); }
  }

  /** The allocations of a load before the address space: the process record, the file record, those of opening
      the file, the file, the stack and the task record, in this order. */
  method BuildParts(k: Machine, file: seq<Byte>) returns (q: Holdings, path: seq<Word>)
    requires k.Valid() && 0 < |file| <= 0x0640_0000 && Room(k.live, Blocks(|file|) + 15)
    modifies k, k.ram
    ensures k.Valid() && Extends(old(k.ram[..]), old(k.live), k.ram[..], k.live) && PartsIn(k.live, q, Blocks(|file|))
    ensures |path| == 3 && forall b :: b in PartRuns(q) || b in Starts(path) ==> b !in old(k.live)
    ensures forall b :: b in Starts(path) ==> b !in PartRuns(q) && b in k.live && k.live[b] == 1
    ensures forall b :: b in k.live ==> b in old(k.live) || b in PartRuns(q) || b in Starts(path)
    ensures |FreeSet(k.live)| == |FreeSet(old(k.live))| - Blocks(|file|) - 12
    ensures 0x0100_0000 <= q.image && q.image % 4096 == 0 && q.image + 4096 * Blocks(|file|) <= 0x0740_0000
    ensures |file| <= 4096 * Blocks(|file|) && k.ram[..][q.image..q.image + |file|] == file
    ensures q.stack % 4096 == 0 && q.stack + 16384 <= 0x0740_0000
    ensures NextOf(k.ram[..], q.task) == 0 && PrevOf(k.ram[..], q.task) == 0
    ensures PartsInRow(old(k.live), k.live, q, Blocks(|file|))
  {
    hide BlockIndex, BlockAddr, Extends, FreeSet, Room, Low, WellFormed, NextOf, PrevOf, Encodes, PartsInRow,
      PartsIn, PartRuns, OnlyAt, InRow, NewBlocks, Starts, Lowest, RestInRow;
    assert Blocks(9384) == 3 && Blocks(152) == 1 && Blocks(16384) == 4 && Blocks(64) == 1;
    ghost var n := Blocks(|file|);
    ghost var m, live := k.ram[..], k.live;
    EncodesWell(m, live);
    RoomCount(live, n + 15);
    RoomLess(live, 3, n + 12);
    var record := Allocate(k, 9384);
    ghost var m1, live1 := k.ram[..], k.live;
    EncodesWell(m1, live1);
    assert Room(live, 3 + (n + 12)) && Room(live1, n + 12);
    RoomLess(live1, 1, n + 11);
    var elf := Allocate(k, 152);
    ghost var m2, live2 := k.ram[..], k.live;
    EncodesWell(m2, live2);
    assert Room(live1, 1 + (n + 11)) && Room(live2, n + 11);
    var image;
    ghost var live3;
    path, image, live3 := OpenAndRead(k, file);
    ghost var m5, live5 := k.ram[..], k.live;
    EncodesWell(m5, live5);
    var stack := Allocate(k, 16384);
    ghost var m6, live6 := k.ram[..], k.live;
    EncodesWell(m6, live6);
    FreeIsRoom(live6);
    var task := Allocate(k, 64);
    ghost var m7, live7 := k.ram[..], k.live;
    q := Holdings(image, stack, task, elf, record);
    ExtendsTrans(m, live, m1, live1, m2, live2);
    ExtendsTrans(m, live, m2, live2, m5, live5);
    ExtendsTrans(m5, live5, m6, live6, m7, live7);
    ExtendsTrans(m, live, m5, live5, m7, live7);
    RunUntouched(m5, live5, m7, live7, image, |file|) by { NewRunStarts(live3, live5, n, image); }
    Cleared(m7, task);
    RestPlaced(live2, live5, live6, live7, q, n);
    RowOfParts(live, live1, live2, live7, q, n);
    PartsBuilt(live, live1, live2, live3, live5, live6, live7, path, q, n);
  }

  /** `elf_load` behind its record: the file is handle, read and closed. */
  method OpenAndRead(k: Machine, file: seq<Byte>) returns (path: seq<Word>, image: Word, ghost live3: Runs)
    requires k.Valid() && 0 < |file| <= 0x0640_0000 && Room(k.live, Blocks(|file|) + 11)
    modifies k, k.ram
    ensures k.Valid() && |path| == 3 && NewBlocks(old(k.live), live3, path)
    ensures NewRunAt(live3, k.live, Blocks(|file|), image)
    ensures |file| <= 4096 * Blocks(|file|) && k.ram[..][image..image + |file|] == file
    ensures |FreeSet(k.live)| == |FreeSet(old(k.live))| - Blocks(|file|) - 3 && Room(k.live, 4)
    ensures Extends(old(k.ram[..]), old(k.live), k.ram[..], k.live)
    ensures ReadInRow(old(k.live), k.live, image, Blocks(|file|))
  {
    hide BlockIndex, BlockAddr, Extends, FreeSet, Room, Low, WellFormed, Encodes, InRow, NewBlocks, Starts, Lowest,
      ReadInRow;
    ghost var m, live, n := k.ram[..], k.live, Blocks(|file|);
    RoomCount(live, n + 11) by { EncodesWell(m, live); }
    var handle;
    ghost var m3;
    path, handle, m3, live3 := OpenFile(k);
    ghost var m4, live4 := k.ram[..], k.live;
    EncodesWell(m4, live4);
    assert Room(live, 7 + (n + 4)) && Room(live4, n + 4);
    RoomLess(live4, n, 4);
    image := LoadImage(k, file);
    ghost var m5, live5 := k.ram[..], k.live;
    EncodesWell(m5, live5);
    SwapOut(live3, live4, live5, handle, n, image);
    ExtendsTrans(m3, live3, m4, live4, m5, live5);
    FreeBlocks(k, handle);
    EncodesWell(k.ram[..], k.live);
    TakenBack(m3, live3, m5, live5, k.ram[..], Starts(handle));
    ExtendsTrans(m, live, m3, live3, k.ram[..], k.live);
    NewRunFits(live3, k.live, n, image);
    RunCount(live3, BlockIndex(image), n);
    RoomMore(live5, k.live, 4);
    SliceKept(m5, k.ram[..], image, |file|);
    RowRead(live, live3, live4, live5, k.live, path, handle, image, n);
  }

  lemma SliceKept(m: Mem, m': Mem, p: Word, size: int)
    requires OnlyTable(m, m') && 0x0100_0000 <= p && 0 <= size && p + size <= 0x0740_0000
    ensures m'[p..p + size] == m[p..p + size]
  {
  }

  lemma RoomCount(live: Runs, n: nat)
    requires Room(live, n)
    ensures |FreeSet(live)| >= n
  {
    var s :| Fits(live, s, n);
    var X := Interval(s, n);
    assert FreeSet(live) == X + (FreeSet(live) - X);
  }

  lemma RoomMore(live: Runs, live': Runs, n: int)
    requires Room(live, n) && forall b :: b in live' ==> b in live && live[b] == live'[b]
    ensures Room(live', n)
  {
    var s :| Fits(live, s, n);
    forall i | s <= i < s + n ensures !Taken(live', i) {
      assert !Taken(live, i);
      assert forall b :: Covers(live', b, i) ==> Covers(live, b, i);
    }
    assert Fits(live', s, n);
  }

  /** Single blocks given back after a run was taken: only the run is new. */
  lemma SwapOut(live: Runs, live1: Runs, live2: Runs, bs: seq<Word>, n: int, p: Word)
    requires NewBlocks(live, live1, bs) && NewRunAt(live1, live2, n, p)
    ensures NewRunAt(live, live2 - Starts(bs), n, p) && forall b :: b in Starts(bs) ==> b !in live
    ensures forall i :: 0 <= i < |bs| ==> OneBlock(live2, bs[i])
    ensures forall i, j :: 0 <= i < j < |bs| ==> BlockIndex(bs[i]) != BlockIndex(bs[j])
  {
    hide BlockIndex, BlockAddr;
    assert live1 - Starts(bs) == live;
    forall i | 0 <= i < |bs| ensures OneBlock(live2, bs[i]) && BlockIndex(bs[i]) != BlockIndex(p) {
      assert OneBlock(live1, bs[i]);
    }
    assert live2 - Starts(bs) == live[BlockIndex(p) := n];
  }

  // ---- where first fit puts the parts -------------------------------------

  /** A file read into a row of the lowest free blocks: behind its path, with a hole of four blocks between. */
  ghost predicate ReadInRow(live: Runs, live': Runs, image: Word, n: int) {
    forall c, d :: Low(live, c, d) && c + n + 7 <= d ==>
      && image == BlockAddr(c + 7) && Low(live', c + 3, c + 7) && SameAbove(live, live', d)
      && (forall i :: c + 7 <= i < c + 7 + n ==> Taken(live', i)) && forall i :: c + 7 + n <= i < d ==> !Taken(live', i)
  }

  lemma RowRead(live: Runs, live1: Runs, live2: Runs, live3: Runs, live4: Runs, path: seq<Word>, handle: seq<Word>,
      image: Word, n: nat)
    requires WellFormed(live2) && WellFormed(live3) && |path| == 3 && |handle| == 4
    requires InRow(live, live1, path) && InRow(live1, live2, handle) && NewBlocks(live1, live2, handle)
    requires NewRunAt(live2, live3, n, image) && Lowest(live2, n, BlockIndex(image)) && live4 == live3 - Starts(handle)
    ensures ReadInRow(live, live4, image, n)
  {
    hide BlockIndex, BlockAddr, Low, WellFormed, NewBlocks, Lowest, SameAbove, Starts, Taken, InRow;
    forall c, d | Low(live, c, d) && c + n + 7 <= d
      ensures image == BlockAddr(c + 7) && Low(live4, c + 3, c + 7) && SameAbove(live, live4, d)
      ensures forall i :: c + 7 <= i < c + 7 + n ==> Taken(live4, i)
      ensures forall i :: c + 7 + n <= i < d ==> !Taken(live4, i)
    {
      LowBounds(live, c, d);
      RowAfter(live, live1, path, c, d);
      RowAfter(live1, live2, handle, c + 3, d);
      LowFirst(live2, n, BlockIndex(image), c + 7, d);
      AboveTwice(live, live1, live2, d);
      AboveTwice(live, live2, live3, d);
      HoleLeft(live1, live2, live3, live4, handle, BlockIndex(image), n, c + 3, d);
      AboveTwice(live, live3, live4, d);
    }
  }

  lemma LowBounds(live: Runs, c: int, d: int)
    requires Low(live, c, d)
    ensures 0 <= c <= d <= 25600
  {
  }

  lemma HoleLeft(live1: Runs, live2: Runs, live3: Runs, live4: Runs, handle: seq<Word>, b: int, n: nat, c: int, d: int)
    requires WellFormed(live3) && |handle| == 4 && NewBlocks(live1, live2, handle) && live4 == live3 - Starts(handle)
    requires b !in live2 && live3 == live2[b := n] && Low(live3, c + 4 + n, d) && 0 <= c
    requires forall i :: 0 <= i < 4 ==> handle[i] == BlockAddr(c + i)
    ensures Low(live4, c, c + 4) && SameAbove(live3, live4, d)
    ensures forall i :: c + 4 <= i < c + 4 + n ==> Taken(live4, i)
    ensures forall i :: c + 4 + n <= i < d ==> !Taken(live4, i)
  {
    hide BlockAddr, BlockIndex;
    forall i | 0 <= i < 4 ensures BlockIndex(handle[i]) == c + i { BlockIndexOfBlock(c + i); }
    forall x ensures x in Starts(handle) <==> c <= x < c + 4 {
      if c <= x < c + 4 { assert x == BlockIndex(handle[x - c]); }
    }
    forall i ensures Taken(live4, i) <==> Taken(live3, i) && !(c <= i < c + 4) {
      Freed1(live3, live4, handle, i, c);
    }
  }

  lemma Freed1(live: Runs, live': Runs, bs: seq<Word>, i: int, c: int)
    requires WellFormed(live) && live' == live - Starts(bs) && forall x :: x in Starts(bs) <==> c <= x < c + 4
    requires forall x :: x in Starts(bs) ==> x in live && live[x] == 1
    ensures Taken(live', i) <==> Taken(live, i) && !(c <= i < c + 4)
  {
    hide Starts;
    if r :| Covers(live, r, i) {
      if c <= i < c + 4 {
        assert Covers(live, i, i);
        forall q ensures !Covers(live', q, i) { assert Covers(live, q, i) ==> q == i; }
      } else {
        assert Covers(live', r, i);
      }
    }
    if q :| Covers(live', q, i) { assert Covers(live, q, i); }
  }

  /** Stack, image and task record behind the path, in the row that the path began. */
  ghost predicate RestInRow(live: Runs, live': Runs, q: Holdings, n: int) {
    forall c, d :: Low(live, c, d) && c + n + 8 <= d ==>
      Low(live', c + n + 8, d) && SameAbove(live, live', d) && RestAt(q, c, n)
  }

  ghost predicate RestAt(q: Holdings, c: int, n: int) {
    q.stack == BlockAddr(c + 3) && q.image == BlockAddr(c + 7) && q.task == BlockAddr(c + n + 7)
  }

  lemma RestPlaced(live: Runs, live1: Runs, live2: Runs, live3: Runs, q: Holdings, n: nat)
    requires WellFormed(live1) && WellFormed(live2) && ReadInRow(live, live1, q.image, n)
    requires NewRunAt(live1, live2, 4, q.stack) && Lowest(live1, 4, BlockIndex(q.stack))
    requires NewRunAt(live2, live3, 1, q.task) && Lowest(live2, 1, BlockIndex(q.task))
    ensures RestInRow(live, live3, q, n)
  {
    hide BlockIndex, BlockAddr, WellFormed, Lowest;
    forall c, d | Low(live, c, d) && c + n + 8 <= d
      ensures Low(live3, c + n + 8, d) && SameAbove(live, live3, d) && RestAt(q, c, n)
    {
      LowFirst(live1, 4, BlockIndex(q.stack), c + 3, c + 7);
      assert Low(live2, c + 7 + n, d);
      LowFirst(live2, 1, BlockIndex(q.task), c + 7 + n, d);
    }
  }

  /** Where the parts lie when the lowest free blocks lie in a row, perhaps with one more below. */
  ghost predicate PartsInRow(live: Runs, live': Runs, q: Holdings, n: int) {
    && (forall c, d :: Low(live, c, d) && c + n + 12 <= d ==>
          && Low(live', c + n + 12, d) && SameAbove(live, live', d) && RestAt(q, c + 4, n)
          && q.record == BlockAddr(c) && q.elf == BlockAddr(c + 3))
    && (forall h, c, d :: Gap(live, h, c, d) && c + n + 11 <= d ==>
          && Low(live', c + n + 11, d) && SameAbove(live, live', d) && RestAt(q, c + 3, n)
          && q.record == BlockAddr(c) && q.elf == BlockAddr(h))
  }

  lemma RowOfParts(live: Runs, live1: Runs, live2: Runs, live3: Runs, q: Holdings, n: nat)
    requires WellFormed(live) && WellFormed(live1) && RestInRow(live2, live3, q, n)
    requires NewRunAt(live, live1, 3, q.record) && Lowest(live, 3, BlockIndex(q.record))
    requires NewRunAt(live1, live2, 1, q.elf) && Lowest(live1, 1, BlockIndex(q.elf))
    ensures PartsInRow(live, live3, q, n)
  {
    hide BlockIndex, BlockAddr, WellFormed, Lowest, Low, Gap, SameAbove, RestAt;
    var a, b := BlockIndex(q.record), BlockIndex(q.elf);
    forall c, d | Low(live, c, d) && c + n + 12 <= d
      ensures Low(live3, c + n + 12, d) && SameAbove(live, live3, d) && RestAt(q, c + 4, n) && a == c && b == c + 3
    {
      LowFirst(live, 3, a, c, d);
      LowFirst(live1, 1, b, c + 3, d);
      assert Low(live2, c + 4, d) by { assert c + 3 + 1 == c + 4; }
      assert Low(live3, c + 4 + n + 8, d) by { assert c + 4 + n + 8 <= d; }
      AboveTwice(live, live1, live2, d);
      AboveTwice(live, live2, live3, d);
    }
    forall h, c, d | Gap(live, h, c, d) && c + n + 11 <= d
      ensures Low(live3, c + n + 11, d) && SameAbove(live, live3, d) && RestAt(q, c + 3, n) && a == c && b == h
    {
      GapFirst(live, 3, a, h, c, d);
      GapFirst(live1, 1, b, h, c + 3, d);
      assert Low(live3, c + 3 + n + 8, d) by { assert c + 3 + n + 8 <= d; }
      AboveTwice(live, live1, live2, d);
      AboveTwice(live, live2, live3, d);
    }
  }

  lemma NewRunStarts(live: Runs, live': Runs, n: int, p: Word)
    requires NewRunAt(live, live', n, p)
    ensures Start(live', p) && live'[BlockIndex(p)] == n
  {
  }

  lemma FreeIsRoom(live: Runs)
    requires |FreeSet(live)| > 0
    ensures Room(live, 1)
  {
    var i :| i in FreeSet(live);
    assert Fits(live, i, 1);
  }

  lemma PartsBuilt(live: Runs, live1: Runs, live2: Runs, live3: Runs, live4: Runs, live5: Runs, live6: Runs,
      path: seq<Word>, q: Holdings, n: int)
    requires NewRunAt(live, live1, 3, q.record) && NewRunAt(live1, live2, 1, q.elf) && NewBlocks(live2, live3, path)
    requires NewRunAt(live3, live4, n, q.image)
    requires NewRunAt(live4, live5, 4, q.stack) && NewRunAt(live5, live6, 1, q.task)
    ensures PartsIn(live6, q, n) && (forall b :: b in PartRuns(q) || b in Starts(path) ==> b !in live)
    ensures forall b :: b in Starts(path) ==> b !in PartRuns(q) && b in live6 && live6[b] == 1
    ensures forall b :: b in live6 ==> b in live || b in PartRuns(q) || b in Starts(path)
  {
    hide BlockIndex, BlockAddr;
    assert live3 - Starts(path) == live2;
    forall b | b in Starts(path) ensures b in live3 && live3[b] == 1 && b !in live2 {
      var i :| 0 <= i < |path| && b == BlockIndex(path[i]);
      assert OneBlock(live3, path[i]);
    }
    forall b | b in live2 ensures b in live3 && live3[b] == live2[b] {}
  }

  /** The records of the list are live blocks. */
  ghost predicate Tasks(live: Runs, ts: seq<Frame>) {
    forall t :: t in ts ==> OneBlock(live, t)
  }

  /** What was in use, other than pages `a` and `b`, keeps its content. */
  ghost predicate KeptBesides(m: Mem, live: Runs, m': Mem, a: Frame, b: Word) {
    && (forall t: Frame :: !HeapPage(t) && !FreePage(live, t) && t != a && (t != b || b == 0) ==> SamePage(m, m', t))
    && SameLow(m, m')
  }

  /** Other tasks keep their back links. */
  ghost predicate SameBacks(m: Mem, live: Runs, m': Mem, a: Frame) {
    forall t: Frame :: t != a && OneBlock(live, t) ==> PrevOf(m', t) == PrevOf(m, t)
  }

  lemma BesidesThen(m: Mem, live: Runs, m1: Mem, m2: Mem, a: Frame, b: Word)
    requires KeptBesides(m, live, m1, a, b) && KeptBesides(m1, live, m2, a, b)
    requires SameBacks(m, live, m1, a) && SameBacks(m1, live, m2, a)
    ensures KeptBesides(m, live, m2, a, b) && SameBacks(m, live, m2, a)
  {
    hide PrevOf, OneBlock;
    forall t: Frame | !HeapPage(t) && !FreePage(live, t) && t != a && (t != b || b == 0) ensures SamePage(m, m2, t) {
      assert SamePage(m, m1, t) && SamePage(m1, m2, t);
    }
  }

  /** Writes to pages that are not in use leave list and records alone. */
  lemma ListBeside(m: Mem, live: Runs, m': Mem, q: Queue, ts: seq<Frame>, a: Frame, b: Word)
    requires WellFormed(live) && Tasks(live, ts) && OneBlock(live, a)
    requires forall t: Frame :: !HeapPage(t) && !FreePage(live, t) ==> SamePage(m, m', t)
    requires SameLow(m, m')
    ensures KeptBesides(m, live, m', a, b) && SameBacks(m, live, m', a)
    ensures ListOk(m, q, ts) ==> ListOk(m', q, ts)
    ensures NextOf(m', a) == NextOf(m, a) && PrevOf(m', a) == PrevOf(m, a)
  {
    hide NextOf, PrevOf, ListOk, OneBlock;
    forall t: Frame | OneBlock(live, t)
      ensures SamePage(m, m', t) && NextOf(m', t) == NextOf(m, t) && PrevOf(m', t) == PrevOf(m, t)
    {
      BlockInUse(live, t);
      SameLinks(m, m', t);
    }
    SameForward(m, m', q, ts);
  }

  lemma BlockInUse(live: Runs, t: Frame)
    requires WellFormed(live) && OneBlock(live, t)
    ensures 0x0100_0000 <= t < 0x0740_0000 && !HeapPage(t) && !FreePage(live, t)
  {
    OneBlockInPool(live, t);
    assert Covers(live, BlockIndex(t), t / 4096 - 0x1000);
  }

  /** Blocks in use before the address space was built hold none of its tables. */
  lemma BesideSpace(live: Runs, live1: Runs, sh: Space)
    requires WellFormed(live) && WellFormed(live1) && Grown(live, live1, Foot(sh))
    ensures forall t: Frame :: InFoot(sh, t) ==> FreePage(live, t) && !HeapPage(t) && t != 0
    ensures forall t: Frame :: OneBlock(live, t) ==> !InFoot(sh, t)
  {
    forall t: Frame | InFoot(sh, t) ensures FreePage(live, t) && !HeapPage(t) && t != 0 {
      GrownFree(live, live1, Foot(sh), t);
    }
    forall t: Frame | OneBlock(live, t) ensures !InFoot(sh, t) { BlockInUse(live, t); }
  }

  lemma SpaceBeside(m: Mem, live: Runs, m1: Mem, live1: Runs, sh: Space, q: Queue, ts: seq<Frame>, a: Frame, b: Word)
    requires WellFormed(live) && WellFormed(live1) && Grown(live, live1, Foot(sh)) && Kept(m, m1, Foot(sh))
    requires ListOk(m, q, ts) && Tasks(live, ts) && OneBlock(live, a)
    ensures ListOk(m1, q, ts) && KeptBesides(m, live, m1, a, b) && SameBacks(m, live, m1, a)
    ensures NextOf(m1, a) == NextOf(m, a) && PrevOf(m1, a) == PrevOf(m, a)
  {
    hide NextOf, PrevOf, ListOk, OneBlock, Grown;
    BesideSpace(live, live1, sh);
    ListBeside(m, live, m1, q, ts, a, b);
  }

  lemma TablesBeside(m: Mem, live: Runs, m1: Mem, live1: Runs, sh: Space, q: Queue, ts: seq<Frame>, a: Frame, b: Word)
    requires Encodes(m, live1) && WellFormed(live) && Grown(live, live1, Foot(sh)) && OnlyTables(m, m1, sh)
    requires ListOk(m, q, ts) && Tasks(live, ts) && OneBlock(live, a)
    ensures Encodes(m1, live1) && ListOk(m1, q, ts) && KeptBesides(m, live, m1, a, b) && SameBacks(m, live, m1, a)
    ensures PrevOf(m1, a) == PrevOf(m, a)
  {
    hide NextOf, PrevOf, ListOk, OneBlock, Grown;
    EncodesWell(m, live1);
    BesideSpace(live, live1, sh);
    forall t: Frame | !FreePage(live, t) || HeapPage(t)
      ensures SamePage(m, m1, t)
    {
      assert t in sh.tables ==> InFoot(sh, t);
    }
    TableUntouched(m, m1, live1);
    SameLowPages(m, m1);
    ListBeside(m, live, m1, q, ts, a, b);
  }

  lemma FreeBeside(m: Mem, live: Runs, m1: Mem, q: Queue, ts: seq<Frame>, a: Frame, b: Word)
    requires WellFormed(live) && OnlyTable(m, m1)
    requires ListOk(m, q, ts) && Tasks(live, ts) && OneBlock(live, a)
    ensures ListOk(m1, q, ts) && KeptBesides(m, live, m1, a, b) && SameBacks(m, live, m1, a)
    ensures NextOf(m1, a) == NextOf(m, a) && PrevOf(m1, a) == PrevOf(m, a)
  {
    hide NextOf, PrevOf, ListOk, OneBlock;
    forall t: Frame | !HeapPage(t) ensures SamePage(m, m1, t) {}
    ListBeside(m, live, m1, q, ts, a, b);
  }

  /** A link written into blocks in use leaves heap and tables alone. */
  lemma LinkBeside(m: Mem, live: Runs, m1: Mem, live1: Runs, sh: Space, a: Frame, b: Word)
    requires Encodes(m, live1) && WellFormed(live) && Grown(live, live1, Foot(sh)) && Wired(m, sh)
    requires OneBlock(live, a) && (b == 0 || (b % 4096 == 0 && OneBlock(live, b)))
    requires forall u: Frame :: u != a && (u != b || b == 0) ==> SamePage(m, m1, u)
    requires forall u: Frame :: u != a ==> PrevOf(m1, u) == PrevOf(m, u)
    ensures Encodes(m1, live1) && KeptBesides(m, live, m1, a, b) && SameBacks(m, live, m1, a)
    ensures Wired(m1, sh) && forall v: Page :: Pte(m1, sh, v) == Pte(m, sh, v)
  {
    hide NextOf, PrevOf, OneBlock, Grown, WordAt, Pte, Wired;
    EncodesWell(m, live1);
    BesideSpace(live, live1, sh);
    BlockInUse(live, a);
    if b != 0 { BlockInUse(live, b); }
    forall t: Frame | HeapPage(t) || InFoot(sh, t) ensures SamePage(m, m1, t) {}
    TableUntouched(m, m1, live1);
    SameLowPages(m, m1);
    FootFrame(m, m1, sh);
  }

  lemma TailInUse(m: Mem, live: Runs, q: Queue, ts: seq<Frame>)
    requires ListOk(m, q, ts) && Tasks(live, ts)
    ensures q.tail % 4096 == 0 && (q.tail != 0 ==> q.tail in ts && OneBlock(live, q.tail))
    ensures Ends(q, ts) && Different(ts)
  {
    hide OneBlock;
  }

  /** A last record that leaves the list again leaves the old one. */
  lemma LastLeaves(m: Mem, q: Queue, ts: seq<Frame>, t: Frame)
    requires ListOk(m, Joined(q, t), ts + [t]) && Ends(q, ts) && t !in ts && PrevOf(m, t) == q.tail
    ensures Unlinkable(m, ts + [t], |ts|) && Left(m, Joined(q, t), t) == q && Without(ts + [t], |ts|) == ts
  {
    hide PrevOf, NextOf;
    var us := ts + [t];
    assert us[|ts|] == t && NextOf(m, us[|ts|]) == After(us, |ts|);
    if ts != [] { assert us[0] == ts[0] && q.head in ts && us[|ts| - 1] == ts[|ts| - 1]; }
  }

  lemma NullPage(live: Runs, t: Frame)
    requires WellFormed(live) && OneBlock(live, t)
    ensures t != 0
  {
    OneBlockInPool(live, t);
  }

  /** `task_new`, `process_map_elf` and `process_map_stack`; a rejected segment takes the task down again. */
  method MapProcess(k: Machine, s: Scheduler, q: Holdings, segs: seq<Segment>)
    returns (r: int, chunk: Frame, ghost sh: Space)
    requires k.Valid() && |FreeSet(k.live)| >= 1026 && q.stack % 4096 == 0 && q.stack + 16384 <= 0x0740_0000
    requires s.Valid(k.ram[..]) && Tasks(k.live, s.order) && OneBlock(k.live, q.task) && q.task !in s.order
    requires NextOf(k.ram[..], q.task) == 0 && PrevOf(k.ram[..], q.task) == 0
    modifies k, k.ram, s
    ensures k.Valid() && s.Valid(k.ram[..])
    ensures r == 0 || (r == -2 && exists i :: 0 <= i < |segs| && Rejected(q.image, segs[i]))
    ensures r != 0 ==>
      k.live == old(k.live) - {BlockIndex(q.task)} && s.order == old(s.order) && s.View() == old(s.View())
    ensures r == 0 ==> s.order == old(s.order) + [q.task] && s.View() == Joined(old(s.View()), q.task)
    ensures r == 0 ==> forall i :: 0 <= i < |segs| ==> !Rejected(q.image, segs[i])
    ensures r == 0 ==> chunk == sh.chunk && sh.flags == 7 && Owned(k.live, sh) && Wired(k.ram[..], sh)
    ensures r == 0 ==> Grown(old(k.live), k.live, Foot(sh)) && |FreeSet(k.live)| == |FreeSet(old(k.live))| - 1026
    ensures r == 0 ==> forall v: Page :: Pte(k.ram[..], sh, v) == LoadedEntry(q.image, q.stack, segs, v)
    ensures r == 0 ==> forall v: Page :: 0x3FF000 - 16384 <= 4096 * v < 0x3FF000 ==>
      Pte(k.ram[..], sh, v) == q.stack + (4096 * v - 0x3FB000) + 7
    ensures r == 0 ==> forall a: Word :: 0x3FF000 - 16384 <= a < 0x3FF000 ==>
      UserWritable(k.ram[..], sh, a / 4096) && Physical(k.ram[..], sh, a) == q.stack + (a - 0x3FB000)
    ensures r == 0 ==> forall v: Page ::
      !(0x3FF000 - 16384 <= 4096 * v < 0x3FF000) && (forall i :: 0 <= i < |segs| ==> !OnPage(q.image, segs[i], v)) ==>
      Pte(k.ram[..], sh, v) == 4096 * v + 5
    ensures r == 0 ==> InRow(old(k.live), k.live, Row(sh))
    ensures r == 0 ==> PrevOf(k.ram[..], q.task) == old(s.View()).tail
    ensures SameBacks(old(k.ram[..]), old(k.live), k.ram[..], q.task)
    ensures KeptBesides(old(k.ram[..]), old(k.live), k.ram[..], q.task, old(s.View()).tail)
  {
    hide FreeSet, WordAt, BlockIndex, Pte, Or, PhysStart, PhysEnd, Loaded, Owned, Grown, WellFormed, Distinct,
      Encodes, ListOk, NextOf, PrevOf, InRow, Wired, Hung, Cut, Unlinkable, KeptBesides, SameBacks, Kept,
      OnlyTables, OneBlock, SamePage, Joined, Left, Without, Tasks, OnlyTable, Ends, Different, LoadedEntry,
      Rejected, Physical;
    ghost var m, live, v, ts, t := k.ram[..], k.live, s.View(), s.order, q.task;
    ghost var tail := v.tail;
    EncodesWell(m, live);
    TailInUse(m, live, v, ts);
    NullPage(live, t);
    FiveOrTwo();
    chunk, sh := New4gb(k, 5);
    ghost var m1, live1 := k.ram[..], k.live;
    EncodesWell(m1, live1);
    SpaceBeside(m, live, m1, live1, sh, v, ts, t, tail);
    s.Append(k.ram, q.task);
    ghost var m2: Mem := k.ram[..];
    AppendBeside(m1, live, m2, live1, sh, v, ts, t);
    BesidesThen(m, live, m1, m2, t, tail);
    SpaceReady(live1, sh);
    ghost var n;
    r, n := MapElf(k.ram, chunk, q.image, segs, sh);
    ghost var m3: Mem := k.ram[..];
    TasksMore(live, ts, t);
    TablesBeside(m2, live, m3, live1, sh, s.View(), s.order, t, tail);
    BesidesThen(m, live, m2, m3, t, tail);
    if r < 0 {
      TakeDown(k, s, chunk, q.task, sh, m, live, v, ts);
      return;
    }
    r := MapStack(k.ram, chunk, q.stack, sh);
    TablesBeside(m3, live, k.ram[..], live1, sh, s.View(), s.order, t, tail);
    BesidesThen(m, live, m3, k.ram[..], t, tail);
    assert segs[..n] == segs;
    AllLoaded(m2, m3, k.ram[..], sh, q.image, q.stack, segs);
    NotLoaded(m2, m3, k.ram[..], sh, q.image, segs);
  }

  lemma NotLoaded(m: Mem, m1: Mem, m2: Mem, sh: Space, image: Word, segs: seq<Segment>)
    requires forall v: Page :: Pte(m, sh, v) == 4096 * v + 5
    requires forall v: Page :: Pte(m1, sh, v) == Loaded(image, segs, v, Pte(m, sh, v))
    requires forall v: Page :: !(0x3FF000 - 16384 <= 4096 * v < 0x3FF000) ==> Pte(m2, sh, v) == Pte(m1, sh, v)
    ensures forall v: Page ::
      !(0x3FF000 - 16384 <= 4096 * v < 0x3FF000) && (forall i :: 0 <= i < |segs| ==> !OnPage(image, segs[i], v)) ==>
      Pte(m2, sh, v) == 4096 * v + 5
  {
    hide WordAt, Pte, Loaded, OnPage;
    forall v: Page | !(0x3FF000 - 16384 <= 4096 * v < 0x3FF000)
      && forall i :: 0 <= i < |segs| ==> !OnPage(image, segs[i], v)
      ensures Pte(m2, sh, v) == 4096 * v + 5
    {
      LoadedNone(image, segs, v, Pte(m, sh, v));
    }
  }

  lemma AllLoaded(m: Mem, m1: Mem, m2: Mem, sh: Space, image: Word, stack: Word, segs: seq<Segment>)
    requires forall v: Page :: Pte(m, sh, v) == 4096 * v + 5
    requires forall v: Page :: Pte(m1, sh, v) == Loaded(image, segs, v, Pte(m, sh, v))
    requires forall v: Page ::
      Pte(m2, sh, v) ==
      if 0x3FF000 - 16384 <= 4096 * v < 0x3FF000 then stack + (4096 * v - 0x3FB000) + 7 else Pte(m1, sh, v)
    ensures forall v: Page :: Pte(m2, sh, v) == LoadedEntry(image, stack, segs, v)
  {
    hide WordAt, Pte, Loaded;
  }

  lemma TasksMore(live: Runs, ts: seq<Frame>, t: Frame)
    requires Tasks(live, ts) && OneBlock(live, t)
    ensures Tasks(live, ts + [t])
  {
    hide OneBlock;
  }

  lemma AppendBeside(m: Mem, live: Runs, m1: Mem, live1: Runs, sh: Space, q: Queue, ts: seq<Frame>, t: Frame)
    requires Encodes(m, live1) && WellFormed(live) && Grown(live, live1, Foot(sh)) && Wired(m, sh)
    requires ListOk(m, q, ts) && Tasks(live, ts) && OneBlock(live, t) && t !in ts
    requires NextOf(m, t) == 0 && PrevOf(m, t) == 0 && q.tail % 4096 == 0 && m1 == Hung(m, q, t)
    ensures Encodes(m1, live1) && KeptBesides(m, live, m1, t, q.tail) && SameBacks(m, live, m1, t)
    ensures Wired(m1, sh) && (forall v: Page :: Pte(m1, sh, v) == Pte(m, sh, v)) && PrevOf(m1, t) == q.tail
  {
    hide NextOf, PrevOf, OneBlock, Grown, WordAt, Pte, Wired, Hung;
    TailInUse(m, live, q, ts);
    NullPage(live, t);
    HungLast(m, q, ts, t);
    LinkBeside(m, live, m1, live1, sh, t, q.tail);
  }

  /** `task_free` of the task that was hung on the list last. */
  method TakeDown(k: Machine, s: Scheduler, chunk: Frame, t: Frame, ghost sh: Space, ghost m: Mem, ghost live: Runs,
      ghost v: Queue, ghost ts: seq<Frame>)
    requires k.Valid() && Owned(k.live, sh) && Wired(k.ram[..], sh) && chunk == sh.chunk
    requires Grown(live, k.live, Foot(sh))
    requires s.Valid(k.ram[..]) && s.order == ts + [t] && s.View() == Joined(v, t) && PrevOf(k.ram[..], t) == v.tail
    requires WellFormed(live) && Tasks(live, ts) && OneBlock(live, t) && t !in ts && Ends(v, ts) && v.tail % 4096 == 0
    requires KeptBesides(m, live, k.ram[..], t, v.tail) && SameBacks(m, live, k.ram[..], t)
    modifies k, k.ram, s
    ensures k.Valid() && k.live == live - {BlockIndex(t)} && s.Valid(k.ram[..]) && s.order == ts && s.View() == v
    ensures KeptBesides(m, live, k.ram[..], t, v.tail) && SameBacks(m, live, k.ram[..], t)
  {
    hide FreeSet, WordAt, BlockIndex, Pte, Owned, WellFormed, Distinct, Encodes, ListOk, Forward, NextOf, PrevOf,
      Wired, Cut, Unlinkable, KeptBesides, SameBacks, OneBlock, SamePage, Joined, Left, Without, OnlyTable, Ends,
      Tasks;
    ghost var m3: Mem := k.ram[..];
    Free4gb(k, chunk, sh);
    assert k.live == live;
    ghost var m4: Mem := k.ram[..];
    TasksMore(live, ts, t);
    FreeBeside(m3, live, m4, s.View(), s.order, t, v.tail);
    BesidesThen(m, live, m3, m4, t, v.tail);
    LastLeaves(m4, v, ts, t);
    s.Remove(k.ram, t, |ts|);
    ghost var m5: Mem := k.ram[..];
    CutBeside(m4, live, m5, v.tail, t, ts) by { TailKept(v, ts); }
    BesidesThen(m, live, m4, m5, t, v.tail);
    assert Start(live, t) by { BlockStart(live, t); }
    k.Free(t);
    FreeBeside(m5, live, k.ram[..], v, ts, t, v.tail);
    BesidesThen(m, live, m5, k.ram[..], t, v.tail);
  }

  lemma BlockStart(live: Runs, t: Frame)
    requires OneBlock(live, t)
    ensures Start(live, t)
  {
  }

  lemma TailKept(q: Queue, ts: seq<Frame>)
    requires Ends(q, ts)
    ensures q.tail != 0 ==> q.tail in ts
  {
  }

  lemma CutBeside(m: Mem, live: Runs, m1: Mem, tail: Word, t: Frame, ts: seq<Frame>)
    requires Encodes(m, live) && Tasks(live, ts) && OneBlock(live, t) && PrevOf(m, t) == tail
    requires (tail != 0 ==> tail in ts)
    requires tail % 4096 == 0 && m1 == Cut(m, t)
    ensures Encodes(m1, live) && KeptBesides(m, live, m1, t, tail) && SameBacks(m, live, m1, t)
  {
    hide NextOf, PrevOf, OneBlock, WordAt, Cut;
    EncodesWell(m, live);
    CutLinks(m, t);
    if tail != 0 { BlockInUse(live, tail); }
    forall u: Frame | HeapPage(u) ensures SamePage(m, m1, u) {}
    TableUntouched(m, m1, live);
    SameLowPages(m, m1);
  }

  lemma FiveOrTwo()
    ensures Or(5, 2) == 7
  {
  }

  lemma SpaceReady(live: Runs, sh: Space)
    requires Owned(live, sh)
    ensures Distinct(sh)
  {
  }

  /** Where first fit puts a whole process when the lowest free blocks lie in a row, perhaps with one more below. */
  ghost predicate ProcessInRow(live: Runs, live': Runs, p: Proc, n: int) {
    && (forall c, d :: Low(live, c, d) && c + n + 1038 <= d ==>
          Low(live', c + n + 1038, d) && SameAbove(live, live', d) && PlacedAt(p, c, c + 3, c + 4, n))
    && (forall h, c, d :: Gap(live, h, c, d) && c + n + 1037 <= d ==>
          Low(live', c + n + 1037, d) && SameAbove(live, live', d) && PlacedAt(p, c, h, c + 3, n))
  }

  /** The process with a file of `n` blocks: its record from block `r` on, its file record at block `e`, and the
      rest in one row behind the three blocks of its path from block `c` on. */
  ghost predicate PlacedAt(p: Proc, r: int, e: int, c: int, n: int) {
    && p.parts.record == BlockAddr(r) && p.parts.elf == BlockAddr(e) && RestAt(p.parts, c, n)
    && p.sh.dir == BlockAddr(c + n + 8) && p.sh.chunk == BlockAddr(c + n + 1033)
    && forall i :: 0 <= i < 1024 ==> p.sh.tables[i] == BlockAddr(c + n + 9 + i)
  }

  lemma WholeRow(live: Runs, live1: Runs, live2: Runs, p: Proc, n: int)
    requires PartsInRow(live, live1, p.parts, n) && InRow(live1, live2, Row(p.sh))
    ensures ProcessInRow(live, live2, p, n)
  {
    hide Low, Gap, BlockAddr, Row, PlacedAt, InRow, SameAbove, RestAt;
    var ps := Row(p.sh);
    forall c, d | Low(live, c, d) && c + n + 1038 <= d
      ensures Low(live2, c + n + 1038, d) && SameAbove(live, live2, d) && PlacedAt(p, c, c + 3, c + 4, n)
    {
      RowAfter(live1, live2, ps, c + n + 12, d);
      AboveTwice(live, live1, live2, d);
      RowPlaced(p, c, c + 3, c + 4, n, ps);
    }
    forall h, c, d | Gap(live, h, c, d) && c + n + 1037 <= d
      ensures Low(live2, c + n + 1037, d) && SameAbove(live, live2, d) && PlacedAt(p, c, h, c + 3, n)
    {
      RowAfter(live1, live2, ps, c + n + 11, d);
      AboveTwice(live, live1, live2, d);
      RowPlaced(p, c, h, c + 3, n, ps);
    }
  }

  lemma RowAfter(live: Runs, live': Runs, ps: seq<Word>, c: int, d: int)
    requires InRow(live, live', ps) && Low(live, c, d) && c + |ps| <= d
    ensures Low(live', c + |ps|, d) && SameAbove(live, live', d)
    ensures forall i :: 0 <= i < |ps| ==> ps[i] == BlockAddr(c + i)
  {
    hide Low, BlockAddr, SameAbove;
  }

  lemma RowPlaced(p: Proc, r: int, e: int, c: int, n: int, ps: seq<Word>)
    requires p.parts.record == BlockAddr(r) && p.parts.elf == BlockAddr(e) && RestAt(p.parts, c, n)
    requires ps == Row(p.sh) && forall i :: 0 <= i < 1026 ==> ps[i] == BlockAddr(c + n + 8 + i)
    ensures PlacedAt(p, r, e, c, n)
  {
    hide Row, BlockAddr, RestAt;
    RowAt(p.sh, 0);
    assert ps[0] == BlockAddr(c + n + 8 + 0) && ps[1025] == BlockAddr(c + n + 8 + 1025);
    forall i | 0 <= i < 1024 ensures p.sh.tables[i] == BlockAddr(c + n + 9 + i) {
      RowAt(p.sh, i);
      assert ps[1 + i] == BlockAddr(c + n + 8 + (1 + i));
    }
  }

  lemma NewFree(live: Runs, live1: Runs, t: Frame)
    requires WellFormed(live1) && (forall b :: b in live ==> b in live1 && live1[b] == live[b])
    requires OneBlock(live1, t) && BlockIndex(t) !in live
    ensures FreePage(live, t) && t != 0
  {
    OneBlockInPool(live1, t);
    forall c ensures !Covers(live, c, BlockIndex(t)) {
      assert c in live ==> c in live1 && live1[c] == live[c] && c != BlockIndex(t);
    }
  }

  lemma LoadExtends(m: Mem, live: Runs, m1: Mem, live1: Runs, m2: Mem, live2: Runs, t: Frame, x: Word)
    requires WellFormed(live1) && Extends(m, live, m1, live1) && OneBlock(live1, t) && BlockIndex(t) !in live
    requires KeptBesides(m1, live1, m2, t, x) && SameBacks(m1, live1, m2, t)
    requires forall b :: b in live ==> b in live2 && live2[b] == live[b]
    ensures ExtendsBut(m, live, m2, live2, x)
    ensures WellFormed(live) ==> forall u: Frame :: OneBlock(live, u) ==> PrevOf(m2, u) == PrevOf(m, u)
  {
    hide PrevOf, BlockIndex;
    NewFree(live, live1, t);
    forall u: Frame | !HeapPage(u) && !FreePage(live, u) && (u != x || x == 0) ensures SamePage(m, m2, u) {
      assert SamePage(m, m1, u);
      if 0x1000 <= u / 4096 < 0x7400 {
        var b :| Covers(live, b, u / 4096 - 0x1000);
        assert Covers(live1, b, u / 4096 - 0x1000);
      }
      assert SamePage(m1, m2, u);
    }
    if WellFormed(live) {
      forall u: Frame | OneBlock(live, u) ensures PrevOf(m2, u) == PrevOf(m, u) {
        BlockInUse(live, u);
        SameLinks(m, m1, u);
        assert OneBlock(live1, u);
      }
    }
  }

  lemma ListExtends(m: Mem, live: Runs, m1: Mem, live1: Runs, q: Queue, ts: seq<Frame>, t: Frame)
    requires WellFormed(live) && Extends(m, live, m1, live1) && ListOk(m, q, ts) && Tasks(live, ts)
    requires BlockIndex(t) !in live
    ensures ListOk(m1, q, ts) && Tasks(live1, ts) && t !in ts
  {
    hide PrevOf, NextOf, BlockIndex, ListOk;
    forall u | u in ts ensures SamePage(m, m1, u) && OneBlock(live1, u) && u != t {
      assert OneBlock(live, u);
      BlockInUse(live, u);
    }
    SameForward(m, m1, q, ts);
  }

  lemma GrownRuns(live: Runs, live1: Runs, live2: Runs, p: Proc, X: set<int>)
    requires Grown(live1, live2, Foot(p.sh)) && p.slots == seq(1024, _ => Slot(0, 0))
    requires (forall b :: b in live ==> b in live1 && live1[b] == live[b])
    requires (forall b :: b in PartRuns(p.parts) ==> b !in live)
    requires forall b :: b in live1 ==> b in live || b in PartRuns(p.parts) || b in X
    requires forall b :: b in X ==> b in live1 && b !in PartRuns(p.parts)
    ensures forall b :: b in OwnRuns(p) ==> b !in live
    ensures forall b :: b in live2 ==> b in live || b in OwnRuns(p) || b in X
    ensures forall b :: b in X ==> b in live2 && live2[b] == live1[b] && b !in OwnRuns(p)
    ensures forall b :: b in live ==> b in live2 && live2[b] == live[b]
  {
    assert live2 - BlocksOf(Foot(p.sh)) == live1;
    assert SlotRuns(p.slots) == {};
  }

  /** `process_load_for_slot` from the file's bytes and its segments on. */
  method Load(k: Machine, s: Scheduler, file: seq<Byte>, segs: seq<Segment>)
    returns (r: int, p: Process?, ghost image: Word, ghost path: seq<Word>)
    requires k.Valid() && s.Valid(k.ram[..]) && Tasks(k.live, s.order) && 0 < |file| <= 0x0640_0000
    requires Room(k.live, Blocks(|file|) + 15) && |FreeSet(k.live)| >= Blocks(|file|) + 1038
    modifies k, k.ram, s
    ensures k.Valid() && s.Valid(k.ram[..])
    ensures ExtendsBut(old(k.ram[..]), old(k.live), k.ram[..], k.live, old(s.View()).tail)
    ensures forall t: Frame :: OneBlock(old(k.live), t) ==> PrevOf(k.ram[..], t) == old(PrevOf(k.ram[..], t))
    ensures (r == 0 <==> p != null) && (p != null ==> p.parts.image == image) && image % 4096 == 0
    ensures r == 0 || (r == -2 && exists i :: 0 <= i < |segs| && Rejected(image, segs[i]))
    ensures p == null ==> s.order == old(s.order) && s.View() == old(s.View())
    ensures p != null ==> s.order == old(s.order) + [p.parts.task] && s.View() == Joined(old(s.View()), p.parts.task)
    ensures p != null ==> PrevOf(k.ram[..], p.parts.task) == old(s.View()).tail
    ensures p != null ==> |FreeSet(k.live)| == |FreeSet(old(k.live))| - Blocks(|file|) - 1038
    ensures p != null ==> fresh(p) && fresh(p.allocations) && p.allocations[..] == seq(1024, _ => Slot(0, 0))
    ensures p != null ==> forall b :: b in OwnRuns(p.View()) ==> b !in old(k.live)
    ensures |path| == 3 && forall b :: b in Starts(path) ==> b !in old(k.live)
    ensures p != null ==> forall b :: b in Starts(path) ==> b in k.live && k.live[b] == 1 && b !in OwnRuns(p.View())
    ensures p != null ==> forall b :: b in k.live ==> b in old(k.live) || b in OwnRuns(p.View()) || b in Starts(path)
    ensures p != null ==>
      ProcessInRow(old(k.live), k.live, p.View(), Blocks(|file|)) && PartsIn(k.live, p.parts, Blocks(|file|))
    ensures p != null ==> forall i :: 0 <= i < |segs| ==> !Rejected(p.parts.image, segs[i])
    ensures p != null ==>
      forall v: Page :: Pte(k.ram[..], p.sh, v) == LoadedEntry(p.parts.image, p.parts.stack, segs, v)
    ensures p != null ==> forall v: Page :: 0x3FF000 - 16384 <= 4096 * v < 0x3FF000 ==>
      Pte(k.ram[..], p.sh, v) == p.parts.stack + (4096 * v - 0x3FB000) + 7
    ensures p != null ==> forall a: Word :: 0x3FF000 - 16384 <= a < 0x3FF000 ==>
      UserWritable(k.ram[..], p.sh, a / 4096) && Physical(k.ram[..], p.sh, a) == p.parts.stack + (a - 0x3FB000)
    ensures p != null ==> forall v: Page ::
      !(0x3FF000 - 16384 <= 4096 * v < 0x3FF000) &&
      (forall i :: 0 <= i < |segs| ==> !OnPage(p.parts.image, segs[i], v)) ==>
      Pte(k.ram[..], p.sh, v) == 4096 * v + 5
    ensures 0x0100_0000 <= image && image + 4096 * Blocks(|file|) <= 0x0740_0000 && |file| <= 4096 * Blocks(|file|)
    ensures p != null ==> k.ram[..][p.parts.image..p.parts.image + |file|] == file
    ensures p != null ==> |p.low| == 0x1000
    ensures p != null ==> forall v :: 0 <= v < 0x1000 ==> p.low[v] == LoadedEntry(p.parts.image, p.parts.stack, segs, v)
    ensures p != null && GoodSegments(p.parts.image, Blocks(|file|), segs) ==> p.Consistent(k)
  {
    hide WordAt, BlockIndex, BlockAddr, Pte, PhysStart, PhysEnd, Loaded, Owned, Grown, WellFormed, Distinct,
      Extends, ExtendsBut, FreeSet, Room, ListOk, NextOf, PrevOf, InRow, PartsInRow, KeptBesides, SameBacks,
      PartRuns, OneBlock, LoadedEntry, Rejected, OwnRuns, ProcessInRow, Encodes, PartsIn, Tasks, GoodSegments,
      Wired, Joined, Starts, RestInRow;
    ghost var m, live, n := k.ram[..], k.live, Blocks(|file|);
    p := null;
    EncodesWell(m, live);
    var q;
    q, path := BuildParts(k, file);
    image := q.image;
    ghost var m1, live1 := k.ram[..], k.live;
    EncodesWell(m1, live1);
    PartFacts(live, live1, q, n);
    ListExtends(m, live, m1, live1, s.View(), s.order, q.task);
    var chunk;
    ghost var sh;
    r, chunk, sh := MapProcess(k, s, q, segs);
    ghost var m2, live2 := k.ram[..], k.live;
    if r < 0 {
      DroppedRuns(m, live, m1, live1, live2, q.task);
      LoadExtends(m, live, m1, live1, m2, live2, q.task, old(s.View()).tail);
      return;
    }
    ghost var low := seq(0x1000, v requires 0 <= v < 0x1000 => Pte(m2, sh, v));
    p := new Process(chunk, sh, q, low);
    ExtendsRuns(m, live, m1, live1);
    GrownRuns(live, live1, live2, p.View(), Starts(path));
    LoadExtends(m, live, m1, live1, m2, live2, q.task, old(s.View()).tail);
    WholeRow(live, live1, live2, p.View(), n);
    PartsKept(live1, live2, p.View(), n);
    ImageKept(live1, q, n, m1, m2, old(s.View()).tail, file) by {
      TailApart(m, live, m1, live1, old(s.View()), old(s.order), q);
    }
    if GoodSegments(image, n, segs) {
      EncodesWell(m2, live2);
      NewAgrees(m2, live2, live1, p.View(), n, segs);
    }
  }

  lemma ExtendsRuns(m: Mem, live: Runs, m1: Mem, live1: Runs)
    requires Extends(m, live, m1, live1)
    ensures forall b :: b in live ==> b in live1 && live1[b] == live[b]
  {
  }

  lemma PartsKept(live: Runs, live': Runs, p: Proc, n: int)
    requires Grown(live, live', Foot(p.sh)) && PartsIn(live, p.parts, n)
    ensures PartsIn(live', p.parts, n)
  {
    hide BlockIndex;
    assert live' - BlocksOf(Foot(p.sh)) == live;
  }

  lemma PartFacts(live: Runs, live1: Runs, q: Holdings, n: int)
    requires PartsIn(live1, q, n) && forall b :: b in PartRuns(q) ==> b !in live
    ensures OneBlock(live1, q.task) && BlockIndex(q.task) !in live
  {
    assert BlockIndex(q.task) in PartRuns(q);
  }

  lemma TailApart(m: Mem, live: Runs, m1: Mem, live1: Runs, v: Queue, ts: seq<Frame>, q: Holdings)
    requires ListOk(m, v, ts) && Tasks(live, ts) && Extends(m, live, m1, live1) && forall b :: b in PartRuns(q) ==>
      b !in live
    ensures v.tail != 0 ==> v.tail % 4096 == 0 && OneBlock(live1, v.tail) && BlockIndex(v.tail) !in PartRuns(q)
  {
    hide ListOk, BlockIndex, PartRuns;
    TailInUse(m, live, v, ts);
  }

  lemma DroppedRuns(m: Mem, live: Runs, m1: Mem, live1: Runs, live2: Runs, t: Frame)
    requires Extends(m, live, m1, live1) && BlockIndex(t) !in live && live2 == live1 - {BlockIndex(t)}
    ensures forall b :: b in live ==> b in live2 && live2[b] == live[b]
  {
    hide BlockIndex;
  }

  /** The file's bytes are still in place after the address space was built. */
  lemma ImageKept(live: Runs, q: Holdings, n: int, m: Mem, m': Mem, x: Word, file: seq<Byte>)
    requires WellFormed(live) && PartsIn(live, q, n) && |file| <= 4096 * n && q.image + |file| <= 0x0740_0000
    requires KeptBesides(m, live, m', q.task, x) && m[q.image..q.image + |file|] == file
    requires x != 0 ==> x % 4096 == 0 && OneBlock(live, x) && BlockIndex(x) !in PartRuns(q)
    ensures m'[q.image..q.image + |file|] == file
  {
    hide BlockIndex;
    var b := BlockIndex(q.image);
    forall a | q.image <= a < q.image + |file| ensures m'[a] == m[a] {
      PageInRun(b, n, a);
      var t: Frame := Untag(a);
      var i := t / 4096 - 0x1000;
      assert Covers(live, b, i);
      assert !FreePage(live, t) && !HeapPage(t);
      NotThere(live, b, i, q.task, t);
      if x != 0 { NotThere(live, b, i, x, t); }
      assert SamePage(m, m', t);
    }
  }

  lemma NotThere(live: Runs, b: int, i: int, x: Word, t: Frame)
    requires WellFormed(live) && Covers(live, b, i) && i == t / 4096 - 0x1000 && OneBlock(live, x) && BlockIndex(x) != b
    ensures t != x
  {
    assert t == x ==> BlockIndex(x) == i && Covers(live, BlockIndex(x), BlockIndex(x));
  }

  lemma RunUntouched(m: Mem, live: Runs, m': Mem, live': Runs, p: Word, size: Word)
    requires WellFormed(live) && Extends(m, live, m', live') && Start(live, p) && size <= 4096 * live[BlockIndex(p)]
    ensures p + size <= 0x0740_0000 && Start(live', p) && live'[BlockIndex(p)] == live[BlockIndex(p)]
    ensures m'[p..p + size] == m[p..p + size]
  {
    hide BlockIndex;
    var b := BlockIndex(p);
    forall a | p <= a < p + size ensures m'[a] == m[a] {
      PageInRun(b, live[b], a);
      assert Covers(live, b, Untag(a) / 4096 - 0x1000);
      assert !FreePage(live, Untag(a)) && !HeapPage(Untag(a));
      assert SamePage(m, m', Untag(a));
    }
  }

  lemma RunInPool(live: Runs, p: Word, n: int)
    requires WellFormed(live) && Start(live, p) && live[BlockIndex(p)] == n
    ensures 0x0100_0000 <= p && p + 4096 * n <= 0x0740_0000
  {
    assert p == 4096 * (0x1000 + BlockIndex(p));
  }

  lemma RoomLess(live: Runs, n: int, k: int)
    requires n >= 1 && k >= 0 && Room(live, n + k)
    ensures Room(live, n)
  {
    var s :| Fits(live, s, n + k);
    assert Fits(live, s, n);
  }

  // ---- which pages a loaded process may write ------------------------------

  /** The writable pages are exactly the four stack pages, the pages of PF_W segments and the live allocations. */
  lemma WritablePages(m: Mem, live: Runs, p: Proc, n: int, segs: seq<Segment>, v: Page)
    requires Agree(m, live, p) && p.parts.image % 4096 == 0
    requires forall u :: 0 <= u < 0x1000 ==> p.low[u] == LoadedEntry(p.parts.image, p.parts.stack, segs, u)
    requires PageDisjoint(p.parts.image, segs) && GoodSegments(p.parts.image, n, segs)
    requires forall i :: 0 <= i < |segs| ==> !Rejected(p.parts.image, segs[i])
    ensures UserWritable(m, p.sh, v) <==>
      || 0x3FF000 - 16384 <= 4096 * v < 0x3FF000
      || (exists i :: 0 <= i < |segs| && segs[i].flags / 2 % 2 == 1 && OnPage(p.parts.image, segs[i], v))
      || exists i :: 0 <= i < |p.slots| && p.slots[i].ptr != 0 &&
           p.slots[i].ptr <= 4096 * v < p.slots[i].ptr + p.slots[i].size
  {
    hide WordAt, Pte, BlockIndex, PhysStart, PhysEnd, FirstPage, PageFlags, Loaded, PageCount, Above;
    SlotPages(live, p.slots, v);
    assert v < 0x1000 ==> !InSlots(live, p.slots, v);
    forall i | 0 <= i < |segs| && OnPage(p.parts.image, segs[i], v) ensures v < 0x1000 {
      SegmentEntry(p.parts.image, n, segs[i], v);
    }
    if v < 0x1000 {
      assert Pte(m, p.sh, v) == LoadedEntry(p.parts.image, p.parts.stack, segs, v);
      if StackPage(v) {
        StackEntry(live, p, v);
      } else {
        LoadedWritable(p.parts.image, segs, v, 4096 * v + 5) by { ModEight(v, 5); }
      }
    }
  }

  /** A loaded program finds the bytes of its file: those of a segment at or above the program base, whose address and
      file offset agree modulo the page size and whose pages no later segment takes, lie where the header says. */
  lemma SegmentBytes(m: Mem, sh: Space, image: Word, stack: Word, file: seq<Byte>, segs: seq<Segment>, i: int)
    requires image % 4096 == 0 && image + |file| <= 0x0740_0000 && m[image..image + |file|] == file
    requires forall v: Page :: Pte(m, sh, v) == LoadedEntry(image, stack, segs, v)
    requires 0 <= i < |segs| && forall j, v: Page :: i < j < |segs| && OnPage(image, segs[i], v) ==>
      !OnPage(image, segs[j], v)
    requires 0x40_0000 <= segs[i].vaddr && segs[i].vaddr + segs[i].memsz <= 0x1_0000_0000
    requires 0 <= segs[i].offset && segs[i].offset + segs[i].memsz <= |file|
    requires segs[i].vaddr % 4096 == segs[i].offset % 4096
    ensures forall a: Word :: segs[i].vaddr <= a < segs[i].vaddr + segs[i].memsz ==>
      && m[Physical(m, sh, a)] == file[segs[i].offset + (a - segs[i].vaddr)]
      && Pte(m, sh, a / 4096) % 4096 == if segs[i].flags / 2 % 2 == 1 then 7 else 5
  {
    hide WordAt, Pte, Loaded, Physical, OnPage;
    var s := segs[i];
    forall a: Word | s.vaddr <= a < s.vaddr + s.memsz
      ensures m[Physical(m, sh, a)] == file[s.offset + (a - s.vaddr)]
      ensures Pte(m, sh, a / 4096) % 4096 == if s.flags / 2 % 2 == 1 then 7 else 5
    {
      var v: Page := a / 4096;
      assert v >= 0x400;
      LowBits(4096 * v, 5);
      SegmentByte(image, segs, i, a, 4096 * v + 5);
      PhysicalIs(m, sh, a, Loaded(image, segs, v, 4096 * v + 5));
      assert m[image..image + |file|][s.offset + (a - s.vaddr)] == m[image + (s.offset + (a - s.vaddr))];
    }
  }

  /** A page of a recorded allocation is one that starts in its bytes. */
  lemma SlotPages(live: Runs, slots: seq<Slot>, v: Page)
    requires WellFormed(live) && RecordsAgree(live, slots)
    ensures InSlots(live, slots, v) <==>
      exists i :: 0 <= i < |slots| && slots[i].ptr != 0 && slots[i].ptr <= 4096 * v < slots[i].ptr + slots[i].size
  {
    hide BlockIndex, Blocks;
    forall i | 0 <= i < |slots|
      ensures SlotCovers(live, slots[i], v) <==>
        slots[i].ptr != 0 && slots[i].ptr <= 4096 * v < slots[i].ptr + slots[i].size
    {
      if slots[i].ptr != 0 { SlotPage(live, slots[i], v); }
    }
  }

  lemma SlotPage(live: Runs, s: Slot, v: Page)
    requires WellFormed(live) && s.ptr != 0 && Start(live, s.ptr) && live[BlockIndex(s.ptr)] == Blocks(s.size)
    ensures SlotCovers(live, s, v) <==> s.ptr <= 4096 * v < s.ptr + s.size
  {
    hide BlockIndex, Blocks;
    var b := BlockIndex(s.ptr);
    SizeInBlocks(s.size);
    assert s.ptr == 4096 * (0x1000 + b);
  }

  lemma StackEntry(live: Runs, p: Proc, v: Page)
    requires Start(live, p.parts.stack)
    ensures (p.parts.stack + 4096 * (v - 0x3FB) + 7) % 8 == 7
  {
    hide BlockIndex;
    BlockAligned(BlockIndex(p.parts.stack));
    ModEight(p.parts.stack as int / 4096 + (v - 0x3FB), 7);
  }

  lemma LoadedWritable(image: Word, segs: seq<Segment>, v: Page, e: Word)
    requires PageDisjoint(image, segs) && e % 8 == 5
    ensures Loaded(image, segs, v, e) % 8 == 7 <==>
      exists i :: 0 <= i < |segs| && segs[i].flags / 2 % 2 == 1 && OnPage(image, segs[i], v)
  {
    hide PhysStart, PhysEnd, FirstPage, PageFlags, PageCount, OnPage, Above, Loaded;
    if i :| 0 <= i < |segs| && OnPage(image, segs[i], v) {
      assert forall j :: i < j < |segs| ==> !OnPage(image, segs[j], v);
      LoadedOne(image, segs, i, v, e);
      PageFlagsValue(segs[i]);
      EntryEight(PhysStart(image, segs[i]), Above(FirstPage(segs[i]), v), PageFlags(segs[i]));
      forall j | 0 <= j < |segs| && OnPage(image, segs[j], v) ensures j == i {}
    } else {
      LoadedNone(image, segs, v, e);
    }
  }

  lemma EntryEight(start: Frame, k: int, f: Word)
    requires f < 8
    ensures (start + 4096 * k + f) % 8 == f
  {
    ModEight(start as int / 4096 + k, f);
  }
}
