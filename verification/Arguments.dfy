/** process.c: handing a command line to a process as argc and argv. */
module Arguments {
  import opened Ram
  import opened HeapTable
  import opened PageTables
  import opened Paging
  import opened Kheap
  import opened ProcessMemory
  import opened ProcessCode
  import opened TaskMemory
  import opened LoadProcess
  import opened Protection

  /** The linked list of argument records at `root`: 512 bytes of text, then the address of the next. */
  predicate ArgList(m: Mem, root: Word, nodes: seq<Word>) {
    && root == (if nodes == [] then 0 else nodes[0])
    && (forall i :: 0 <= i < |nodes| ==> nodes[i] != 0 && nodes[i] as int + 516 <= 0x1_0000_0000)
    && (forall i :: 0 <= i < |nodes| ==> WordAt(m, nodes[i] + 512) == if i + 1 < |nodes| then nodes[i + 1] else 0)
  }

  /** The text of a record, cut to 511 characters. */
  ghost function Text(m: Mem, node: Word): seq<Byte>
    requires node + 516 <= 0x1_0000_0000
  {
    CString(m[node..node + 511])
  }

  /** Pages that overlap `lo..hi` hold neither heap bookkeeping, nor tables of `sh`, nor free memory. */
  ghost predicate Safe(live: Runs, sh: Space, lo: int, hi: int) {
    forall t: Frame :: lo < t + 4096 && t < hi ==> !HeapPage(t) && t !in sh.tables && !FreePage(live, t)
  }

  lemma SafeKept(m: Mem, live: Runs, m': Mem, sh: Space, lo: int, hi: int)
    requires KeptLive(m, live, m', sh) && Safe(live, sh, lo, hi)
    ensures Same(m, m', lo, hi)
  {
    forall a | 0 <= a < 0x1_0000_0000 && lo <= a < hi ensures m'[a] == m[a] {
      assert SamePage(m, m', Untag(a));
    }
  }

  /** Recorded allocations are safe: no other allocation can reach them. */
  lemma SlotSafe(m: Mem, live: Runs, p: Proc, a: Word)
    requires Agree(m, live, p) && Start(live, a) && BlockIndex(a) in SlotRuns(p.slots)
    ensures Safe(live, p.sh, a, a + 4096 * live[BlockIndex(a)])
    ensures 0x0100_0000 <= a && a % 4096 == 0 && a + 4096 * live[BlockIndex(a)] <= 0x0740_0000
  {
    hide WordAt, Pte, PagesAgree, LowConfined;
    var b := BlockIndex(a);
    BlockAligned(b);
    assert a == 4096 * (0x1000 + b);
    forall t: Frame | a < t + 4096 && t < a + 4096 * live[b]
      ensures !HeapPage(t) && t !in p.sh.tables && !FreePage(live, t)
    {
      assert Covers(live, b, t / 4096 - 0x1000);
      assert Taken(live, t / 4096 - 0x1000);
      if t in p.sh.tables {
        FootInPool(live, p.sh, t);
      }
    }
  }

  /** A write inside a recorded allocation disturbs nothing but that allocation. */
  lemma OwnWrite(m: Mem, live: Runs, p: Proc, m': Mem, a: Word)
    requires Encodes(m, live) && Agree(m, live, p) && Start(live, a) && BlockIndex(a) in SlotRuns(p.slots)
    requires forall x: Word :: !(a <= x < a + 4096 * live[BlockIndex(a)]) ==> m'[x] == m[x]
    ensures Encodes(m', live) && Agree(m', live, p) && Stays(m, live, p, m', live, p)
  {
    hide WordAt, Pte, PagesAgree, LowConfined, BlockIndex;
    SlotSafe(m, live, p, a);
    SameEncodes(m, m', live);
    assert BlockIndex(p.parts.task) in FixedRuns(p);
    OwnWriteStays(m, live, p, m', a);
    forall t: Frame | InFoot(p.sh, t) ensures SamePage(m, m', t) {
      NotInSlot(m, live, p, a, t);
    }
    AgreeKept(m, live, m', live, p);
  }

  lemma OtherRun(live: Runs, b: int, c: int, i: int)
    requires WellFormed(live) && b in live && Covers(live, c, i) && b != c
    ensures !(b <= i < b + live[b])
  {
  }

  lemma OwnWriteStays(m: Mem, live: Runs, p: Proc, m': Mem, a: Word)
    requires WellFormed(live) && Start(live, a) && BlockIndex(a) in SlotRuns(p.slots)
    requires OneBlock(live, p.parts.task) && BlockIndex(p.parts.task) !in SlotRuns(p.slots)
    requires forall x: Word :: !(a <= x < a + 4096 * live[BlockIndex(a)]) ==> m'[x] == m[x]
    ensures Stays(m, live, p, m', live, p)
  {
    var b, c := BlockIndex(a), BlockIndex(p.parts.task);
    assert Covers(live, c, p.parts.task / 4096 - 0x1000);
    OtherRun(live, b, c, p.parts.task / 4096 - 0x1000);
    BlockAligned(b);
    assert a == 4096 * (0x1000 + b);
    forall t: Frame | !(b <= t / 4096 - 0x1000 < b + live[b])
      ensures SamePage(m, m', t)
    {
      assert t == 4096 * (t / 4096);
    }
    forall c, t: Frame | c !in OwnRuns(p) && Covers(live, c, t / 4096 - 0x1000) ensures SamePage(m, m', t) {
      OtherRun(live, b, c, t / 4096 - 0x1000);
    }
  }

  lemma NotInSlot(m: Mem, live: Runs, p: Proc, a: Word, t: Frame)
    requires Agree(m, live, p) && Start(live, a) && BlockIndex(a) in SlotRuns(p.slots) && InFoot(p.sh, t)
    ensures t + 4096 <= a || a + 4096 * live[BlockIndex(a)] <= t
  {
    hide WordAt, Pte, PagesAgree, LowConfined;
    FootInPool(live, p.sh, t);
    SlotSafe(m, live, p, a);
    var b, c := BlockIndex(a), BlockIndex(t);
    assert c in FixedRuns(p) && b != c;
    assert b < c ==> b + live[b] <= c;
    assert a == 4096 * (0x1000 + b) && t == 4096 * (0x1000 + c);
  }

  lemma SlotsApart(m: Mem, live: Runs, p: Proc, a: Word, c: Word)
    requires Agree(m, live, p) && Start(live, a) && Start(live, c) && a != c
    ensures a + 4096 * live[BlockIndex(a)] <= c || c + 4096 * live[BlockIndex(c)] <= a
  {
    hide WordAt, Pte, PagesAgree, LowConfined;
    var x, y := BlockIndex(a), BlockIndex(c);
    assert x < y ==> x + live[x] <= y;
    assert a == 4096 * (0x1000 + x) && c == 4096 * (0x1000 + y);
  }

  ghost predicate Slotted(live: Runs, p: Proc, a: Word) {
    Start(live, a) && BlockIndex(a) in SlotRuns(p.slots)
  }

  /** So far `ptrs` were allocated, filled with `texts` and entered in the vector at `argv`. */
  ghost predicate Vector(m: Mem, live: Runs, p: Proc, argv: Word, argc: int, ptrs: seq<Word>, texts: seq<seq<Byte>>) {
    && |ptrs| == |texts| <= argc && Slotted(live, p, argv) && 4 * argc <= 4096 * live[BlockIndex(argv)]
    && (forall j :: 0 <= j < |ptrs| ==> Slotted(live, p, ptrs[j]) && ptrs[j] != argv)
    && (forall j :: 0 <= j < |ptrs| ==> |texts[j]| <= 511 && Delivered(m, ptrs[j], texts[j]))
    && (forall j :: 0 <= j < |ptrs| ==> argv + 4 * j <= 0xFFFF_FFFC && WordAt(m, argv + 4 * j) == ptrs[j])
    && (forall i, j :: 0 <= i < j < |ptrs| ==> ptrs[i] != ptrs[j])
  }

  lemma SameDelivered(m: Mem, m': Mem, a: Word, t: seq<Byte>)
    requires Delivered(m, a, t) && Same(m, m', a, a + |t| + 1)
    ensures Delivered(m', a, t)
  {
    assert m'[a..a + |t|] == m[a..a + |t|];
  }

  /** The vector survives whatever keeps the recorded runs and their bytes. */
  lemma VectorKept(m: Mem, live: Runs, p: Proc, m': Mem, live': Runs, p': Proc, argv: Word, argc: int, ptrs: seq<Word>,
      texts: seq<seq<Byte>>)
    requires Vector(m, live, p, argv, argc, ptrs, texts) && Agree(m, live, p)
    requires RunsKept(live, live', live.Keys) && SlotRuns(p.slots) <= SlotRuns(p'.slots) && p'.sh == p.sh
    requires KeptLive(m, live, m', p.sh)
    ensures Vector(m', live', p', argv, argc, ptrs, texts)
  {
    hide WordAt, Pte, BlockIndex, Agree, CString, Delivered;
    SlotSafe(m, live, p, argv);
    SafeKept(m, live, m', p.sh, argv, argv + 4096 * live[BlockIndex(argv)]);
    forall j | 0 <= j < |ptrs|
      ensures Delivered(m', ptrs[j], texts[j]) && WordAt(m', argv + 4 * j) == WordAt(m, argv + 4 * j)
    {
      OneBlockOrMore(m, live, p, ptrs[j]);
      SafeKept(m, live, m', p.sh, ptrs[j], ptrs[j] + 4096 * live[BlockIndex(ptrs[j])]);
      SameDelivered(m, m', ptrs[j], texts[j]);
      SameWord(m, m', argv + 4 * j);
    }
  }

  lemma OneBlockOrMore(m: Mem, live: Runs, p: Proc, a: Word)
    requires Agree(m, live, p) && Slotted(live, p, a)
    ensures live[BlockIndex(a)] >= 1 && Safe(live, p.sh, a, a + 4096 * live[BlockIndex(a)])
    ensures 0x0100_0000 <= a && a + 4096 * live[BlockIndex(a)] <= 0x0740_0000
  {
    SlotSafe(m, live, p, a);
  }

  /** One more argument: its text written, then its address entered. */
  lemma VectorNext(m: Mem, live: Runs, p: Proc, m1: Mem, m2: Mem, argv: Word, argc: int, ptrs: seq<Word>,
      texts: seq<seq<Byte>>, a: Word, t: seq<Byte>)
    requires Agree(m, live, p) && Vector(m, live, p, argv, argc, ptrs, texts) && |ptrs| < argc
    requires Slotted(live, p, a) && a != argv && a !in ptrs && |t| <= 511
    requires Written(m, m1, a, t) && argv + 4 * |ptrs| <= 0xFFFF_FFFC && m2 == SetWord(m1, argv + 4 * |ptrs|, a)
    ensures Vector(m2, live, p, argv, argc, ptrs + [a], texts + [t])
  {
    hide WordAt, SetWord, Pte, BlockIndex, Agree, CString;
    OneBlockOrMore(m, live, p, a);
    OneBlockOrMore(m, live, p, argv);
    SlotsApart(m, live, p, a, argv);
    assert m1[a..a + |t|] == t;
    assert Delivered(m1, a, t);
    SameDelivered(m1, m2, a, t);
    var ptrs', texts' := ptrs + [a], texts + [t];
    forall j | 0 <= j < |ptrs'| ensures Delivered(m2, ptrs'[j], texts'[j]) {
      if j < |ptrs| {
        OneBlockOrMore(m, live, p, ptrs[j]);
        SlotsApart(m, live, p, ptrs[j], argv);
        SlotsApart(m, live, p, ptrs[j], a);
        SameDelivered(m, m1, ptrs[j], texts[j]);
        SameDelivered(m1, m2, ptrs[j], texts[j]);
      }
    }
    forall j | 0 <= j < |ptrs'| ensures argv + 4 * j <= 0xFFFF_FFFC && WordAt(m2, argv + 4 * j) == ptrs'[j] {
      if j < |ptrs| {
        SameWord(m, m1, argv + 4 * j);
        SameWord(m1, m2, argv + 4 * j);
      }
    }
  }

  // ---- enough of everything -----------------------------------------------

  ghost function EmptySlots(slots: seq<Slot>): set<int> {
    set i | 0 <= i < |slots| && slots[i].ptr == 0
  }

  lemma SlotUsed(s: seq<Slot>, s': seq<Slot>, a: Slot)
    requires Recorded(s, s', a) && a.ptr != 0
    ensures |EmptySlots(s')| == |EmptySlots(s)| - 1
    ensures SlotRuns(s') == SlotRuns(s) + {BlockIndex(a.ptr)}
  {
    var i :| 0 <= i < |s| && s[i].ptr == 0 && (forall j :: 0 <= j < i ==> s[j].ptr != 0) && s' == s[i := a];
    SlotRunsSet(s, i, a);
    assert EmptySlots(s') == EmptySlots(s) - {i};
  }

  lemma NoneEmpty(slots: seq<Slot>)
    ensures (forall j :: 0 <= j < |slots| ==> slots[j].ptr != 0) ==> |EmptySlots(slots)| == 0
  {
    if forall j :: 0 <= j < |slots| ==> slots[j].ptr != 0 { assert EmptySlots(slots) == {}; }
  }

  /** Slots and memory for a vector of `n` pointers and `n` strings. */
  ghost predicate Enough(m: Mem, live: Runs, slots: seq<Slot>, n: int) {
    && 0 <= 4 * n < 0x1_0000_0000
    && SomeFit(m, Blocks(4 * n)) && |FreeSet(live)| >= Blocks(4 * n) + n && |EmptySlots(slots)| >= n + 1
  }

  // ---- the code -----------------------------------------------------------

  method CountCommandArguments(ram: array<Byte>, root: Word, ghost nodes: seq<Word>) returns (count: int)
    requires ram.Length == 0x1_0000_0000 && ArgList(ram[..], root, nodes)
    ensures count == |nodes|
  {
    count := 0;
    var current := root;
    while current != 0
      invariant 0 <= count <= |nodes| && current == if count < |nodes| then nodes[count] else 0
      decreases |nodes| - count
    {
      current := LoadWord(ram, current + 512);
      count := count + 1;
    }
  }

  /** The list and its texts, seen again after steps that keep what is not free. */
  lemma ListKept(m: Mem, live: Runs, m': Mem, sh: Space, root: Word, nodes: seq<Word>)
    requires ArgList(m, root, nodes) && KeptLive(m, live, m', sh)
    requires forall i :: 0 <= i < |nodes| ==> Safe(live, sh, nodes[i], nodes[i] as int + 516)
    ensures ArgList(m', root, nodes)
    ensures forall i :: 0 <= i < |nodes| ==> Text(m', nodes[i]) == Text(m, nodes[i])
  {
    hide WordAt, CString;
    forall i | 0 <= i < |nodes|
      ensures WordAt(m', nodes[i] + 512) == WordAt(m, nodes[i] + 512) && Text(m', nodes[i]) == Text(m, nodes[i])
    {
      SafeKept(m, live, m', sh, nodes[i], nodes[i] as int + 516);
      SameWord(m, m', nodes[i] + 512);
      assert m'[nodes[i]..nodes[i] + 511] == m[nodes[i]..nodes[i] + 511];
    }
  }

  lemma KeptLiveTrans(m: Mem, live: Runs, m1: Mem, live1: Runs, m2: Mem, sh: Space)
    requires KeptLive(m, live, m1, sh) && KeptLive(m1, live1, m2, sh) && RunsKept(live, live1, live.Keys)
    ensures KeptLive(m, live, m2, sh)
  {
    forall t: Frame | !HeapPage(t) && t !in sh.tables && !FreePage(live, t) ensures SamePage(m, m2, t) {
      if 0x1000 <= t / 4096 < 0x7400 {
        var b :| Covers(live, b, t / 4096 - 0x1000);
        assert Covers(live1, b, t / 4096 - 0x1000);
      }
      assert SamePage(m, m1, t) && SamePage(m1, m2, t);
    }
  }

  /** Writes inside an allocation made since `live` count as writes to free memory. */
  lemma FreshWrite(m: Mem, live: Runs, m1: Mem, m2: Mem, sh: Space, a: Word, n: int)
    requires KeptLive(m, live, m1, sh) && a == BlockAddr(BlockIndex(a)) && Fits(live, BlockIndex(a), n)
    requires forall x: Word :: !(a <= x < a + 4096 * n) ==> m2[x] == m1[x]
    ensures KeptLive(m, live, m2, sh)
  {
    hide BlockIndex;
    forall t: Frame | !HeapPage(t) && t !in sh.tables && !FreePage(live, t) ensures SamePage(m, m2, t) {
      var i := t / 4096 - 0x1000;
      assert t == 4096 * (t / 4096) && a == 4096 * (0x1000 + BlockIndex(a));
      assert BlockIndex(a) <= i < BlockIndex(a) + n ==> !Taken(live, i);
      assert SamePage(m, m1, t);
    }
  }

  lemma ListFacts(m: Mem, root: Word, nodes: seq<Word>)
    requires ArgList(m, root, nodes)
    ensures root == if nodes == [] then 0 else nodes[0]
    ensures forall i :: 0 <= i < |nodes| ==> nodes[i] != 0 && nodes[i] as int + 516 <= 0x1_0000_0000
  {
  }

  /** What the loop has achieved after `|ptrs|` arguments, since memory `m` with runs `live`. */
  ghost predicate Progress(m: Mem, live: Runs, m1: Mem, live1: Runs, p: Proc, root: Word, nodes: seq<Word>, argv: Word,
      ptrs: seq<Word>)
  {
    && Encodes(m1, live1) && Agree(m1, live1, p)
    && RunsKept(live, live1, live.Keys) && KeptLive(m, live, m1, p.sh)
    && ArgList(m, root, nodes) && (forall i :: 0 <= i < |nodes| ==> Safe(live, p.sh, nodes[i], nodes[i] as int + 516))
    && |ptrs| <= |nodes| && 4 * |nodes| < 0x1_0000_0000
    && argv == BlockAddr(BlockIndex(argv)) && Fits(live, BlockIndex(argv), Blocks(4 * |nodes|))
    && BlockIndex(argv) in live1 && live1[BlockIndex(argv)] == Blocks(4 * |nodes|)
    && Vector(m1, live1, p, argv, |nodes|, ptrs, Texts(m, nodes, |ptrs|))
  }

  ghost function Texts(m: Mem, nodes: seq<Word>, n: int): seq<seq<Byte>>
    requires 0 <= n <= |nodes| && forall i :: 0 <= i < |nodes| ==> nodes[i] as int + 516 <= 0x1_0000_0000
  {
    seq(n, i requires 0 <= i < n => Text(m, nodes[i]))
  }

  lemma FreshApart(live: Runs, live1: Runs, sh: Space, a: Word, lo: int, hi: int)
    requires WellFormed(live) && RunsKept(live, live1, live.Keys) && Safe(live, sh, lo, hi)
    requires a == BlockAddr(BlockIndex(a)) && Fits(live1, BlockIndex(a), 1)
    ensures Fits(live, BlockIndex(a), 1) && (a + 4096 <= lo || hi <= a)
  {
    hide BlockIndex;
    var b := BlockIndex(a);
    forall i | b <= i < b + 1 ensures !Taken(live, i) {
      assert forall c :: Covers(live, c, i) ==> Covers(live1, c, i);
      assert !Taken(live1, i);
    }
    assert a == 4096 * (0x1000 + b);
    assert FreePage(live, a) by { assert !Taken(live, b); }
  }

  /** One trip of the loop: allocate, copy the text, enter the pointer. */
  method OneArgument(k: Machine, p: Process, ghost m: Mem, ghost live: Runs, root: Word, ghost nodes: seq<Word>,
      current: Word, argv: Word, i: int, ghost ptrs: seq<Word>)
    returns (a: Word)
    requires p.Consistent(k) && 0 <= i == |ptrs| < |nodes| && current == nodes[i] && WellFormed(live)
    requires Progress(m, live, k.ram[..], k.live, p.View(), root, nodes, argv, ptrs)
    modifies k, k.ram, p.allocations
    ensures p.Consistent(k) && Stays(old(k.ram[..]), old(k.live), old(p.View()), k.ram[..], k.live, p.View())
    ensures a != 0 ==> Progress(m, live, k.ram[..], k.live, p.View(), root, nodes, argv, ptrs + [a])
    ensures a != 0 ==> |EmptySlots(p.allocations[..])| == |EmptySlots(old(p.allocations[..]))| - 1
    ensures a != 0 ==> |FreeSet(k.live)| == |FreeSet(old(k.live))| - 1
    ensures a == 0 ==> |EmptySlots(old(p.allocations[..]))| == 0 || |FreeSet(old(k.live))| == 0
  {
    hide WordAt, SetWord, Pte, BlockIndex, BlockAddr, Agree, CString, Delivered, Vector, KeptLive, Confined,
      ArgList, Encodes, Fits, FreeSet, Safe, EmptySlots, WellFormed, Texts, Stays, SlotRuns;
    ghost var m1, live1, v1 := k.ram[..], k.live, p.View();
    assert Blocks(512) == 1;
    GuardOne(m1);
    if |FreeSet(k.live)| > 0 { FreeBlockFits(m1, k.live); }
    a := p.Malloc(k, 512);
    ghost var m2, live2, v2 := k.ram[..], k.live, p.View();
    MallocStays(m1, live1, v1, m2, live2, v2, Slot(a, 512));
    if a == 0 {
      NoneEmpty(v1.slots);
      return;
    }
    Allocating(m, live, m1, live1, v1, m2, live2, v2, root, nodes, argv, ptrs, a);
    FreshApart(live, live1, p.sh, a, current, current as int + 516);
    ListFacts(m, root, nodes);
    ListKept(m, live, m2, p.sh, root, nodes);
    Strncpy(k.ram, a, current, 512);
    ghost var m3: Mem := k.ram[..];
    ProgressVector(m, live, m2, live2, v2, root, nodes, argv, ptrs);
    StoreWord(k.ram, argv + 4 * i, a);
    Filling(m, live, m2, live2, v2, m3, k.ram[..], root, nodes, argv, ptrs, a);
    StaysTrans(m1, live1, v1, m2, live2, v2, k.ram[..], live2, v2);
  }

  lemma Allocating(m: Mem, live: Runs, m1: Mem, live1: Runs, p1: Proc, m2: Mem, live2: Runs, p2: Proc, root: Word,
      nodes: seq<Word>, argv: Word, ptrs: seq<Word>, a: Word)
    requires Progress(m, live, m1, live1, p1, root, nodes, argv, ptrs) && WellFormed(live)
    requires a != 0 && Allocated(live1, 512, a, live2) && KeptLive(m1, live1, m2, p1.sh)
    requires Encodes(m2, live2) && Agree(m2, live2, p2)
    requires p2 == p1.(slots := p2.slots) && Recorded(p1.slots, p2.slots, Slot(a, 512))
    ensures Progress(m, live, m2, live2, p2, root, nodes, argv, ptrs) && Slotted(live2, p2, a) && a != argv
    ensures a !in ptrs
    ensures |EmptySlots(p2.slots)| == |EmptySlots(p1.slots)| - 1 && |FreeSet(live2)| == |FreeSet(live1)| - 1
    ensures Fits(live1, BlockIndex(a), 1) && a == BlockAddr(BlockIndex(a)) && live2[BlockIndex(a)] == 1
  {
    hide WordAt, SetWord, Pte, BlockIndex, Agree, CString, Delivered, KeptLive, ArgList;
    assert Blocks(512) == 1;
    ListFacts(m, root, nodes);
    AddRun(live1, BlockIndex(a), 1);
    SlotUsed(p1.slots, p2.slots, Slot(a, 512));
    BlocksUsed(live1, 512, a, live2);
    VectorKept(m1, live1, p1, m2, live2, p2, argv, |nodes|, ptrs, Texts(m, nodes, |ptrs|));
    KeptLiveTrans(m, live, m1, live1, m2, p1.sh);
  }

  lemma ProgressVector(m: Mem, live: Runs, m2: Mem, live2: Runs, p: Proc, root: Word, nodes: seq<Word>, argv: Word,
      ptrs: seq<Word>)
    requires Progress(m, live, m2, live2, p, root, nodes, argv, ptrs) && |ptrs| < |nodes|
    ensures Slotted(live2, p, argv) && 4 * |ptrs| + 4 <= 4096 * live2[BlockIndex(argv)]
    ensures argv + 4 * |ptrs| <= 0xFFFF_FFFC
  {
    OneBlockOrMore(m2, live2, p, argv);
  }

  /** The two writes of one trip stay inside allocations made since `live`. */
  lemma TwoWrites(m: Mem, live: Runs, m2: Mem, live2: Runs, p: Proc, m3: Mem, m4: Mem, a: Word, argv: Word, n: int)
    requires Encodes(m2, live2) && Agree(m2, live2, p) && KeptLive(m, live, m2, p.sh)
    requires Slotted(live2, p, a) && live2[BlockIndex(a)] == 1 && Fits(live, BlockIndex(a), 1)
    requires Slotted(live2, p, argv) && live2[BlockIndex(argv)] == n && Fits(live, BlockIndex(argv), n)
    requires forall x: Word :: !(a <= x < a + 4096) ==> m3[x] == m2[x]
    requires forall x: Word :: !(argv <= x < argv + 4096 * n) ==> m4[x] == m3[x]
    ensures Encodes(m4, live2) && Agree(m4, live2, p) && KeptLive(m, live, m4, p.sh)
    ensures Stays(m2, live2, p, m4, live2, p)
  {
    hide WordAt, Pte, BlockIndex, BlockAddr, KeptLive, Agree, Encodes, Fits, Stays;
    OwnWrite(m2, live2, p, m3, a);
    OwnWrite(m3, live2, p, m4, argv);
    StaysTrans(m2, live2, p, m3, live2, p, m4, live2, p);
    FreshWrite(m, live, m2, m3, p.sh, a, 1);
    FreshWrite(m, live, m3, m4, p.sh, argv, n);
  }

  lemma Filling(m: Mem, live: Runs, m2: Mem, live2: Runs, p: Proc, m3: Mem, m4: Mem, root: Word, nodes: seq<Word>,
      argv: Word, ptrs: seq<Word>, a: Word)
    requires Progress(m, live, m2, live2, p, root, nodes, argv, ptrs) && |ptrs| < |nodes|
    requires Slotted(live2, p, a) && a != argv && a !in ptrs && live2[BlockIndex(a)] == 1
    requires Fits(live, BlockIndex(a), 1) && Written(m2, m3, a, Text(m, nodes[|ptrs|]))
    requires argv + 4 * |ptrs| <= 0xFFFF_FFFC && m4 == SetWord(m3, argv + 4 * |ptrs|, a)
    ensures Progress(m, live, m4, live2, p, root, nodes, argv, ptrs + [a]) && Stays(m2, live2, p, m4, live2, p)
  {
    hide WordAt, SetWord, Pte, BlockIndex, BlockAddr, CString, Delivered, KeptLive, ArgList, Agree, Encodes, Vector,
      Fits, Blocks, Stays;
    ProgressVector(m, live, m2, live2, p, root, nodes, argv, ptrs);
    ListFacts(m, root, nodes);
    var i := |ptrs|;
    var t := Text(m, nodes[i]);
    TwoWrites(m, live, m2, live2, p, m3, m4, a, argv, Blocks(4 * |nodes|));
    VectorNext(m2, live2, p, m3, m4, argv, |nodes|, ptrs, Texts(m, nodes, i), a, t);
    assert Texts(m, nodes, i + 1) == Texts(m, nodes, i) + [t];
  }

  lemma Starting(m: Mem, live: Runs, p: Proc, m1: Mem, live1: Runs, p1: Proc, root: Word, nodes: seq<Word>, argv: Word)
    requires Encodes(m, live) && Agree(m, live, p) && ArgList(m, root, nodes) && 0 < 4 * |nodes| < 0x1_0000_0000
    requires forall i :: 0 <= i < |nodes| ==> Safe(live, p.sh, nodes[i], nodes[i] as int + 516)
    requires argv != 0 && Allocated(live, 4 * |nodes|, argv, live1) && KeptLive(m, live, m1, p.sh)
    requires Encodes(m1, live1) && Agree(m1, live1, p1)
    requires p1 == p.(slots := p1.slots) && Recorded(p.slots, p1.slots, Slot(argv, 4 * |nodes|))
    ensures Progress(m, live, m1, live1, p1, root, nodes, argv, [])
    ensures |EmptySlots(p1.slots)| == |EmptySlots(p.slots)| - 1
    ensures |FreeSet(live1)| == |FreeSet(live)| - Blocks(4 * |nodes|)
  {
    hide WordAt, Pte, BlockIndex, Agree, CString, Delivered, KeptLive, ArgList, Blocks;
    AddRun(live, BlockIndex(argv), Blocks(4 * |nodes|));
    SlotUsed(p.slots, p1.slots, Slot(argv, 4 * |nodes|));
    BlocksUsed(live, 4 * |nodes|, argv, live1);
    SizeInBlocks(4 * |nodes|);
  }

  method NextNode(ram: array<Byte>, ghost m: Mem, ghost live: Runs, ghost sh: Space, root: Word, ghost nodes: seq<Word>,
      current: Word, ghost i: int)
    returns (next: Word)
    requires ram.Length == 0x1_0000_0000 && ArgList(m, root, nodes) && KeptLive(m, live, ram[..], sh)
    requires forall j :: 0 <= j < |nodes| ==> Safe(live, sh, nodes[j], nodes[j] as int + 516)
    requires 0 <= i < |nodes| && current == nodes[i]
    ensures next == if i + 1 < |nodes| then nodes[i + 1] else 0
  {
    hide WordAt, KeptLive, CString, Safe;
    ListKept(m, live, ram[..], sh, root, nodes);
    next := LoadWord(ram, current + 512);
  }

  /** Builds argc and argv in allocations of the process itself. On a failed allocation what was
      allocated before stays recorded, and argc and argv keep their values. */
  method InjectArguments(k: Machine, p: Process, root: Word, ghost nodes: seq<Word>)
    returns (r: int, ghost ptrs: seq<Word>)
    requires p.Consistent(k) && ArgList(k.ram[..], root, nodes) && 4 * |nodes| < 0x1_0000_0000
    requires forall i :: 0 <= i < |nodes| ==> Safe(k.live, p.sh, nodes[i], nodes[i] as int + 516)
    requires Guard(k.ram[..], Blocks(4 * |nodes|))
    modifies k, k.ram, p, p.allocations
    ensures p.Consistent(k) && Stays(old(k.ram[..]), old(k.live), old(p.View()), k.ram[..], k.live, p.View())
    ensures if nodes == [] then r == -1 else r == 0 || r == -3
    ensures nodes != [] && old(Enough(k.ram[..], k.live, p.allocations[..], |nodes|)) ==> r == 0
    ensures r != 0 ==> p.argc == old(p.argc) && p.argv == old(p.argv)
    ensures r == 0 ==> p.argc == |nodes| == |ptrs|
    ensures r == 0 ==> Vector(k.ram[..], k.live, p.View(), p.argv, p.argc, ptrs, Texts(old(k.ram[..]), nodes, |nodes|))
  {
    hide WordAt, SetWord, Pte, BlockIndex, Agree, CString, Delivered, Vector, KeptLive, Confined, ArgList, Texts,
      Stays;
    ghost var m, live, slots, v := k.ram[..], k.live, p.allocations[..], p.View();
    StaysPut(m, live, v);
    ghost var enough := Enough(m, live, slots, |nodes|);
    ptrs := [];
    ListFacts(m, root, nodes);
    var argc := CountCommandArguments(k.ram, root, nodes);
    if argc == 0 {
      return -1, ptrs;
    }
    var argv := p.Malloc(k, 4 * argc);
    MallocStays(m, live, v, k.ram[..], k.live, p.View(), Slot(argv, 4 * argc));
    if argv == 0 {
      NoneEmpty(slots);
      return -3, ptrs;
    }
    Starting(m, live, old(p.View()), k.ram[..], k.live, p.View(), root, nodes, argv);
    var current, i := root, 0;
    while current != 0
      invariant 0 <= i == |ptrs| <= |nodes| && current == if i < |nodes| then nodes[i] else 0
      invariant p.Consistent(k) && Progress(m, live, k.ram[..], k.live, p.View(), root, nodes, argv, ptrs)
      invariant p.argc == old(p.argc) && p.argv == old(p.argv)
      invariant Stays(m, live, v, k.ram[..], k.live, p.View())
      invariant enough ==> |FreeSet(k.live)| >= |nodes| - i && |EmptySlots(p.allocations[..])| >= |nodes| - i
      decreases |nodes| - i
    {
      ghost var m1, live1, v1 := k.ram[..], k.live, p.View();
      var a := OneArgument(k, p, m, live, root, nodes, current, argv, i, ptrs);
      StaysTrans(m, live, v, m1, live1, v1, k.ram[..], k.live, p.View());
      if a == 0 {
        return -3, ptrs;
      }
      ptrs := ptrs + [a];
      current := NextNode(k.ram, m, live, p.sh, root, nodes, current, i);
      i := i + 1;
    }
    p.argc := argc;
    p.argv := argv;
    r := 0;
  }

  /** Byte by byte: the little-endian word `x` of the vector is the address of what record `x` held up to its first
      zero or to 511 characters, with a terminator behind. */
  lemma VectorIs(m: Mem, m': Mem, live: Runs, p: Proc, argv: Word, argc: int, ptrs: seq<Word>, nodes: seq<Word>, x: int,
      len: int)
    requires forall i :: 0 <= i < |nodes| ==> nodes[i] as int + 516 <= 0x1_0000_0000
    requires Vector(m', live, p, argv, argc, ptrs, Texts(m, nodes, |nodes|)) && 0 <= x < |nodes|
    requires 0 <= len <= 511 && 0 !in m[nodes[x]..nodes[x] + len] && (len == 511 || m[nodes[x] + len] == 0)
    ensures |ptrs| == |nodes| && argv + 4 * x + 3 < 0x1_0000_0000 && ptrs[x] + len < 0x1_0000_0000
    ensures var a := argv + 4 * x;
      ptrs[x]
      == m'[a] as int + 0x100 * (m'[a + 1] as int) + 0x1_0000 * (m'[a + 2] as int) + 0x100_0000 * (m'[a + 3] as int)
    ensures m'[ptrs[x]..ptrs[x] + len] == m[nodes[x]..nodes[x] + len] && m'[ptrs[x] + len] == 0
  {
    var s := m[nodes[x]..nodes[x] + 511];
    assert s[..len] == m[nodes[x]..nodes[x] + len];
    CStringIs(s, len);
    assert Texts(m, nodes, |nodes|)[x] == CString(s);
  }

  // ---- whose records they may be ------------------------------------------

  /** Bytes `a..a + n` lie in one of the allocations. */
  predicate HeldBy(slots: seq<Slot>, a: Word, n: int) {
    exists j :: 0 <= j < |slots| && slots[j].ptr != 0 && slots[j].ptr <= a && a + n <= slots[j].ptr + slots[j].size
  }

  /** An allocation of one process is no page table of any. */
  lemma SlotNoTable(m: Mem, live: Runs, ps: map<int, Proc>, i: int, j: int, x: int)
    requires AllAgree(m, live, ps) && i in ps && j in ps && 0 <= x < |ps[i].slots| && ps[i].slots[x].ptr != 0
    ensures |ps[i].slots| == 1024 && RecordsAgree(live, ps[i].slots) && Owned(live, ps[j].sh) && WellFormed(live)
    ensures BlockIndex(ps[i].slots[x].ptr) !in BlocksOf(Foot(ps[j].sh))
  {
    hide WordAt, Pte, PagesAgree, LowConfined, BlockIndex, Encodes, BlocksOf, Foot;
    EncodesWell(m, live);
    AgreeParts(m, live, ps[i]);
    AgreeParts(m, live, ps[j]);
    var b := BlockIndex(ps[i].slots[x].ptr);
    assert b in SlotRuns(ps[i].slots) && b in OwnRuns(ps[i]);
    assert b !in FixedRuns(ps[j]);
  }

  /** Records in allocations of one process can be read while arguments are built in another. */
  lemma SenderSafe(m: Mem, live: Runs, ps: map<int, Proc>, i: int, j: int, a: Word, n: int)
    requires AllAgree(m, live, ps) && i in ps && j in ps && HeldBy(ps[i].slots, a, n)
    ensures Safe(live, ps[j].sh, a, a + n)
  {
    hide WordAt, Pte, Blocks, BlockIndex, AllAgree, RecordsAgree;
    var p, q := ps[i], ps[j];
    var x :| 0 <= x < |p.slots| && p.slots[x].ptr != 0
      && p.slots[x].ptr <= a && a + n <= p.slots[x].ptr + p.slots[x].size;
    SlotNoTable(m, live, ps, i, j, x);
    SlotAligned(live, p.slots, x);
    var ptr, size := p.slots[x].ptr, p.slots[x].size;
    var b := BlockIndex(ptr);
    assert live[b] == Blocks(size) by { SlotRun(live, p.slots, x); }
    SizeInBlocks(size);
    forall t: Frame | a < t + 4096 && t < a + n ensures !HeapPage(t) && t !in q.sh.tables && !FreePage(live, t) {
      PageOfRun(b, ptr, size, live[b], t);
      assert Covers(live, b, t / 4096 - 0x1000) && Taken(live, t / 4096 - 0x1000);
      NotFoot(live, q.sh, b, t);
    }
  }

  lemma SlotRun(live: Runs, slots: seq<Slot>, x: int)
    requires RecordsAgree(live, slots) && 0 <= x < |slots| && slots[x].ptr != 0
    ensures BlockIndex(slots[x].ptr) in live && live[BlockIndex(slots[x].ptr)] == Blocks(slots[x].size)
  {
  }

  lemma PageOfRun(b: int, ptr: Word, size: int, n: int, t: Frame)
    requires 0 <= b && ptr == BlockAddr(b) && size <= 4096 * n && ptr < t + 4096 && t < ptr + size
    ensures b <= t / 4096 - 0x1000 < b + n && !HeapPage(t)
  {
    assert t == 4096 * (t / 4096) && ptr == 4096 * (0x1000 + b);
  }
}
