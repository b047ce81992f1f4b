/** paging.c: the code that builds, walks and changes page tables in physical memory. */
module Paging {
  import opened Ram
  import opened HeapTable
  import opened PageTables
  import opened Kheap

  ghost predicate Ready(m: Mem, sh: Space) {
    Distinct(sh) && Wired(m, sh)
  }

  method GetIndexes(va: Word) returns (r: int, di: int, ti: int)
    ensures va % 4096 != 0 ==> r == -2 && di == 0 && ti == 0
    ensures va % 4096 == 0 ==> r == 0 && di == va / 4096 / 1024 && ti == va / 4096 % 1024
    ensures 0 <= di < 1024 && 0 <= ti < 1024
  {
    di, ti := 0, 0;
    if va % 4096 != 0 {
      return -2, di, ti;
    }
    di := va / (1024 * 4096);
    ti := va % (1024 * 4096) / 4096;
    r := 0;
  }

  /** The table a directory entry points to, with the flag bits masked off. */
  method TableOf(ram: array<Byte>, dir: Frame, i: int, ghost sh: Space) returns (t: Frame)
    requires ram.Length == 0x1_0000_0000 && Ready(ram[..], sh) && dir == sh.dir && 0 <= i < 1024
    ensures t == sh.tables[i]
  {
    var entry := LoadWord(ram, dir + 4 * i);
    assert entry == WordIn(ram[..], sh.dir, i);
    TagRoundTrip(sh.tables[i], sh.flags);
    t := Untag(entry);
  }

  method Set(ram: array<Byte>, dir: Frame, va: Word, w: Word, ghost sh: Space) returns (r: int)
    requires ram.Length == 0x1_0000_0000 && Ready(ram[..], sh) && dir == sh.dir
    modifies ram
    ensures Ready(ram[..], sh) && OnlyTables(old(ram[..]), ram[..], sh)
    ensures va % 4096 != 0 ==> r == -2 && ram[..] == old(ram[..])
    ensures va % 4096 == 0 ==> r == 0 && Updated(old(ram[..]), ram[..], sh, va / 4096, w)
  {
    if va % 4096 != 0 {
      return -2;
    }
    var di, ti;
    r, di, ti := GetIndexes(va);
    if r < 0 {
      return;
    }
    var table := TableOf(ram, dir, di, sh);
    assert table + 4 * ti == PteAddr(sh, va / 4096);
    SetEntry(ram[..], sh, va / 4096, w);
    StoreWord(ram, table + 4 * ti, w);
    r := 0;
  }

  /** An unaligned address is looked up as page 0, since the failed index computation is ignored. */
  method Get(ram: array<Byte>, dir: Frame, va: Word, ghost sh: Space) returns (w: Word)
    requires ram.Length == 0x1_0000_0000 && Ready(ram[..], sh) && dir == sh.dir
    ensures w == Pte(ram[..], sh, if va % 4096 == 0 then va / 4096 else 0)
  {
    var r, di, ti := GetIndexes(va);
    var table := TableOf(ram, dir, di, sh);
    w := LoadWord(ram, table + 4 * ti);
    ghost var v: Page := if va % 4096 == 0 then va / 4096 else 0;
    assert PteAddr(sh, v) == table + 4 * ti;
  }

  /** The physical address a virtual address stands for. */
  function Physical(m: Mem, sh: Space, va: Word): Word {
    Untag(Pte(m, sh, va / 4096)) + va % 4096
  }

  /** Entry and translation are what the machine's walk finds: ten bits of the address select a little-endian
      word of the directory, ten more one of the table that it points to, and the rest is the offset. */
  lemma WalkIs(m: Mem, sh: Space, va: Word, d: Word, t: Word, pde: int, pte: int)
    requires Wired(m, sh) && d == sh.dir as int + 4 * (va / 0x40_0000) && d + 3 < 0x1_0000_0000
    requires
      pde == m[d] as int + 0x100 * (m[d + 1] as int) + 0x1_0000 * (m[d + 2] as int) + 0x100_0000 * (m[d + 3] as int)
    requires t == pde - pde % 4096 + 4 * (va / 4096 % 1024) && t + 3 < 0x1_0000_0000
    requires
      pte == m[t] as int + 0x100 * (m[t + 1] as int) + 0x1_0000 * (m[t + 2] as int) + 0x100_0000 * (m[t + 3] as int)
    ensures Pte(m, sh, va / 4096) == pte && Physical(m, sh, va) == pte - pte % 4096 + va % 4096
    ensures sh.flags == pde % 4096
  {
    WordIs(m, d);
    WordIs(m, t);
    hide WordAt;
    DirectoryStep(m, sh, va, d);
  }

  lemma DirectoryStep(m: Mem, sh: Space, va: Word, d: int)
    requires Wired(m, sh) && d == sh.dir as int + 4 * (va / 0x40_0000)
    ensures 0 <= d <= 0xFFFF_FFFC
    ensures var e := WordAt(m, d);
      sh.flags == e % 4096 && PteAddr(sh, va / 4096) == e - e % 4096 + 4 * (va / 4096 % 1024)
  {
    hide WordAt;
    var i := va / 4096 / 1024;
    FrameBound(sh.dir);
    assert va / 0x40_0000 == i && WordIn(m, sh.dir, i) == sh.tables[i] + sh.flags;
    ModAdd(sh.tables[i] as int / 4096, sh.flags);
  }

  lemma WordIs(m: Mem, a: Word)
    requires a + 3 < 0x1_0000_0000
    ensures WordAt(m, a)
      == m[a] as int + 0x100 * (m[a + 1] as int) + 0x1_0000 * (m[a + 2] as int) + 0x100_0000 * (m[a + 3] as int)
  {
  }

  method GetPhysicalAddress(ram: array<Byte>, dir: Frame, va: Word, ghost sh: Space) returns (pa: Word)
    requires ram.Length == 0x1_0000_0000 && Ready(ram[..], sh) && dir == sh.dir
    ensures pa == Physical(ram[..], sh, va)
  {
    hide WordAt;
    ModAdd(va / 4096, 0);
    var low := AlignToLowerPage(va);
    var entry := Get(ram, dir, low, sh);
    pa := Untag(entry) + (va - low);
  }

  function AlignToLowerPage(a: Word): Word {
    a - a % 4096
  }

  function AlignAddress(a: Word): Word {
    if a % 4096 != 0 then Wrap(a + 4096 - a % 4096) else a
  }

  method Map(ram: array<Byte>, chunk: Frame, va: Word, pa: Word, flags: Word, ghost sh: Space) returns (r: int)
    requires ram.Length == 0x1_0000_0000 && Ready(ram[..], sh) && chunk == sh.chunk
    requires flags < 4096
    modifies ram
    ensures Ready(ram[..], sh) && OnlyTables(old(ram[..]), ram[..], sh)
    ensures va % 4096 != 0 || pa % 4096 != 0 ==> r == -2 && ram[..] == old(ram[..])
    ensures va % 4096 == 0 && pa % 4096 == 0 ==> r == 0
    ensures va % 4096 == 0 && pa % 4096 == 0 ==>
      pa + flags < 0x1_0000_0000 && Updated(old(ram[..]), ram[..], sh, va / 4096, pa + flags)
  {
    if va % 4096 != 0 || pa % 4096 != 0 {
      return -2;
    }
    hide Or;
    var dir := LoadWord(ram, chunk);
    TagRoundTrip(pa, flags);
    r := Set(ram, dir, va, Or(pa, flags), sh);
  }

  lemma NextPage(v0: Page, i: int, p: Word)
    requires i >= 0
    ensures var v := (v0 + i) % 0x10_0000;
      Wrap(4096 * v + 4096) == 4096 * ((v0 + i + 1) % 0x10_0000) && 4096 * v / 4096 == v && 4096 * v % 4096 == 0
    ensures v0 % 0x10_0000 == v0
    ensures p as int + 4096 < 0x1_0000_0000 ==> Wrap(p as int + 4096) == p as int + 4096
  {
  }

  method MapRange(ram: array<Byte>, chunk: Frame, va: Word, pa: Word, n: int, flags: Word, ghost sh: Space)
    returns (r: int)
    requires ram.Length == 0x1_0000_0000 && Ready(ram[..], sh) && chunk == sh.chunk
    requires flags < 4096 && n <= 0x10_0000 && pa + 4096 * n <= 0x1_0000_0000
    modifies ram
    ensures Ready(ram[..], sh) && OnlyTables(old(ram[..]), ram[..], sh)
    ensures r == if n > 0 && (va % 4096 != 0 || pa % 4096 != 0) then -2 else 0
    ensures r < 0 || n <= 0 ==> ram[..] == old(ram[..])
    ensures r == 0 && n > 0 ==> Mapped(old(ram[..]), ram[..], sh, va / 4096, pa, n, flags)
  {
    hide WordAt, Wrap;
    r := 0;
    var v, p := va, pa;
    ghost var m: Mem := ram[..];
    ghost var v0: Page := va / 4096;
    var i := 0;
    while i < n
      invariant 0 <= i && (i <= n || i == 0)
      invariant r == 0 && Ready(ram[..], sh) && OnlyTables(m, ram[..], sh)
      invariant i == 0 ==> ram[..] == m && v == va && p == pa
      invariant i > 0 ==> v == 4096 * ((v0 + i) % 0x10_0000)
      invariant 0 < i < n ==> p == pa + 4096 * i
      invariant i > 0 ==> va % 4096 == 0 && pa % 4096 == 0
      invariant va % 4096 == 0 && pa % 4096 == 0 ==> Mapped(m, ram[..], sh, v0, pa, i, flags)
    {
      ghost var m1: Mem := ram[..];
      NextPage(v0, i, p);
      r := Map(ram, chunk, v, p, flags, sh);
      if r < 0 {
        break;
      }
      MapStep(m, m1, ram[..], sh, v0, pa, i, flags);
      v := Wrap(v as int + 4096);
      p := Wrap(p as int + 4096);
      i := i + 1;
    }
  }

  /** The arguments `paging_map_to` rejects. */
  predicate BadRange(va: Word, pa: Word, end: Word) {
    va % 4096 != 0 || pa % 4096 != 0 || end % 4096 != 0 || end < pa
  }

  /** All or nothing: rejected arguments change no byte; accepted ones map every page of the range. */
  method MapTo(ram: array<Byte>, chunk: Frame, va: Word, pa: Word, end: Word, flags: Word, ghost sh: Space)
    returns (r: int)
    requires ram.Length == 0x1_0000_0000 && Ready(ram[..], sh) && chunk == sh.chunk && flags < 4096
    modifies ram
    ensures r == if va % 4096 == 0 && pa % 4096 == 0 && end % 4096 == 0 && pa <= end then 0 else -2
    ensures Ready(ram[..], sh) && OnlyTables(old(ram[..]), ram[..], sh)
    ensures r < 0 ==> ram[..] == old(ram[..])
    ensures r == 0 ==> Mapped(old(ram[..]), ram[..], sh, va / 4096, pa, (end - pa) / 4096, flags)
  {
    if va % 4096 != 0 || pa % 4096 != 0 || end % 4096 != 0 {
      return -2;
    }
    if end < pa {
      return -2;
    }
    var total := (end - pa) / 4096;
    r := MapRange(ram, chunk, va, pa, total, flags, sh);
  }

  /** What a mapped range leaves in one page: page `k` of the range, counted round the end of the address space,
      stands for the `k`th frame from `pa` on, and any other page for what it did. */
  lemma MappedEntry(m: Mem, m': Mem, sh: Space, va: Word, pa: Word, end: Word, flags: int, v: Page)
    requires va % 4096 == 0 && pa % 4096 == 0 && Mapped(m, m', sh, va / 4096, pa, (end - pa) / 4096, flags)
    ensures var k := (v - va / 4096) % 0x10_0000;
      Pte(m', sh, v) == if k < (end - pa) / 4096 then pa + 4096 * k + flags else Pte(m, sh, v)
  {
    hide WordAt, Pte;
  }

  // ---- creating and freeing an address space ------------------------------

  /** The pages that hold the heap's own table, and the page below it. */
  predicate HeapPage(t: Frame) {
    0x6000 <= t < 0xF000
  }

  /** The bytes just below the heap table, where a free of the null pointer would write. */
  ghost predicate SameLow(m: Mem, m': Mem) {
    Same(m, m', 0x6E00, 0x7E00)
  }

  /** Apart from the heap table, only pages in `X` changed. */
  ghost predicate Kept(m: Mem, m': Mem, X: set<Word>) {
    && (forall t: Frame :: !HeapPage(t) && t !in X ==> SamePage(m, m', t))
    && SameLow(m, m')
  }

  lemma SameLowPages(m: Mem, m': Mem)
    requires forall u: Frame :: HeapPage(u) ==> SamePage(m, m', u)
    ensures SameLow(m, m')
  {
    forall a | 0x6E00 <= a < 0x7E00 ensures m'[a] == m[a] { assert SamePage(m, m', Untag(a)); }
  }

  ghost function FreeSet(live: Runs): set<int> {
    set i | 0 <= i < 25600 && !Taken(live, i)
  }

  ghost function Foot(sh: Space): set<Word> {
    {sh.chunk, sh.dir} + (set t | t in sh.tables)
  }

  ghost function BlocksOf(X: set<Word>): set<int> {
    set t | t in X :: BlockIndex(t)
  }

  /** `live'` is `live` and one new single-block run for each frame in `X`. */
  ghost predicate Grown(live: Runs, live': Runs, X: set<Word>) {
    && (forall t :: t in X ==> OneBlock(live', t) && BlockIndex(t) !in live)
    && live' - BlocksOf(X) == live
  }

  lemma GuardOne(m: Mem)
    ensures Guard(m, 1)
  {
    if FreeBlock(m, 25599) { assert FreeRun(m, 25599, 1); }
  }

  // ---- where first fit puts a row of blocks -------------------------------

  /** All blocks below `c` are taken and those from `c` up to `d` are free. */
  ghost predicate Low(live: Runs, c: int, d: int) {
    0 <= c <= d <= 25600 && (forall i :: 0 <= i < c ==> Taken(live, i)) && forall i :: c <= i < d ==> !Taken(live, i)
  }

  /** The same apart from one free block `h` among the taken ones. */
  ghost predicate Gap(live: Runs, h: int, c: int, d: int) {
    && 0 <= h && h + 1 < c <= d <= 25600 && (forall i :: 0 <= i < c ==> (Taken(live, i) <==> i != h))
    && forall i :: c <= i < d ==> !Taken(live, i)
  }

  /** Nothing is taken or given back from block `d` on. */
  ghost predicate SameAbove(live: Runs, live': Runs, d: int) {
    forall i :: d <= i ==> (Taken(live', i) <==> Taken(live, i))
  }

  /** `b` is the first place where `n` blocks fit. */
  ghost predicate Lowest(live: Runs, n: int, b: int) {
    Fits(live, b, n) && forall s :: Fits(live, s, n) ==> b <= s
  }

  /** First fit, said of runs. */
  lemma FirstIsLowest(m: Mem, live: Runs, size: Word, p: Word, live': Runs)
    requires Encodes(m, live) && p != 0 && Allocated(live, size, p, live') && FirstFit(m, Blocks(size), p)
    ensures Lowest(live, Blocks(size), BlockIndex(p))
  {
    hide BlockIndex, Blocks;
    forall s | Fits(live, s, Blocks(size)) ensures BlockIndex(p) <= s { FreeRunFits(m, live, s, Blocks(size)); }
  }

  /** An allocation that fits the lowest free blocks goes there. */
  lemma LowFirst(live: Runs, n: int, b: int, c: int, d: int)
    requires WellFormed(live) && Lowest(live, n, b) && Low(live, c, d) && c + n <= d
    ensures b == c && Low(live[b := n], c + n, d) && SameAbove(live, live[b := n], d)
  {
    var live' := live[b := n];
    assert Fits(live, c, n);
    assert !Taken(live, b);
    AddRun(live, b, n);
    forall i ensures Taken(live', i) <==> Taken(live, i) || b <= i < b + n {
      assert Taken(live[b := n], i) <==> Taken(live, i) || b <= i < b + n;
    }
  }

  /** With one free block among the taken ones, a single block goes there and more go to the row. */
  lemma GapFirst(live: Runs, n: int, b: int, h: int, c: int, d: int)
    requires WellFormed(live) && Lowest(live, n, b) && Gap(live, h, c, d) && c + n <= d
    ensures SameAbove(live, live[b := n], d)
    ensures if n == 1 then b == h && Low(live[b := n], c, d) else b == c && Gap(live[b := n], h, c + n, d)
  {
    var live' := live[b := n];
    AddRun(live, b, n);
    forall i ensures Taken(live', i) <==> Taken(live, i) || b <= i < b + n {
      assert Taken(live[b := n], i) <==> Taken(live, i) || b <= i < b + n;
    }
    assert Fits(live, c, n);
    assert !Taken(live, b) && !Taken(live, b + n - 1);
    if n == 1 {
      assert Fits(live, h, 1);
    } else {
      assert !Taken(live, b + 1) && Taken(live, h + 1);
    }
  }

  /** One block after the other was taken, as first fit does it: on a heap whose lowest free blocks lie in
      a row they are the first of the row. */
  ghost predicate InRow(live: Runs, live': Runs, ps: seq<Word>) {
    forall c, d :: Low(live, c, d) && c + |ps| <= d ==>
      && Low(live', c + |ps|, d) && SameAbove(live, live', d)
      && forall i :: 0 <= i < |ps| ==> ps[i] == BlockAddr(c + i)
  }

  /** The blocks of a space in the order in which they were taken. */
  ghost function Row(sh: Space): (ps: seq<Word>)
    ensures |ps| == 1026
  {
    [sh.dir] + sh.tables + [sh.chunk]
  }

  lemma RowAt(sh: Space, i: int)
    requires 0 <= i < 1024
    ensures Row(sh)[0] == sh.dir && Row(sh)[1025] == sh.chunk && Row(sh)[1 + i] == sh.tables[i]
  {
  }

  lemma InRowNext(live: Runs, live1: Runs, live2: Runs, ps: seq<Word>, p: Word)
    requires InRow(live, live1, ps) && InRow(live1, live2, [p])
    ensures InRow(live, live2, ps + [p])
  {
    hide Low, SameAbove;
    var ps' := ps + [p];
    forall c, d | Low(live, c, d) && c + |ps'| <= d
      ensures Low(live2, c + |ps'|, d) && SameAbove(live, live2, d)
      ensures forall i :: 0 <= i < |ps'| ==> ps'[i] == BlockAddr(c + i)
    {
      assert Low(live1, c + |ps|, d);
      assert [p][0] == BlockAddr(c + |ps| + 0);
      AboveTwice(live, live1, live2, d);
    }
  }

  lemma AboveTwice(live: Runs, live1: Runs, live2: Runs, d: int)
    requires SameAbove(live, live1, d) && SameAbove(live1, live2, d)
    ensures SameAbove(live, live2, d)
  {
  }

  /** `kzalloc` of one page when a free block is left. */
  method NewBlock(k: Machine) returns (p: Frame)
    requires k.Valid() && |FreeSet(k.live)| > 0
    modifies k, k.ram
    ensures k.Valid() && OneBlock(k.live, p) && BlockIndex(p) !in old(k.live)
    ensures k.live == old(k.live)[BlockIndex(p) := 1]
    ensures |FreeSet(k.live)| == |FreeSet(old(k.live))| - 1
    ensures p >= 0x0100_0000 && Kept(old(k.ram[..]), k.ram[..], {p})
    ensures forall j :: 0 <= j < 1024 ==> WordIn(k.ram[..], p, j) == 0
    ensures InRow(old(k.live), k.live, [p])
  {
    ghost var m, live := k.ram[..], k.live;
    ghost var i :| i in FreeSet(k.live);
    FreeIsUntaken(m, k.live, i);
    assert FreeRun(m, i, 1);
    GuardOne(m);
    var q := k.Kzalloc(4096);
    p := q;
    ghost var b := BlockIndex(p);
    AddRun(old(k.live), b, 1);
    assert FreeSet(k.live) == FreeSet(old(k.live)) - {b};
    forall t: Frame | !HeapPage(t) && t != p ensures SamePage(m, k.ram[..], t) { FramesApart(t, p); }
    FirstIsLowest(m, live, 4096, q, k.live);
    OneInRow(live, q);
  }

  lemma OneInRow(live: Runs, p: Word)
    requires WellFormed(live) && p == BlockAddr(BlockIndex(p)) && Lowest(live, 1, BlockIndex(p))
    ensures InRow(live, live[BlockIndex(p) := 1], [p])
  {
    hide Low, BlockIndex, SameAbove, Lowest;
    var live' := live[BlockIndex(p) := 1];
    forall c, d | Low(live, c, d) && c + 1 <= d
      ensures Low(live', c + 1, d) && p == BlockAddr(c + 0) && SameAbove(live, live', d)
    {
      LowFirst(live, 1, BlockIndex(p), c, d);
    }
  }

  /** Table `i` of an identity map. */
  ghost predicate Filled(m: Mem, t: Frame, i: int, flags: int) {
    forall j :: 0 <= j < 1024 ==> WordIn(m, t, j) == 4096 * (1024 * i + j) + flags
  }

  method FillTable(ram: array<Byte>, t: Frame, i: int, flags: Byte)
    requires ram.Length == 0x1_0000_0000 && 0 <= i < 1024
    modifies ram
    ensures Filled(ram[..], t, i, flags)
    ensures forall u: Frame :: u != t ==> SamePage(old(ram[..]), ram[..], u)
  {
    hide Or;
    FrameBound(t);
    ghost var m: Mem := ram[..];
    var offset := i * 1024 * 4096;
    for j := 0 to 1024
      invariant forall q :: 0 <= q < j ==> WordIn(ram[..], t, q) == 4096 * (1024 * i + q) + flags
      invariant forall u: Frame :: u != t ==> SamePage(m, ram[..], u)
    {
      ghost var m1: Mem := ram[..];
      TagRoundTrip(offset + j * 4096, flags);
      StoreWord(ram, t + 4 * j, Or(offset + j * 4096, flags));
      WordStored(m1, t, j, 4096 * (1024 * i + j) + flags);
      forall u: Frame | u != t ensures SamePage(m, ram[..], u) {
        assert SamePage(m, m1, u) && SamePage(m1, ram[..], u);
      }
    }
  }

  lemma WordStored(m: Mem, t: Frame, j: int, w: Word)
    requires 0 <= j < 1024
    ensures 0 <= t + 4 * j <= 0xFFFF_FFFC
    ensures var m' := SetWord(m, t + 4 * j, w);
      && (forall q :: 0 <= q < 1024 ==> WordIn(m', t, q) == if q == j then w else WordIn(m, t, q))
      && (forall u: Frame :: u != t ==> SamePage(m, m', u))
  {
    FrameBound(t);
    var m' := SetWord(m, t + 4 * j, w);
    forall q | 0 <= q < 1024 ensures WordIn(m', t, q) == if q == j then w else WordIn(m, t, q) {
      if q != j { SameWord(m, m', t + 4 * q); }
    }
    forall u: Frame | u != t ensures SamePage(m, m', u) { FramesApart(u, t); }
  }

  /** The directory at `dir` after its first `|ts|` entries were made. */
  ghost predicate Built(m: Mem, live: Runs, dir: Frame, ts: seq<Frame>, flags: int, dflags: int) {
    && |ts| <= 1024 && OneBlock(live, dir) && dir !in ts
    && (forall i :: 0 <= i < |ts| ==> OneBlock(live, ts[i]))
    && (forall i :: 0 <= i < |ts| ==> WordIn(m, dir, i) == ts[i] + dflags)
    && (forall i :: 0 <= i < |ts| ==> Filled(m, ts[i], i, flags))
    && (forall i, j :: 0 <= i < j < |ts| ==> ts[i] != ts[j])
  }

  lemma KeptTrans(m: Mem, m1: Mem, m2: Mem, X: set<Word>, Y: set<Word>)
    requires Kept(m, m1, X) && Kept(m1, m2, Y)
    ensures Kept(m, m2, X + Y)
  {
    forall t: Frame | !HeapPage(t) && t !in X + Y ensures SamePage(m, m2, t) {
      assert SamePage(m, m1, t) && SamePage(m1, m2, t);
    }
  }

  lemma GrownStep(live: Runs, live1: Runs, live2: Runs, X: set<Word>, p: Word)
    requires Grown(live, live1, X) && OneBlock(live2, p)
    requires BlockIndex(p) !in live1 && live2 == live1[BlockIndex(p) := 1]
    ensures Grown(live, live2, X + {p})
  {
    var b := BlockIndex(p);
    assert BlocksOf(X + {p}) == BlocksOf(X) + {b};
    forall t | t in X ensures OneBlock(live2, t) { assert BlockIndex(t) in live1; }
    assert b !in live by { assert live1 - BlocksOf(X) == live; }
    assert live2 - BlocksOf(X + {p}) == live;
  }

  lemma FilledKept(m: Mem, m': Mem, t: Frame, i: int, flags: int)
    requires Filled(m, t, i, flags) && SamePage(m, m', t)
    ensures Filled(m', t, i, flags)
  {
    forall j | 0 <= j < 1024 ensures WordIn(m', t, j) == WordIn(m, t, j) { SamePageWord(m, m', t, j); }
  }

  /** One more table: freshly allocated, filled and entered in the directory. */
  lemma BuildStep(m: Mem, m1: Mem, m2: Mem, live: Runs, live': Runs, dir: Frame, ts: seq<Frame>, t: Frame, flags: int,
      dflags: int)
    requires Built(m, live, dir, ts, flags, dflags) && |ts| < 1024 && 0 <= dflags < 4096
    requires BlockIndex(t) !in live && live' == live[BlockIndex(t) := 1] && OneBlock(live', t)
    requires forall u: Frame :: OneBlock(live, u) ==> SamePage(m, m1, u)
    requires Filled(m1, t, |ts|, flags)
    requires t + dflags < 0x1_0000_0000 && 0 <= dir + 4 * |ts| <= 0xFFFF_FFFC
    requires m2 == SetWord(m1, dir + 4 * |ts|, t + dflags)
    ensures Built(m2, live', dir, ts + [t], flags, dflags)
  {
    hide WordAt, SetWord;
    WordStored(m1, dir, |ts|, t + dflags);
    var ts' := ts + [t];
    assert t != dir && t !in ts;
    forall i | 0 <= i < |ts'| ensures WordIn(m2, dir, i) == ts'[i] + dflags {
      if i < |ts| { SamePageWord(m, m1, dir, i); }
    }
    forall i | 0 <= i < |ts'| ensures Filled(m2, ts'[i], i, flags) {
      if i < |ts| { FilledKept(m, m1, ts[i], i, flags); }
      FilledKept(m1, m2, ts'[i], i, flags);
    }
  }

  lemma TableUntouched(m: Mem, m': Mem, live: Runs)
    requires Encodes(m, live) && forall u: Frame :: HeapPage(u) ==> SamePage(m, m', u)
    ensures Encodes(m', live)
  {
    forall a | 0x7E00 <= a < 0x7E00 + 25600 ensures m'[a] == m[a] {
      var u: Frame := Untag(a);
      assert SamePage(m, m', u);
    }
    SameEncodes(m, m', live);
  }

  lemma OneBlockInPool(live: Runs, t: Frame)
    requires WellFormed(live) && OneBlock(live, t)
    ensures 0x0100_0000 <= t < 0x0740_0000 && !HeapPage(t)
  {
  }

  method AddTable(k: Machine, dir: Frame, i: int, flags: Byte, ghost ts: seq<Frame>) returns (t: Frame)
    requires k.Valid() && |ts| == i < 1024 && |FreeSet(k.live)| > 0
    requires Built(k.ram[..], k.live, dir, ts, flags, Or(flags, 2))
    modifies k, k.ram
    ensures k.Valid() && Built(k.ram[..], k.live, dir, ts + [t], flags, Or(flags, 2))
    ensures OneBlock(k.live, t) && BlockIndex(t) !in old(k.live) && k.live == old(k.live)[BlockIndex(t) := 1]
    ensures |FreeSet(k.live)| == |FreeSet(old(k.live))| - 1
    ensures Kept(old(k.ram[..]), k.ram[..], {t, dir}) && InRow(old(k.live), k.live, [t])
  {
    hide Or, WordAt, SetWord, InRow;
    ghost var m, live := k.ram[..], k.live;
    t := NewBlock(k);
    ghost var m0: Mem := k.ram[..];
    FillTable(k.ram, t, i, flags);
    ghost var m1: Mem := k.ram[..];
    OneBlockInPool(live, dir);
    OrAligned(t, flags, 2);
    FrameBound(t);
    WordStored(m1, dir, i, t + Or(flags, 2));
    StoreWord(k.ram, dir + 4 * i, Or(Or(t, flags), 2));
    ghost var m2: Mem := k.ram[..];
    forall u: Frame | HeapPage(u) ensures SamePage(m0, m2, u) {
      assert SamePage(m0, m1, u) && SamePage(m1, m2, u);
    }
    TableUntouched(m0, m2, k.live);
    SameLowPages(m0, m2);
    forall u: Frame | OneBlock(live, u) ensures SamePage(m, m1, u) {
      OneBlockInPool(live, u);
      assert SamePage(m, m0, u) && SamePage(m0, m1, u);
    }
    BuildStep(m, m1, m2, live, k.live, dir, ts, t, flags, Or(flags, 2));
    forall u: Frame | !HeapPage(u) && u !in {t, dir} ensures SamePage(m, m2, u) {
      assert SamePage(m, m0, u) && SamePage(m0, m1, u) && SamePage(m1, m2, u);
    }
  }

  ghost function DirFoot(dir: Frame, ts: seq<Frame>): set<Word> {
    {dir} + (set t | t in ts)
  }

  /** How far the construction of a directory has come since memory `m` with runs `live`. */
  ghost predicate Building(m: Mem, live: Runs, m': Mem, live': Runs, dir: Frame, ts: seq<Frame>, flags: Byte) {
    && Built(m', live', dir, ts, flags, Or(flags, 2))
    && Grown(live, live', DirFoot(dir, ts)) && Kept(m, m', DirFoot(dir, ts))
  }

  lemma BuildingStart(m: Mem, live: Runs, m': Mem, live': Runs, dir: Frame, flags: Byte)
    requires OneBlock(live', dir) && BlockIndex(dir) !in live && live' == live[BlockIndex(dir) := 1]
    requires Kept(m, m', {dir})
    ensures Building(m, live, m', live', dir, [], flags)
  {
    hide Or, BlockIndex;
    GrownStep(live, live, live', {}, dir);
    assert DirFoot(dir, []) == {} + {dir};
  }

  lemma BuildingNext(m: Mem, live: Runs, m1: Mem, live1: Runs, m2: Mem, live2: Runs, dir: Frame, ts: seq<Frame>,
      t: Frame, flags: Byte)
    requires Building(m, live, m1, live1, dir, ts, flags)
    requires Built(m2, live2, dir, ts + [t], flags, Or(flags, 2)) && Kept(m1, m2, {t, dir})
    requires OneBlock(live2, t) && BlockIndex(t) !in live1 && live2 == live1[BlockIndex(t) := 1]
    ensures Building(m, live, m2, live2, dir, ts + [t], flags)
  {
    hide Or, BlockIndex, Built;
    var X := DirFoot(dir, ts);
    GrownStep(live, live1, live2, X, t);
    KeptTrans(m, m1, m2, X, {t, dir});
    assert DirFoot(dir, ts + [t]) == X + {t} == X + {t, dir};
  }

  /** The first half of `paging_new_4gb`: the directory and its 1024 tables. */
  method NewDirectory(k: Machine, flags: Byte) returns (dir: Frame, ghost ts: seq<Frame>)
    requires k.Valid() && |FreeSet(k.live)| >= 1025
    modifies k, k.ram
    ensures k.Valid() && |ts| == 1024 && Building(old(k.ram[..]), old(k.live), k.ram[..], k.live, dir, ts, flags)
    ensures |FreeSet(k.live)| == |FreeSet(old(k.live))| - 1025 && InRow(old(k.live), k.live, [dir] + ts)
  {
    hide Or, WordAt, SetWord, BlockIndex, Grown, Kept, OneBlock, FreeSet, Encodes, InRow;
    ghost var m, live := k.ram[..], k.live;
    dir := NewBlock(k);
    ts := [];
    assert [dir] + ts == [dir];
    BuildingStart(m, live, k.ram[..], k.live, dir, flags);
    for i := 0 to 1024
      invariant k.Valid() && |ts| == i && Building(m, live, k.ram[..], k.live, dir, ts, flags)
      invariant |FreeSet(k.live)| == |FreeSet(live)| - 1 - i && InRow(live, k.live, [dir] + ts)
    {
      ghost var m1, live1 := k.ram[..], k.live;
      var t := AddTable(k, dir, i, flags, ts);
      BuildingNext(m, live, m1, live1, k.ram[..], k.live, dir, ts, t, flags);
      InRowNext(live, live1, k.live, [dir] + ts, t);
      assert ([dir] + ts) + [t] == [dir] + (ts + [t]);
      ts := ts + [t];
    }
  }

  /** A new address space in which every page stands for itself. */
  method New4gb(k: Machine, flags: Byte) returns (chunk: Frame, ghost sh: Space)
    requires k.Valid() && |FreeSet(k.live)| >= 1026
    modifies k, k.ram
    ensures k.Valid() && chunk == sh.chunk && sh.flags == Or(flags, 2)
    ensures Owned(k.live, sh) && Wired(k.ram[..], sh)
    ensures forall v: Page :: Pte(k.ram[..], sh, v) == 4096 * v + flags
    ensures Grown(old(k.live), k.live, Foot(sh)) && Kept(old(k.ram[..]), k.ram[..], Foot(sh))
    ensures |FreeSet(k.live)| == |FreeSet(old(k.live))| - 1026
    ensures InRow(old(k.live), k.live, Row(sh))
  {
    hide Or, WordAt, SetWord, InRow;
    ghost var m, live := k.ram[..], k.live;
    OrAligned(0, flags, 2);
    var dir;
    ghost var ts;
    dir, ts := NewDirectory(k, flags);
    ghost var m1, live1 := k.ram[..], k.live;
    chunk := NewBlock(k);
    ghost var m2: Mem := k.ram[..];
    sh := Shape(chunk, dir, ts, Or(flags, 2));
    GrownStep(live, live1, k.live, DirFoot(dir, ts), chunk);
    InRowNext(live, live1, k.live, [dir] + ts, chunk);
    assert Foot(sh) == DirFoot(dir, ts) + {chunk};
    OneBlockInPool(k.live, chunk);
    WordStored(m2, chunk, 0, dir);
    StoreWord(k.ram, chunk, dir);
    TableUntouched(m2, k.ram[..], k.live);
    Finish(m, m1, m2, k.ram[..], live1, k.live, sh, flags);
  }

  lemma Finish(m: Mem, m1: Mem, m2: Mem, m3: Mem, live1: Runs, live: Runs, sh: Space, flags: int)
    requires WellFormed(live1) && WellFormed(live) && Built(m1, live1, sh.dir, sh.tables, flags, sh.flags)
    requires BlockIndex(sh.chunk) !in live1 && live == live1[BlockIndex(sh.chunk) := 1] && OneBlock(live, sh.chunk)
    requires Kept(m, m1, {sh.dir} + (set t | t in sh.tables)) && Kept(m1, m2, {sh.chunk})
    requires m3 == SetWord(m2, sh.chunk, sh.dir) && 0 <= flags < 256
    ensures Owned(live, sh) && Wired(m3, sh) && Kept(m, m3, Foot(sh))
    ensures forall v: Page :: Pte(m3, sh, v) == 4096 * v + flags
  {
    hide WordAt, SetWord;
    WordStored(m2, sh.chunk, 0, sh.dir);
    assert WordIn(m3, sh.chunk, 0) == sh.dir;
    forall t: Frame | OneBlock(live1, t) ensures SamePage(m1, m3, t) && t != sh.chunk {
      OneBlockInPool(live1, t);
      assert SamePage(m1, m2, t) && SamePage(m2, m3, t);
    }
    forall i | 0 <= i < 1024 ensures WordIn(m3, sh.dir, i) == sh.tables[i] + sh.flags {
      SamePageWord(m1, m3, sh.dir, i);
    }
    forall v: Page ensures Pte(m3, sh, v) == 4096 * v + flags {
      var t := sh.tables[v / 1024];
      FilledKept(m1, m3, t, v / 1024, flags);
      assert WordIn(m3, t, v % 1024) == Pte(m3, sh, v);
    }
    OneBlockInPool(live, sh.chunk);
    SameLowPages(m2, m3);
    forall t: Frame | !HeapPage(t) && t !in Foot(sh) ensures SamePage(m, m3, t) {
      assert SamePage(m, m1, t) && SamePage(m1, m2, t) && SamePage(m2, m3, t);
    }
  }

  // ---- freeing ------------------------------------------------------------

  /** The blocks of `sh` that the first `i` steps of `paging_free_4gb` have released. */
  ghost function Freed(sh: Space, i: int): set<int>
    requires 0 <= i <= 1024
  {
    set j | 0 <= j < i :: BlockIndex(sh.tables[j])
  }

  /** Releases exactly the blocks of the address space, whatever was mapped in it. */
  method Free4gb(k: Machine, chunk: Frame, ghost sh: Space)
    requires k.Valid() && Owned(k.live, sh) && Wired(k.ram[..], sh) && chunk == sh.chunk
    modifies k, k.ram
    ensures k.Valid() && k.live == old(k.live) - BlocksOf(Foot(sh))
    ensures OnlyTable(old(k.ram[..]), k.ram[..])
  {
    hide WordAt;
    ghost var m, live := k.ram[..], k.live;
    var dir := LoadWord(k.ram, chunk);
    for i := 0 to 1024
      invariant k.Valid() && k.live == live - Freed(sh, i)
      invariant OnlyTable(m, k.ram[..])
      invariant Ready(k.ram[..], sh)
    {
      ghost var m1: Mem := k.ram[..];
      var t := TableOf(k.ram, dir, i, sh);
      NotFreed(live, sh, i, t);
      k.Free(t);
      assert Freed(sh, i + 1) == Freed(sh, i) + {BlockIndex(t)};
      WiredKept(m1, k.ram[..], live, sh);
    }
    assert WordAt(k.ram[..], sh.chunk) == sh.dir;
    NotFreed(live, sh, 1024, dir);
    NotFreed(live, sh, 1024, chunk);
    k.Free(dir);
    assert BlockIndex(chunk) != BlockIndex(dir);
    k.Free(chunk);
    assert BlocksOf(Foot(sh)) == Freed(sh, 1024) + {BlockIndex(dir), BlockIndex(chunk)};
  }

  /** Blocks of `sh` not among its first `i` tables are still live after those were freed. */
  lemma NotFreed(live: Runs, sh: Space, i: int, t: Word)
    requires Owned(live, sh) && 0 <= i <= 1024
    requires t == sh.chunk || t == sh.dir || (i < 1024 && t == sh.tables[i])
    ensures Start(live - Freed(sh, i), t)
  {
    assert OneBlock(live, t);
    forall j | 0 <= j < i ensures BlockIndex(sh.tables[j]) != BlockIndex(t) {
      assert OneBlock(live, sh.tables[j]) && sh.tables[j] != t;
    }
  }

  lemma WiredKept(m: Mem, m': Mem, live: Runs, sh: Space)
    requires WellFormed(live) && Owned(live, sh) && Wired(m, sh) && OnlyTable(m, m')
    ensures Wired(m', sh)
  {
    forall t: Frame | InFoot(sh, t) ensures SamePage(m, m', t) { OneBlockInPool(live, t); }
    FootFrame(m, m', sh);
  }

  /** In a fresh space every address translates to itself. */
  lemma IdentityTranslation(m: Mem, sh: Space, flags: Byte, a: Word)
    requires forall v: Page :: Pte(m, sh, v) == 4096 * v + flags
    ensures Physical(m, sh, a) == a
  {
    hide WordAt;
    ModAdd(a / 4096, flags);
  }

  /** One request to map a range. */
  datatype MapRequest = MapRequest(va: Word, pa: Word, end: Word, flags: Word)

  /** Building a space, mapping anything at all in it, and freeing it gives back the heap table byte for byte. */
  method SpaceRoundTrip(k: Machine, flags: Byte, maps: seq<MapRequest>)
    requires k.Valid() && |FreeSet(k.live)| >= 1026 && forall i :: 0 <= i < |maps| ==> maps[i].flags < 4096
    modifies k, k.ram
    ensures k.Valid() && k.live == old(k.live)
    ensures Same(old(k.ram[..]), k.ram[..], 0x7E00, 0x7E00 + 25600)
  {
    hide WordAt, Pte, Encodes, Owned, BlockIndex;
    ghost var m, live := k.ram[..], k.live;
    var chunk;
    ghost var sh;
    chunk, sh := New4gb(k, flags);
    SpaceIsReady(k.ram[..], k.live, sh);
    for i := 0 to |maps|
      invariant k.Valid() && Owned(k.live, sh) && Ready(k.ram[..], sh) && Grown(live, k.live, Foot(sh))
    {
      ghost var m1: Mem := k.ram[..];
      var _ := MapTo(k.ram, chunk, maps[i].va, maps[i].pa, maps[i].end, maps[i].flags, sh);
      MappingKeepsHeap(m1, k.live, sh, k.ram[..]);
    }
    Free4gb(k, chunk, sh);
    assert k.live == live;
    TableOfRuns(m, k.ram[..], live);
  }

  lemma SpaceIsReady(m: Mem, live: Runs, sh: Space)
    requires Owned(live, sh) && Wired(m, sh)
    ensures Ready(m, sh)
  {
  }

  lemma MappingKeepsHeap(m: Mem, live: Runs, sh: Space, m': Mem)
    requires Encodes(m, live) && Owned(live, sh) && OnlyTables(m, m', sh)
    ensures Encodes(m', live)
  {
    forall i | 0 <= i < 1024 ensures !HeapPage(sh.tables[i]) { OneBlockInPool(live, sh.tables[i]); }
    TableUntouched(m, m', live);
  }

  // ---- isolation of address spaces ----------------------------------------

  ghost predicate SameTranslations(m: Mem, m': Mem, sh: Space) {
    Wired(m', sh) && forall v: Page :: Pte(m', sh, v) == Pte(m, sh, v)
  }

  /** Whatever `paging_map_to` does in one live space, every translation of another stays. */
  lemma MappingIsolated(m: Mem, live: Runs, a: Space, b: Space, m': Mem)
    requires WellFormed(live) && Owned(live, a) && Owned(live, b) && Foot(a) !! Foot(b)
    requires Wired(m, b) && OnlyTables(m, m', a)
    ensures SameTranslations(m, m', b)
  {
    hide WordAt;
    forall t: Frame | InFoot(b, t) ensures SamePage(m, m', t) {
      assert t in Foot(b);
      assert t in a.tables ==> t in Foot(a);
    }
    FootFrame(m, m', b);
  }

  /** An allocation leaves every translation of every live space. */
  lemma AllocationIsolated(m: Mem, live: Runs, size: Word, p: Word, m': Mem, live': Runs, b: Space)
    requires WellFormed(live) && p != 0 && Allocated(live, size, p, live') && ZeroedAt(m, m', p, size)
    requires Owned(live, b) && Wired(m, b) && 1 <= Blocks(size) && size <= 4096 * Blocks(size)
    ensures SameTranslations(m, m', b)
  {
    hide WordAt;
    forall t: Frame | InFoot(b, t) ensures SamePage(m, m', t) {
      assert OneBlock(live, t);
      OneBlockInPool(live, t);
      assert Covers(live, BlockIndex(t), BlockIndex(t)) && Taken(live, BlockIndex(t));
      assert t == 4096 * (0x1000 + BlockIndex(t)) && p == 4096 * (0x1000 + BlockIndex(p));
    }
    FootFrame(m, m', b);
  }

  /** Freeing a block that is not one of its own leaves every translation of a live space, and the space live. */
  lemma FreeIsolated(m: Mem, live: Runs, s: int, m': Mem, b: Space)
    requires WellFormed(live) && Owned(live, b) && Wired(m, b) && OnlyTable(m, m')
    requires s !in BlocksOf(Foot(b))
    ensures SameTranslations(m, m', b) && Owned(live - {s}, b)
  {
    hide WordAt, BlockIndex;
    WiredKept(m, m', live, b);
    forall t: Frame | InFoot(b, t) ensures SamePage(m, m', t) && OneBlock(live - {s}, t) {
      assert OneBlock(live, t) && t in Foot(b);
      OneBlockInPool(live, t);
    }
    FootFrame(m, m', b);
  }
}
