/** task.c: bringing a task's string into a kernel buffer through the task's own page tables. */
module TaskMemory {
  import opened Ram
  import opened HeapTable
  import opened PageTables
  import opened Paging
  import opened Kheap
  import opened ProcessMemory
  import opened ProcessCode

  /** The characters before the first terminator. */
  function CString(s: seq<Byte>): (t: seq<Byte>)
    ensures |t| <= |s| && t == s[..|t|] && 0 !in t && (|t| < |s| ==> s[|t|] == 0)
  {
    if s == [] || s[0] == 0 then [] else [s[0]] + CString(s[1..])
  }

  lemma {:induction false} CStringIs(s: seq<Byte>, n: nat)
    requires n <= |s| && 0 !in s[..n] && (n == |s| || s[n] == 0)
    ensures CString(s) == s[..n]
  {
    if n > 0 {
      assert s[..n][0] == s[0] && s[..n][1..] == s[1..][..n - 1];
      CStringIs(s[1..], n - 1);
    }
  }

  /** The byte `i` above virtual address `va`, as the task's tables present it. */
  ghost function SourceByte(m: Mem, sh: Space, va: Word, i: int): Byte {
    m[Physical(m, sh, Wrap(va as int + i))]
  }

  /** `n` bytes from virtual address `va` on, as the task's tables present them. */
  ghost function VirtualBytes(m: Mem, sh: Space, va: Word, n: nat): seq<Byte> {
    seq(n, i requires 0 <= i < n => SourceByte(m, sh, va, i))
  }

  /** `t` and a terminator were written at `dst`; nothing else changed. */
  ghost predicate Written(m: Mem, m': Mem, dst: Word, t: seq<Byte>) {
    && dst + |t| < 0x1_0000_0000
    && forall a: Word :: m'[a] ==
         if dst <= a < dst + |t| then t[a - dst] else if a == dst + |t| then 0 else m[a]
  }

  /** string.c `strncpy` between physical buffers. */
  method Strncpy(ram: array<Byte>, dst: Word, src: Word, count: int)
    requires ram.Length == 0x1_0000_0000 && 0 < count && dst + count <= 0x1_0000_0000 && src + count <= 0x1_0000_0000
    requires dst + count <= src || src + count <= dst
    modifies ram
    ensures Written(old(ram[..]), ram[..], dst, CString(old(ram[..])[src..src + count - 1]))
    ensures forall a: Word :: !(dst <= a < dst + count) ==> ram[..][a] == old(ram[..])[a]
    ensures var n := |CString(old(ram[..])[src..src + count - 1])|;
      forall a: Word ::
        ram[..][a] ==
        if dst <= a < dst + n then old(ram[..])[src + (a - dst)] else if a == dst + n then 0 else old(ram[..])[a]
  {
    hide CString, Written;
    ghost var m: Mem := ram[..];
    ghost var s := m[src..src + count - 1];
    var i := 0;
    while i < count - 1
      invariant 0 <= i <= count - 1 && 0 !in s[..i]
      invariant forall a: Word :: ram[a] == if dst <= a < dst + i then s[a - dst] else m[a]
    {
      if ram[src + i] == 0 {
        break;
      }
      assert ram[src + i] == s[i];
      ram[dst + i] := ram[src + i];
      i := i + 1;
    }
    ram[dst + i] := 0;
    PlainString(m, ram[..], dst, src, s, i);
  }

  lemma PlainString(m: Mem, m': Mem, dst: Word, src: Word, s: seq<Byte>, n: int)
    requires 0 <= n <= |s| && dst + n < 0x1_0000_0000 && src + |s| < 0x1_0000_0000 && s == m[src..src + |s|]
    requires 0 !in s[..n] && (n == |s| || s[n] == 0)
    requires forall a: Word :: a != dst + n ==> m'[a] == if dst <= a < dst + n then s[a - dst] else m[a]
    requires m'[dst + n] == 0
    ensures |CString(s)| == n && Written(m, m', dst, CString(s))
    ensures forall a: Word ::
      m'[a] == if dst <= a < dst + n then m[src + (a - dst)] else if a == dst + n then 0 else m[a]
  {
    CStringIs(s, n);
  }

  /** Both levels have page `v` present, so that the kernel reads it without a fault. */
  predicate Readable(m: Mem, sh: Space, v: Page) {
    Pte(m, sh, v) % 2 == 1 && sh.flags % 2 == 1
  }

  /** The first `n` source bytes are read from present pages that neither the copy nor its set-up writes. */
  ghost predicate SourceClear(m: Mem, sh: Space, va: Word, n: int, tmp: Frame) {
    forall a: Word :: (a - va) % 0x1_0000_0000 < n ==> ByteClear(m, sh, a, tmp)
  }

  ghost predicate ByteClear(m: Mem, sh: Space, a: Word, tmp: Frame) {
    var t := Untag(Physical(m, sh, a));
    Readable(m, sh, a / 4096) && a / 4096 != tmp / 4096 && t != tmp && t !in sh.tables && !HeapPage(t)
  }

  /** The same loop run with the task's directory loaded: both pointers are virtual. */
  method StrncpyVirtual(ram: array<Byte>, dir: Frame, dst: Frame, src: Word, count: int, ghost sh: Space)
    requires ram.Length == 0x1_0000_0000 && Ready(ram[..], sh) && dir == sh.dir && 0 < count < 4096
    requires !InFoot(sh, dst) && Untag(Pte(ram[..], sh, dst / 4096)) == dst
    modifies ram
    ensures Ready(ram[..], sh) && forall v: Page :: Pte(ram[..], sh, v) == Pte(old(ram[..]), sh, v)
    ensures forall a: Word :: !(dst <= a < dst + count) ==> ram[..][a] == old(ram[..])[a]
    ensures SourceClear(old(ram[..]), sh, src, count - 1, dst) ==>
      Written(old(ram[..]), ram[..], dst, CString(VirtualBytes(old(ram[..]), sh, src, count - 1)))
  {
    hide WordAt, Pte, Physical, Untag, Distinct, Wired, SourceClear, CString, VirtualBytes, Written, SourceByte, Wrap;
    ghost var m: Mem := ram[..];
    FrameBound(dst);
    ghost var clear := SourceClear(m, sh, src, count - 1, dst);
    var i := 0;
    while i < count - 1
      invariant 0 <= i <= count - 1
      invariant Ready(ram[..], sh) && forall v: Page :: Pte(ram[..], sh, v) == Pte(m, sh, v)
      invariant forall a: Word :: !(dst <= a < dst + i) ==> ram[a] == m[a]
      invariant clear ==> forall j :: 0 <= j < i ==> ram[dst + j] == SourceByte(m, sh, src, j) != 0
    {
      var from := GetPhysicalAddress(ram, dir, Wrap(src as int + i), sh);
      SamePhysical(m, ram[..], sh, Wrap(src as int + i));
      SourceByteIs(m, sh, src, i, from);
      if clear { ClearByte(m, sh, src, i, count - 1, dst, from); }
      if ram[from] == 0 {
        break;
      }
      IdentityByte(m, ram[..], sh, dst, i);
      var to := GetPhysicalAddress(ram, dir, dst + i, sh);
      ghost var m1: Mem := ram[..];
      ram[to] := ram[from];
      BlockWrite(m1, ram[..], sh, dst);
      i := i + 1;
    }
    IdentityByte(m, ram[..], sh, dst, i);
    var to := GetPhysicalAddress(ram, dir, dst + i, sh);
    ghost var m1: Mem := ram[..];
    ram[to] := 0;
    BlockWrite(m1, ram[..], sh, dst);
    if clear { StringWritten(m, ram[..], sh, src, dst, count, i); }
  }

  lemma StringWritten(m: Mem, m': Mem, sh: Space, va: Word, dst: Frame, count: int, n: int)
    requires 0 <= n < count < 4096 && forall a: Word :: !(dst <= a < dst + n + 1) ==> m'[a] == m[a]
    requires dst + n < 0x1_0000_0000 && forall j :: 0 <= j < n ==> m'[dst + j] == SourceByte(m, sh, va, j) != 0
    requires m'[dst + n] == 0 && (n == count - 1 || SourceByte(m, sh, va, n) == 0)
    ensures var t := CString(VirtualBytes(m, sh, va, count - 1));
      Written(m, m', dst, t) && dst + |t| < 0x1_0000_0000 && m'[dst..dst + |t|] == t && m'[dst + |t|] == 0
  {
    hide SourceByte;
    var s := VirtualBytes(m, sh, va, count - 1);
    forall j | 0 <= j < n ensures m'[dst + j] == s[j] != 0 { assert m'[dst + j] == SourceByte(m, sh, va, j); }
    CStringIs(s, n);
    forall a: Word | dst <= a < dst + n ensures m'[a] == s[a - dst] { assert m'[dst + (a - dst)] == s[a - dst]; }
  }

  lemma SourceByteIs(m: Mem, sh: Space, va: Word, i: int, from: Word)
    requires from == Physical(m, sh, Wrap(va as int + i))
    ensures SourceByte(m, sh, va, i) == m[from]
  {
  }

  /** Byte by byte: the source up to its first zero, or to one byte before the end, and then a terminator. */
  lemma StringBytes(m: Mem, sh: Space, va: Word, count: int, t: seq<Byte>)
    requires 0 < count && t == CString(VirtualBytes(m, sh, va, count - 1))
    ensures forall i :: 0 <= i < |t| ==> t[i] == m[Physical(m, sh, (va + i) % 0x1_0000_0000)] != 0
    ensures |t| < count && (|t| == count - 1 || m[Physical(m, sh, (va + |t|) % 0x1_0000_0000)] == 0)
  {
    hide Physical;
    var s := VirtualBytes(m, sh, va, count - 1);
    forall i | 0 <= i < |t| ensures t[i] == m[Physical(m, sh, (va + i) % 0x1_0000_0000)] != 0 {
      assert t[i] == s[i] && t[i] in t;
    }
  }

  lemma StringFits(m: Mem, sh: Space, va: Word, n: nat)
    ensures |CString(VirtualBytes(m, sh, va, n))| <= n && 0 !in CString(VirtualBytes(m, sh, va, n))
  {
  }

  lemma SamePhysical(m: Mem, m': Mem, sh: Space, a: Word)
    requires Pte(m', sh, a / 4096) == Pte(m, sh, a / 4096)
    ensures Physical(m', sh, a) == Physical(m, sh, a)
  {
  }

  lemma IdentityByte(m: Mem, m': Mem, sh: Space, dst: Frame, i: int)
    requires 0 <= i < 4096 && Pte(m', sh, dst / 4096) == Pte(m, sh, dst / 4096) && Untag(Pte(m, sh, dst / 4096)) == dst
    ensures dst + i < 0x1_0000_0000 && Physical(m', sh, dst + i) == dst + i
  {
    FrameBound(dst);
    ModAdd(dst / 4096, i);
  }

  lemma ClearByte(m: Mem, sh: Space, src: Word, i: int, n: int, dst: Frame, from: Word)
    requires SourceClear(m, sh, src, n, dst) && 0 <= i < n <= 0x1_0000_0000
    requires from == Physical(m, sh, Wrap(src as int + i))
    ensures !(dst <= from < dst + 4096)
  {
    hide Physical;
    ClearAt(m, sh, src, n, dst, i);
    PageOf(from, dst);
  }

  /** Byte `i` of a clear source is at `va + i`, counted round the end of the address space. */
  lemma ClearAt(m: Mem, sh: Space, va: Word, n: int, tmp: Frame, i: int)
    requires SourceClear(m, sh, va, n, tmp) && 0 <= i < n <= 0x1_0000_0000
    ensures ByteClear(m, sh, (va + i) % 0x1_0000_0000, tmp)
  {
    hide ByteClear;
    Distance(va, i);
  }

  lemma Distance(va: Word, i: int)
    requires 0 <= i < 0x1_0000_0000
    ensures ((va + i) % 0x1_0000_0000 - va) % 0x1_0000_0000 == i
  {
  }

  lemma PageOf(a: Word, t: Frame)
    ensures t <= a < t + 4096 <==> Untag(a) == t
  {
  }

  /** A write inside a block that is not part of the space leaves the space alone. */
  lemma BlockWrite(m: Mem, m': Mem, sh: Space, dst: Frame)
    requires Ready(m, sh) && !InFoot(sh, dst)
    requires forall a: Word :: !(dst <= a < dst + 4096) ==> m'[a] == m[a]
    ensures Ready(m', sh) && forall v: Page :: Pte(m', sh, v) == Pte(m, sh, v)
  {
    forall t: Frame | t != dst ensures SamePage(m, m', t) { FramesApart(t, dst); }
    FootFrame(m, m', sh);
  }

  /** A kernel buffer below the heap pool and above the heap table. */
  predicate KernelBuffer(pa: Word, max: int) {
    0xF000 <= pa && pa + max <= 0x0100_0000
  }

  /** Apart from the heap's bookkeeping, the tables of `sh`, free pages and the buffer, nothing changed. */
  ghost predicate KeptCopy(m: Mem, live: Runs, m': Mem, sh: Space, pa: Word, max: int) {
    forall t: Frame :: !HeapPage(t) && t !in sh.tables && !FreePage(live, t) && (t + 4096 <= pa || pa + max <= t) ==>
      SamePage(m, m', t)
  }

  /** Page `t` lies clear of the space's tables, of the temporary block and of the buffer. */
  ghost predicate Untouched(sh: Space, buf: Frame, pa: Word, max: int, t: Frame) {
    t !in sh.tables && t != buf && (t + 4096 <= pa || pa + max <= t)
  }

  ghost predicate InPool(sh: Space) {
    forall t: Frame :: InFoot(sh, t) ==> t >= 0x0100_0000
  }

  /** From the temporary mapping to the second copy. */
  method CopyThrough(ram: array<Byte>, chunk: Frame, buf: Frame, va: Word, pa: Word, max: int, ghost sh: Space)
    returns (r: int, ghost t: seq<Byte>)
    requires ram.Length == 0x1_0000_0000 && Ready(ram[..], sh) && chunk == sh.chunk && 0 < max < 4096
    requires KernelBuffer(pa, max) && buf >= 0x0100_0000 && InPool(sh) && !InFoot(sh, buf)
    modifies ram
    ensures SourceClear(old(ram[..]), sh, va, max - 1, buf) ==>
      && (forall i :: 0 <= i < |t| ==> t[i] == old(ram[..])[Physical(old(ram[..]), sh, (va + i) % 0x1_0000_0000)] != 0)
      && |t| < max && (|t| == max - 1 || old(ram[..])[Physical(old(ram[..]), sh, (va + |t|) % 0x1_0000_0000)] == 0)
      && pa + |t| < 0x1_0000_0000 && ram[..][pa..pa + |t|] == t && ram[..][pa + |t|] == 0
    ensures r == 0 && Ready(ram[..], sh) && forall v: Page :: Pte(ram[..], sh, v) == Pte(old(ram[..]), sh, v)
    ensures forall t: Frame :: Untouched(sh, buf, pa, max, t) ==> SamePage(old(ram[..]), ram[..], t)
    ensures SourceClear(old(ram[..]), sh, va, max - 1, buf) ==>
      Delivered(ram[..], pa, CString(VirtualBytes(old(ram[..]), sh, va, max - 1)))
  {
    hide WordAt, Pte, Physical, Distinct, Wired, Untag, CString, VirtualBytes, SourceClear, Written,
      Untouched, InPool, OnlyTables, Wrap, Updated, Delivered;
    ghost var m1: Mem := ram[..];
    FrameBound(buf);
    var dir := LoadWord(ram, chunk);
    ReadyDir(ram[..], sh);
    var entry := Get(ram, dir, buf, sh);
    r := Map(ram, chunk, buf, buf, 7, sh);
    ghost var m2: Mem := ram[..];
    TempEntry(m1, m2, sh, buf);
    StrncpyVirtual(ram, dir, buf, va, max, sh);
    ghost var m3: Mem := ram[..];
    r := Set(ram, dir, buf, entry, sh);
    ghost var m4: Mem := ram[..];
    t := CString(VirtualBytes(m1, sh, va, max - 1));
    if r < 0 {
      return -1, t;
    }
    Strncpy(ram, pa, buf, max);
    BufferWrite(m4, ram[..], sh, pa, max);
    EntriesBack(m1, m2, m3, m4, sh, buf, entry);
    CopyFrames(m1, m2, m3, m4, ram[..], sh, buf, pa, max);
    if SourceClear(m1, sh, va, max - 1, buf) {
      SourceKept(m1, m2, sh, va, max - 1, buf);
      StringBytes(m1, sh, va, max, t);
      ThroughTemp(m2, m3, m4, ram[..], sh, buf, pa, max, t) by { StringFits(m1, sh, va, max - 1); }
    }
  }

  lemma TempEntry(m1: Mem, m2: Mem, sh: Space, buf: Frame)
    requires buf + 7 < 0x1_0000_0000 && Updated(m1, m2, sh, buf / 4096, buf + 7)
    ensures Untag(Pte(m2, sh, buf / 4096)) == buf && buf % 4096 == 0
  {
    hide WordAt, Pte;
    ModAdd(buf / 4096, 0);
    EntryBits(buf / 4096, 7);
  }

  /** The old entry is back. */
  lemma EntriesBack(m1: Mem, m2: Mem, m3: Mem, m4: Mem, sh: Space, buf: Frame, entry: Word)
    requires buf + 7 < 0x1_0000_0000 && Updated(m1, m2, sh, buf / 4096, buf + 7)
    requires entry == Pte(m1, sh, buf / 4096)
    requires (forall v: Page :: Pte(m3, sh, v) == Pte(m2, sh, v)) && Updated(m3, m4, sh, buf / 4096, entry)
    ensures forall v: Page :: Pte(m4, sh, v) == Pte(m1, sh, v)
  {
    hide WordAt, Pte;
  }

  lemma ReadyDir(m: Mem, sh: Space)
    requires Ready(m, sh)
    ensures WordAt(m, sh.chunk) == sh.dir
  {
  }

  lemma BufferWrite(m: Mem, m': Mem, sh: Space, pa: Word, max: int)
    requires Ready(m, sh) && InPool(sh) && 0 < max && KernelBuffer(pa, max)
    requires forall a: Word :: !(pa <= a < pa + max) ==> m'[a] == m[a]
    ensures Ready(m', sh) && forall v: Page :: Pte(m', sh, v) == Pte(m, sh, v)
  {
    forall t: Frame | InFoot(sh, t) ensures SamePage(m, m', t) {}
    FootFrame(m, m', sh);
  }

  lemma CopyFrames(m1: Mem, m2: Mem, m3: Mem, m4: Mem, m5: Mem, sh: Space, buf: Frame, pa: Word, max: int)
    requires OnlyTables(m1, m2, sh) && OnlyTables(m3, m4, sh) && 0 < max < 4096
    requires forall a: Word :: !(buf <= a < buf + max) ==> m3[a] == m2[a]
    requires forall a: Word :: !(pa <= a < pa + max) ==> m5[a] == m4[a]
    ensures forall t: Frame :: Untouched(sh, buf, pa, max, t) ==> SamePage(m1, m5, t)
  {
    forall t: Frame | Untouched(sh, buf, pa, max, t) ensures SamePage(m1, m5, t) {
      FramesApart(t, buf);
      assert SamePage(m1, m2, t) && SamePage(m3, m4, t);
    }
  }

  lemma SameBytes(m: Mem, m': Mem, sh: Space, va: Word, n: nat)
    requires n <= 0x1_0000_0000
    requires forall a: Word :: (a - va) % 0x1_0000_0000 < n ==> m'[Physical(m', sh, a)] == m[Physical(m, sh, a)]
    ensures VirtualBytes(m', sh, va, n) == VirtualBytes(m, sh, va, n)
  {
    hide Physical;
    forall i | 0 <= i < n ensures VirtualBytes(m', sh, va, n)[i] == VirtualBytes(m, sh, va, n)[i] {
      Distance(va, i);
    }
  }

  /** The temporary mapping does not change what the source bytes are. */
  lemma SourceKept(m1: Mem, m2: Mem, sh: Space, va: Word, n: nat, buf: Frame)
    requires n <= 0x1_0000_0000
    requires SourceClear(m1, sh, va, n, buf) && OnlyTables(m1, m2, sh) && Updated(m1, m2, sh, buf / 4096, buf + 7)
    ensures SourceClear(m2, sh, va, n, buf) && VirtualBytes(m2, sh, va, n) == VirtualBytes(m1, sh, va, n)
  {
    hide WordAt, Pte, Physical;
    forall a: Word | (a - va) % 0x1_0000_0000 < n
      ensures ByteClear(m2, sh, a, buf) && m2[Physical(m2, sh, a)] == m1[Physical(m1, sh, a)]
    {
      assert ByteClear(m1, sh, a, buf);
      SamePhysical(m1, m2, sh, a);
      var b := Physical(m1, sh, a);
      assert SamePage(m1, m2, Untag(b));
    }
    SameBytes(m1, m2, sh, va, n);
  }

  /** What lands in the temporary block arrives in the buffer. */
  lemma ThroughTemp(m2: Mem, m3: Mem, m4: Mem, m5: Mem, sh: Space, buf: Frame, pa: Word, max: int, t: seq<Byte>)
    requires 0 < max < 4096 && KernelBuffer(pa, max) && buf >= 0x0100_0000 && buf !in sh.tables && |t| < max && 0 !in t
    requires buf + max <= 0x1_0000_0000
    requires Written(m2, m3, buf, t) && OnlyTables(m3, m4, sh)
    requires Written(m4, m5, pa, CString(m4[buf..buf + max - 1]))
    ensures Delivered(m5, pa, t) && pa + |t| < 0x1_0000_0000 && m5[pa..pa + |t|] == t && m5[pa + |t|] == 0
  {
    var s := m4[buf..buf + max - 1];
    assert SamePage(m3, m4, buf);
    assert s[..|t|] == t;
    assert |t| < |s| ==> s[|t|] == m3[buf + |t|] == 0;
    CStringIs(s, |t|);
  }

  ghost predicate Delivered(m: Mem, pa: Word, t: seq<Byte>) {
    pa + |t| < 0x1_0000_0000 && m[pa..pa + |t|] == t && m[pa + |t|] == 0
  }

  /** Delivers the task's string, cut to `max - 1` characters, and leaves every page entry and
      the heap as they were. */
  method CopyStringFromTask(k: Machine, p: Process, va: Word, pa: Word, max: int)
    returns (r: int, ghost tmp: Frame, ghost t: seq<Byte>)
    requires p.Consistent(k) && 0 < max && KernelBuffer(pa, max)
    modifies k, k.ram
    ensures r == 0 && SourceClear(old(k.ram[..]), p.sh, va, max - 1, tmp) ==>
      && (forall i :: 0 <= i < |t| ==>
            t[i] == old(k.ram[..])[Physical(old(k.ram[..]), p.sh, (va + i) % 0x1_0000_0000)] != 0)
      && |t| < max
      && (|t| == max - 1 || old(k.ram[..])[Physical(old(k.ram[..]), p.sh, (va + |t|) % 0x1_0000_0000)] == 0)
      && pa + |t| < 0x1_0000_0000 && k.ram[..][pa..pa + |t|] == t && k.ram[..][pa + |t|] == 0
    ensures p.Consistent(k) && k.live == old(k.live)
    ensures forall v: Page :: Pte(k.ram[..], p.sh, v) == Pte(old(k.ram[..]), p.sh, v)
    ensures KeptCopy(old(k.ram[..]), old(k.live), k.ram[..], p.sh, pa, max) && SameLow(old(k.ram[..]), k.ram[..])
    ensures r == if max >= 4096 then -2 else if SomeFit(old(k.ram[..]), 1) then 0 else -3
    ensures r != 0 ==> k.ram[..] == old(k.ram[..])
    ensures r == 0 ==> FirstFit(old(k.ram[..]), 1, tmp) && FreePage(old(k.live), tmp)
  {
    hide WordAt, Pte, Physical, BlockIndex, Agree, SourceClear, CString, VirtualBytes, Untouched,
      OnlyTable, ZeroedAt, InFoot, Delivered, FirstFit, FreePage, KeptLive, KernelBuffer;
    ghost var m, live, v0 := k.ram[..], k.live, p.View();
    tmp, t := 0, [];
    if max >= 4096 {
      return -2, tmp, t;
    }
    assert Blocks(max) == 1;
    GuardOne(m);
    var buf := k.Kzalloc(max);
    if buf == 0 {
      return -3, tmp, t;
    }
    ghost var m1, live1 := k.ram[..], k.live;
    NewTemp(m, live, v0, max, buf, m1, live1);
    tmp := buf;
    r, t := CopyThrough(k.ram, p.chunk, buf, va, pa, max, p.sh);
    ghost var m5: Mem := k.ram[..];
    HeapThrough(m1, m5, live1, p.sh, buf, pa, max);
    k.Free(buf);
    CopyDone(m, live, v0, m1, m5, k.ram[..], buf, pa, max);
    if SourceClear(m, p.sh, va, max - 1, buf) {
      TempFresh(m, m1, p.sh, va, max - 1, buf);
      t := CString(VirtualBytes(m, p.sh, va, max - 1));
      StillDelivered(m, m5, k.ram[..], p.sh, va, pa, max, t);
    }
  }

  lemma HeapThrough(m1: Mem, m5: Mem, live1: Runs, sh: Space, buf: Frame, pa: Word, max: int)
    requires Encodes(m1, live1) && InPool(sh) && buf >= 0x0100_0000 && KernelBuffer(pa, max)
    requires forall t: Frame :: Untouched(sh, buf, pa, max, t) ==> SamePage(m1, m5, t)
    ensures Encodes(m5, live1) && SameLow(m1, m5)
  {
    forall u: Frame | HeapPage(u) ensures SamePage(m1, m5, u) {
      assert InFoot(sh, u) ==> u >= 0x0100_0000;
      assert Untouched(sh, buf, pa, max, u);
    }
    TableUntouched(m1, m5, live1);
    SameLowPages(m1, m5);
  }

  lemma CopyDone(m: Mem, live: Runs, p: Proc, m1: Mem, m5: Mem, m6: Mem, buf: Frame, pa: Word, max: int)
    requires Agree(m, live, p) && Ready(m5, p.sh) && FreePage(live, buf) && SameLow(m, m1) && SameLow(m1, m5)
    requires KeptLive(m, live, m1, p.sh) && OnlyTable(m5, m6)
    requires forall t: Frame :: Untouched(p.sh, buf, pa, max, t) ==> SamePage(m1, m5, t)
    requires forall v: Page :: Pte(m5, p.sh, v) == Pte(m, p.sh, v)
    ensures Agree(m6, live, p) && KeptCopy(m, live, m6, p.sh, pa, max) && SameLow(m, m6)
    ensures forall v: Page :: Pte(m6, p.sh, v) == Pte(m, p.sh, v)
  {
    hide WordAt, BlockIndex;
    assert Agree(m5, live, p);
    forall t: Frame | InFoot(p.sh, t) ensures SamePage(m5, m6, t) { FootInPool(live, p.sh, t); }
    AgreeKept(m5, live, m6, live, p);
    forall t: Frame | !HeapPage(t) && t !in p.sh.tables && !FreePage(live, t) && (t + 4096 <= pa || pa + max <= t)
      ensures SamePage(m, m6, t)
    {
      assert Untouched(p.sh, buf, pa, max, t);
      assert SamePage(m, m1, t) && SamePage(m1, m5, t);
    }
  }

  /** Allocating the temporary block does not change what the source bytes are. */
  lemma TempFresh(m: Mem, m1: Mem, sh: Space, va: Word, n: nat, buf: Frame)
    requires n <= 0x1_0000_0000
    requires SourceClear(m, sh, va, n, buf) && forall v: Page :: Pte(m1, sh, v) == Pte(m, sh, v)
    requires forall t: Frame :: !HeapPage(t) && t != buf ==> SamePage(m, m1, t)
    ensures SourceClear(m1, sh, va, n, buf) && VirtualBytes(m1, sh, va, n) == VirtualBytes(m, sh, va, n)
  {
    hide WordAt, Pte, Physical;
    forall a: Word | (a - va) % 0x1_0000_0000 < n
      ensures ByteClear(m1, sh, a, buf) && m1[Physical(m1, sh, a)] == m[Physical(m, sh, a)]
    {
      assert ByteClear(m, sh, a, buf);
      SamePhysical(m, m1, sh, a);
      assert SamePage(m, m1, Untag(Physical(m, sh, a)));
    }
    SameBytes(m, m1, sh, va, n);
  }

  lemma StillDelivered(m: Mem, m5: Mem, m6: Mem, sh: Space, va: Word, pa: Word, max: int, t: seq<Byte>)
    requires 0 < max && t == CString(VirtualBytes(m, sh, va, max - 1))
    requires Delivered(m5, pa, t) && KernelBuffer(pa, max) && OnlyTable(m5, m6)
    ensures forall i :: 0 <= i < |t| ==> t[i] == m[Physical(m, sh, (va + i) % 0x1_0000_0000)] != 0
    ensures |t| < max && (|t| == max - 1 || m[Physical(m, sh, (va + |t|) % 0x1_0000_0000)] == 0)
    ensures pa + |t| < 0x1_0000_0000 && m6[pa..pa + |t|] == t && m6[pa + |t|] == 0
  {
    hide Physical;
    StringBytes(m, sh, va, max, t);
    assert m6[pa..pa + |t|] == m5[pa..pa + |t|];
  }

  lemma NewTemp(m: Mem, live: Runs, p: Proc, max: Word, buf: Word, m1: Mem, live1: Runs)
    requires Agree(m, live, p) && WellFormed(live1) && buf != 0 && Allocated(live, max, buf, live1) && Blocks(max) == 1
    requires ZeroedAt(m, m1, buf, max) && buf + max <= 0x0740_0000
    ensures buf % 4096 == 0 && 0x0100_0000 <= buf < 0x0740_0000 && FreePage(live, buf) && !InFoot(p.sh, buf)
    ensures Agree(m1, live1, p) && Ready(m1, p.sh) && Start(live1, buf) && live1 - {BlockIndex(buf)} == live
    ensures forall v: Page :: Pte(m1, p.sh, v) == Pte(m, p.sh, v)
    ensures KeptLive(m, live, m1, p.sh) && SameLow(m, m1) && InPool(p.sh)
    ensures forall t: Frame :: !HeapPage(t) && t != buf ==> SamePage(m, m1, t)
  {
    hide WordAt, Pte, BlockIndex, BlockAddr, PagesAgree, RecordsAgree, LowConfined;
    KzallocKeeps(m, live, p, max, buf, m1, live1);
    AddRun(live, BlockIndex(buf), 1);
    BlockAligned(BlockIndex(buf));
    TempPage(live, buf);
    if InFoot(p.sh, buf) { FootInPool(live, p.sh, buf); }
    forall t: Frame | InFoot(p.sh, t) ensures t >= 0x0100_0000 { FootInPool(live, p.sh, t); }
    forall t: Frame | !HeapPage(t) && t != buf ensures SamePage(m, m1, t) { FramesApart(t, buf); }
  }

  lemma TempPage(live: Runs, buf: Word)
    requires buf == BlockAddr(BlockIndex(buf)) && 0 <= BlockIndex(buf) < 25600 && !Taken(live, BlockIndex(buf))
    ensures buf % 4096 == 0 && FreePage(live, buf) && 0x0100_0000 <= buf < 0x0740_0000
  {
    BlockAligned(BlockIndex(buf));
    assert buf / 4096 - 0x1000 == BlockIndex(buf);
  }
}
