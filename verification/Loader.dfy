/** Loading: the segment and stack mappings of process.c and elfloader.c. */
module Loader {
  import opened Ram
  import opened PageTables
  import opened Paging
  import ProcessMemory

  /** The fields of a program header that mapping uses; `offset` is a signed file offset. */
  datatype Segment = Segment(offset: int, vaddr: Word, memsz: Word, flags: Word)

  function PhysAddress(image: Word, s: Segment): Word {
    Wrap(image + s.offset)
  }

  function FirstPage(s: Segment): Page {
    AlignToLowerPage(s.vaddr) / 4096
  }

  function PhysStart(image: Word, s: Segment): Frame {
    AlignToLowerPage(PhysAddress(image, s))
  }

  function PhysEnd(image: Word, s: Segment): Word {
    AlignAddress(Wrap(PhysAddress(image, s) as int + s.memsz as int))
  }

  function PageFlags(s: Segment): Word {
    if s.flags / 2 % 2 == 1 then Or(Or(0x01, 0x04), 0x02) else Or(0x01, 0x04)
  }

  predicate Rejected(image: Word, s: Segment) {
    PhysEnd(image, s) < PhysStart(image, s)
  }

  function PageCount(image: Word, s: Segment): int {
    (PhysEnd(image, s) - PhysStart(image, s)) / 4096
  }

  predicate OnPage(image: Word, s: Segment, v: Page) {
    Above(FirstPage(s), v) < PageCount(image, s)
  }

  /** The entry of page `v` once `segs` were mapped in order over entry `e`: the last segment on it wins. */
  ghost function Loaded(image: Word, segs: seq<Segment>, v: Page, e: Word): int {
    if segs == [] then e
    else
      var s := segs[|segs| - 1];
      if OnPage(image, s, v) then PhysStart(image, s) + 4096 * Above(FirstPage(s), v) + PageFlags(s)
      else Loaded(image, segs[..|segs| - 1], v, e)
  }

  lemma PageFlagsValue(s: Segment)
    ensures PageFlags(s) == if s.flags / 2 % 2 == 1 then 7 else 5
  {
    assert Or(1, 4) == 5 && Or(5, 2) == 7;
  }

  lemma AlignedSegment(image: Word, s: Segment)
    ensures AlignToLowerPage(s.vaddr) % 4096 == 0 && PhysEnd(image, s) % 4096 == 0
    ensures BadRange(AlignToLowerPage(s.vaddr), PhysStart(image, s), PhysEnd(image, s)) <==> Rejected(image, s)
  {
    hide Wrap;
    AlignUp(Wrap(PhysAddress(image, s) as int + s.memsz as int));
  }

  lemma AlignUp(a: Word)
    ensures AlignAddress(a) % 4096 == 0
    ensures a <= 0xFFFF_F000 ==> a <= AlignAddress(a) < a as int + 4096
  {
  }

  /** Maps the segments in order and stops at the first one that `paging_map_to` rejects. */
  method MapElf(ram: array<Byte>, chunk: Frame, image: Word, segs: seq<Segment>, ghost sh: Space)
    returns (r: int, ghost n: int)
    requires ram.Length == 0x1_0000_0000 && Ready(ram[..], sh) && chunk == sh.chunk
    modifies ram
    ensures Ready(ram[..], sh) && OnlyTables(old(ram[..]), ram[..], sh)
    ensures 0 <= n <= |segs| && forall i :: 0 <= i < n ==> !Rejected(image, segs[i])
    ensures if r == 0 then n == |segs| else r == -2 && n < |segs| && Rejected(image, segs[n])
    ensures forall v: Page :: Pte(ram[..], sh, v) == Loaded(image, segs[..n], v, Pte(old(ram[..]), sh, v))
  {
    hide WordAt, PhysStart, PhysEnd, PageFlags;
    ghost var m: Mem := ram[..];
    r, n := 0, 0;
    for i := 0 to |segs|
      invariant r == 0 && n == i && Ready(ram[..], sh) && OnlyTables(m, ram[..], sh)
      invariant forall j :: 0 <= j < i ==> !Rejected(image, segs[j])
      invariant forall v: Page :: Pte(ram[..], sh, v) == Loaded(image, segs[..i], v, Pte(m, sh, v))
    {
      ghost var m1: Mem := ram[..];
      var s := segs[i];
      AlignedSegment(image, s);
      PageFlagsValue(s);
      r := MapTo(ram, chunk, AlignToLowerPage(s.vaddr), PhysStart(image, s), PhysEnd(image, s), PageFlags(s), sh);
      if r < 0 {
        break;
      }
      n := n + 1;
      MapOne(m, m1, ram[..], sh, image, segs, i);
    }
  }

  lemma MapOne(m: Mem, m1: Mem, m2: Mem, sh: Space, image: Word, segs: seq<Segment>, i: int)
    requires 0 <= i < |segs|
    requires forall v: Page :: Pte(m1, sh, v) == Loaded(image, segs[..i], v, Pte(m, sh, v))
    requires OnlyTables(m, m1, sh) && OnlyTables(m1, m2, sh)
    requires Mapped(m1, m2, sh, FirstPage(segs[i]), PhysStart(image, segs[i]), PageCount(image, segs[i]),
      PageFlags(segs[i]))
    ensures forall v: Page :: Pte(m2, sh, v) == Loaded(image, segs[..i + 1], v, Pte(m, sh, v))
    ensures OnlyTables(m, m2, sh)
  {
    hide WordAt, PhysStart, PhysEnd, PageFlags, FirstPage, PageCount;
    assert segs[..i + 1][..i] == segs[..i];
    forall t: Frame | t !in sh.tables ensures SamePage(m, m2, t) {
      assert SamePage(m, m1, t) && SamePage(m1, m2, t);
    }
  }

  // ---- what a loaded segment looks like -----------------------------------

  ghost predicate PageDisjoint(image: Word, segs: seq<Segment>) {
    forall i, j, v: Page :: 0 <= i < j < |segs| && OnPage(image, segs[i], v) ==> !OnPage(image, segs[j], v)
  }

  /** The last segment on a page decides its entry. */
  lemma {:induction false} LoadedOne(image: Word, segs: seq<Segment>, i: int, v: Page, e: Word)
    requires 0 <= i < |segs| && OnPage(image, segs[i], v)
    requires forall j :: i < j < |segs| ==> !OnPage(image, segs[j], v)
    ensures Loaded(image, segs, v, e) ==
      PhysStart(image, segs[i]) + 4096 * Above(FirstPage(segs[i]), v) + PageFlags(segs[i])
  {
    var n := |segs| - 1;
    if i < n {
      assert !OnPage(image, segs[n], v);
      LoadedOne(image, segs[..n], i, v, e);
    }
  }

  lemma {:induction false} LoadedNone(image: Word, segs: seq<Segment>, v: Page, e: Word)
    requires forall i :: 0 <= i < |segs| ==> !OnPage(image, segs[i], v)
    ensures Loaded(image, segs, v, e) == e
  {
    if segs != [] { LoadedNone(image, segs[..|segs| - 1], v, e); }
  }

  /** In numbers, wrap-around included: from the page of `pa` to the page edge at or above `end` a segment lends its
      frames to as many pages from the page of its address on, and is rejected when that edge lies below. */
  lemma SegmentIs(image: Word, s: Segment, v: Page, pa: int, end: int)
    requires pa == (image + s.offset) % 0x1_0000_0000 && end == (pa + s.memsz) % 0x1_0000_0000
    ensures Rejected(image, s) <==> (end + 4095) / 4096 % 0x10_0000 < pa / 4096
    ensures OnPage(image, s, v) <==> (v - s.vaddr / 4096) % 0x10_0000 < (end + 4095) / 4096 % 0x10_0000 - pa / 4096
    ensures PhysStart(image, s) == 4096 * (pa / 4096) && FirstPage(s) == s.vaddr / 4096
    ensures PageFlags(s) == if s.flags / 2 % 2 == 1 then 7 else 5
  {
    hide AlignAddress, PageFlags;
    PageFlagsValue(s);
    ModAdd(s.vaddr / 4096, 0);
    AlignUpIs(end);
    assert PhysEnd(image, s) == 4096 * ((end + 4095) / 4096 % 0x10_0000);
    PagesBetween(pa / 4096, (end + 4095) / 4096 % 0x10_0000);
  }

  lemma PagesBetween(p: int, q: int)
    ensures (4096 * q - 4096 * p) / 4096 == q - p
  {
  }

  lemma AlignUpIs(a: Word)
    ensures AlignAddress(a) == 4096 * ((a + 4095) / 4096 % 0x10_0000)
  {
    var q, r := a / 4096, a % 4096;
    if r == 0 {
      ModAdd(q, 4095);
    } else {
      assert a + 4095 == 4096 * (q + 1) + (r - 1);
      ModAdd(q + 1, r - 1);
      if q + 1 < 0x10_0000 { WrapSmall(4096 * (q + 1)); }
    }
  }

  /** Of the segments on a page the last one decides its entry, and on the other pages it stays. */
  lemma EntryIs(image: Word, segs: seq<Segment>, i: int, v: Page, e: Word)
    requires 0 <= i < |segs| && forall j :: i < j < |segs| ==> !OnPage(image, segs[j], v)
    ensures OnPage(image, segs[i], v) ==>
      Loaded(image, segs, v, e) ==
      4096 * ((image + segs[i].offset) % 0x1_0000_0000 / 4096 + (v - segs[i].vaddr / 4096) % 0x10_0000) +
      (if segs[i].flags / 2 % 2 == 1 then 7 else 5)
    ensures (forall j :: 0 <= j < |segs| ==> !OnPage(image, segs[j], v)) ==> Loaded(image, segs, v, e) == e
  {
    hide Loaded, OnPage, PhysStart, PageFlags, FirstPage, Rejected;
    var pa := (image + segs[i].offset) % 0x1_0000_0000;
    SegmentIs(image, segs[i], v, pa, (pa + segs[i].memsz) % 0x1_0000_0000);
    if OnPage(image, segs[i], v) {
      LoadedOne(image, segs, i, v, e);
    } else if forall j :: 0 <= j < |segs| ==> !OnPage(image, segs[j], v) {
      LoadedNone(image, segs, v, e);
    }
  }

  /** The segment's bytes lie inside the 32-bit address space, in memory and in the image. */
  predicate InRange(image: Word, s: Segment) {
    && 0 < s.memsz && s.vaddr + s.memsz <= 0x1_0000_0000
    && 0 <= image + s.offset && image + s.offset + s.memsz <= 0xFFFF_F000
  }

  lemma PhysPlace(image: Word, s: Segment)
    requires InRange(image, s) && image % 4096 == 0
    ensures PhysStart(image, s) == image + s.offset - s.offset % 4096
    ensures image + s.offset + s.memsz <= PhysEnd(image, s) && FirstPage(s) == s.vaddr / 4096
  {
    hide Wrap, AlignAddress;
    ModSum(image, s.offset);
    WrapSmall(image + s.offset);
    WrapSmall(image + s.offset + s.memsz);
    AlignUp(image + s.offset + s.memsz);
    ModAdd(s.vaddr / 4096, 0);
  }

  lemma BytePlace(start: Word, a: Word)
    requires start <= a
    ensures var k := (start % 4096 + (a - start)) / 4096;
      Above(start / 4096, a / 4096) == k && a % 4096 == start % 4096 + (a - start) - 4096 * k
  {
    var q, c := start / 4096, start % 4096;
    var k := (c + (a - start)) / 4096;
    assert a == 4096 * (q + k) + (c + (a - start)) % 4096;
    ModAdd(q + k, (c + (a - start)) % 4096);
  }

  lemma ModSum(image: int, offset: int)
    requires image % 4096 == 0
    ensures (image + offset) % 4096 == offset % 4096
  {
  }

  lemma EnoughPages(end: Word, start: Word, x: int)
    requires end % 4096 == 0 && start % 4096 == 0 && 0 <= x < end - start
    ensures x / 4096 < (end - start) / 4096
  {
  }

  /** A loaded segment with no later one on its pages has each byte where the image holds it exactly when its address
      and file offset agree modulo the page size, and then PF_W alone tells whether it may be written. */
  lemma SegmentTranslates(m: Mem, m': Mem, sh: Space, image: Word, segs: seq<Segment>, i: int)
    requires forall v: Page :: Pte(m', sh, v) == Loaded(image, segs, v, Pte(m, sh, v))
    requires 0 <= i < |segs| && forall j, v: Page :: i < j < |segs| && OnPage(image, segs[i], v) ==>
      !OnPage(image, segs[j], v)
    requires 0 < segs[i].memsz && segs[i].vaddr + segs[i].memsz <= 0x1_0000_0000 && image % 4096 == 0
    requires 0 <= image + segs[i].offset && image + segs[i].offset + segs[i].memsz <= 0xFFFF_F000
    ensures segs[i].vaddr % 4096 == segs[i].offset % 4096 <==>
      forall a: Word :: segs[i].vaddr <= a < segs[i].vaddr + segs[i].memsz ==>
        Physical(m', sh, a) == image + segs[i].offset + (a - segs[i].vaddr)
    ensures segs[i].vaddr % 4096 == segs[i].offset % 4096 ==>
      forall a: Word :: segs[i].vaddr <= a < segs[i].vaddr + segs[i].memsz ==>
        Pte(m', sh, a / 4096) % 4096 == if segs[i].flags / 2 % 2 == 1 then 7 else 5
  {
    hide WordAt, Pte, Loaded;
    var s := segs[i];
    if s.vaddr % 4096 == s.offset % 4096 {
      forall a: Word | s.vaddr <= a < s.vaddr + s.memsz
        ensures Physical(m', sh, a) == image + s.offset + (a - s.vaddr)
        ensures Pte(m', sh, a / 4096) % 4096 == if s.flags / 2 % 2 == 1 then 7 else 5
      {
        SegmentByte(image, segs, i, a, Pte(m, sh, a / 4096));
        PhysicalIs(m', sh, a, Loaded(image, segs, a / 4096, Pte(m, sh, a / 4096)));
      }
    } else {
      var q := Untag(Pte(m', sh, s.vaddr / 4096)) / 4096;
      assert Physical(m', sh, s.vaddr) == 4096 * q + s.vaddr % 4096;
      ModAdd(q, s.vaddr % 4096);
      assert Physical(m', sh, s.vaddr) != image + s.offset + (s.vaddr - s.vaddr);
      ModSum(image, s.offset);
    }
  }

  /** One byte of such a segment. */
  lemma SegmentByte(image: Word, segs: seq<Segment>, i: int, a: Word, e: Word)
    requires image % 4096 == 0
    requires 0 <= i < |segs| && forall j, v: Page :: i < j < |segs| && OnPage(image, segs[i], v) ==>
      !OnPage(image, segs[j], v)
    requires segs[i].vaddr <= a < segs[i].vaddr + segs[i].memsz <= 0x1_0000_0000
    requires 0 <= image + segs[i].offset && image + segs[i].offset + segs[i].memsz <= 0xFFFF_F000
    requires segs[i].vaddr % 4096 == segs[i].offset % 4096
    ensures var w := Loaded(image, segs, a / 4096, e);
      && w - w % 4096 + a % 4096 == image + segs[i].offset + (a - segs[i].vaddr)
      && w % 4096 == if segs[i].flags / 2 % 2 == 1 then 7 else 5
  {
    hide PhysStart, PhysEnd, PageFlags, Above, FirstPage;
    var s := segs[i];
    var v: Page := a / 4096;
    PageFlagsValue(s);
    PhysPlace(image, s);
    AlignedSegment(image, s);
    BytePlace(s.vaddr, a);
    EnoughPages(PhysEnd(image, s), PhysStart(image, s), s.vaddr % 4096 + (a - s.vaddr));
    assert OnPage(image, s, v);
    LoadedOne(image, segs, i, v, e);
    ModAdd(PhysStart(image, s) as int / 4096 + Above(FirstPage(s), v), PageFlags(s));
  }

  lemma PhysicalIs(m: Mem, sh: Space, a: Word, w: int)
    requires Pte(m, sh, a / 4096) == w
    ensures Physical(m, sh, a) == w - w % 4096 + a % 4096
  {
  }

  /** A program linked four bytes into a page, from a page-aligned offset of its file, is not found where it belongs. */
  lemma FourBytesOff(m: Mem, m': Mem, sh: Space, image: Word, s: Segment)
    requires s == Segment(4096, 0x40_0004, 4, 5) && image == 0x0100_0000
    requires forall v: Page :: Pte(m', sh, v) == Loaded(image, [s], v, Pte(m, sh, v))
    ensures exists a: Word :: 0x40_0004 <= a < 0x40_0008 && Physical(m', sh, a) != 0x0100_1000 + (a - 0x40_0004)
  {
    hide WordAt, Pte, PhysStart, PhysEnd, PageFlags, Above, FirstPage, Loaded, Physical;
    SegmentTranslates(m, m', sh, image, [s], 0);
  }

  /** A segment's pages all lie in the `n` blocks of its image exactly when its bytes do. */
  lemma PagesInImage(image: Word, s: Segment, n: int)
    requires InRange(image, s) && image % 4096 == 0 && 0 <= n && image + 4096 * n < 0xFFFF_F000
    ensures (image <= PhysStart(image, s) && PhysEnd(image, s) <= image + 4096 * n)
      <==> (0 <= s.offset && s.offset + s.memsz <= 4096 * n)
  {
    hide Wrap, AlignAddress;
    WrapSmall(image + s.offset);
    WrapSmall(image + s.offset + s.memsz);
    AlignUp(image + s.offset + s.memsz);
    var e := PhysEnd(image, s);
    assert e % 4096 == 0 && (image + 4096 * n) % 4096 == 0;
  }

  // ---- the stack ----------------------------------------------------------

  /** The four pages below 0x3FF000 stand for the stack run and may be written; every other page is as before. */
  method MapStack(ram: array<Byte>, chunk: Frame, stack: Word, ghost sh: Space) returns (r: int)
    requires ram.Length == 0x1_0000_0000 && Ready(ram[..], sh) && chunk == sh.chunk && stack + 16384 < 0xFFFF_F000
    modifies ram
    ensures r == if stack % 4096 == 0 then 0 else -2
    ensures Ready(ram[..], sh) && OnlyTables(old(ram[..]), ram[..], sh)
    ensures r == 0 ==> forall v: Page ::
      Pte(ram[..], sh, v) ==
      if 0x3FF000 - 16384 <= 4096 * v < 0x3FF000 then stack + (4096 * v - 0x3FB000) + 7 else Pte(old(ram[..]), sh, v)
    ensures r == 0 ==> forall a: Word :: 0x3FF000 - 16384 <= a < 0x3FF000 ==>
      Physical(ram[..], sh, a) == stack + (a - 0x3FB000)
    ensures r == 0 && sh.flags % 8 == 7 ==> forall a: Word :: 0x3FF000 - 16384 <= a < 0x3FF000 ==>
      ProcessMemory.UserWritable(ram[..], sh, a / 4096)
    ensures r < 0 ==> ram[..] == old(ram[..])
  {
    hide WordAt, Pte, Mapped, Physical, ProcessMemory.UserWritable;
    ghost var m: Mem := ram[..];
    AlignUp(stack + 16384);
    r := MapTo(ram, chunk, 0x3FF000 - 16384, stack, AlignAddress(stack + 16384), 7, sh);
    if r == 0 {
      assert (AlignAddress(stack + 16384) - stack) / 4096 == 4;
      StackEntries(m, ram[..], sh, stack);
      StackAddresses(ram[..], sh, stack);
    }
  }

  lemma StackEntries(m: Mem, m': Mem, sh: Space, stack: Frame)
    requires stack + 16384 < 0xFFFF_F000 && Mapped(m, m', sh, 0x3FB, stack, 4, 7)
    ensures forall v: Page ::
      Pte(m', sh, v) ==
      if 0x3FF000 - 16384 <= 4096 * v < 0x3FF000 then stack + (4096 * v - 0x3FB000) + 7 else Pte(m, sh, v)
  {
    hide WordAt, Pte;
    forall v: Page ensures Above(0x3FB, v) == v - 0x3FB || (v < 0x3FB && Above(0x3FB, v) >= 4) {}
  }

  lemma StackAddresses(m: Mem, sh: Space, stack: Frame)
    requires stack + 16384 < 0xFFFF_F000
    requires forall v: Page :: 0x3FF000 - 16384 <= 4096 * v < 0x3FF000 ==>
      Pte(m, sh, v) == stack + (4096 * v - 0x3FB000) + 7
    ensures forall a: Word :: 0x3FF000 - 16384 <= a < 0x3FF000 ==> Physical(m, sh, a) == stack + (a - 0x3FB000)
    ensures sh.flags % 8 == 7 ==> forall a: Word :: 0x3FF000 - 16384 <= a < 0x3FF000 ==>
      ProcessMemory.UserWritable(m, sh, a / 4096)
  {
    hide WordAt, Pte;
    forall a: Word | 0x3FF000 - 16384 <= a < 0x3FF000
      ensures Physical(m, sh, a) == stack + (a - 0x3FB000) && Pte(m, sh, a / 4096) % 8 == 7
    {
      var v: Page := a / 4096;
      assert a == 4096 * v + a % 4096 && 0x3FB <= v < 0x3FF;
      ModAdd(stack as int / 4096 + (v - 0x3FB), 7);
      ModEight(stack as int / 4096 + (v - 0x3FB), 7);
    }
  }

  predicate StackPage(v: Page) {
    0x3FB <= v < 0x3FF
  }

  /** Mapping the stack disturbs no segment at or above the program base. */
  lemma StackLeavesSegments(m: Mem, m': Mem, sh: Space, s: Segment)
    requires s.vaddr >= 0x40_0000
    requires forall v: Page :: !(0x3FF000 - 16384 <= 4096 * v < 0x3FF000) ==> Pte(m', sh, v) == Pte(m, sh, v)
    ensures forall a: Word :: s.vaddr <= a < s.vaddr + s.memsz ==>
      Physical(m', sh, a) == Physical(m, sh, a) && Pte(m', sh, a / 4096) == Pte(m, sh, a / 4096)
  {
    hide WordAt, Pte;
    forall a: Word | s.vaddr <= a < s.vaddr + s.memsz
      ensures Physical(m', sh, a) == Physical(m, sh, a) && Pte(m', sh, a / 4096) == Pte(m, sh, a / 4096)
    {
      assert a / 4096 >= 0x400;
    }
  }
}
