/** Which programs may be loaded: exactly when a loaded program's writable pages are its own memory. */
module Placement {
  import opened Ram
  import opened HeapTable
  import opened PageTables
  import opened Paging
  import opened ProcessMemory
  import opened Loader
  import opened LoadProcess

  /** The PF_W flag. */
  predicate Writes(s: Segment) {
    s.flags / 2 % 2 == 1
  }

  /** How many pages `size` bytes from file offset `offset` on touch. */
  function PageSpan(offset: int, size: int): int {
    (offset % 4096 + size + 4095) / 4096
  }

  /** Below the heap pool, and if writable inside the `n` blocks of the file: what a loader can check
      before it loads anything. */
  predicate WellPlaced(n: int, s: Segment) {
    && s.vaddr / 4096 + PageSpan(s.offset, s.memsz) <= 0x1000
    && (Writes(s) ==> 0 <= s.offset && s.offset + s.memsz <= 4096 * n)
  }

  // ---- pages and bytes of a segment ---------------------------------------

  lemma WrapMod(x: int)
    ensures Wrap(x) % 4096 == x % 4096
  {
    var q := x / 0x1_0000_0000;
    assert x == 4096 * (0x10_0000 * q + Wrap(x) / 4096) + Wrap(x) % 4096;
    ModAdd(0x10_0000 * q + Wrap(x) / 4096, Wrap(x) % 4096);
  }

  lemma PageEnds(x: Word, size: int)
    requires 0 <= size && x + size <= 0xFFFF_F000
    ensures (AlignAddress(x + size) - AlignToLowerPage(x)) / 4096 == (x % 4096 + size + 4095) / 4096
    ensures AlignAddress(x + size) < x + size + 4096
  {
    AlignUp(x + size);
    var q, c := x / 4096, x % 4096;
    assert AlignToLowerPage(x) == 4096 * q && x + size == 4096 * q + (c + size);
    var d := (c + size + 4095) / 4096;
    assert 4096 * d <= c + size + 4095 < 4096 * d + 4096;
    var e := AlignAddress(x + size) / 4096;
    assert AlignAddress(x + size) == 4096 * e;
    assert e == q + d;
    ModAdd(d, 0);
  }

  /** A segment of less than 16 megabytes is rejected or has the pages its size tells. */
  lemma PageSpanIs(image: Word, s: Segment)
    requires image % 4096 == 0 && s.memsz <= 0x0100_0000 && !Rejected(image, s)
    ensures PageCount(image, s) == PageSpan(s.offset, s.memsz)
  {
    hide AlignAddress, Wrap;
    var x := PhysAddress(image, s);
    WrapMod(image + s.offset);
    ModSum(image, s.offset);
    assert x % 4096 == s.offset % 4096;
    if x + s.memsz <= 0xFFFF_F000 {
      WrapSmall(x + s.memsz);
      PageEnds(x, s.memsz);
    } else {
      WrapsLow(x, s.memsz);
      assert false;
    }
  }

  lemma WrapsLow(x: Word, size: int)
    requires 0 <= size <= 0x0100_0000 && x + size > 0xFFFF_F000
    ensures AlignAddress(Wrap(x + size)) < AlignToLowerPage(x)
  {
    var e := Wrap(x + size);
    assert e == if x + size < 0x1_0000_0000 then x + size else x + size - 0x1_0000_0000;
    if e > 0xFFFF_F000 {
      assert AlignAddress(e) == 0;
    } else {
      AlignUp(e);
    }
  }

  /** Well-placed segments are good for every image of their file in the pool. */
  lemma WellPlacedIsGood(image: Word, n: int, s: Segment)
    requires image % 4096 == 0 && 0x0100_0000 <= image && image + 4096 * n <= 0x0740_0000 && WellPlaced(n, s)
    ensures Rejected(image, s) || GoodSegment(image, n, s)
  {
    hide PhysStart, PhysEnd, AlignAddress, Wrap;
    assert s.memsz <= 0x0100_0000;
    ModAdd(s.vaddr / 4096, 0);
    if !Rejected(image, s) {
      PageSpanIs(image, s);
      if Writes(s) { BytesInImage(image, s, n); }
    }
  }

  lemma BytesInImage(image: Word, s: Segment, n: int)
    requires image % 4096 == 0 && image + 4096 * n <= 0x0740_0000 && 0 <= s.offset && s.offset + s.memsz <= 4096 * n
    ensures image <= PhysStart(image, s) && PhysEnd(image, s) <= image + 4096 * n
  {
    hide Wrap, AlignAddress;
    WrapSmall(image + s.offset);
    WrapSmall(image + s.offset + s.memsz);
    AlignUp(image + s.offset + s.memsz);
    var q, e := image / 4096, PhysEnd(image, s) / 4096;
    assert image == 4096 * q && PhysEnd(image, s) == 4096 * e;
  }

  /** For segments that lie in the address space the check is exact. */
  lemma GoodIsWellPlaced(image: Word, n: int, s: Segment)
    requires image % 4096 == 0 && 0 <= n && image + 4096 * n <= 0x0740_0000
    requires InRange(image, s) && s.memsz <= 0x0100_0000
    ensures GoodSegment(image, n, s) <==> WellPlaced(n, s)
  {
    hide PhysStart, PhysEnd, AlignAddress, Wrap;
    InRangeAccepted(image, s);
    PageSpanIs(image, s);
    ModAdd(s.vaddr / 4096, 0);
    PagesInImage(image, s, n);
  }

  lemma InRangeAccepted(image: Word, s: Segment)
    requires InRange(image, s) && image % 4096 == 0
    ensures !Rejected(image, s) && PageCount(image, s) >= 1
    ensures PhysStart(image, s) % 4096 == 0 && PhysEnd(image, s) % 4096 == 0
    ensures PhysStart(image, s) <= image + s.offset < PhysStart(image, s) + 4096
    ensures image + s.offset + s.memsz <= PhysEnd(image, s) < image + s.offset + s.memsz + 4096
  {
    hide PhysStart, Wrap, AlignAddress;
    PhysPlace(image, s);
    AlignedSegment(image, s);
    WrapSmall(image + s.offset);
    WrapSmall(image + s.offset + s.memsz);
    AlignUp(image + s.offset + s.memsz);
    EnoughPages(PhysEnd(image, s), PhysStart(image, s), 0);
  }

  // ---- when the writable pages are the program's own memory ---------------

  predicate Within(lo: int, hi: int, from: int, to: int) {
    lo <= from && to <= hi
  }

  /** Bytes `from..to` lie in the image of `n` blocks, in the stack, or in the two together where one
      directly follows the other. */
  predicate Held(image: int, n: int, stack: int, from: int, to: int) {
    || Within(image, image + 4096 * n, from, to) || Within(stack, stack + 16384, from, to)
    || (stack == image + 4096 * n && Within(image, stack + 16384, from, to))
    || (image == stack + 16384 && Within(stack, image + 4096 * n, from, to))
  }

  predicate FrameHeld(image: int, n: int, stack: int, t: int) {
    image <= t < image + 4096 * n || stack <= t < stack + 16384
  }

  /** Frame `k` of the segment. */
  function FrameOf(image: Word, s: Segment, k: int): int {
    PhysStart(image, s) + 4096 * k
  }

  lemma FrameAligned(image: Word, s: Segment, k: int)
    requires PhysStart(image, s) % 4096 == 0
    ensures FrameOf(image, s, k) % 4096 == 0
  {
    ModAdd(PhysStart(image, s) / 4096 + k, 0);
  }

  lemma BytesWithin(image: Word, s: Segment, lo: int, hi: int)
    requires InRange(image, s) && image % 4096 == 0 && lo % 4096 == 0 && hi % 4096 == 0
    ensures Within(lo, hi, PhysStart(image, s), PhysEnd(image, s))
      <==> Within(lo, hi, image + s.offset, image + s.offset + s.memsz)
  {
    hide PhysStart, PhysEnd;
    InRangeAccepted(image, s);
    var a, z, l, h := PhysStart(image, s) / 4096, PhysEnd(image, s) / 4096, lo / 4096, hi / 4096;
    assert PhysStart(image, s) == 4096 * a && PhysEnd(image, s) == 4096 * z && lo == 4096 * l && hi == 4096 * h;
  }

  lemma FramesWithin(image: Word, s: Segment, lo: int, hi: int)
    requires InRange(image, s) && image % 4096 == 0 && lo % 4096 == 0 && hi % 4096 == 0
    ensures (forall k :: 0 <= k < PageCount(image, s) ==> lo <= FrameOf(image, s, k) < hi)
      <==> Within(lo, hi, image + s.offset, image + s.offset + s.memsz)
  {
    hide PhysStart, PhysEnd;
    InRangeAccepted(image, s);
    BytesWithin(image, s, lo, hi);
    var a, z, h := PhysStart(image, s) / 4096, PhysEnd(image, s) / 4096, hi / 4096;
    assert PhysStart(image, s) == 4096 * a && PhysEnd(image, s) == 4096 * z && hi == 4096 * h;
    ModAdd(z - a, 0);
    assert PageCount(image, s) == z - a;
    if forall k :: 0 <= k < PageCount(image, s) ==> lo <= FrameOf(image, s, k) < hi {
      assert lo <= FrameOf(image, s, 0) && FrameOf(image, s, z - a - 1) < hi;
    }
  }

  predicate InTwo(i: int, n: int, t: int, m: int, k: int) {
    i <= k < i + n || t <= k < t + m
  }

  /** Pages from `a` up to `z`, against two disjoint page ranges. */
  lemma Covered(i: int, n: int, t: int, m: int, a: int, z: int)
    requires a < z && n >= 1 && m >= 1 && (i + n <= t || t + m <= i)
    ensures (forall k :: a <= k < z ==> InTwo(i, n, t, m, k)) <==>
      || (i <= a && z <= i + n) || (t <= a && z <= t + m)
      || (t == i + n && i <= a && z <= t + m) || (i == t + m && t <= a && z <= i + n)
  {
    if forall k :: a <= k < z ==> InTwo(i, n, t, m, k) {
      assert InTwo(i, n, t, m, a) && InTwo(i, n, t, m, z - 1);
      assert a <= i + n < z ==> InTwo(i, n, t, m, i + n);
      assert a <= t + m < z ==> InTwo(i, n, t, m, t + m);
    }
  }

  lemma FramesHeld(image: Word, n: int, stack: Word, s: Segment)
    requires InRange(image, s) && image % 4096 == 0 && stack % 4096 == 0 && n >= 1
    requires image + 4096 * n <= stack || stack + 16384 <= image
    ensures (forall k :: 0 <= k < PageCount(image, s) ==> FrameHeld(image, n, stack, FrameOf(image, s, k)))
      <==> Held(image, n, stack, image + s.offset, image + s.offset + s.memsz)
  {
    hide PhysStart, PhysEnd, Within;
    InRangeAccepted(image, s);
    var i, t := image / 4096, stack / 4096;
    assert image == 4096 * i && stack == 4096 * t;
    ModAdd(i + n, 0);
    ModAdd(t + 4, 0);
    BytesWithin(image, s, image, image + 4096 * n);
    BytesWithin(image, s, stack, stack + 16384);
    BytesWithin(image, s, image, stack + 16384);
    BytesWithin(image, s, stack, image + 4096 * n);
    HeldByPages(image, n, stack, s, i, t);
  }

  lemma HeldByPages(image: Word, n: int, stack: Word, s: Segment, i: int, t: int)
    requires image == 4096 * i && stack == 4096 * t && n >= 1 && (i + n <= t || t + 4 <= i)
    requires PhysStart(image, s) % 4096 == 0 && PhysEnd(image, s) % 4096 == 0 && PageCount(image, s) >= 1
    ensures (forall k :: 0 <= k < PageCount(image, s) ==> FrameHeld(image, n, stack, FrameOf(image, s, k)))
      <==> Held(image, n, stack, PhysStart(image, s), PhysEnd(image, s))
  {
    hide PhysStart, PhysEnd;
    var a, z := PhysStart(image, s) / 4096, PhysEnd(image, s) / 4096;
    assert PhysStart(image, s) == 4096 * a && PhysEnd(image, s) == 4096 * z;
    ModAdd(z - a, 0);
    assert PageCount(image, s) == z - a;
    forall k ensures FrameHeld(image, n, stack, FrameOf(image, s, k)) <==> InTwo(i, n, t, 4, a + k) {}
    Covered(i, n, t, 4, a, z);
    if forall k :: 0 <= k < PageCount(image, s) ==> FrameHeld(image, n, stack, FrameOf(image, s, k)) {
      forall k | a <= k < z ensures InTwo(i, n, t, 4, k) {
        assert FrameHeld(image, n, stack, FrameOf(image, s, k - a));
      }
    } else {
      var k :| 0 <= k < PageCount(image, s) && !FrameHeld(image, n, stack, FrameOf(image, s, k));
      assert !InTwo(i, n, t, 4, a + k);
    }
  }

  // ---- what loading leaves in the page tables -----------------------------

  ghost predicate StackClear(image: Word, segs: seq<Segment>) {
    forall i, v: Page :: 0 <= i < |segs| && OnPage(image, segs[i], v) ==> !StackPage(v)
  }

  /** Image and stack are different aligned runs of the pool, and the segments are page-disjoint, clear
      of the stack pages and inside the address space. */
  ghost predicate Layout(image: Word, n: int, stack: Word, segs: seq<Segment>) {
    && image % 4096 == 0 && stack % 4096 == 0 && n >= 1
    && 0x0100_0000 <= image && image + 4096 * n <= 0x0740_0000
    && 0x0100_0000 <= stack && stack + 16384 <= 0x0740_0000
    && (image + 4096 * n <= stack || stack + 16384 <= image)
    && PageDisjoint(image, segs) && StackClear(image, segs)
    && forall i :: 0 <= i < |segs| ==> InRange(image, segs[i])
  }

  /** The frame that page `v` stands for after loading. */
  ghost function FrameAt(image: Word, stack: Word, segs: seq<Segment>, v: Page): int {
    LoadedEntry(image, stack, segs, v) - LoadedEntry(image, stack, segs, v) % 4096
  }

  lemma PageOfFrame(image: Word, s: Segment, k: int) returns (v: Page)
    requires InRange(image, s) && image % 4096 == 0 && 0 <= k < PageCount(image, s)
    ensures v == (FirstPage(s) + k) % 0x10_0000 && OnPage(image, s, v) && Above(FirstPage(s), v) == k
  {
    hide PhysStart, PhysEnd, FirstPage, Above;
    InRangeAccepted(image, s);
    v := (FirstPage(s) + k) % 0x10_0000;
    AboveNext(FirstPage(s), k, v);
  }

  lemma EntryIs(image: Word, n: int, stack: Word, segs: seq<Segment>, i: int, v: Page)
    requires Layout(image, n, stack, segs) && 0 <= i < |segs| && OnPage(image, segs[i], v)
    ensures var s := segs[i];
      && 0 <= Above(FirstPage(s), v) < PageCount(image, s)
      && LoadedEntry(image, stack, segs, v) == FrameOf(image, s, Above(FirstPage(s), v)) + (if Writes(s) then 7 else 5)
      && FrameAt(image, stack, segs, v) == FrameOf(image, s, Above(FirstPage(s), v))
      && (LoadedEntry(image, stack, segs, v) % 8 == 7 <==> Writes(s))
      && 0 <= LoadedEntry(image, stack, segs, v) < 0x1_0000_0000
  {
    hide PhysStart, PhysEnd, FirstPage, PageFlags, Loaded;
    var s := segs[i];
    var k := Above(FirstPage(s), v);
    LoadedOne(image, segs, i, v, 4096 * v + 5);
    PageFlagsValue(s);
    InRangeAccepted(image, s);
    FrameAligned(image, s, k);
    LowBits(FrameOf(image, s, k), PageFlags(s));
    InsidePages(PhysStart(image, s), PhysEnd(image, s), k);
  }

  /** All pages of a segment lie in the image of its program exactly when its bytes lie in the blocks of the file. */
  lemma ImageExactly(image: Word, n: int, stack: Word, segs: seq<Segment>, i: int, s: Segment)
    requires Layout(image, n, stack, segs) && 0 <= i < |segs| && s == segs[i]
    ensures (forall v: Page :: OnPage(image, s, v) ==> image <= FrameAt(image, stack, segs, v) < image + 4096 * n) <==>
      0 <= s.offset && s.offset + s.memsz <= 4096 * n
  {
    hide PhysStart, PhysEnd, FirstPage, PageCount, FrameAt, FrameOf, Above, OnPage, Layout;
    LayoutParts(image, n, stack, segs, i);
    FramesWithin(image, s, image, image + 4096 * n);
    if forall v: Page :: OnPage(image, s, v) ==> image <= FrameAt(image, stack, segs, v) < image + 4096 * n {
      forall k | 0 <= k < PageCount(image, s) ensures image <= FrameOf(image, s, k) < image + 4096 * n {
        var v := PageOfFrame(image, s, k);
        EntryIs(image, n, stack, segs, i, v);
      }
    }
    forall v: Page | OnPage(image, s, v)
      ensures exists k :: 0 <= k < PageCount(image, s) && FrameAt(image, stack, segs, v) == FrameOf(image, s, k)
    {
      EntryIs(image, n, stack, segs, i, v);
    }
  }

  lemma LayoutParts(image: Word, n: int, stack: Word, segs: seq<Segment>, i: int)
    requires Layout(image, n, stack, segs) && 0 <= i < |segs|
    ensures image % 4096 == 0 && stack % 4096 == 0 && (image + 4096 * n) % 4096 == 0 && n >= 1
    ensures InRange(image, segs[i])
    ensures image + 4096 * n <= stack || stack + 16384 <= image
  {
    ModAdd(image / 4096 + n, 0);
  }

  ghost predicate PagesOwn(image: Word, n: int, stack: Word, segs: seq<Segment>, i: int)
    requires 0 <= i < |segs|
  {
    forall v: Page :: OnPage(image, segs[i], v) ==> FrameHeld(image, n, stack, FrameAt(image, stack, segs, v))
  }

  /** They lie in the program's own image and stack exactly when its bytes are held by the two: a segment
      that reaches past its image is harmless only if the stack comes next. */
  lemma OwnExactly(image: Word, n: int, stack: Word, segs: seq<Segment>, i: int)
    requires Layout(image, n, stack, segs) && 0 <= i < |segs|
    ensures PagesOwn(image, n, stack, segs, i) <==>
      Held(image, n, stack, image + segs[i].offset, image + segs[i].offset + segs[i].memsz)
  {
    hide PhysStart, PhysEnd, FirstPage, PageCount, FrameAt, FrameOf, Above, OnPage, Layout, FrameHeld, Held;
    LayoutParts(image, n, stack, segs, i);
    var s := segs[i];
    FramesHeld(image, n, stack, s);
    if PagesOwn(image, n, stack, segs, i) {
      forall k | 0 <= k < PageCount(image, s) ensures FrameHeld(image, n, stack, FrameOf(image, s, k)) {
        var v := PageOfFrame(image, s, k);
        EntryIs(image, n, stack, segs, i, v);
      }
    }
    forall v: Page | OnPage(image, s, v)
      ensures exists k :: 0 <= k < PageCount(image, s) && FrameAt(image, stack, segs, v) == FrameOf(image, s, k)
    {
      EntryIs(image, n, stack, segs, i, v);
    }
  }

  // ---- exactly the programs that load consistently ------------------------

  /** The segment leaves the identity entries of the pool alone. */
  predicate HighFair(image: Word, s: Segment) {
    FirstPage(s) + PageCount(image, s) <= 0x1000 || (!Writes(s) && PhysStart(image, s) == 4096 * FirstPage(s))
  }

  /** What a segment must meet: below the pool or standing for itself; if writable, in memory of its own. */
  predicate Fair(image: Word, n: int, stack: Word, s: Segment) {
    HighFair(image, s) && (Writes(s) ==> Held(image, n, stack, image + s.offset, image + s.offset + s.memsz))
  }

  ghost predicate Identity(image: Word, stack: Word, segs: seq<Segment>, v: Page) {
    var e := LoadedEntry(image, stack, segs, v);
    e - e % 4096 == 4096 * v && e % 8 != 7
  }

  lemma HighPage(image: Word, n: int, stack: Word, segs: seq<Segment>, i: int, v: Page)
    requires Layout(image, n, stack, segs) && 0 <= i < |segs| && OnPage(image, segs[i], v) && v >= 0x1000
    requires HighFair(image, segs[i])
    ensures Identity(image, stack, segs, v)
  {
    hide PhysStart, PhysEnd, FirstPage, Layout, LoadedEntry, FrameAt;
    EntryIs(image, n, stack, segs, i, v);
    var s := segs[i];
    LayoutParts(image, n, stack, segs, i);
    AboveBelow(FirstPage(s), v);
    InRangeAccepted(image, s);
    var k := Above(FirstPage(s), v);
    InsidePages(PhysStart(image, s), PhysEnd(image, s), k);
    AboveExact(FirstPage(s), v);
    assert FrameAt(image, stack, segs, v) == 4096 * v by { assert FrameOf(image, s, k) == 4096 * (FirstPage(s) + k); }
    assert FrameAt(image, stack, segs, v)
      == LoadedEntry(image, stack, segs, v) - LoadedEntry(image, stack, segs, v) % 4096 by {
      FrameIs(image, stack, segs, v);
    }
  }

  lemma FrameIs(image: Word, stack: Word, segs: seq<Segment>, v: Page)
    ensures FrameAt(image, stack, segs, v)
      == LoadedEntry(image, stack, segs, v) - LoadedEntry(image, stack, segs, v) % 4096
  {
  }

  lemma AboveExact(v0: Page, v: Page)
    ensures v0 + Above(v0, v) < 0x10_0000 ==> v == v0 + Above(v0, v)
  {
  }

  lemma NotHighFair(image: Word, n: int, stack: Word, segs: seq<Segment>, i: int) returns (v: Page)
    requires Layout(image, n, stack, segs) && 0 <= i < |segs| && !HighFair(image, segs[i])
    ensures v >= 0x1000 && !Identity(image, stack, segs, v)
  {
    hide PhysStart, PhysEnd, FirstPage, Layout, LoadedEntry, FrameAt, PageCount, OnPage;
    var s := segs[i];
    LayoutParts(image, n, stack, segs, i);
    var k := if FirstPage(s) >= 0x1000 then 0 else 0x1000 - FirstPage(s);
    InRangeAccepted(image, s);
    v := PageOfFrame(image, s, k);
    EntryIs(image, n, stack, segs, i, v);
    FrameIs(image, stack, segs, v);
    assert v == FirstPage(s) + k;
  }

  lemma OffSegments(image: Word, stack: Word, segs: seq<Segment>, v: Page)
    requires (forall i :: 0 <= i < |segs| ==> !OnPage(image, segs[i], v)) && !StackPage(v)
    ensures LoadedEntry(image, stack, segs, v) == 4096 * v + 5
  {
    hide OnPage, Loaded;
    LoadedNone(image, segs, v, 4096 * v + 5);
  }

  lemma IdentityEntry(image: Word, stack: Word, segs: seq<Segment>, v: Page)
    requires LoadedEntry(image, stack, segs, v) == 4096 * v + 5
    ensures Identity(image, stack, segs, v)
  {
    hide LoadedEntry;
    ModAdd(v, 5);
    ModEight(v, 5);
  }

  lemma HighExactly(image: Word, n: int, stack: Word, segs: seq<Segment>)
    requires Layout(image, n, stack, segs)
    ensures (forall v: Page :: v >= 0x1000 ==> Identity(image, stack, segs, v)) <==>
      forall i :: 0 <= i < |segs| ==> HighFair(image, segs[i])
  {
    hide Layout, Identity, HighFair, OnPage;
    if forall i :: 0 <= i < |segs| ==> HighFair(image, segs[i]) {
      forall v: Page | v >= 0x1000 ensures Identity(image, stack, segs, v) {
        if i :| 0 <= i < |segs| && OnPage(image, segs[i], v) {
          HighPage(image, n, stack, segs, i, v);
        } else {
          OffSegments(image, stack, segs, v);
          IdentityEntry(image, stack, segs, v);
        }
      }
    } else {
      var i :| 0 <= i < |segs| && !HighFair(image, segs[i]);
      var v := NotHighFair(image, n, stack, segs, i);
    }
  }

  /** Page `v`, if writable below the pool, stands for memory of the image or the stack. */
  ghost predicate LowOwn(image: Word, n: int, stack: Word, segs: seq<Segment>, v: Page) {
    v < 0x1000 && LoadedEntry(image, stack, segs, v) % 8 == 7 ==>
      FrameHeld(image, n, stack, FrameAt(image, stack, segs, v))
  }

  lemma StackOwn(image: Word, n: int, stack: Word, segs: seq<Segment>, v: Page)
    requires stack % 4096 == 0 && StackPage(v)
    ensures LowOwn(image, n, stack, segs, v) && LoadedEntry(image, stack, segs, v) % 8 == 7
    ensures FrameAt(image, stack, segs, v) == stack + 4096 * (v - 0x3FB)
  {
    ModAdd(stack / 4096 + (v - 0x3FB), 7);
    ModEight(stack / 4096 + (v - 0x3FB), 7);
  }

  lemma LowExactly(image: Word, n: int, stack: Word, segs: seq<Segment>)
    requires Layout(image, n, stack, segs) && forall i :: 0 <= i < |segs| ==> HighFair(image, segs[i])
    ensures (forall v: Page :: LowOwn(image, n, stack, segs, v)) <==>
      forall i :: 0 <= i < |segs| ==> Fair(image, n, stack, segs[i])
  {
    hide Layout, OnPage, FrameHeld, Held, FrameAt, LoadedEntry, HighFair, PhysStart, PhysEnd, FirstPage, Above,
      FrameOf, PagesOwn;
    forall i | 0 <= i < |segs| ensures Writes(segs[i]) ==>
      (PagesOwn(image, n, stack, segs, i) <==>
       Held(image, n, stack, image + segs[i].offset, image + segs[i].offset + segs[i].memsz))
    {
      OwnExactly(image, n, stack, segs, i);
    }
    if forall v: Page :: LowOwn(image, n, stack, segs, v) {
      forall i | 0 <= i < |segs| && Writes(segs[i]) ensures PagesOwn(image, n, stack, segs, i) {
        OwnPages(image, n, stack, segs, i);
      }
    }
    if forall i :: 0 <= i < |segs| && Writes(segs[i]) ==> PagesOwn(image, n, stack, segs, i) {
      forall v: Page ensures LowOwn(image, n, stack, segs, v) { PageIsOwn(image, n, stack, segs, v); }
    }
  }

  lemma OwnPages(image: Word, n: int, stack: Word, segs: seq<Segment>, i: int)
    requires Layout(image, n, stack, segs) && 0 <= i < |segs| && Writes(segs[i]) && HighFair(image, segs[i])
    requires forall v: Page :: LowOwn(image, n, stack, segs, v)
    ensures PagesOwn(image, n, stack, segs, i)
  {
    hide Layout, FrameHeld, FrameAt, LoadedEntry, PhysStart, PhysEnd, FirstPage, FrameOf;
    forall v: Page | OnPage(image, segs[i], v) ensures FrameHeld(image, n, stack, FrameAt(image, stack, segs, v)) {
      EntryIs(image, n, stack, segs, i, v);
      AboveExact(FirstPage(segs[i]), v);
      assert LowOwn(image, n, stack, segs, v);
    }
  }

  lemma PageIsOwn(image: Word, n: int, stack: Word, segs: seq<Segment>, v: Page)
    requires Layout(image, n, stack, segs)
    requires forall i :: 0 <= i < |segs| && Writes(segs[i]) ==> PagesOwn(image, n, stack, segs, i)
    ensures LowOwn(image, n, stack, segs, v)
  {
    hide Layout, OnPage, FrameHeld, FrameAt, LoadedEntry, PhysStart, PhysEnd, FirstPage, Above, FrameOf;
    if i :| 0 <= i < |segs| && OnPage(image, segs[i], v) {
      EntryIs(image, n, stack, segs, i, v);
    } else if StackPage(v) {
      StackOwn(image, n, stack, segs, v) by { LayoutStack(image, n, stack, segs); }
    } else {
      OffSegments(image, stack, segs, v);
      ModEight(v, 5);
    }
  }

  lemma LayoutStack(image: Word, n: int, stack: Word, segs: seq<Segment>)
    requires Layout(image, n, stack, segs)
    ensures stack % 4096 == 0 && image % 4096 == 0 && stack + 16384 <= 0x0740_0000
  {
  }

  /** A newly built process: record empty, tables as loaded, image and stack in runs of their own. */
  ghost predicate Loaded0(m: Mem, live: Runs, live0: Runs, p: Proc, n: int, segs: seq<Segment>) {
    && WellFormed(live) && Owned(live, p.sh) && Wired(m, p.sh) && p.sh.flags == 7
    && Grown(live0, live, Foot(p.sh)) && p.slots == seq(1024, _ => Slot(0, 0))
    && PartsIn(live0, p.parts, n)
    && (forall v: Page :: Pte(m, p.sh, v) == LoadedEntry(p.parts.image, p.parts.stack, segs, v))
    && |p.low| == 0x1000 && forall v :: 0 <= v < 0x1000 ==> p.low[v] == Pte(m, p.sh, v)
  }

  /** Record, heap and tables of a newly loaded process agree, so that the process is isolated, exactly
      when each of its segments is fair. */
  lemma AgreesExactly(m: Mem, live: Runs, live0: Runs, p: Proc, n: int, segs: seq<Segment>)
    requires Loaded0(m, live, live0, p, n, segs) && Layout(p.parts.image, n, p.parts.stack, segs)
    ensures Agree(m, live, p) <==> forall i :: 0 <= i < |segs| ==> Fair(p.parts.image, n, p.parts.stack, segs[i])
  {
    hide WordAt, BlockIndex, Pte, Layout, LoadedEntry, Identity, LowOwn, Fair, Untag, Owned, Grants;
    RestAgrees(m, live, live0, p, n, segs);
    HighExactly(p.parts.image, n, p.parts.stack, segs);
    PagesExactly(m, live, p) by { assert forall v: Page :: !InSlots(live, p.slots, v); }
    forall v: Page ensures Identity(p.parts.image, p.parts.stack, segs, v) <==>
      Untag(Pte(m, p.sh, v)) == 4096 * v && !Grants(Pte(m, p.sh, v))
    {
      IdentityIs(p.parts.image, p.parts.stack, segs, v, Pte(m, p.sh, v));
    }
    if forall i :: 0 <= i < |segs| ==> HighFair(p.parts.image, segs[i]) {
      LowExactly(p.parts.image, n, p.parts.stack, segs);
      LowConfinedExactly(live, p, n, segs);
    } else {
      assert !(forall i :: 0 <= i < |segs| ==> Fair(p.parts.image, n, p.parts.stack, segs[i])) by {
        var i :| 0 <= i < |segs| && !HighFair(p.parts.image, segs[i]);
        FairParts(p.parts.image, n, p.parts.stack, segs[i]);
      }
    }
  }

  lemma FairParts(image: Word, n: int, stack: Word, s: Segment)
    ensures Fair(image, n, stack, s) ==> HighFair(image, s)
  {
  }

  lemma RestAgrees(m: Mem, live: Runs, live0: Runs, p: Proc, n: int, segs: seq<Segment>)
    requires Loaded0(m, live, live0, p, n, segs)
    ensures Agree(m, live, p) <==> PagesAgree(m, live, p) && LowConfined(live, p)
    ensures Start(live, p.parts.image) && live[BlockIndex(p.parts.image)] == n && Start(live, p.parts.stack)
    ensures live[BlockIndex(p.parts.stack)] == 4
  {
    hide WordAt, BlockIndex, Pte, PagesAgree, LowConfined, LoadedEntry;
    assert live - BlocksOf(Foot(p.sh)) == live0;
    assert SlotRuns(p.slots) == {};
  }

  lemma PagesExactly(m: Mem, live: Runs, p: Proc)
    requires |p.low| == 0x1000 && (forall v :: 0 <= v < 0x1000 ==> p.low[v] == Pte(m, p.sh, v))
    requires forall v: Page :: !InSlots(live, p.slots, v)
    ensures PagesAgree(m, live, p) <==>
      forall v: Page :: v >= 0x1000 ==> Untag(Pte(m, p.sh, v)) == 4096 * v && !Grants(Pte(m, p.sh, v))
  {
    hide WordAt, Pte, Untag, Grants;
  }

  lemma IdentityIs(image: Word, stack: Word, segs: seq<Segment>, v: Page, e: Word)
    requires e == LoadedEntry(image, stack, segs, v)
    ensures Identity(image, stack, segs, v) <==> Untag(e) == 4096 * v && !Grants(e)
  {
    hide LoadedEntry;
  }

  lemma LowConfinedExactly(live: Runs, p: Proc, n: int, segs: seq<Segment>)
    requires Layout(p.parts.image, n, p.parts.stack, segs)
    requires Start(live, p.parts.image) && live[BlockIndex(p.parts.image)] == n && Start(live, p.parts.stack)
    requires live[BlockIndex(p.parts.stack)] == 4
    requires |p.low| == 0x1000 && forall v :: 0 <= v < 0x1000 ==>
      p.low[v] == LoadedEntry(p.parts.image, p.parts.stack, segs, v)
    ensures LowConfined(live, p) <==> forall v: Page :: LowOwn(p.parts.image, n, p.parts.stack, segs, v)
  {
    hide BlockIndex, LoadedEntry, Layout, FrameAt, Untag;
    forall v: Page | v < 0x1000
      ensures LowOwn(p.parts.image, n, p.parts.stack, segs, v) <==> (Grants(p.low[v]) ==> InFixed(live, p, p.low[v]))
    {
      FrameIs(p.parts.image, p.parts.stack, segs, v);
      UntagIs(p.low[v]);
      HeldIsFixed(live, p, n, p.low[v]);
    }
    forall v: Page | v >= 0x1000 ensures LowOwn(p.parts.image, n, p.parts.stack, segs, v) {}
    if LowConfined(live, p) {
      forall v: Page ensures LowOwn(p.parts.image, n, p.parts.stack, segs, v) {
        assert v < 0x1000 ==> (Grants(p.low[v]) ==> InFixed(live, p, p.low[v]));
      }
    }
  }

  lemma UntagIs(e: Word)
    ensures Untag(e) == e - e % 4096
  {
  }

  lemma HeldIsFixed(live: Runs, p: Proc, n: int, e: Word)
    requires Start(live, p.parts.image) && live[BlockIndex(p.parts.image)] == n && Start(live, p.parts.stack)
    requires live[BlockIndex(p.parts.stack)] == 4
    ensures FrameHeld(p.parts.image, n, p.parts.stack, Untag(e)) <==> InFixed(live, p, e)
  {
    hide BlockIndex;
    var t := Untag(e) / 4096;
    assert Untag(e) == 4096 * t;
    assert p.parts.image == 4096 * (0x1000 + BlockIndex(p.parts.image));
    assert p.parts.stack == 4096 * (0x1000 + BlockIndex(p.parts.stack));
  }

  /** Places for an image of `n` blocks and a stack. */
  ghost predicate Placed(image: Word, n: int, stack: Word) {
    Layout(image, n, stack, [])
  }

  /** A writable segment is fair wherever image and stack are placed exactly when it is well placed, so that
      a loader which does not know the places can do no better than `WellPlaced`. */
  lemma FairEverywhere(n: nat, s: Segment)
    requires Writes(s) && 1 <= n && n + 10 <= 25600
    requires forall image: Word, stack: Word :: Placed(image, n, stack) ==> InRange(image, s)
    ensures (forall image: Word, stack: Word :: Placed(image, n, stack) ==> Fair(image, n, stack, s)) <==>
      WellPlaced(n, s)
  {
    hide PhysStart, PhysEnd, FirstPage, PageCount, WellPlaced, HighFair;
    if WellPlaced(n, s) {
      forall image: Word, stack: Word | Placed(image, n, stack) ensures Fair(image, n, stack, s) {
        WellPlacedIsFair(image, n, stack, s);
      }
    } else {
      BlockAligned(n + 1);
      assert Placed(0x0100_0000, n, BlockAddr(n + 1));
      var stack := NotFair(n, s);
    }
  }

  lemma WellPlacedIsFair(image: Word, n: int, stack: Word, s: Segment)
    requires Placed(image, n, stack) && InRange(image, s) && Writes(s) && WellPlaced(n, s)
    ensures Fair(image, n, stack, s)
  {
    hide PhysStart, PhysEnd;
    InRangeAccepted(image, s);
    WellPlacedIsGood(image, n, s);
  }

  /** Of two places for the stack, both away from the image, one shows an unfair segment. */
  lemma NotFair(n: nat, s: Segment) returns (stack: Word)
    requires Writes(s) && 1 <= n && n + 10 <= 25600 && !WellPlaced(n, s) && InRange(0x0100_0000, s)
    ensures Placed(0x0100_0000, n, stack) && !Fair(0x0100_0000, n, stack, s)
  {
    hide PhysStart, PhysEnd, FirstPage, PageCount, WellPlaced, InRange;
    var image, a, b := 0x0100_0000, BlockAddr(n + 1), BlockAddr(n + 6);
    BlockAligned(n + 1);
    BlockAligned(n + 6);
    assert Placed(image, n, a) && Placed(image, n, b);
    stack := if Fair(image, n, a, s) then b else a;
    if Fair(image, n, a, s) && Fair(image, n, b, s) {
      FairTwice(image, n, s, a, b);
      assert false;
    }
  }

  lemma FairTwice(image: Word, n: nat, s: Segment, a: Word, b: Word)
    requires Placed(image, n, a) && Placed(image, n, b) && InRange(image, s) && Writes(s)
    requires image + 4096 * n < a && a + 16384 < b && Fair(image, n, a, s) && Fair(image, n, b, s)
    ensures WellPlaced(n, s)
  {
    hide PhysStart, PhysEnd, FirstPage, PageCount, WellPlaced;
    assert Within(image, image + 4096 * n, image + s.offset, image + s.offset + s.memsz);
    InRangeAccepted(image, s);
    SmallEnough(image, s);
    GoodIsWellPlaced(image, n, s);
    PagesInImage(image, s, n);
  }

  lemma SmallEnough(image: Word, s: Segment)
    requires InRange(image, s) && image % 4096 == 0 && HighFair(image, s) && Writes(s)
    ensures s.memsz <= 0x0100_0000 && FirstPage(s) + PageCount(image, s) <= 0x1000
  {
    hide PhysStart, PhysEnd;
    InRangeAccepted(image, s);
    ModAdd(s.vaddr / 4096, 0);
  }

  /** Two pages of writable zero-initialised memory at the program base, in a file of one page. */
  const BSS := Segment(0, 0x40_0000, 8192, 6)

  /** Loaded into an empty heap the program has its stack where its second page spills; loaded around a
      block in use it may write to that block. */
  lemma SpilledPage()
    ensures !WellPlaced(1, BSS)
    ensures Layout(0x0100_0000, 1, 0x0100_1000, [BSS]) && Fair(0x0100_0000, 1, 0x0100_1000, BSS)
    ensures Layout(0x0100_0000, 1, 0x0100_2000, [BSS]) && !Fair(0x0100_0000, 1, 0x0100_2000, BSS)
    ensures LoadedEntry(0x0100_0000, 0x0100_2000, [BSS], 0x401) == 0x0100_1000 + 7
  {
    hide PhysStart, PhysEnd, FirstPage, PageCount, Above, OnPage, LoadedEntry, FrameAt, StackClear, PageDisjoint;
    BssPages();
    BssClear();
    EntryIs(0x0100_0000, 1, 0x0100_2000, [BSS], 0, 0x401);
  }

  lemma BssPages()
    ensures FirstPage(BSS) == 0x400 && PhysStart(0x0100_0000, BSS) == 0x0100_0000
    ensures PhysEnd(0x0100_0000, BSS) == 0x0100_2000
    ensures PageCount(0x0100_0000, BSS) == 2 && Above(0x400, 0x401) == 1 && OnPage(0x0100_0000, BSS, 0x401)
  {
    BssStart();
    BssEnd();
    hide FirstPage, PhysStart, PhysEnd;
    assert (0x0100_2000 - 0x0100_0000) / 4096 == 2;
  }

  lemma BssStart()
    ensures FirstPage(BSS) == 0x400 && PhysStart(0x0100_0000, BSS) == 0x0100_0000
  {
    assert 0x0100_0000 % 4096 == 0 && 0x40_0000 % 4096 == 0 && 0x40_0000 / 4096 == 0x400;
  }

  lemma BssEnd()
    ensures PhysEnd(0x0100_0000, BSS) == 0x0100_2000
  {
    hide AlignAddress;
    WrapSmall(0x0100_2000);
    assert 0x0100_2000 % 4096 == 0 && PhysEnd(0x0100_0000, BSS) == AlignAddress(0x0100_2000);
    AlignUp(0x0100_2000);
  }

  lemma BssClear()
    ensures PageDisjoint(0x0100_0000, [BSS]) && StackClear(0x0100_0000, [BSS])
  {
    hide PhysStart, PhysEnd, FirstPage, PageCount;
    BssPages();
    forall i, v: Page | 0 <= i < |[BSS]| && OnPage(0x0100_0000, [BSS][i], v) ensures !StackPage(v) {
      assert [BSS][i] == BSS && Above(0x400, v) < 2;
    }
  }
}
