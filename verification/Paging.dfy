/** Two-level page tables as they lie in physical memory, and the flat map from
    virtual page to entry that they stand for. */
module PageTables {
  import opened Ram
  import opened HeapTable

  /** A page-aligned address. */
  type Frame = w: Word | w % 4096 == 0
  /** A virtual page number. */
  type Page = v: int | 0 <= v < 0x10_0000

  /** The blocks of one address space: the chunk record, its directory, the 1024 tables,
      and the flag bits its directory entries carry. */
  datatype Shape = Shape(chunk: Frame, dir: Frame, tables: seq<Frame>, flags: int)
  type Space = sh: Shape | |sh.tables| == 1024 && 0 <= sh.flags < 4096
    ghost witness Shape(0, 0, seq(1024, _ => 0), 0)

  /** Word `i` of the page at `t`. */
  function WordIn(m: Mem, t: Frame, i: int): Word
    requires 0 <= i < 1024
  {
    WordAt(m, t + 4 * i)
  }

  function PteAddr(sh: Space, v: Page): (a: int)
    ensures 0 <= a <= 0xFFFF_FFFC
  {
    sh.tables[v / 1024] + 4 * (v % 1024)
  }

  function Pte(m: Mem, sh: Space, v: Page): Word {
    WordAt(m, PteAddr(sh, v))
  }

  ghost predicate Wired(m: Mem, sh: Space) {
    && WordAt(m, sh.chunk) == sh.dir
    && forall i :: 0 <= i < 1024 ==> WordIn(m, sh.dir, i) == sh.tables[i] + sh.flags
  }

  ghost predicate Distinct(sh: Space) {
    && sh.chunk != sh.dir && sh.chunk !in sh.tables && sh.dir !in sh.tables
    && forall i, j :: 0 <= i < j < 1024 ==> sh.tables[i] != sh.tables[j]
  }

  /** The block at `a` is a live run of its own. */
  ghost predicate OneBlock(live: Runs, a: Word) {
    Start(live, a) && live[BlockIndex(a)] == 1
  }

  ghost predicate Owned(live: Runs, sh: Space) {
    && Distinct(sh)
    && OneBlock(live, sh.chunk) && OneBlock(live, sh.dir)
    && forall i :: 0 <= i < 1024 ==> OneBlock(live, sh.tables[i])
  }

  /** Page `t` is one of the blocks of `sh`. */
  ghost predicate InFoot(sh: Space, t: Frame) {
    t == sh.chunk || t == sh.dir || t in sh.tables
  }

  ghost predicate SamePage(m: Mem, m': Mem, t: Frame) {
    Same(m, m', t, t + 4096)
  }

  ghost predicate OnlyTables(m: Mem, m': Mem, sh: Space) {
    forall t: Frame :: t !in sh.tables ==> SamePage(m, m', t)
  }

  // ---- one entry ----------------------------------------------------------

  lemma FrameBound(t: Frame)
    ensures t <= 0xFFFF_F000
  {
  }

  lemma ModAdd(q: int, f: int)
    requires 0 <= f < 4096
    ensures (4096 * q + f) % 4096 == f && (4096 * q + f) / 4096 == q
  {
  }

  lemma ModEight(q: int, f: int)
    requires 0 <= f
    ensures (4096 * q + f) % 8 == f % 8
  {
    EightDigits(512 * q + f / 8, f % 8);
  }

  lemma EightDigits(r: int, z: int)
    requires 0 <= z < 8
    ensures (8 * r + z) % 8 == z
  {
  }

  /** Table pointers survive tagging. */
  lemma TagRoundTrip(t: Frame, f: int)
    requires 0 <= f < 4096
    ensures t + f < 0x1_0000_0000 && Untag(t + f) == t && Or(t, f) == t + f
  {
    hide Or;
    FrameBound(t);
    OrAligned(t, f, 0);
    ModAdd(t / 4096, f);
  }

  lemma SamePageWord(m: Mem, m': Mem, t: Frame, j: int)
    requires SamePage(m, m', t) && 0 <= j < 1024
    ensures 0 <= t + 4 * j <= 0xFFFF_FFFC && WordAt(m', t + 4 * j) == WordAt(m, t + 4 * j)
  {
    FrameBound(t);
    SameWord(m, m', t + 4 * j);
  }

  lemma FramesApart(t: Frame, u: Frame)
    requires t != u
    ensures t + 4096 <= u || u + 4096 <= t
  {
  }

  lemma EntriesApart(sh: Space, u: Page, v: Page)
    requires Distinct(sh) && u != v
    ensures PteAddr(sh, u) + 4 <= PteAddr(sh, v) || PteAddr(sh, v) + 4 <= PteAddr(sh, u)
  {
    var i, j := u / 1024, v / 1024;
    if i != j {
      assert sh.tables[i] != sh.tables[j];
      FramesApart(sh.tables[i], sh.tables[j]);
    }
  }

  /** The flat map of `m'` is that of `m` with page `v` set to `w`. */
  ghost predicate Updated(m: Mem, m': Mem, sh: Space, v: Page, w: Word) {
    forall u: Page :: Pte(m', sh, u) == if u == v then w else Pte(m, sh, u)
  }

  /** Writing one entry updates the flat map at one page and nothing else. */
  lemma SetEntry(m: Mem, sh: Space, v: Page, w: Word)
    requires Distinct(sh) && Wired(m, sh)
    ensures var m' := SetWord(m, PteAddr(sh, v), w);
      Wired(m', sh) && OnlyTables(m, m', sh) && Updated(m, m', sh, v, w)
  {
    var m' := SetWord(m, PteAddr(sh, v), w);
    forall t: Frame | t !in sh.tables ensures SamePage(m, m', t) {
      FramesApart(t, sh.tables[v / 1024]);
    }
    TablesFrame(m, m', sh);
    forall u: Page ensures Pte(m', sh, u) == if u == v then w else Pte(m, sh, u) {
      if u != v {
        EntriesApart(sh, u, v);
        SameWord(m, m', PteAddr(sh, u));
      }
    }
  }

  /** Writes inside the tables leave the directory alone. */
  lemma TablesFrame(m: Mem, m': Mem, sh: Space)
    requires Distinct(sh) && Wired(m, sh) && OnlyTables(m, m', sh)
    ensures Wired(m', sh)
  {
    SamePageWord(m, m', sh.chunk, 0);
    forall i | 0 <= i < 1024 ensures WordIn(m', sh.dir, i) == WordIn(m, sh.dir, i) {
      SamePageWord(m, m', sh.dir, i);
    }
  }

  /** Isolation: a write that avoids a space's own blocks changes none of its entries. */
  lemma FootFrame(m: Mem, m': Mem, sh: Space)
    requires Wired(m, sh)
    requires forall t: Frame :: InFoot(sh, t) ==> SamePage(m, m', t)
    ensures Wired(m', sh) && forall v: Page :: Pte(m', sh, v) == Pte(m, sh, v)
  {
    assert InFoot(sh, sh.chunk) && InFoot(sh, sh.dir);
    SamePageWord(m, m', sh.chunk, 0);
    forall i | 0 <= i < 1024 ensures WordIn(m', sh.dir, i) == WordIn(m, sh.dir, i) {
      SamePageWord(m, m', sh.dir, i);
    }
    forall v: Page ensures Pte(m', sh, v) == Pte(m, sh, v) {
      assert InFoot(sh, sh.tables[v / 1024]);
      SamePageWord(m, m', sh.tables[v / 1024], v % 1024);
    }
  }

  // ---- a range of entries -------------------------------------------------

  /** How far page `v` lies above page `v0`, going round the address space. */
  function Above(v0: Page, v: Page): int {
    (v - v0) % 0x10_0000
  }

  /** The flat map after `n` pages from `v0` were pointed at the frames from `p0`. */
  ghost predicate Mapped(m: Mem, m': Mem, sh: Space, v0: Page, p0: Frame, n: int, flags: int) {
    forall v: Page :: Pte(m', sh, v) ==
      if Above(v0, v) < n then p0 + 4096 * Above(v0, v) + flags else Pte(m, sh, v)
  }

  lemma AboveNext(v0: Page, i: int, v: Page)
    requires 0 <= i < 0x10_0000
    ensures (Above(v0, v) == i) <==> v == (v0 + i) % 0x10_0000
  {
  }

  lemma MapStep(m: Mem, m1: Mem, m2: Mem, sh: Space, v0: Page, p0: Frame, i: int, flags: int)
    requires 0 <= i < 0x10_0000 && 0 <= flags && p0 + 4096 * i + flags < 0x1_0000_0000
    requires Mapped(m, m1, sh, v0, p0, i, flags) && OnlyTables(m, m1, sh)
    requires Updated(m1, m2, sh, (v0 + i) % 0x10_0000, p0 + 4096 * i + flags) && OnlyTables(m1, m2, sh)
    ensures Mapped(m, m2, sh, v0, p0, i + 1, flags) && OnlyTables(m, m2, sh)
  {
    forall v: Page ensures Pte(m2, sh, v) ==
      if Above(v0, v) < i + 1 then p0 + 4096 * Above(v0, v) + flags else Pte(m, sh, v)
    {
      AboveNext(v0, i, v);
    }
    forall t: Frame | t !in sh.tables ensures SamePage(m, m2, t) {
      assert SamePage(m, m1, t) && SamePage(m1, m2, t);
    }
  }
}
