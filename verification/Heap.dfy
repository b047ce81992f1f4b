/** The encoding of the kernel heap: what the bytes of the block table say about
    the live allocations, and what marking and freeing do to it. */
module HeapTable {
  import opened Ram

  // The table sits at 0x7E00 and has 25600 entries, one per 4096-byte block of
  // the pool that starts at 0x01000000.

  /** Live allocations: first block |-> number of blocks. */
  type Runs = map<int, int>

  /** Entry numbers the code can reach: a signed 32-bit distance divided by 4096, or a run's overrun. */
  type Reach = i: int | -0x8_0000 <= i <= 0x20_0000

  /** Physical address of table entry `i`, which may lie outside the table. */
  function At(i: Reach): (a: Word)
    ensures Index(a) == i && a == Wrap(0x7E00 + i)
  {
    if i >= -0x7E00 then 0x7E00 + i else 0x1_0000_7E00 + i
  }

  /** The entry number of address `a`, as a signed distance from the table base. */
  function Index(a: Word): int {
    if a < 0x8000_0000 then a - 0x7E00 else a - 0x7E00 - 0x1_0000_0000
  }

  function BlockAddr(b: int): int {
    0x0100_0000 + b * 4096
  }

  function Entry(m: Mem, i: int): Byte
    requires 0 <= i < 25600
  {
    m[0x7E00 + i]
  }

  predicate FreeBlock(m: Mem, i: int) {
    0 <= i < 25600 && Entry(m, i) % 16 == 0
  }

  predicate FreeRun(m: Mem, s: int, n: int) {
    0 <= s && s + n <= 25600 && forall i :: s <= i < s + n ==> FreeBlock(m, i)
  }

  predicate SomeFit(m: Mem, n: int) {
    n >= 1 && exists s | 0 <= s < 25600 :: FreeRun(m, s, n)
  }

  /** What an allocation of `n` blocks needs of the table for the code to be right. */
  predicate Guard(m: Mem, n: int) {
    SomeFit(m, n) || !FreeBlock(m, 25599)
  }

  // ---- chains -------------------------------------------------------------

  ghost predicate Covers(live: Runs, s: int, i: int) {
    s in live && s <= i < s + live[s]
  }

  ghost predicate Taken(live: Runs, i: int) {
    exists s :: Covers(live, s, i)
  }

  ghost predicate WellFormed(live: Runs) {
    && (forall s :: s in live ==> 0 <= s && 1 <= live[s] && s + live[s] <= 25600)
    && (forall s, t :: s in live && t in live && s < t ==> s + live[s] <= t)
  }

  /** Entry `k` of a run of `n` blocks: TAKEN, IS_FIRST on the first, HAS_NEXT on all but the last. */
  function Code(k: int, n: int): Byte {
    1 + (if k == 0 then 64 else 0) + (if k < n - 1 then 128 else 0)
  }

  ghost predicate Encodes(m: Mem, live: Runs) {
    && WellFormed(live)
    && (forall s, i :: Covers(live, s, i) ==> Entry(m, i) == Code(i - s, live[s]))
    && (forall i :: 0 <= i < 25600 && !Taken(live, i) ==> Entry(m, i) == 0)
  }

  /** A new run of `n` blocks fits at `s` without touching a live one. */
  ghost predicate Fits(live: Runs, s: int, n: int) {
    0 <= s && 1 <= n && s + n <= 25600 && forall i :: s <= i < s + n ==> !Taken(live, i)
  }

  lemma FreeIsUntaken(m: Mem, live: Runs, i: int)
    requires Encodes(m, live) && 0 <= i < 25600
    ensures FreeBlock(m, i) <==> !Taken(live, i)
    ensures FreeBlock(m, i) ==> Entry(m, i) == 0
  {
    if Taken(live, i) {
      var s :| Covers(live, s, i);
    }
  }

  lemma FreeRunFits(m: Mem, live: Runs, s: int, n: int)
    requires Encodes(m, live) && n >= 1
    ensures FreeRun(m, s, n) <==> Fits(live, s, n)
  {
    forall i | 0 <= i < 25600 { FreeIsUntaken(m, live, i); }
  }

  lemma AddRun(live: Runs, s: int, n: int)
    requires WellFormed(live) && Fits(live, s, n)
    ensures s !in live && WellFormed(live[s := n])
    ensures forall i :: Taken(live[s := n], i) <==> Taken(live, i) || s <= i < s + n
  {
    var live' := live[s := n];
    assert s in live ==> Covers(live, s, s);
    assert Covers(live', s, s);
    forall t | t in live ensures t + live[t] <= s || s + n <= t {
      assert Covers(live, t, t) && Taken(live, t);
      assert t <= s < t + live[t] ==> Covers(live, t, s) && Taken(live, s);
    }
    forall i ensures Taken(live', i) <==> Taken(live, i) || s <= i < s + n {
      if Taken(live, i) { var t :| Covers(live, t, i); assert Covers(live', t, i); }
      if s <= i < s + n { assert Covers(live', s, i); }
      if Taken(live', i) { var t :| Covers(live', t, i); assert t != s ==> Covers(live, t, i); }
    }
  }

  lemma DropRun(live: Runs, s: int)
    requires WellFormed(live) && s in live
    ensures WellFormed(live - {s}) && Fits(live - {s}, s, live[s])
    ensures forall i :: Taken(live - {s}, i) <==> Taken(live, i) && !(s <= i < s + live[s])
  {
    var live' := live - {s};
    forall i ensures Taken(live', i) <==> Taken(live, i) && !(s <= i < s + live[s]) {
      if Taken(live', i) { var t :| Covers(live', t, i); assert Covers(live, t, i); }
      if Taken(live, i) && !(s <= i < s + live[s]) { var t :| Covers(live, t, i); assert Covers(live', t, i); }
    }
  }

  /** The table is a function of the live runs ... */
  lemma TableOfRuns(m: Mem, m': Mem, live: Runs)
    requires Encodes(m, live) && Encodes(m', live)
    ensures Same(m, m', 0x7E00, 0x7E00 + 25600)
  {
    forall i | 0 <= i < 25600 ensures Entry(m, i) == Entry(m', i) {
      if Taken(live, i) { var s :| Covers(live, s, i); }
    }
    forall a | 0x7E00 <= a < 0x7E00 + 25600 ensures m[a] == m'[a] {
      assert Entry(m, a - 0x7E00) == Entry(m', a - 0x7E00);
    }
  }

  /** ... and determines them: the chain encoding loses nothing. */
  lemma RunsOfTable(m: Mem, live: Runs, live': Runs)
    requires Encodes(m, live) && Encodes(m, live')
    ensures live == live'
  {
    forall s ensures s in live ==> s in live' && live[s] <= live'[s] {
      if s in live { RunReadBack(m, live, live', s); }
    }
    forall s ensures s in live' ==> s in live && live'[s] <= live[s] {
      if s in live' { RunReadBack(m, live', live, s); }
    }
    assert live.Keys == live'.Keys;
  }

  lemma RunReadBack(m: Mem, live: Runs, live': Runs, s: int)
    requires Encodes(m, live) && Encodes(m, live') && s in live
    ensures s in live' && live[s] <= live'[s]
  {
    assert Covers(live, s, s) && Entry(m, s) % 16 != 0;
    FreeIsUntaken(m, live', s);
    var t :| Covers(live', t, s);
    assert Entry(m, s) == Code(s - t, live'[t]);
    var last := t + live'[t] - 1;
    assert Covers(live', t, last);
    assert last < s + live[s] ==> Covers(live, s, last);
  }

  lemma SameEncodes(m: Mem, m': Mem, live: Runs)
    requires Encodes(m, live) && Same(m, m', 0x7E00, 0x7E00 + 25600)
    ensures Encodes(m', live)
  {
    forall i | 0 <= i < 25600 ensures Entry(m', i) == Entry(m, i) {
      assert m'[0x7E00 + i] == m[0x7E00 + i];
    }
  }

  // ---- marking ------------------------------------------------------------

  /** Entries `s..s+n` carry a fresh chain; every other byte of memory is as before. */
  ghost predicate MarkedTaken(m: Mem, m': Mem, s: int, n: int) {
    forall a: Word :: m'[a] == if s <= Index(a) < s + n then Code(Index(a) - s, n) else m[a]
  }

  lemma MarkEncodes(m: Mem, m': Mem, live: Runs, s: int, n: int)
    requires Encodes(m, live) && Fits(live, s, n) && MarkedTaken(m, m', s, n)
    ensures Encodes(m', live[s := n])
  {
    var live' := live[s := n];
    AddRun(live, s, n);
    forall i | 0 <= i < 25600
      ensures Entry(m', i) == if s <= i < s + n then Code(i - s, n) else Entry(m, i)
    {
      assert Index(0x7E00 + i) == i;
    }
    forall t, i | Covers(live', t, i) ensures Entry(m', i) == Code(i - t, live'[t]) {
      if t != s {
        assert Covers(live, t, i) && Taken(live, i);
      }
    }
    forall i | 0 <= i < 25600 && !Taken(live', i) ensures Entry(m', i) == 0 {
      assert !Taken(live, i) && !(s <= i < s + n);
    }
  }

  /** One past the last entry a free starting at entry `i` clears. */
  function ChainEnd(m: Mem, i: Reach): (e: int)
    ensures i <= e && (i < 25600 ==> i < e <= 25600)
    decreases 25600 - i
  {
    if i >= 25600 then i
    else if m[At(i)] < 128 then i + 1
    else ChainEnd(m, i + 1)
  }

  ghost predicate MarkedFree(m: Mem, m': Mem, i: Reach) {
    forall a: Word :: m'[a] == if i <= Index(a) < ChainEnd(m, i) then 0 else m[a]
  }

  lemma {:induction false} ChainOfRun(m: Mem, live: Runs, s: int, i: int)
    requires Encodes(m, live) && Covers(live, s, i)
    ensures ChainEnd(m, i) == s + live[s]
    decreases 25600 - i
  {
    assert m[At(i)] == Entry(m, i) == Code(i - s, live[s]);
    if i < s + live[s] - 1 {
      assert Covers(live, s, i + 1);
      ChainOfRun(m, live, s, i + 1);
    }
  }

  lemma FreeEncodes(m: Mem, m': Mem, live: Runs, s: int)
    requires Encodes(m, live) && s in live && MarkedFree(m, m', s)
    ensures Encodes(m', live - {s})
  {
    var live' := live - {s};
    assert Covers(live, s, s);
    ChainOfRun(m, live, s, s);
    DropRun(live, s);
    forall i | 0 <= i < 25600
      ensures Entry(m', i) == if s <= i < s + live[s] then 0 else Entry(m, i)
    {
      assert Index(0x7E00 + i) == i;
    }
    forall t, i | Covers(live', t, i) ensures Entry(m', i) == Code(i - t, live'[t]) {
      assert Covers(live, t, i);
    }
    forall i | 0 <= i < 25600 && !Taken(live', i) ensures Entry(m', i) == 0 {
      assert !(s <= i < s + live[s]) ==> !Taken(live, i);
    }
  }

  // ---- the first-fit scan and allocation ----------------------------------

  /** What the scan answers for `n` blocks: the first fit, or else the trailing free run, or else -ENOMEM. */
  ghost predicate ScanResult(m: Mem, n: int, r: int) {
    if SomeFit(m, n) then FreeRun(m, r, n) && forall s :: FreeRun(m, s, n) ==> r <= s
    else if FreeBlock(m, 25599) then
      0 <= r < 25600 && FreeRun(m, r, 25600 - r) && !FreeBlock(m, r - 1)
    else r == -3
  }

  /** `size` rounded up to whole blocks, in 32-bit arithmetic. */
  function Blocks(size: Word): int {
    (if size % 4096 == 0 then size else Wrap(size - size % 4096 + 4096)) / 4096
  }

  /** No run of `n` free blocks starts below `p`. */
  ghost predicate FirstFit(m: Mem, n: int, p: Word) {
    forall s :: n >= 1 && FreeRun(m, s, n) ==> BlockIndex(p) <= s
  }

  /** Everything `heap_malloc` does, for every table and every size. */
  ghost predicate MallocEffect(m: Mem, size: Word, p: Word, m': Mem) {
    MallocBlocksEffect(m, Blocks(size), p, m')
  }

  ghost predicate MallocBlocksEffect(m: Mem, n: int, p: Word, m': Mem) {
    exists r :: ScanResult(m, n, r) && TakeAt(m, r, n, p, m')
  }

  ghost predicate TakeAt(m: Mem, r: int, n: int, p: Word, m': Mem) {
    if r < 0 then p == 0 && m' == m else p == BlockAddr(r) && MarkedTaken(m, m', r, n)
  }

  lemma TakenFirst(m: Mem, n: int, p: Word, m': Mem)
    requires MallocBlocksEffect(m, n, p, m')
    ensures p != 0 ==> FirstFit(m, n, p)
  {
    var r :| ScanResult(m, n, r) && TakeAt(m, r, n, p, m');
    if r >= 0 {
      BlockIndexOfBlock(r);
      forall s | n >= 1 && FreeRun(m, s, n) ensures r <= s {
        assert FreeBlock(m, s);
        assert SomeFit(m, n);
      }
    }
  }

  /** The promise of an allocator: null and no change, or one new run of the rounded size. */
  ghost predicate GoodMalloc(m: Mem, live: Runs, size: Word, p: Word, m': Mem) {
    || (p == 0 && m' == m)
    || exists s :: p == BlockAddr(s) && NewRun(m, live, s, Blocks(size), m')
  }

  ghost predicate NewRun(m: Mem, live: Runs, s: int, n: int, m': Mem) {
    && Fits(live, s, n) && Encodes(m', live[s := n])
    && forall a: Word :: !(0x7E00 <= a < 0x7E00 + 25600) ==> m'[a] == m[a]
  }

  /** `heap_malloc` keeps that promise exactly when its guard holds. */
  lemma MallocIffGuard(m: Mem, live: Runs, size: Word, p: Word, m': Mem)
    requires Encodes(m, live) && MallocEffect(m, size, p, m')
    ensures GoodMalloc(m, live, size, p, m') <==> Guard(m, Blocks(size))
  {
    var n := Blocks(size);
    var r :| ScanResult(m, n, r) && TakeAt(m, r, n, p, m');
    if SomeFit(m, n) {
      FreeRunFits(m, live, r, n);
      MarkEncodes(m, m', live, r, n);
      assert NewRun(m, live, r, n, m');
    } else if FreeBlock(m, 25599) {
      assert p != 0;
      if GoodMalloc(m, live, size, p, m') {
        var s :| p == BlockAddr(s) && NewRun(m, live, s, n, m');
        FreeRunFits(m, live, s, n);
        assert false;
      }
    }
  }

  /** Without the guard a request for at least one block overruns the table and breaks its chains. */
  lemma MallocOverruns(m: Mem, size: Word, p: Word, m': Mem, live': Runs)
    requires MallocEffect(m, size, p, m') && Blocks(size) >= 1 && !Guard(m, Blocks(size))
    ensures m'[0x7E00 + 25600] % 16 == 1 && !Encodes(m', live')
  {
    var n := Blocks(size);
    var r :| ScanResult(m, n, r) && TakeAt(m, r, n, p, m');
    assert r + n > 25600;
    assert Index(0x7E00 + 25600) == 25600 && Index(0x7E00 + 25599) == 25599;
    assert Entry(m', 25599) >= 128;
    if Encodes(m', live') {
      LastEndsChain(m', live');
    }
  }

  lemma LastEndsChain(m: Mem, live: Runs)
    requires Encodes(m, live)
    ensures Entry(m, 25599) < 128
  {
    if Taken(live, 25599) {
      var s :| Covers(live, s, 25599);
    }
  }

  // ---- freeing an arbitrary pointer ---------------------------------------

  /** The block number of an address: a signed difference divided toward zero. */
  function BlockIndex(p: Word): (b: int)
    ensures -0x8_0000 <= b < 0x8_0000
  {
    var d := Wrap(p - 0x0100_0000);
    if d < 0x8000_0000 then d / 4096 else -((0x1_0000_0000 - d) / 4096)
  }

  lemma BlockIndexOfBlock(b: int)
    requires 0 <= b < 25600
    ensures BlockIndex(BlockAddr(b)) == b
  {
  }

  /** Some byte between entry `i` and the table ends a chain. */
  predicate StopsBelow(m: Mem, i: Reach) {
    exists k | i <= k < 0 :: m[At(k)] < 128
  }

  /** The same for entry -4096, which is where a free of the null pointer starts. */
  predicate LowStop(m: Mem) {
    StopsBelow(m, BlockIndex(0))
  }

  lemma {:induction false} ChainStops(m: Mem, i: Reach, j: int)
    requires i <= j < 25600
    ensures m[At(j)] < 128 ==> ChainEnd(m, i) <= j + 1
    ensures (forall k | i <= k < j :: m[At(k)] >= 128) ==> ChainEnd(m, i) == ChainEnd(m, j)
    decreases j - i
  {
    if i < j { ChainStops(m, i + 1, j); }
  }

  /** A free that starts `-i` entries below the table leaves the table an encoding exactly when
      a byte below the table stops the walk, or it stops on a free first entry. */
  lemma FreeBelow(m: Mem, m': Mem, live: Runs, i: Reach)
    requires Encodes(m, live) && i < 0 && MarkedFree(m, m', i)
    ensures Encodes(m', live) <==> StopsBelow(m, i) || FreeBlock(m, 0)
    ensures StopsBelow(m, i) ==> ChainEnd(m, i) <= 0
  {
    if StopsBelow(m, i) {
      var k :| i <= k < 0 && m[At(k)] < 128;
      ChainStops(m, i, k);
      SameEncodes(m, m', live);
    } else {
      ChainStops(m, i, 0);
      FreeIsUntaken(m, live, 0);
      assert m[At(0)] == Entry(m, 0) && Index(0x7E00) == 0;
      if FreeBlock(m, 0) {
        assert m'[0x7E00] == 0;
        SameEncodes(m, m', live);
      } else {
        assert Entry(m', 0) == 0;
        if Encodes(m', live) { FreeIsUntaken(m', live, 0); }
      }
    }
  }

  lemma FreeNull(m: Mem, m': Mem, live: Runs)
    requires Encodes(m, live) && MarkedFree(m, m', BlockIndex(0))
    ensures BlockIndex(0) == -4096
    ensures Encodes(m', live) <==> LowStop(m) || FreeBlock(m, 0)
    ensures LowStop(m) ==> forall a: Word :: !(0x6E00 <= a < 0x7E00) ==> m'[a] == m[a]
    ensures LowStop(m')
  {
    var i := BlockIndex(0);
    FreeBelow(m, m', live, i);
    assert Index(At(i)) == i && m'[At(i)] == 0;
  }

  // ---- two tables on which the promises fail ------------------------------

  function Blank(): Mem {
    seq(0x1_0000_0000, _ => 0)
  }

  /** An empty heap that is asked for one block more than it has. */
  lemma OneBlockTooMany(p: Word, m': Mem, live': Runs)
    requires MallocEffect(Blank(), 25601 * 4096, p, m')
    ensures Encodes(Blank(), map[]) && !Encodes(m', live')
  {
    var m := Blank();
    assert forall i :: !Taken(map[], i);
    assert forall i :: 0 <= i < 25600 ==> Entry(m, i) == 0;
    assert Blocks(25601 * 4096) == 25601;
    assert FreeBlock(m, 25599) && !SomeFit(m, 25601);
    MallocOverruns(m, 25601 * 4096, p, m', live');
  }

  /** Block 0 in use, and no byte in the page below the table that ends a chain. */
  function NoStop(): Mem {
    seq(0x1_0000_0000, a => if 0x6E00 <= a < 0x7E00 then 128 else if a == 0x7E00 then 0x41 else 0)
  }

  /** Freeing the null pointer forgets block 0. */
  lemma NullFreesBlockZero(m': Mem)
    requires MarkedFree(NoStop(), m', BlockIndex(0))
    ensures Encodes(NoStop(), map[0 := 1]) && !Encodes(m', map[0 := 1]) && FreeBlock(m', 0)
  {
    var m, live := NoStop(), map[0 := 1];
    NoStopEncodes();
    hide NoStop, ChainEnd, Encodes;
    NoStopBytes();
    FreeNull(m, m', live);
    ChainStops(m, -4096, 0);
    assert m'[At(0)] == 0;
  }

  lemma NoStopBytes()
    ensures !LowStop(NoStop()) && !FreeBlock(NoStop(), 0) && BlockIndex(0) == -4096 && At(0) == 0x7E00
    ensures forall k: Reach :: -4096 <= k < 0 ==> NoStop()[At(k)] == 128
  {
    var m := NoStop();
    forall k: Reach | -4096 <= k < 0 ensures m[At(k)] == 128 { assert At(k) == 0x7E00 + k; }
    assert Entry(m, 0) == 0x41;
  }

  lemma NoStopEncodes()
    ensures Encodes(NoStop(), map[0 := 1])
  {
    var m, live := NoStop(), map[0 := 1];
    assert forall i :: 0 <= i < 25600 ==> Entry(m, i) == if i == 0 then 0x41 else 0;
    assert Covers(live, 0, 0) && Taken(live, 0);
  }

  // ---- in terms of table bytes --------------------------------------------

  /** Sizes are rounded up to whole blocks; the last page of sizes wraps round to none. */
  lemma BlocksIs(size: Word)
    ensures if size <= 0xFFFF_F000 then size <= 4096 * Blocks(size) < size as int + 4096 else Blocks(size) == 0
  {
    var q, r := size / 4096, size % 4096;
    assert size == 4096 * q + r;
  }

  lemma FreeBytes(m: Mem, s: int, n: int)
    requires 0 <= s && s + n <= 25600
    ensures FreeRun(m, s, n) <==> forall a: Word :: 0x7E00 + s <= a < 0x7E00 + s + n ==> m[a] % 16 == 0
  {
    if FreeRun(m, s, n) {
      forall a: Word | 0x7E00 + s <= a < 0x7E00 + s + n ensures m[a] % 16 == 0 { assert FreeBlock(m, a - 0x7E00); }
    }
  }

  /** Where `n` table bytes from entry `s` on have no type bits, the scan answers the first such place. */
  lemma ScanBytes(m: Mem, n: int, r: int, s: int)
    requires ScanResult(m, n, r) && n >= 1 && 0 <= s && s + n <= 25600
    requires forall a: Word :: 0x7E00 + s <= a < 0x7E00 + s + n ==> m[a] % 16 == 0
    ensures 0 <= r <= s && forall a: Word :: 0x7E00 + r <= a < 0x7E00 + r + n ==> m[a] % 16 == 0
  {
    FreeBytes(m, s, n);
    assert SomeFit(m, n);
    FreeBytes(m, r, n);
  }

  /** An answer that fits is such a place, and with a marked last entry no other is given. */
  lemma ScanFits(m: Mem, n: int, r: int)
    requires ScanResult(m, n, r) && n >= 1
    ensures 0 <= r && r + n <= 25600 ==> forall a: Word :: 0x7E00 + r <= a < 0x7E00 + r + n ==> m[a] % 16 == 0
    ensures m[0x7E00 + 25599] % 16 != 0 ==> r == -3 || (0 <= r && r + n <= 25600)
  {
    if 0 <= r && r + n <= 25600 {
      FreeBytes(m, r, n);
      if !SomeFit(m, n) && FreeBlock(m, 25599) { assert FreeRun(m, r, n); }
    }
  }

  /** A marked run: 0x01 in every entry, 0x40 in the first, 0x80 in all but the last. */
  lemma MarkedBytes(m: Mem, m': Mem, s: int, n: int)
    requires MarkedTaken(m, m', s, n) && 0 <= s < 25600 && 0 <= n <= 0x10_0000
    ensures forall a: Word :: m'[a] == if a < 0x7E00 + s || 0x7E00 + s + n <= a then m[a]
      else 0x01 + (if a == 0x7E00 + s then 0x40 else 0) + (if a < 0x7E00 + s + n - 1 then 0x80 else 0)
  {
  }

  /** A free from entry `s` on clears up to the first entry without 0x80, and nothing else. */
  lemma FreedBytes(m: Mem, m': Mem, s: int, e: int)
    requires 0 <= s <= e < 25600 && MarkedFree(m, m', s)
    requires forall a: Word :: 0x7E00 + s <= a < 0x7E00 + e ==> m[a] >= 0x80
    requires m[0x7E00 + e] < 0x80 || e == 25599
    ensures forall a: Word :: m'[a] == if 0x7E00 + s <= a <= 0x7E00 + e then 0 else m[a]
  {
    ChainStops(m, s, e);
    forall k | s <= k < e ensures m[At(k)] >= 128 { assert At(k) == 0x7E00 + k; }
    assert At(e) == 0x7E00 + e;
    assert ChainEnd(m, s) == e + 1;
  }

  /** Everything an allocation of `size` bytes does to the table bytes where entries `s` on would do: the lowest
      entries that do are marked, and the pointer is their block. */
  lemma MallocBytes(m: Mem, size: Word, p: Word, m': Mem, s: int, r: int)
    requires MallocEffect(m, size, p, m') && 0 < size <= 0xFFFF_F000 && 0 <= s && s + (size + 4095) / 4096 <= 25600
    requires forall a: Word :: 0x7E00 + s <= a < 0x7E00 + s + (size + 4095) / 4096 ==> m[a] % 16 == 0
    requires r == (p - 0x0100_0000) / 4096
    ensures p == 0x0100_0000 + 4096 * r && 0 <= r <= s
    ensures forall a: Word :: 0x7E00 + r <= a < 0x7E00 + r + (size + 4095) / 4096 ==> m[a] % 16 == 0
    ensures forall a: Word :: m'[a] == if a < 0x7E00 + r || 0x7E00 + r + (size + 4095) / 4096 <= a then m[a]
      else 0x01 + (if a == 0x7E00 + r then 0x40 else 0) +
           (if a < 0x7E00 + r + (size + 4095) / 4096 - 1 then 0x80 else 0)
  {
    hide MarkedTaken, ScanResult;
    var n := (size + 4095) / 4096;
    BlocksIs(size);
    assert Blocks(size) == n;
    var b :| ScanResult(m, n, b) && TakeAt(m, b, n, p, m');
    ScanBytes(m, n, b, s);
    BlockPlace(b, p);
    MarkedBytes(m, m', b, n);
  }

  /** With a marked last entry an allocation is null without change, or fits where it is. */
  lemma MallocFits(m: Mem, size: Word, p: Word, m': Mem, r: int)
    requires MallocEffect(m, size, p, m') && 0 < size <= 0xFFFF_F000 && r == (p - 0x0100_0000) / 4096
    requires m[0x7E00 + 25599] % 16 != 0
    ensures p == 0 ==> m' == m
    ensures p != 0 ==> p == 0x0100_0000 + 4096 * r && 0 <= r && r + (size + 4095) / 4096 <= 25600
    ensures p != 0 ==> forall a: Word :: 0x7E00 + r <= a < 0x7E00 + r + (size + 4095) / 4096 ==> m[a] % 16 == 0
  {
    hide MarkedTaken, ScanResult;
    var n := (size + 4095) / 4096;
    BlocksIs(size);
    assert Blocks(size) == n;
    var b :| ScanResult(m, n, b) && TakeAt(m, b, n, p, m');
    ScanFits(m, n, b);
    if b >= 0 { BlockPlace(b, p); }
  }

  lemma BlockPlace(r: int, p: Word)
    requires p == BlockAddr(r) && 0 <= r < 25600
    ensures p == 0x0100_0000 + 4096 * r && (p - 0x0100_0000) / 4096 == r
    ensures BlockIndex(0x0100_0000 + 4096 * r) == r
  {
  }

  // ---- what one call changes ----------------------------------------------

  /** `p` is the address of the first block of a live run. */
  ghost predicate Start(live: Runs, p: Word) {
    p == BlockAddr(BlockIndex(p)) && BlockIndex(p) in live
  }

  ghost predicate Allocated(live: Runs, size: Word, p: Word, live': Runs) {
    if p == 0 then live' == live
    else
      && p == BlockAddr(BlockIndex(p))
      && Fits(live, BlockIndex(p), Blocks(size))
      && live' == live[BlockIndex(p) := Blocks(size)]
  }

  ghost predicate OnlyTable(m: Mem, m': Mem) {
    forall a: Word :: !(0x7E00 <= a < 0x7E00 + 25600) ==> m'[a] == m[a]
  }

  ghost predicate OnlyBelowTable(m: Mem, m': Mem) {
    forall a: Word :: !(0x6E00 <= a < 0x7E00) ==> m'[a] == m[a]
  }

  ghost predicate ZeroedAt(m: Mem, m': Mem, p: Word, size: int) {
    forall a: Word :: !(0x7E00 <= a < 0x7E00 + 25600) ==> m'[a] == if p <= a < p + size then 0 else m[a]
  }
}

/** heap.c and kheap.c: the kernel heap, working on the table in physical memory. */
module Kheap {
  import opened Ram
  import opened HeapTable

  class Machine {
    const ram: array<Byte>
    ghost var live: Runs

    ghost predicate Valid()
      reads this, ram
    {
      ram.Length == 0x1_0000_0000 && Encodes(ram[..], live)
    }

    constructor (memory: array<Byte>)
      requires memory.Length == 0x1_0000_0000
      ensures ram == memory && live == map[]
    {
      ram := memory;
      live := map[];
    }

    /** Checks the pool against the table and clears the table. */
    method HeapCreate(start: Word, end: Word, total: Word) returns (r: int)
      requires ram.Length == 0x1_0000_0000 && total <= 25600
      modifies this, ram
      ensures r == if start % 4096 == 0 && end % 4096 == 0 && total == Wrap(end - start) / 4096 then 0 else -2
      ensures r != 0 ==> ram[..] == old(ram[..]) && live == old(live)
      ensures r == 0 ==> live == map[] && forall a: Word ::
        ram[..][a] == if 0x7E00 <= a < 0x7E00 + total then 0 else old(ram[..])[a]
      ensures r == 0 && total == 25600 ==> Valid()
    {
      if start % 4096 != 0 || end % 4096 != 0 {
        return -2;
      }
      if total != Wrap(end - start) / 4096 {
        return -2;
      }
      for i := 0 to total
        invariant live == old(live)
        invariant forall a: Word :: ram[a] == if 0x7E00 <= a < 0x7E00 + i then 0 else old(ram[a])
      {
        ram[0x7E00 + i] := 0;
      }
      live := map[];
      r := 0;
    }

    method GetStartBlock(n: Word) returns (r: int)
      requires ram.Length == 0x1_0000_0000
      ensures ScanResult(ram[..], n, r)
      ensures -1 < r < 25600 || r == -3
    {
      ghost var m: Mem := ram[..];
      var current, start := 0, -1;
      var i := 0;
      while i < 25600
        invariant 0 <= i <= 25600
        invariant start == -1 ==> current == 0 && !FreeBlock(m, i - 1)
        invariant start != -1 ==> 0 <= start && start + current == i && current >= 1
        invariant start != -1 ==> FreeRun(m, start, current) && !FreeBlock(m, start - 1)
        invariant forall s :: s < (if start == -1 then i else start) && n >= 1 ==> !FreeRun(m, s, n)
        invariant n == 0 || current < n
      {
        assert ram[0x7E00 + i] == Entry(m, i);
        if ram[0x7E00 + i] % 16 != 0 {
          assert forall s :: FreeRun(m, s, n) && s <= i ==> s + n <= i by {
            forall s | FreeRun(m, s, n) && s <= i ensures s + n <= i {
              assert i < s + n ==> FreeBlock(m, i);
            }
          }
          current, start := 0, -1;
          i := i + 1;
          continue;
        }
        if start == -1 {
          start := i;
        }
        current := current + 1;
        if current == n {
          assert FreeRun(m, start, n);
          return start;
        }
        i := i + 1;
      }
      assert forall s :: n >= 1 ==> !FreeRun(m, s, n);
      return if start == -1 then -3 else start;
    }

    method MarkBlocksTaken(start: int, n: int)
      requires ram.Length == 0x1_0000_0000
      requires 0 <= start < 25600 && 0 <= n <= 0x10_0000
      modifies ram
      ensures MarkedTaken(old(ram[..]), ram[..], start, n)
    {
      var end := start + n - 1;
      var entry := if n > 1 then 0x01 + 0x40 + 0x80 else 0x01 + 0x40;
      var i := start;
      while i <= end
        invariant start <= i <= start + n
        invariant i <= end ==> entry == Code(i - start, n)
        invariant forall a: Word :: ram[a] == if start <= Index(a) < i then Code(Index(a) - start, n) else old(ram[a])
      {
        ram[At(i)] := entry;
        entry := if i != end - 1 then 0x01 + 0x80 else 0x01;
        i := i + 1;
      }
    }

    method MarkBlocksFree(start: Reach)
      requires ram.Length == 0x1_0000_0000
      modifies ram
      ensures MarkedFree(old(ram[..]), ram[..], start)
    {
      ghost var m: Mem := ram[..];
      var i := start;
      while i < 25600
        invariant start <= i && (start < 25600 ==> i <= 25600)
        invariant ChainEnd(m, i) == ChainEnd(m, start)
        invariant forall a: Word :: ram[a] == if start <= Index(a) < i then 0 else m[a]
      {
        var entry := ram[At(i)];
        ram[At(i)] := 0;
        i := i + 1;
        if entry < 128 {
          return;
        }
      }
    }

    method MallocBlocks(n: int) returns (p: Word)
      requires ram.Length == 0x1_0000_0000 && 0 <= n <= 0x10_0000
      modifies ram
      ensures MallocBlocksEffect(old(ram[..]), n, p, ram[..])
    {
      p := 0;
      var r := GetStartBlock(n);
      if r < 0 {
        return;
      }
      p := BlockAddr(r);
      MarkBlocksTaken(r, n);
      assert TakeAt(old(ram[..]), r, n, p, ram[..]);
    }

    method Malloc(size: Word) returns (p: Word)
      requires ram.Length == 0x1_0000_0000
      modifies this, ram
      ensures MallocEffect(old(ram[..]), size, p, ram[..])
      ensures old(Valid()) && Guard(old(ram[..]), Blocks(size)) ==>
        Valid() && Allocated(old(live), size, p, live) && OnlyTable(old(ram[..]), ram[..])
      ensures p == 0 ==> ram[..] == old(ram[..])
      ensures old(Valid()) && Guard(old(ram[..]), Blocks(size)) ==>
        (p == 0 <==> !SomeFit(old(ram[..]), Blocks(size)))
      ensures p != 0 ==> FirstFit(old(ram[..]), Blocks(size), p)
    {
      p := MallocBlocks(Blocks(size));
      ghost var m: Mem := old(ram[..]);
      assert p != 0 ==> FirstFit(m, Blocks(size), p) by { TakenFirst(m, Blocks(size), p, ram[..]); }
      if Encodes(m, live) && Guard(m, Blocks(size)) {
        MallocIffGuard(m, live, size, p, ram[..]);
        if p != 0 {
          ghost var s :| p == BlockAddr(s) && NewRun(m, live, s, Blocks(size), ram[..]);
          live := live[s := Blocks(size)];
        }
      }
    }

    method Free(p: Word)
      requires ram.Length == 0x1_0000_0000
      modifies this, ram
      ensures MarkedFree(old(ram[..]), ram[..], BlockIndex(p))
      ensures old(Valid()) && Start(old(live), p) ==>
        Valid() && live == old(live) - {BlockIndex(p)} && OnlyTable(old(ram[..]), ram[..])
      ensures old(Valid()) && p == 0 && LowStop(old(ram[..])) ==>
        Valid() && live == old(live) && OnlyBelowTable(old(ram[..]), ram[..]) && LowStop(ram[..])
    {
      ghost var m: Mem := ram[..];
      MarkBlocksFree(BlockIndex(p));
      if Encodes(m, live) && p == 0 {
        FreeNull(m, ram[..], live);
      } else if Encodes(m, live) && Start(live, p) {
        var s := BlockIndex(p);
        FreeEncodes(m, ram[..], live, s);
        assert Covers(live, s, s);
        ChainOfRun(m, live, s, s);
        live := live - {s};
      }
    }

    method Kzalloc(size: Word) returns (p: Word)
      requires Valid() && Guard(ram[..], Blocks(size))
      modifies this, ram
      ensures Valid() && Allocated(old(live), size, p, live)
      ensures p == 0 <==> !SomeFit(old(ram[..]), Blocks(size))
      ensures p != 0 ==> FirstFit(old(ram[..]), Blocks(size), p)
      ensures p == 0 ==> ram[..] == old(ram[..])
      ensures p != 0 ==> p + size <= 0x0740_0000 && ZeroedAt(old(ram[..]), ram[..], p, size)
    {
      p := Malloc(size);
      if p == 0 {
        return;
      }
      ghost var m: Mem := ram[..];
      Memset(ram, p, 0, size);
      SameEncodes(m, ram[..], live);
    }
  }
}
