/** A run of allowed calls, each by the program that the kernel has running, after which one more exit would
    write through a stale back link into a page table. */
module StaleTask {
  import opened Ram
  import opened HeapTable
  import opened PageTables
  import opened Paging
  import opened Kheap
  import opened ProcessMemory
  import opened ProcessCode
  import opened Loader
  import opened LoadProcess
  import opened Protection
  import opened TaskList
  import opened TaskLinks
  import opened SystemRun

  // ---- where the blocks are -----------------------------------------------

  /** Blocks `c` up to `d` are free. */
  ghost predicate FreeRow(live: Runs, c: int, d: int) {
    0 <= c <= d <= 25600 && forall i :: c <= i < d ==> !Taken(live, i)
  }

  lemma RowRoom(live: Runs, c: int, d: int, n: int)
    requires FreeRow(live, c, d) && n >= 1 && c + n <= d
    ensures Room(live, n) && |FreeSet(live)| >= d - c
  {
    assert Fits(live, c, n);
    var X := Interval(c, d - c);
    assert FreeSet(live) == X + (FreeSet(live) - X);
  }

  /** Process `p` with a file of `n` blocks lies in one row of blocks from block `c` on. */
  ghost predicate InOneRow(p: Proc, c: int, n: int) {
    PlacedAt(p, c, c + 3, c + 4, n) && 0 <= c && n >= 1 && c + n + 1038 <= 25600
  }

  lemma RowIndexes(p: Proc, c: int, n: int)
    requires InOneRow(p, c, n)
    ensures BlockIndex(p.parts.record) == c && BlockIndex(p.parts.elf) == c + 3 && BlockIndex(p.parts.stack) == c + 7
    ensures BlockIndex(p.parts.image) == c + 11 && BlockIndex(p.parts.task) == c + n + 11
    ensures BlockIndex(p.sh.dir) == c + n + 12 && BlockIndex(p.sh.chunk) == c + n + 1037
    ensures forall j :: 0 <= j < 1024 ==> BlockIndex(p.sh.tables[j]) == c + n + 13 + j
  {
    hide BlockIndex;
    forall b | 0 <= b < 25600 ensures BlockIndex(BlockAddr(b)) == b { BlockIndexOfBlock(b); }
  }

  /** Apart from the process record and the path, the blocks of the row are the process's own. */
  lemma RowOwned(m: Mem, live: Runs, p: Proc, c: int, n: int, i: int)
    requires Agree(m, live, p) && InOneRow(p, c, n) && PartsIn(live, p.parts, n)
    requires i == c + 3 || c + 7 <= i < c + n + 1038
    ensures exists r :: r in OwnRuns(p) && r != c && Covers(live, r, i)
  {
    hide WordAt, Pte, BlockIndex, BlockAddr, RecordsAgree, PagesAgree, LowConfined, InOneRow;
    RowIndexes(p, c, n);
    if i >= c + n + 12 {
      var t := if i == c + n + 12 then p.sh.dir
        else if i == c + n + 1037 then p.sh.chunk
        else p.sh.tables[i - (c + n + 13)];
      assert InFoot(p.sh, t) && t in Foot(p.sh) && OneBlock(live, t);
      assert BlockIndex(t) == i;
      assert BlockIndex(t) in OwnRuns(p) && Covers(live, BlockIndex(t), i);
    } else {
      var q := p.parts;
      var t := if i == c + 3 then q.elf
        else if i < c + 11 then q.stack
        else if i < c + n + 11 then q.image else q.task;
      assert BlockIndex(t) in PartRuns(q);
      assert BlockIndex(t) in OwnRuns(p) && Covers(live, BlockIndex(t), i);
    }
  }

  lemma RunsInRow(p: Proc, c: int, n: int, b: int)
    requires InOneRow(p, c, n) && b in OwnRuns(p) && SlotRuns(p.slots) == {}
    ensures b == c || b == c + 3 || b >= c + 7
  {
    hide BlockAddr, BlockIndex, PlacedAt;
    RowIndexes(p, c, n);
    if b in BlocksOf(Foot(p.sh)) { FootStarts(p.sh, b); }
  }

  /** What is free after the exit of a process in a row: its file record, and the row behind the path. */
  lemma GapAfterExit(m: Mem, live: Runs, p: Proc, c: int, n: int, live': Runs)
    requires Agree(m, live, p) && InOneRow(p, c, n) && PartsIn(live, p.parts, n) && SlotRuns(p.slots) == {}
    requires forall i :: 0 <= i < c + n + 1038 ==> Taken(live, i)
    requires live' == live - (OwnRuns(p) - {BlockIndex(p.parts.record)})
    ensures Gap(live', c + 3, c + 7, c + n + 1038)
  {
    hide WordAt, Pte, BlockIndex, BlockAddr, RecordsAgree, PagesAgree, LowConfined, OwnRuns, PlacedAt, PartsIn,
      Agree;
    Taskless(m, live, p);
    RowIndexes(p, c, n);
    forall i | 0 <= i < c + 7 && i != c + 3 ensures Taken(live', i) { StillTaken(live, p, c, n, live', i); }
    forall i | i == c + 3 || c + 7 <= i < c + n + 1038 ensures !Taken(live', i) {
      RowOwned(m, live, p, c, n, i);
      var b :| b in OwnRuns(p) && b != c && Covers(live, b, i);
      forall r ensures Covers(live, r, i) ==> r == b {
        if Covers(live, r, i) { OneOwner(live, r, b, i); }
      }
      assert forall r :: Covers(live', r, i) ==> Covers(live, r, i);
    }
  }

  /** Blocks below the row, the process record and the path stay taken. */
  lemma StillTaken(live: Runs, p: Proc, c: int, n: int, live': Runs, i: int)
    requires WellFormed(live) && InOneRow(p, c, n) && PartsIn(live, p.parts, n) && SlotRuns(p.slots) == {}
    requires Taken(live, i) && i < c + 7 && i != c + 3
    requires live' == live - (OwnRuns(p) - {BlockIndex(p.parts.record)})
    ensures Taken(live', i)
  {
    hide BlockIndex, BlockAddr, OwnRuns, PlacedAt;
    RowIndexes(p, c, n);
    var r :| Covers(live, r, i);
    if r in OwnRuns(p) { RunsInRow(p, c, n, r); }
    assert live[c + 3] == 1;
    assert Covers(live', r, i);
  }

  lemma PartsStay(live: Runs, live': Runs, q: Holdings, n: int)
    requires PartsIn(live, q, n) && forall b :: b in PartRuns(q) ==> b in live' && live'[b] == live[b]
    ensures PartsIn(live', q, n)
  {
    hide BlockIndex;
  }

  // ---- a program starts, and a program exits ------------------------------

  /** A free row that holds a process allows its load. */
  lemma LoadAllowed(k: Machine, s: Scheduler, ps: Table, file: seq<Byte>, c: int, d: int)
    requires k.ram.Length == 0x1_0000_0000 && 0 < |file| <= 0x0640_0000
    requires FreeRow(k.live, c, d) && c + Blocks(|file|) + 1038 <= d
    requires Sys(k, s, ps)
    ensures Enabled(k.ram[..], s.head, ps, CallLoad(file, []))
  {
    hide Blocks, FreeSet, Encodes, Sys, FreeRow;
    RowRoom(k.live, c, d, Blocks(|file|) + 15) by { SizeInBlocksAny(|file|); }
    SysEncodes(k, s, ps);
    RoomIsFit(k.ram[..], k.live, Blocks(|file|) + 15);
    FreeCountAll(k.ram[..], k.live);
  }

  lemma SizeInBlocksAny(size: Word)
    requires 0 < size <= 0x0640_0000
    ensures Blocks(size) >= 1
  {
  }

  /** Process `p`, without segments and allocations, came into memory with live runs `live`. */
  ghost predicate Arrived(live: Runs, live': Runs, p: Process?, n: int)
    reads if p == null then {} else {p.allocations}
  {
    && p != null && ProcessInRow(live, live', p.View(), n) && PartsIn(live', p.parts, n)
    && SlotRuns(p.allocations[..]) == {} && AsLoaded(p, n, [])
    && (forall b :: b in live ==> b in live' && live'[b] == live[b])
  }

  /** A program without segments is loaded and runs. */
  method Start(k: Machine, s: Scheduler, ps: Table, file: seq<Byte>, j: int) returns (ps': Table)
    requires k.ram.Length == 0x1_0000_0000 && 0 < |file| <= 0x0640_0000 && FirstEmpty(ps, j)
    requires Enabled(k.ram[..], s.head, ps, CallLoad(file, []))
    requires Sys(k, s, ps)
    modifies k, k.ram, s
    ensures ps' == ps[j := ps'[j]] && Arrived(old(k.live), k.live, ps'[j], Blocks(|file|))
    ensures fresh(ps'[j]) && fresh(ps'[j].allocations) && s.current == ps'[j].parts.task
    ensures LineOf(k.ram[..], s.order) == Stepped(old(LineOf(k.ram[..], s.order)), Create(ps'[j].parts.task))
    ensures Sys(k, s, ps')
  {
    hide WordAt, Pte, PrevOf, NextOf, Agree, AllAgree, LowStop, FreeSet, Room, OwnRuns, PlacedAt, PartsIn, SomeFit,
      FreeCount, Blocks, Separate, AsLoaded, SlotRuns, Encodes, LoadedEntry, Rejected, OthersSee, OthersKeep,
      UnownedKeep, LineOf, Stepped, ProcessInRow, Scheduled, Starts;
    ghost var m, live, n := k.ram[..], k.live, Blocks(|file|);
    SysEncodes(k, s, ps);
    FitIsRoom(m, live, n + 15);
    FreeCountAll(m, live);
    var r;
    ghost var image, path;
    r, ps', image, path := SysLoad(k, s, ps, file, []);
    assert r == 0;
    assert ps'[j].allocations[..] == seq(1024, _ => Slot(0, 0));
    NoSlotRuns(ps'[j].allocations[..]);
    SwitchTo(k, s, ps', ps'[j].parts.task);
  }

  /** `task_switch`. */
  method SwitchTo(k: Machine, s: Scheduler, ps: Table, t: Word)
    requires t in s.order
    requires Sys(k, s, ps)
    modifies s`current
    ensures s.current == t && Sys(k, s, ps)
  {
    hide WordAt, Pte, PrevOf, NextOf, AllAgree, LowStop, Scheduled, Separate;
    ghost var q, vs := s.View(), Views(ps);
    ScheduledSwitch(k.ram[..], q, s.order, vs, t);
    s.Switch(t);
    assert s.View() == q.(current := t) && Views(ps) == vs;
  }

  lemma ScheduledSwitch(m: Mem, q: Queue, ts: seq<Frame>, ps: map<int, Proc>, t: Word)
    requires Scheduled(m, q, ts, ps) && t in ts
    ensures Scheduled(m, q.(current := t), ts, ps)
  {
    hide PrevOf, NextOf;
  }

  /** Which task runs when the running task, the `x`th of several, exits: the removal makes the next one current,
      and `task_next` goes one further. */
  ghost function Resumed(ts: seq<Frame>, x: nat): Word
    requires x < |ts| && |ts| > 1
  {
    var us := Without(ts, x);
    var y := if x < |ts| - 1 then x else 0;
    us[if y + 1 < |us| then y + 1 else 0]
  }

  lemma LeftAt(m: Mem, q: Queue, ts: seq<Frame>, x: int)
    requires Forward(m, q, ts) && 0 <= x < |ts| && |ts| > 1 && q.current == ts[x]
    ensures |Without(ts, x)| == |ts| - 1
    ensures Left(m, q, ts[x]).current == Without(ts, x)[if x < |ts| - 1 then x else 0]
  {
    hide NextOf, PrevOf;
    NextAt(m, q, ts, x);
    if x == |ts| - 1 { Distinct2(ts, 0, x); } else { NotNull(ts, x + 1); }
  }

  /** The process in place `i`, with the running task and the `x`th of the list, is gone. */
  ghost predicate Stopped(m: Mem, live: Runs, ts: seq<Frame>, ps: map<int, Proc>, i: int, x: nat, m': Mem,
      live': Runs, ts': seq<Frame>, current: Word)
  {
    && i in ps && x < |ts| && |ts| > 1 && ts[x] == ps[i].parts.task && current == Resumed(ts, x)
    && live' == live - (OwnRuns(ps[i]) - {BlockIndex(ps[i].parts.record)}) && OthersKeep(m, live, m', live', ps, i)
    && LineOf(m', ts') == Stepped(LineOf(m, ts), Drop(x))
  }

  /** The running program exits, and the kernel goes on with another. */
  method Stop(k: Machine, s: Scheduler, ps: Table, i: int) returns (ps': Table, ghost x: nat)
    requires k.ram.Length == 0x1_0000_0000 && Present(ps, i) && s.current == ps[i].parts.task && |s.order| > 1
    requires Enabled(k.ram[..], s.head, ps, CallExit(i))
    requires Sys(k, s, ps)
    modifies k, k.ram, s, ps[i].allocations
    ensures ps' == ps[i := null]
    ensures Stopped(old(k.ram[..]), old(k.live), old(s.order), old(Views(ps)), i, x, k.ram[..], k.live, s.order,
      s.current)
    ensures Sys(k, s, ps')
  {
    hide WordAt, Pte, PrevOf, NextOf, Agree, AllAgree, LowStop, OwnRuns, Separate, Encodes, OthersSee, OthersKeep,
      UnownedKeep, LineOf, Stepped, Scheduled, Sys, Without, Left, ExitFine, Forward, Different, ListOk;
    ghost var m, q, ts := k.ram[..], s.View(), s.order;
    SysForward(k, s, ps);
    ps', x := SysExit(k, s, ps, i);
    LeftAt(m, q, ts, x);
    DroppedOrder(m, ts, k.ram[..], s.order, x);
    SysForward(k, s, ps');
    TaskNext(k, s, ps', if x < |ts| - 1 then x else 0);
  }

  /** `task_next`. */
  method TaskNext(k: Machine, s: Scheduler, ps: Table, ghost at: int)
    requires 0 <= at < |s.order| && s.order[at] == s.current
    requires Sys(k, s, ps)
    modifies s`current
    ensures s.current == s.order[if at + 1 < |s.order| then at + 1 else 0] && Sys(k, s, ps)
  {
    hide WordAt, Pte, PrevOf, NextOf, AllAgree, LowStop, Separate, ListOk;
    ghost var q, vs := s.View(), Views(ps);
    var t := s.GetNext(k.ram, at);
    ScheduledSwitch(k.ram[..], q, s.order, vs, t);
    s.Switch(t);
    assert s.View() == q.(current := t) && Views(ps) == vs;
  }

  lemma SysForward(k: Machine, s: Scheduler, ps: Table)
    requires k.ram.Length == 0x1_0000_0000
    requires Sys(k, s, ps)
    ensures Forward(k.ram[..], s.View(), s.order) && s.Valid(k.ram[..]) && Different(s.order)
  {
    hide WordAt, Pte, PrevOf, NextOf, AllAgree, LowStop, Separate;
  }

  lemma DroppedOrder(m: Mem, ts: seq<Frame>, m': Mem, ts': seq<Frame>, x: nat)
    requires x < |ts| && LineOf(m', ts') == Stepped(LineOf(m, ts), Drop(x))
    ensures ts' == Without(ts, x)
  {
    hide PrevOf;
  }

  // ---- the run ------------------------------------------------------------

  /** An exit with the right back link is allowed. */
  lemma ExitAllowed(k: Machine, s: Scheduler, ps: Table, i: int, ts: seq<Frame>, bs: seq<Word>, x: nat)
    requires k.ram.Length == 0x1_0000_0000 && Present(ps, i) && x < |ts| && ts[x] == ps[i].parts.task
    requires LineOf(k.ram[..], s.order) == Line(ts, bs) && |bs| == |ts| && bs[x] == Before(ts, x)
    requires Sys(k, s, ps)
    ensures Enabled(k.ram[..], s.head, ps, CallExit(i)) && s.order == ts && Different(ts)
  {
    hide WordAt, Pte, PrevOf, NextOf, AllAgree, LowStop, Scheduled, Sys, ExitFine, Different;
    BackIn(k.ram[..], s.order, x);
    SysForward(k, s, ps);
    RightBackIsFine(k, s, ps, i, x);
  }

  lemma BackIn(m: Mem, ts: seq<Frame>, x: nat)
    requires x < |ts|
    ensures LineOf(m, ts).ts == ts && LineOf(m, ts).bs[x] == PrevOf(m, ts[x])
  {
    hide PrevOf;
  }

  /** Process `p` lies in a row from block `c` on and has no allocations. */
  ghost predicate Laid(live: Runs, p: Process?, c: int, n: int)
    reads if p == null then {} else {p.allocations}
  {
    p != null && InOneRow(p.View(), c, n) && PartsIn(live, p.parts, n) && SlotRuns(p.allocations[..]) == {}
  }

  lemma ArrivedLow(live: Runs, live': Runs, p: Process?, n: int, c: int)
    requires Arrived(live, live', p, n) && Low(live, c, 25600) && c + n + 1038 <= 25600 && n >= 1
    ensures Low(live', c + n + 1038, 25600) && Laid(live', p, c, n)
  {
    hide PlacedAt, PartsIn, SlotRuns, AsLoaded;
  }

  lemma LaidStays(live: Runs, live': Runs, p: Process?, c: int, n: int)
    requires Laid(live, p, c, n) && forall b :: b in PartRuns(p.parts) && b in live ==>
      b in live' && live'[b] == live[b]
    ensures Laid(live', p, c, n)
  {
    hide PlacedAt, SlotRuns, BlockIndex, InOneRow;
    PartsStay(live, live', p.parts, n);
  }

  /** The tasks of the first four places in order, each with a back link to the one before. */
  ghost predicate FourInLine(m: Mem, ts: seq<Frame>, a: Frame, b: Frame, c: Frame, d: Frame) {
    LineOf(m, ts) == Line([a, b, c, d], [0, a, b, c])
  }

  lemma Added(a: Frame, b: Frame, c: Frame, d: Frame, u: Word, v: Word, w: Word)
    ensures Stepped(Line([], []), Create(a)) == Line([a], [0])
    ensures Stepped(Line([a], [u]), Create(b)) == Line([a, b], [u, a])
    ensures Stepped(Line([a, b], [u, v]), Create(c)) == Line([a, b, c], [u, v, b])
    ensures Stepped(Line([a, b, c], [u, v, w]), Create(d)) == Line([a, b, c, d], [u, v, w, c])
  {
  }

  lemma LastOfFour(a: Frame, b: Frame, c: Frame, d: Frame, u: Word, v: Word, w: Word, z: Word, x: nat)
    requires Different([a, b, c, d]) && x < 4 && [a, b, c, d][x] == d
    ensures x == 3 && Stepped(Line([a, b, c, d], [u, v, w, z]), Drop(x)) == Line([a, b, c], [u, v, w])
    ensures Resumed([a, b, c, d], x) == b
  {
    var ts := [a, b, c, d];
    assert ts[0] == a && ts[1] == b && ts[2] == c && ts[3] == d;
    assert Without(ts, 3) == [a, b, c];
  }

  lemma MiddleOfThree(a: Frame, b: Frame, c: Frame, u: Word, v: Word, w: Word, x: nat)
    requires Different([a, b, c]) && x < 3 && [a, b, c][x] == b
    ensures x == 1 && Stepped(Line([a, b, c], [u, v, w]), Drop(x)) == Line([a, c], [u, w])
    ensures Resumed([a, b, c], x) == a
  {
    var ts := [a, b, c];
    assert ts[0] == a && ts[1] == b && ts[2] == c;
    assert Without(ts, 1) == [a, c];
  }

  /** Four programs start on an empty heap, one behind the other. */
  method FourStarts(k: Machine, fa: seq<Byte>, fb: seq<Byte>, fc: seq<Byte>, fd: seq<Byte>)
    returns (s: Scheduler, ps: Table)
    requires k.ram.Length == 0x1_0000_0000 && LowStop(k.ram[..])
    requires 0 < |fa| <= 0x0640_0000 && 0 < |fb| <= 0x0640_0000 && 0 < |fc| <= 0x0640_0000 && 0 < |fd| <= 0x0640_0000
    requires Blocks(|fa|) + Blocks(|fb|) + Blocks(|fc|) + Blocks(|fd|) + 4152 <= 25600
    modifies k, k.ram
    ensures fresh(s) && FourThere(ps) && s.current == ps[3].parts.task
    ensures fresh(ps[1].allocations) && fresh(ps[2].allocations) && fresh(ps[3].allocations)
    ensures FourInLine(k.ram[..], s.order, ps[0].parts.task, ps[1].parts.task, ps[2].parts.task, ps[3].parts.task)
    ensures Laid(k.live, ps[1], Blocks(|fa|) + 1038, Blocks(|fb|))
    ensures Laid(k.live, ps[3], Blocks(|fa|) + Blocks(|fb|) + Blocks(|fc|) + 3114, Blocks(|fd|))
    ensures Low(k.live, Blocks(|fa|) + Blocks(|fb|) + Blocks(|fc|) + Blocks(|fd|) + 4152, 25600)
    ensures Sys(k, s, ps)
  {
    hide WordAt, Pte, PrevOf, NextOf, Agree, AllAgree, LowStop, Scheduled, Low, OwnRuns, PlacedAt, PartsIn, Enabled,
      Blocks, Separate, AsLoaded, SlotRuns, Encodes, Sys, LineOf, Stepped, Arrived, Laid;
    ghost var na, nb, nc := Blocks(|fa|), Blocks(|fb|), Blocks(|fc|);
    SizeInBlocksAny(|fa|);
    SizeInBlocksAny(|fb|);
    SizeInBlocksAny(|fc|);
    SizeInBlocksAny(|fd|);
    var r;
    r, s, ps := Boot(k);
    NothingTaken(k.ram[..], k.live, s.order);
    ps := StartLow(k, s, ps, fa, 0, 0);
    ps := StartLow(k, s, ps, fb, 1, na + 1038);
    ghost var live := k.live;
    ps := StartLow(k, s, ps, fc, 2, na + nb + 2076);
    LaidStays(live, k.live, ps[1], na + 1038, nb);
    live := k.live;
    ps := StartLow(k, s, ps, fd, 3, na + nb + nc + 3114);
    LaidStays(live, k.live, ps[1], na + 1038, nb);
    Added(ps[0].parts.task, ps[1].parts.task, ps[2].parts.task, ps[3].parts.task, 0, ps[0].parts.task,
      ps[1].parts.task);
  }

  predicate FourThere(ps: Table) {
    Present(ps, 0) && Present(ps, 1) && Present(ps, 2) && Present(ps, 3)
  }

  lemma NothingTaken(m: Mem, live: Runs, ts: seq<Frame>)
    requires live == map[] && ts == []
    ensures Low(live, 0, 25600) && LineOf(m, ts) == Line([], [])
  {
  }

  /** A program starts in the row of the lowest free blocks. */
  method StartLow(k: Machine, s: Scheduler, ps: Table, file: seq<Byte>, j: int, ghost c: int) returns (ps': Table)
    requires k.ram.Length == 0x1_0000_0000 && 0 < |file| <= 0x0640_0000 && FirstEmpty(ps, j)
    requires Low(k.live, c, 25600) && c + Blocks(|file|) + 1038 <= 25600
    requires Sys(k, s, ps)
    modifies k, k.ram, s
    ensures ps' == ps[j := ps'[j]] && ps'[j] != null && fresh(ps'[j]) && fresh(ps'[j].allocations)
    ensures s.current == ps'[j].parts.task
    ensures Laid(k.live, ps'[j], c, Blocks(|file|)) && Low(k.live, c + Blocks(|file|) + 1038, 25600)
    ensures forall b :: b in old(k.live) ==> b in k.live && k.live[b] == old(k.live)[b]
    ensures LineOf(k.ram[..], s.order) == Stepped(old(LineOf(k.ram[..], s.order)), Create(ps'[j].parts.task))
    ensures Sys(k, s, ps')
  {
    hide WordAt, Pte, PrevOf, NextOf, Agree, AllAgree, LowStop, Scheduled, Low, OwnRuns, PlacedAt, PartsIn, Enabled,
      Blocks, Separate, AsLoaded, SlotRuns, Encodes, Sys, LineOf, Stepped, ProcessInRow, Laid;
    ghost var live, n := k.live, Blocks(|file|);
    SizeInBlocksAny(|file|);
    assert FreeRow(live, c, 25600) by { LowIsFree(live, c, 25600); }
    LoadAllowed(k, s, ps, file, c, 25600);
    ps' := Start(k, s, ps, file, j);
    ArrivedLow(live, k.live, ps'[j], n, c);
  }

  lemma LowIsFree(live: Runs, c: int, d: int)
    requires Low(live, c, d)
    ensures FreeRow(live, c, d) && forall i :: 0 <= i < c ==> Taken(live, i)
  {
  }

  /** The first and third task are left, there is a gap where the second process lay, and the heap is free from
      block `z` on. */
  ghost predicate TwoGone(m: Mem, live: Runs, ts: seq<Frame>, ps: Table, c: int, n: int, z: int)
    requires FourThere(ps)
  {
    && LineOf(m, ts) == Line([ps[0].parts.task, ps[2].parts.task], [0, ps[1].parts.task])
    && Different([ps[0].parts.task, ps[1].parts.task, ps[2].parts.task])
    && Gap(live, c + 3, c + 7, c + n + 1038) && FreeRow(live, z, 25600)
  }

  /** The fourth program exits and the second resumes; it exits too, and the first resumes. */
  method TwoStops(k: Machine, s: Scheduler, ps: Table, ghost c: int, ghost n: int, ghost c': int, ghost n': int)
    returns (ps': Table)
    requires k.ram.Length == 0x1_0000_0000 && FourThere(ps) && s.current == ps[3].parts.task
    requires FourInLine(k.ram[..], s.order, ps[0].parts.task, ps[1].parts.task, ps[2].parts.task, ps[3].parts.task)
    requires Laid(k.live, ps[1], c, n) && Laid(k.live, ps[3], c', n') && c + n + 1038 <= c'
    requires Low(k.live, c' + n' + 1038, 25600)
    requires Sys(k, s, ps)
    modifies k, k.ram, s, ps[1].allocations, ps[3].allocations
    ensures ps' == ps[3 := null][1 := null] && s.current == ps[0].parts.task
    ensures TwoGone(k.ram[..], k.live, s.order, ps, c, n, c' + n' + 1038)
    ensures Sys(k, s, ps')
  {
    hide WordAt, Pte, PrevOf, NextOf, Agree, AllAgree, LowStop, Scheduled, Low, OwnRuns, PlacedAt, PartsIn, Enabled,
      Blocks, Separate, AsLoaded, SlotRuns, Encodes, Sys, LineOf, Stepped, Different, Resumed, Gap, FreeRow, Taken;
    ghost var ta, tb, tc, td := ps[0].parts.task, ps[1].parts.task, ps[2].parts.task, ps[3].parts.task;
    ghost var m, live, v, w, vs := k.ram[..], k.live, ps[1].View(), ps[3].View(), Views(ps);
    ExitAllowed(k, s, ps, 3, [ta, tb, tc, td], [0, ta, tb, tc], 3);
    assert WellFormed(live) by { SysEncodes(k, s, ps); EncodesWell(m, live); }
    ArraysApart(k, s, ps);
    assert 1 in vs && vs[1] == v && 3 in vs && vs[3] == w;
    ghost var x;
    ps', x := Stop(k, s, ps, 3);
    LastOfFour(ta, tb, tc, td, 0, ta, tb, tc, x);
    ghost var m2, live2 := k.ram[..], k.live;
    StillLaid(m, live, m2, live2, vs, 3, 1, n);
    ExitAllowed(k, s, ps', 1, [ta, tb, tc], [0, ta, tb], 1);
    assert Agree(m2, live2, v) by { SysOne(k, s, ps', 1); }
    BelowStays(live, w, c', n', live2);
    ps', x := Stop(k, s, ps', 1);
    MiddleOfThree(ta, tb, tc, 0, ta, tb, x);
    GapAfterExit(m2, live2, v, c, n, k.live);
    FreeStays(live, k.live, c' + n' + 1038);
  }

  lemma ArraysApart(k: Machine, s: Scheduler, ps: Table)
    requires Sys(k, s, ps) && FourThere(ps)
    ensures ps[1].allocations != ps[3].allocations
  {
    hide AllAgree, LowStop, Scheduled;
  }

  /** The exit of one process leaves the parts of another where they are. */
  lemma StillLaid(m: Mem, live: Runs, m': Mem, live': Runs, ps: map<int, Proc>, i: int, j: int, n: int)
    requires OthersKeep(m, live, m', live', ps, i) && j in ps && j != i && PartsIn(live, ps[j].parts, n)
    ensures PartsIn(live', ps[j].parts, n)
  {
    hide BlockIndex, LeavesAlone;
    assert Undisturbed(m, live, m', live', ps[j]);
    assert PartRuns(ps[j].parts) <= OwnRuns(ps[j]);
    PartsStay(live, live', ps[j].parts, n);
  }

  lemma BelowStays(live: Runs, p: Proc, c: int, n: int, live': Runs)
    requires InOneRow(p, c, n) && SlotRuns(p.slots) == {} && Low(live, c + n + 1038, 25600)
    requires live' == live - (OwnRuns(p) - {BlockIndex(p.parts.record)})
    ensures forall i :: 0 <= i < c ==> Taken(live', i)
  {
    hide BlockIndex, OwnRuns, InOneRow;
    forall i | 0 <= i < c ensures Taken(live', i) {
      RowBounds(p, c, n);
      assert Taken(live, i);
      var r :| Covers(live, r, i);
      if r in OwnRuns(p) { RunsInRow(p, c, n, r); }
      assert Covers(live', r, i);
    }
  }

  lemma RowBounds(p: Proc, c: int, n: int)
    requires InOneRow(p, c, n)
    ensures 0 <= c && n >= 1 && c + n + 1038 <= 25600
  {
  }

  lemma FreeStays(live: Runs, live': Runs, z: int)
    requires Low(live, z, 25600) && forall b :: b in live' ==> b in live && live[b] == live'[b]
    ensures FreeRow(live', z, 25600)
  {
    forall i | z <= i < 25600 ensures !Taken(live', i) {
      assert !Taken(live, i) && forall b :: Covers(live', b, i) ==> Covers(live, b, i);
    }
  }

  /** First fit puts a page table of the new process where the task record was. */
  lemma TaskIsTable(b: Proc, e: Proc, c: int, nb: int, ne: int, r: int)
    requires PlacedAt(b, c, c + 3, c + 4, nb) && PlacedAt(e, c + 7, c + 3, c + 10, ne) && 0 <= r < 1024
    requires nb == ne + 8 + r
    ensures e.sh.tables[r] == b.parts.task && e.parts.task != b.parts.task
  {
  }

  /** The first program starts one in the gap; that one starts another, which exits, and the third resumes. */
  method Reload(k: Machine, s: Scheduler, ps: Table, fe: seq<Byte>, ff: seq<Byte>, ghost c: int, ghost n: int,
      ghost z: int, ghost tb: Frame)
    returns (ps': Table)
    requires k.ram.Length == 0x1_0000_0000 && 0 < |fe| <= 0x0640_0000 && 0 < |ff| <= 0x0640_0000
    requires Present(ps, 0) && ps[1] == null && Present(ps, 2) && ps[3] == null && s.current == ps[0].parts.task
    requires LineOf(k.ram[..], s.order) == Line([ps[0].parts.task, ps[2].parts.task], [0, tb])
    requires Gap(k.live, c + 3, c + 7, c + n + 1038) && FreeRow(k.live, z, 25600) && c + n + 1038 <= z
    requires Blocks(|fe|) + 8 <= n && z + Blocks(|ff|) + 1038 <= 25600
    requires Sys(k, s, ps)
    modifies k, k.ram, s
    ensures ps' == ps[1 := ps'[1]] && Reloaded(ps'[1], c, Blocks(|fe|))
    ensures LineOf(k.ram[..], s.order)
      == Line([ps[0].parts.task, ps[2].parts.task, ps'[1].parts.task], [0, tb, ps[2].parts.task])
    ensures s.current == ps[2].parts.task
    ensures Sys(k, s, ps')
  {
    hide WordAt, Pte, PrevOf, NextOf, Agree, AllAgree, LowStop, Scheduled, Low, OwnRuns, PlacedAt, PartsIn, Enabled,
      Blocks, Separate, AsLoaded, SlotRuns, Encodes, Sys, LineOf, Stepped, Different, Resumed, Gap, FreeRow, Taken,
      ProcessInRow;
    ghost var live, ne := k.live, Blocks(|fe|);
    SizeInBlocksAny(|fe|);
    SizeInBlocksAny(|ff|);
    assert FreeRow(live, c + 7, c + n + 1038) by { GapIsFree(live, c + 3, c + 7, c + n + 1038); }
    LoadAllowed(k, s, ps, fe, c + 7, c + n + 1038);
    ps' := Start(k, s, ps, fe, 1);
    ghost var te := ps'[1].parts.task;
    AddedTwo(ps[0].parts.task, ps[2].parts.task, te, tb);
    ArrivedInGap(live, k.live, ps'[1], ne, c, n, z);
    LoadAllowed(k, s, ps', ff, z, 25600);
    ps' := Start(k, s, ps', ff, 3);
    ghost var tf := ps'[3].parts.task;
    Added(ps[0].parts.task, ps[2].parts.task, te, tf, 0, tb, ps[2].parts.task);
    ExitAllowed(k, s, ps', 3, [ps[0].parts.task, ps[2].parts.task, te, tf], [0, tb, ps[2].parts.task, te], 3);
    ghost var x;
    ps', x := Stop(k, s, ps', 3);
    LastOfFour(ps[0].parts.task, ps[2].parts.task, te, tf, 0, tb, ps[2].parts.task, te, x);
  }

  lemma AddedTwo(a: Frame, c: Frame, e: Frame, b: Word)
    ensures Stepped(Line([a, c], [0, b]), Create(e)) == Line([a, c, e], [0, b, c])
  {
  }

  lemma GapIsFree(live: Runs, h: int, c: int, d: int)
    requires Gap(live, h, c, d)
    ensures FreeRow(live, c, d)
  {
  }

  /** The program that came into the gap behind block `c`. */
  ghost predicate Reloaded(p: Process?, c: int, n: int)
    reads if p == null then {} else {p.allocations}
  {
    p != null && PlacedAt(p.View(), c + 7, c + 3, c + 10, n) && AsLoaded(p, n, [])
  }

  lemma ArrivedInGap(live: Runs, live': Runs, p: Process?, ne: int, c: int, n: int, z: int)
    requires Arrived(live, live', p, ne) && Gap(live, c + 3, c + 7, c + n + 1038) && ne + 8 <= n
    requires FreeRow(live, z, 25600) && c + n + 1038 <= z
    ensures Reloaded(p, c, ne) && FreeRow(live', z, 25600)
  {
    hide PlacedAt, PartsIn, SlotRuns, AsLoaded, Taken;
  }

  /** Four programs start, each by the one before; the fourth and the second exit; the first starts a smaller one
      in the place of the second, and that one starts another, which exits. Every call is allowed, and made by
      the program that the kernel has running. Now the third one runs, its back link leads into a page table of
      the new program, and its exit is not allowed. */
  method StaleLink(k: Machine, fa: seq<Byte>, fb: seq<Byte>, fc: seq<Byte>, fd: seq<Byte>, fe: seq<Byte>, ff: seq<Byte>,
      ghost r: int)
    returns (s: Scheduler, ps: Table)
    requires k.ram.Length == 0x1_0000_0000 && LowStop(k.ram[..])
    requires 0 < |fa| <= 0x0640_0000 && 0 < |fb| <= 0x0640_0000 && 0 < |fc| <= 0x0640_0000 && 0 < |fd| <= 0x0640_0000
    requires 0 < |fe| <= 0x0640_0000 && 0 < |ff| <= 0x0640_0000
    requires 0 <= r < 4 && Blocks(|fb|) == Blocks(|fe|) + 8 + r
    requires Blocks(|fa|) + Blocks(|fb|) + Blocks(|fc|) + Blocks(|fd|) + Blocks(|ff|) + 5190 <= 25600
    modifies k, k.ram
    ensures fresh(s) && Present(ps, 0) && Present(ps, 1) && Present(ps, 2) && fresh(ps[2].allocations)
    ensures s.order == [ps[0].parts.task, ps[2].parts.task, ps[1].parts.task] && s.current == ps[2].parts.task
    ensures AsLoaded(ps[1], Blocks(|fe|), []) && PrevOf(k.ram[..], ps[2].parts.task) == ps[1].sh.tables[r]
    ensures !Enabled(k.ram[..], s.head, ps, CallExit(2))
    ensures Sys(k, s, ps)
  {
    hide WordAt, Pte, PrevOf, NextOf, Agree, AllAgree, LowStop, Scheduled, Low, OwnRuns, PlacedAt, PartsIn, Enabled,
      Blocks, Separate, AsLoaded, SlotRuns, Encodes, Sys, LineOf, Stepped, Different, Resumed, Gap, FreeRow, Taken;
    ghost var na, nb, nc, nd := Blocks(|fa|), Blocks(|fb|), Blocks(|fc|), Blocks(|fd|);
    SizeInBlocksAny(|fc|);
    SizeInBlocksAny(|fd|);
    SizeInBlocksAny(|ff|);
    s, ps := FourStarts(k, fa, fb, fc, fd);
    ghost var b, tb := ps[1].View(), ps[1].parts.task;
    ps := TwoStops(k, s, ps, na + 1038, nb, na + nb + nc + 3114, nd);
    ps := Reload(k, s, ps, fe, ff, na + 1038, nb, na + nb + nc + nd + 4152, tb);
    TaskIsTable(b, ps[1].View(), na + 1038, nb, Blocks(|fe|), r);
    ThirdMayNot(k, s, ps, tb);
  }

  lemma ThirdMayNot(k: Machine, s: Scheduler, ps: Table, tb: Frame)
    requires k.ram.Length == 0x1_0000_0000 && Present(ps, 0) && Present(ps, 1) && Present(ps, 2)
    requires LineOf(k.ram[..], s.order)
      == Line([ps[0].parts.task, ps[2].parts.task, ps[1].parts.task], [0, tb, ps[2].parts.task])
    requires Different([ps[0].parts.task, tb, ps[2].parts.task]) && ps[1].parts.task != tb
    requires Sys(k, s, ps)
    ensures s.order == [ps[0].parts.task, ps[2].parts.task, ps[1].parts.task]
    ensures PrevOf(k.ram[..], ps[2].parts.task) == tb && !Enabled(k.ram[..], s.head, ps, CallExit(2))
  {
    hide WordAt, Pte, PrevOf, NextOf, AllAgree, LowStop, Scheduled, NoOther, Sys, IsTask, ExitFine, Different,
      LineOf;
    OrderIs(k.ram[..], s.order, LineOf(k.ram[..], s.order));
    BackIn(k.ram[..], s.order, 1);
    SysForward(k, s, ps);
    HeadIs(k.ram[..], s.View(), s.order, ps[0].parts.task, ps[2].parts.task, ps[1].parts.task, tb);
    IsTaskIs(k, s, ps, tb);
    FineFromLinks(k.ram[..], s.head, ps, 2, tb);
  }

  lemma OrderIs(m: Mem, ts: seq<Frame>, c: Line)
    requires LineOf(m, ts) == c
    ensures ts == c.ts
  {
  }

  lemma HeadIs(m: Mem, q: Queue, ts: seq<Frame>, a: Frame, c: Frame, e: Frame, b: Frame)
    requires Forward(m, q, ts) && ts == [a, c, e] && Different([a, b, c]) && e != b
    ensures q.head == a != c && b !in ts
  {
    hide NextOf, PrevOf;
    assert [a, b, c][0] == a && [a, b, c][1] == b && [a, b, c][2] == c;
    assert ts[0] == a && ts[1] == c && ts[2] == e;
  }

  lemma FineFromLinks(m: Mem, head: Word, ps: Table, i: int, u: Frame)
    requires Present(ps, i) && ps[i].parts.task != head && PrevOf(m, ps[i].parts.task) == u
    ensures !IsTask(ps, u) ==> !ExitFine(m, head, ps, i)
  {
    hide PrevOf, NextOf, IsTask, NoOther;
  }

  /** Page `v` stood for itself and was present, and now has entry `t` and is not; no other page changed. */
  ghost predicate PageLost(m: Mem, m': Mem, sh: Space, v: int, t: Frame) {
    && 0 <= v < 0x10_0000 && Pte(m, sh, v) == 4096 * v + 5
    && (forall u: Page :: Pte(m', sh, u) == if u == v then t else Pte(m, sh, u)) && Pte(m', sh, v) % 2 == 0
  }

  /** If that exit is carried out all the same, one page of the new program is not present any more. */
  method StaleExit(k: Machine, s: Scheduler, ps: Table, e: Process, ghost n: int, ghost r: int)
    requires k.ram.Length == 0x1_0000_0000 && Present(ps, 0) && Present(ps, 1) && Present(ps, 2) && e == ps[1]
    requires s.order == [ps[0].parts.task, ps[2].parts.task, ps[1].parts.task]
    requires AsLoaded(e, n, []) && 0 <= r < 4 && PrevOf(k.ram[..], ps[2].parts.task) == e.sh.tables[r]
    requires Sys(k, s, ps)
    modifies k, k.ram, s, ps[2].allocations
    ensures PageLost(old(k.ram[..]), k.ram[..], e.sh, 1024 * r + 13, e.parts.task)
  {
    hide WordAt, Pte, PrevOf, NextOf, Agree, AllAgree, LowStop, Scheduled, OwnRuns, AsLoaded, Cut, Left, Without,
      Confined, Encodes, OtherTasks, NullOrPool, ListOk, Wired, BlockIndex, Different, Sys, PageLost, Updated,
      Unlinkable, Separate;
    ghost var m, live, v, q := k.ram[..], k.live, ps[2].View(), e.View();
    var c := ps[2];
    StaleFacts(k, s, ps);
    CutHits(m, live, q, c.parts.task, r);
    FirstEntry(m, live, e, n, 1024 * r + 13);
    Terminate(k, s, c, 1);
    TablesSeen(Cut(m, c.parts.task), live, v, k.ram[..], k.live, m, q);
    IsLost(m, Cut(m, c.parts.task), k.ram[..], e.sh, 1024 * r + 13, e.parts.task);
  }

  ghost predicate Meets(k: Machine, s: Scheduler, e: Process, c: Process)
    requires k.ram.Length == 0x1_0000_0000
    reads k, k.ram, s, e.allocations, c.allocations
  {
    && e.Consistent(k) && c.Consistent(k) && LowStop(k.ram[..]) && s.Valid(k.ram[..])
    && OtherTasks(k.live, c.View(), s.order) && NullOrPool(PrevOf(k.ram[..], c.parts.task))
    && NextOf(k.ram[..], c.parts.task) == e.parts.task && OwnRuns(c.View()) !! OwnRuns(e.View())
  }

  /** What the exit of the third process meets. */
  lemma StaleFacts(k: Machine, s: Scheduler, ps: Table)
    requires k.ram.Length == 0x1_0000_0000 && Present(ps, 0) && Present(ps, 1) && Present(ps, 2)
    requires s.order == [ps[0].parts.task, ps[2].parts.task, ps[1].parts.task]
    requires Sys(k, s, ps)
    ensures Meets(k, s, ps[1], ps[2])
  {
    hide WordAt, Pte, PrevOf, NextOf, Agree, LowStop, Scheduled, OwnRuns, Encodes, OtherTasks, NullOrPool, ListOk,
      Different, After;
    ghost var m, live, vs, ts := k.ram[..], k.live, Views(ps), s.order;
    SysOne(k, s, ps, 1);
    SysOne(k, s, ps, 2);
    assert vs[1] == ps[1].View() && vs[2] == ps[2].View();
    OthersStay(m, live, vs, s.View(), ts, 2);
    TasksThere(m, live, s.View(), ts, vs);
    SysForward(k, s, ps);
    NextAt(m, s.View(), ts, 1);
  }

  lemma IsLost(m: Mem, m1: Mem, m2: Mem, sh: Space, v: Page, t: Frame)
    requires Pte(m, sh, v) == 4096 * v + 5 && Updated(m, m1, sh, v, t)
    requires forall u: Page :: Pte(m2, sh, u) == Pte(m1, sh, u)
    ensures PageLost(m, m2, sh, v, t)
  {
    hide WordAt, Pte;
  }

  lemma CutHits(m: Mem, live: Runs, q: Proc, t: Frame, r: int)
    requires Agree(m, live, q) && 0 <= r < 1024 && PrevOf(m, t) == q.sh.tables[r]
    ensures Wired(Cut(m, t), q.sh) && Updated(m, Cut(m, t), q.sh, 1024 * r + 13, NextOf(m, t))
  {
    hide WordAt, SetWord, NextOf, PrevOf, RecordsAgree, PagesAgree, LowConfined, Updated, Wired;
    assert InFoot(q.sh, q.sh.tables[r]);
    FootInPool(live, q.sh, q.sh.tables[r]);
    TableHit(m, q.sh, r, NextOf(m, t));
    CutIs(m, t);
  }

  /** A page that no segment is on has its identity entry. */
  lemma FirstEntry(m: Mem, live: Runs, p: Process, n: int, v: Page)
    requires Agree(m, live, p.View()) && AsLoaded(p, n, []) && v < 0x1000 && !StackPage(v)
    ensures Pte(m, p.sh, v) == 4096 * v + 5
  {
    hide WordAt, Pte, RecordsAgree, LowConfined, BlockIndex;
  }

  /** The rest of an exit keeps the tables of another process as the link write left them. */
  lemma TablesSeen(m1: Mem, live: Runs, p: Proc, m': Mem, live': Runs, m: Mem, q: Proc)
    requires Agree(m, live, q) && Wired(m1, q.sh) && Confined(m1, live, p, m', live') && OwnRuns(p) !! OwnRuns(q)
    ensures forall v: Page :: Pte(m', q.sh, v) == Pte(m1, q.sh, v)
  {
    hide WordAt, Pte, BlockIndex, RecordsAgree, PagesAgree, LowConfined, Wired;
    forall t: Frame | InFoot(q.sh, t) ensures SamePage(m1, m', t) {
      FootInPool(live, q.sh, t);
      assert BlockIndex(t) in OwnRuns(q) && Covers(live, BlockIndex(t), t / 4096 - 0x1000);
    }
    FootFrame(m1, m', q.sh);
  }
}
