/** What the links of the task list do to the memory of processes: a link write goes wherever the back link or
    the tail leads, and that may be a block that was freed and used again. */
module TaskLinks {
  import opened Ram
  import opened HeapTable
  import opened PageTables
  import opened Paging
  import opened ProcessMemory
  import opened ProcessCode
  import opened Protection
  import opened TaskList

  // ---- one link write -----------------------------------------------------

  lemma SameWordSame(m: Mem, a: int)
    requires 0 <= a <= 0xFFFF_FFFC
    ensures SetWord(m, a, WordAt(m, a)) == m
  {
    var w, m' := WordAt(m, a), SetWord(m, a, WordAt(m, a));
    Digits(m[a], m[a + 1], m[a + 2], m[a + 3]);
    forall x | 0 <= x < 0x1_0000_0000 ensures m'[x] == m[x] {}
  }

  lemma Digits(b0: Byte, b1: Byte, b2: Byte, b3: Byte)
    ensures var w := b0 as int + 256 * (b1 as int) + 65536 * (b2 as int) + 16777216 * (b3 as int);
      w % 256 == b0 && w / 256 % 256 == b1 && w / 256 / 256 % 256 == b2 && w / 256 / 256 / 256 == b3
  {
  }

  /** Writing `w` into the next link of whatever lies at `x` leaves a process alone exactly when `x` is its
      task record, or the word was there before, or the page is none of its own. */
  lemma LinkExactly(m: Mem, live: Runs, q: Proc, x: Frame, w: Word)
    ensures 0 <= x + 52 <= 0xFFFF_FFFC
    ensures LeavesAlone(m, live, SetWord(m, x + 52, w), q) <==>
      x == q.parts.task || NextOf(m, x) == w || !HasPage(live, q, x)
  {
    hide NextOf, PrevOf, WordAt, SetWord, OwnRuns;
    NextWrite(m, x, w);
    var m' := SetWord(m, x + 52, w);
    if NextOf(m, x) == w {
      LinkPlaces(m, x);
      SameWordSame(m, x + 52);
    } else if x != q.parts.task && HasPage(live, q, x) {
      var b :| b in OwnRuns(q) && Covers(live, b, x / 4096 - 0x1000);
      if SamePage(m, m', x) {
        SameLinks(m, m', x);
        assert false;
      }
    }
  }

  /** A link written into a page table sets one entry: the page at entry 13 of that table. */
  lemma TableHit(m: Mem, sh: Space, r: int, w: Word)
    requires Distinct(sh) && Wired(m, sh) && 0 <= r < 1024
    ensures 0 <= sh.tables[r] as int + 52 <= 0xFFFF_FFFC
    ensures var m' := SetWord(m, sh.tables[r] as int + 52, w);
      Wired(m', sh) && Updated(m, m', sh, 1024 * r + 13, w)
  {
    hide WordAt, SetWord, Distinct, Wired, Updated;
    var v: Page := 1024 * r + 13;
    assert PteAddr(sh, v) == sh.tables[r] as int + 4 * 13;
    SetEntry(m, sh, v, w);
  }

  /** Hanging a new record on a list whose tail leads anywhere leaves a process alone exactly when the tail is
      its own task record, or null with nothing listed, or no page of the process. */
  lemma TailExactly(m: Mem, live: Runs, q: Proc, v: Queue, t: Frame)
    requires v.tail % 4096 == 0 && !HasPage(live, q, t)
    ensures LeavesAlone(m, live, Hung(m, v, t), q) <==>
      v.head == 0 || v.tail == q.parts.task || NextOf(m, v.tail) == t || !HasPage(live, q, v.tail)
  {
    hide NextOf, PrevOf, WordAt, SetWord, OwnRuns;
    NextWrite(m, v.tail, t);
    if v.head != 0 {
      var m1 := SetWord(m, v.tail + 52, t);
      LinkExactly(m, live, q, v.tail, t);
      PrevWrite(m1, t, v.tail);
      forall b, u: Frame | b in OwnRuns(q) && Covers(live, b, u / 4096 - 0x1000)
        ensures SamePage(m1, Hung(m, v, t), u)
      {
        assert HasPage(live, q, u);
      }
      AloneThen(m, live, m1, Hung(m, v, t), q);
    }
  }

  lemma AloneThen(m: Mem, live: Runs, m1: Mem, m2: Mem, q: Proc)
    requires forall b, t: Frame :: b in OwnRuns(q) && Covers(live, b, t / 4096 - 0x1000) ==> SamePage(m1, m2, t)
    ensures LeavesAlone(m, live, m1, q) <==> LeavesAlone(m, live, m2, q)
  {
    hide OwnRuns;
    forall b, t: Frame | b in OwnRuns(q) && Covers(live, b, t / 4096 - 0x1000)
      ensures SamePage(m, m1, t) <==> SamePage(m, m2, t)
    {
      assert SamePage(m1, m2, t);
    }
  }

  // ---- the list of the processes ------------------------------------------

  ghost predicate NullOrPool(x: Word) {
    x == 0 || 0x0100_0000 <= x < 0x0740_0000
  }

  /** The list in memory is that of the tasks of `ps`, and its back links are null or lead into the pool. */
  ghost predicate Scheduled(m: Mem, q: Queue, ts: seq<Frame>, ps: map<int, Proc>) {
    && ListOk(m, q, ts)
    && (forall i :: i in ps ==> ps[i].parts.task in ts)
    && (forall t :: t in ts ==> NullOrPool(PrevOf(m, t)) && exists i :: i in ps && ps[i].parts.task == t)
  }

  lemma ScheduledKept(m: Mem, m': Mem, q: Queue, ts: seq<Frame>, ps: map<int, Proc>, ps': map<int, Proc>)
    requires Scheduled(m, q, ts, ps) && TasksSame(m, m', ps)
    requires ps'.Keys == ps.Keys && forall i :: i in ps ==> ps'[i].parts == ps[i].parts
    ensures Scheduled(m', q, ts, ps') && LineOf(m', ts) == LineOf(m, ts)
  {
    hide NextOf, PrevOf, ListOk;
    forall t | t in ts
      ensures SamePage(m, m', t) && PrevOf(m', t) == PrevOf(m, t) && exists i :: i in ps' && ps'[i].parts.task == t
    {
      var i :| i in ps && ps[i].parts.task == t;
      assert ps'[i].parts.task == t;
      SameLinks(m, m', t);
    }
    SameForward(m, m', q, ts);
    LineKept(m, m', ts);
  }

  /** Where a step of the list writes a link outside the records of the list. */
  function Strays(c: Line, step: Step): set<Word> {
    if step.Drop? && step.at < |c.ts| == |c.bs| && c.bs[step.at] != 0 && c.bs[step.at] !in c.ts then {c.bs[step.at]}
    else {}
  }

  function AllStrays(c: Line, steps: seq<Step>): set<Word> {
    if steps == [] then {}
    else
      var front := steps[..|steps| - 1];
      AllStrays(c, front) + Strays(Lines(c, front), steps[|steps| - 1])
  }

  /** Such a write is the only one of an exit that meets a run of no process. */
  lemma CutUnowned(m: Mem, live: Runs, ps: map<int, Proc>, q: Queue, ts: seq<Frame>, x: int)
    requires AllAgree(m, live, ps) && Scheduled(m, q, ts, ps) && 0 <= x < |ts| && PrevOf(m, ts[x]) % 4096 == 0
    ensures UnownedBytes(m, live, ps, Cut(m, ts[x]), Strays(LineOf(m, ts), Drop(x)))
  {
    hide WordAt, Pte, BlockIndex, Agree, OwnRuns, Encodes, ListOk, NextOf, PrevOf, Cut;
    EncodesWell(m, live);
    CutLinks(m, ts[x]);
    var p: Word := PrevOf(m, ts[x]);
    var i := p / 4096 - 0x1000;
    if p in ts {
      var j :| j in ps && ps[j].parts.task == p;
      TaskPage(m, live, ps[j]);
      forall b | Covers(live, b, i) ensures b == BlockIndex(p) { OneOwner(live, b, BlockIndex(p), i); }
      assert !Unowned(live, ps, BlockIndex(p));
    }
  }

  lemma TasksInUse(m: Mem, live: Runs, q: Queue, ts: seq<Frame>, ps: map<int, Proc>)
    requires AllAgree(m, live, ps) && Scheduled(m, q, ts, ps)
    ensures forall t :: t in ts ==> OneBlock(live, t) && exists i :: i in ps && ps[i].parts.task == t
  {
    hide WordAt, Pte, BlockIndex, PagesAgree, RecordsAgree, LowConfined, Encodes, ListOk, OwnRuns;
  }

  // ---- when an exit goes right --------------------------------------------

  /** The exit of the process in place `i`, whose task is the `x`th: the order goes on without it, and its link
      write meets a task of the list, or changes nothing, or meets no page of another process. */
  ghost predicate ExitRight(m: Mem, live: Runs, ps: map<int, Proc>, i: int, ts: seq<Frame>, x: int)
    requires 0 <= x < |ts|
  {
    var p := PrevOf(m, ts[x]);
    && p % 4096 == 0 && Unlinkable(m, ts, x)
    && (p == 0 || p in ts || NextOf(m, p) == NextOf(m, ts[x]) ||
        forall j :: j in ps && j != i ==> !HasPage(live, ps[j], p))
  }

  /** Exactly then the order without the task is the right one and every other process is left alone. */
  lemma ExitExactly(m: Mem, live: Runs, ps: map<int, Proc>, q: Queue, ts: seq<Frame>, i: int, x: int)
    requires AllAgree(m, live, ps) && Scheduled(m, q, ts, ps) && i in ps && 0 <= x < |ts| && ts[x] == ps[i].parts.task
    ensures PrevOf(m, ts[x]) % 4096 == 0
    ensures ExitRight(m, live, ps, i, ts, x) <==>
      && Forward(Cut(m, ts[x]), Left(m, q, ts[x]), Without(ts, x))
      && forall j :: j in ps && j != i ==> LeavesAlone(m, live, Cut(m, ts[x]), ps[j])
  {
    hide WordAt, SetWord, NextOf, PrevOf, Agree, OwnRuns, Encodes, Left, Without, Forward, Unlinkable, HasPage,
      LeavesAlone, ListOk, Cut;
    var p := PrevOf(m, ts[x]);
    BackAligned(m, q, ts, x);
    CutExactly(m, q, ts, x);
    CutIs(m, ts[x]);
    forall j | j in ps && j != i
      ensures LeavesAlone(m, live, Cut(m, ts[x]), ps[j]) <==>
        p == 0 || p in ts || NextOf(m, p) == NextOf(m, ts[x]) || !HasPage(live, ps[j], p)
    {
      if p == 0 {
        NothingAlone(m, live, ps[j]);
      } else {
        LinkExactly(m, live, ps[j], p, NextOf(m, ts[x]));
        if p in ts {
          var r :| r in ps && ps[r].parts.task == p;
          if r != j { OtherTask(m, live, ps, r, j); }
        } else {
          assert p != ps[j].parts.task;
        }
      }
    }
  }

  lemma CutIs(m: Mem, t: Frame)
    requires PrevOf(m, t) % 4096 == 0
    ensures 0 <= PrevOf(m, t) as int + 52 <= 0xFFFF_FFFC
    ensures PrevOf(m, t) == 0 ==> Cut(m, t) == m
    ensures PrevOf(m, t) != 0 ==> Cut(m, t) == SetWord(m, PrevOf(m, t) + 52, NextOf(m, t))
  {
    hide WordAt, SetWord, NextOf, PrevOf;
    FrameBound(PrevOf(m, t));
  }

  lemma BackAligned(m: Mem, q: Queue, ts: seq<Frame>, x: int)
    requires ListOk(m, q, ts) && 0 <= x < |ts|
    ensures Forward(m, q, ts) && PrevOf(m, ts[x]) % 4096 == 0
  {
    hide NextOf, PrevOf, Forward;
  }

  // ---- deciding it from memory --------------------------------------------

  /** The first block of the run that block `b` lies in, found by walking down to an IS_FIRST entry. */
  function RunStart(m: Mem, b: int): int
    requires b < 25600
    decreases b
  {
    if b <= 0 || Entry(m, b) / 64 % 2 == 1 then b else RunStart(m, b - 1)
  }

  lemma {:induction false} RunStartIs(m: Mem, live: Runs, s: int, b: int)
    requires Encodes(m, live) && Covers(live, s, b) && b < 25600
    ensures RunStart(m, b) == s
  {
    assert Entry(m, b) == Code(b - s, live[s]);
    FirstBit(b - s, live[s]);
    if b != s { RunStartIs(m, live, s, b - 1); }
  }

  lemma FirstBit(k: int, n: int)
    ensures Code(k, n) / 64 % 2 == 1 <==> k == 0
  {
  }

  /** Block `c` starts one of the runs of the process, as its record, its directory and its slots say. */
  predicate StartsRun(m: Mem, p: Process, c: int)
    reads p.allocations
  {
    var dir := Untag(WordAt(m, p.chunk));
    || c == BlockIndex(p.parts.image) || c == BlockIndex(p.parts.stack) || c == BlockIndex(p.parts.task)
    || c == BlockIndex(p.parts.elf) || c == BlockIndex(p.parts.record)
    || c == BlockIndex(p.chunk) || c == BlockIndex(dir)
    || (exists r | 0 <= r < 1024 :: c == BlockIndex(Untag(WordIn(m, dir, r))))
    || (exists r | 0 <= r < p.allocations.Length :: p.allocations[r].ptr != 0 && c == BlockIndex(p.allocations[r].ptr))
  }

  /** Page `x` of the pool belongs to the process. */
  predicate HoldsPage(m: Mem, p: Process, x: Frame)
    reads p.allocations
  {
    var b := x / 4096 - 0x1000;
    0 <= b < 25600 && !FreeBlock(m, b) && StartsRun(m, p, RunStart(m, b))
  }

  lemma StartsOwn(m: Mem, live: Runs, p: Process, c: int)
    requires Agree(m, live, p.View()) && p.chunk == p.sh.chunk
    ensures StartsRun(m, p, c) <==> c in OwnRuns(p.View())
  {
    hide WordAt, BlockIndex, PagesAgree, RecordsAgree, LowConfined, Untag;
    var v, dir := p.View(), Untag(WordAt(m, p.chunk));
    DirAligned(p.sh.dir);
    forall r | 0 <= r < 1024
      ensures Untag(WordIn(m, dir, r)) == p.sh.tables[r]
    {
      TagRoundTrip(p.sh.tables[r], p.sh.flags);
    }
    forall b ensures b in BlocksOf(Foot(p.sh)) <==>
      b == BlockIndex(p.chunk) || b == BlockIndex(dir) || exists r :: 0 <= r < 1024 && b == BlockIndex(p.sh.tables[r])
    {
      FootStarts(p.sh, b);
    }
    var q := p.parts;
    assert PartRuns(q)
      == {BlockIndex(q.image), BlockIndex(q.stack), BlockIndex(q.task), BlockIndex(q.elf), BlockIndex(q.record)};
    assert c in SlotRuns(v.slots) <==>
      exists r :: 0 <= r < p.allocations.Length && v.slots[r].ptr != 0 && c == BlockIndex(v.slots[r].ptr);
  }

  lemma DirAligned(t: Frame)
    ensures Untag(t) == t
  {
  }

  lemma FootStarts(sh: Space, b: int)
    ensures b in BlocksOf(Foot(sh)) <==>
      b == BlockIndex(sh.chunk) || b == BlockIndex(sh.dir) || exists r :: 0 <= r < 1024 && b == BlockIndex(sh.tables[r])
  {
    hide BlockIndex;
    if b in BlocksOf(Foot(sh)) {
      var t :| t in Foot(sh) && b == BlockIndex(t);
      if t in sh.tables {
        var r :| 0 <= r < 1024 && sh.tables[r] == t;
      }
    }
    if r :| 0 <= r < 1024 && b == BlockIndex(sh.tables[r]) { assert sh.tables[r] in Foot(sh); }
    assert sh.chunk in Foot(sh) && sh.dir in Foot(sh);
  }

  /** Table bytes, directory and slots tell exactly whose page it is. */
  lemma HoldsIs(m: Mem, live: Runs, p: Process, x: Frame)
    requires Encodes(m, live) && Agree(m, live, p.View()) && p.chunk == p.sh.chunk
    ensures HoldsPage(m, p, x) <==> HasPage(live, p.View(), x)
  {
    hide WordAt, BlockIndex, Agree, OwnRuns, StartsRun, RunStart, Encodes;
    EncodesWell(m, live);
    var b := x / 4096 - 0x1000;
    if 0 <= b < 25600 {
      FreeIsUntaken(m, live, b);
      if s :| Covers(live, s, b) {
        RunStartIs(m, live, s, b);
        StartsOwn(m, live, p, s);
        forall c | Covers(live, c, b) ensures c == s { OneOwner(live, c, s, b); }
      }
    }
  }
}
