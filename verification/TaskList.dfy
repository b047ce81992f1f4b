/** task.c: the task records in memory, their doubly linked list, and round-robin scheduling. */
module TaskList {
  import opened Ram
  import opened PageTables
  import opened Paging

  // A record has its next link at byte 52 and its back link at byte 56. Records are blocks of the heap.

  function NextOf(m: Mem, t: Frame): Word {
    WordIn(m, t, 13)
  }

  function PrevOf(m: Mem, t: Frame): Word {
    WordIn(m, t, 14)
  }

  /** Byte by byte: both links are little-endian. */
  lemma LinksAre(m: Mem, t: Frame)
    ensures t + 59 < 0x1_0000_0000
    ensures NextOf(m, t) == m[t + 52] as int + 0x100 * (m[t + 53] as int) + 0x1_0000 * (m[t + 54] as int)
                            + 0x100_0000 * (m[t + 55] as int)
    ensures PrevOf(m, t) == m[t + 56] as int + 0x100 * (m[t + 57] as int) + 0x1_0000 * (m[t + 58] as int)
                            + 0x100_0000 * (m[t + 59] as int)
  {
    FrameBound(t);
  }

  /** `task_head`, `task_tail` and `current_task`. */
  datatype Queue = Queue(head: Word, tail: Word, current: Word)

  function After(ts: seq<Frame>, i: int): Word {
    if 0 <= i < |ts| - 1 then ts[i + 1] else 0
  }

  function Before(ts: seq<Frame>, i: int): Word {
    if 0 < i < |ts| then ts[i - 1] else 0
  }

  /** The tasks in forward order, without position `i`. */
  function Without(ts: seq<Frame>, i: int): seq<Frame>
    requires 0 <= i < |ts|
  {
    ts[..i] + ts[i + 1..]
  }

  predicate Different(ts: seq<Frame>) {
    (forall i :: 0 <= i < |ts| ==> ts[i] != 0) && forall i, j :: 0 <= i < j < |ts| ==> ts[i] != ts[j]
  }

  lemma WithoutIs(ts: seq<Frame>, i: int)
    requires 0 <= i < |ts|
    ensures Without(ts, i) == ts[..i] + ts[i + 1..]
  {
  }

  lemma WithoutAt(ts: seq<Frame>, i: int)
    requires 0 <= i < |ts| && Different(ts)
    ensures var us := Without(ts, i);
      && |us| == |ts| - 1 && (forall j :: 0 <= j < |us| ==> us[j] == ts[if j < i then j else j + 1])
      && Different(us) && ts[i] !in us
      && (forall j :: 0 <= j < |us| ==> After(us, j) == After(ts, if j < i - 1 then j else j + 1))
      && (forall j :: 0 <= j < |us| ==> Before(us, j) == if j <= i then Before(ts, j) else ts[j])
  {
  }

  predicate Ends(q: Queue, ts: seq<Frame>) {
    if ts == [] then q == Queue(0, 0, 0)
    else q.head == ts[0] && q.tail == ts[|ts| - 1] && q.current in ts
  }

  /** The next links run through `ts`; head, tail and current are in it, or all null. */
  ghost predicate Forward(m: Mem, q: Queue, ts: seq<Frame>) {
    && Different(ts) && Ends(q, ts)
    && forall i :: 0 <= i < |ts| ==> NextOf(m, ts[i]) == After(ts, i)
  }

  /** ... and every back link is null or the address of some block. */
  ghost predicate ListOk(m: Mem, q: Queue, ts: seq<Frame>) {
    Forward(m, q, ts) && forall t :: t in ts ==> PrevOf(m, t) % 4096 == 0
  }

  /** Both links run through `ts`. */
  ghost predicate Linked(m: Mem, q: Queue, ts: seq<Frame>) {
    Forward(m, q, ts) && forall i :: 0 <= i < |ts| ==> PrevOf(m, ts[i]) == Before(ts, i)
  }

  /** Writing one next link changes that word and no other. */
  lemma NextWrite(m: Mem, p: Frame, w: Word)
    ensures 0 <= p + 52 <= 0xFFFF_FFFC
    ensures var m' := SetWord(m, p + 52, w);
      && (forall t: Frame :: NextOf(m', t) == if t == p then w else NextOf(m, t))
      && (forall t: Frame :: PrevOf(m', t) == PrevOf(m, t))
      && (forall t: Frame :: t != p ==> SamePage(m, m', t))
  {
    hide WordAt, SetWord;
    WordStored(m, p, 13, w);
    var m' := SetWord(m, p + 52, w);
    forall t: Frame | t != p ensures NextOf(m', t) == NextOf(m, t) && PrevOf(m', t) == PrevOf(m, t) {
      SamePageWord(m, m', t, 13);
      SamePageWord(m, m', t, 14);
    }
  }

  lemma PrevWrite(m: Mem, p: Frame, w: Word)
    ensures 0 <= p + 56 <= 0xFFFF_FFFC
    ensures var m' := SetWord(m, p + 56, w);
      && (forall t: Frame :: PrevOf(m', t) == if t == p then w else PrevOf(m, t))
      && (forall t: Frame :: NextOf(m', t) == NextOf(m, t))
      && (forall t: Frame :: t != p ==> SamePage(m, m', t))
  {
    hide WordAt, SetWord;
    WordStored(m, p, 14, w);
    var m' := SetWord(m, p + 56, w);
    forall t: Frame | t != p ensures NextOf(m', t) == NextOf(m, t) && PrevOf(m', t) == PrevOf(m, t) {
      SamePageWord(m, m', t, 13);
      SamePageWord(m, m', t, 14);
    }
  }

  lemma SameLinks(m: Mem, m': Mem, t: Frame)
    requires SamePage(m, m', t)
    ensures NextOf(m', t) == NextOf(m, t) && PrevOf(m', t) == PrevOf(m, t)
  {
    hide WordAt;
    SamePageWord(m, m', t, 13);
    SamePageWord(m, m', t, 14);
  }

  /** The list is a matter of its own pages. */
  lemma SameForward(m: Mem, m': Mem, q: Queue, ts: seq<Frame>)
    requires forall t :: t in ts ==> SamePage(m, m', t)
    ensures Forward(m, q, ts) ==> Forward(m', q, ts)
    ensures Linked(m, q, ts) ==> Linked(m', q, ts)
    ensures ListOk(m, q, ts) ==> ListOk(m', q, ts)
  {
    hide NextOf, PrevOf;
    forall i | 0 <= i < |ts| ensures NextOf(m', ts[i]) == NextOf(m, ts[i]) && PrevOf(m', ts[i]) == PrevOf(m, ts[i]) {
      SameLinks(m, m', ts[i]);
    }
  }

  // ---- hanging a record on the list ---------------------------------------

  /** What `task_new` writes for record `t`. */
  function Hung(m: Mem, q: Queue, t: Frame): Mem
    requires q.tail % 4096 == 0
  {
    NextWrite(m, q.tail, t);
    if q.head == 0 then m else SetWord(SetWord(m, q.tail + 52, t), t + 56, q.tail)
  }

  function Joined(q: Queue, t: Frame): Queue {
    if q.head == 0 then Queue(t, t, t) else Queue(q.head, t, q.current)
  }

  lemma HungLast(m: Mem, q: Queue, ts: seq<Frame>, t: Frame)
    requires Forward(m, q, ts) && t !in ts && t != 0 && NextOf(m, t) == 0 && PrevOf(m, t) == 0
    ensures q.tail % 4096 == 0
    ensures Forward(Hung(m, q, t), Joined(q, t), ts + [t])
    ensures Linked(m, q, ts) ==> Linked(Hung(m, q, t), Joined(q, t), ts + [t])
    ensures PrevOf(Hung(m, q, t), t) == q.tail && forall u: Frame :: u != t ==> PrevOf(Hung(m, q, t), u) == PrevOf(m, u)
    ensures forall u: Frame :: u != t && (u != q.tail || q.tail == 0) ==> SamePage(m, Hung(m, q, t), u)
  {
    hide NextOf, PrevOf, SetWord, After, Before;
    var us, n := ts + [t], |ts|;
    LastOf(ts, t);
    if ts != [] {
      NextWrite(m, q.tail, t);
      var m1 := SetWord(m, q.tail + 52, t);
      PrevWrite(m1, t, q.tail);
      var m2 := Hung(m, q, t);
      forall i | 0 <= i <= n ensures NextOf(m2, us[i]) == After(us, i) {
        assert i < n ==> us[i] == ts[i] && NextOf(m, ts[i]) == After(ts, i);
        assert i < n - 1 ==> ts[i] != ts[n - 1];
      }
      assert Forward(m2, Joined(q, t), us);
      forall i | 0 <= i < n ensures PrevOf(m2, us[i]) == PrevOf(m, ts[i]) {
        assert us[i] == ts[i] && ts[i] != t;
      }
      forall u: Frame | u != t && u != q.tail ensures SamePage(m, m2, u) {
        assert SamePage(m, m1, u) && SamePage(m1, m2, u);
      }
    }
  }

  lemma LastOf(ts: seq<Frame>, t: Frame)
    requires Different(ts) && t !in ts && t != 0
    ensures var us, n := ts + [t], |ts|;
      && Different(us) && us[n] == t && After(us, n) == 0 && (forall i :: 0 <= i < n ==> us[i] == ts[i])
      && (forall i :: 0 <= i < n - 1 ==> After(us, i) == After(ts, i)) && (n > 0 ==> After(us, n - 1) == t)
      && (forall i :: 0 <= i < n ==> Before(us, i) == Before(ts, i)) && Before(us, n) == if n == 0 then 0 else ts[n - 1]
  {
  }

  // ---- taking a record off the list ---------------------------------------

  /** What `task_list_remove` writes for record `t`. */
  function Cut(m: Mem, t: Frame): Mem
    requires PrevOf(m, t) % 4096 == 0
  {
    NextWrite(m, PrevOf(m, t), NextOf(m, t));
    if PrevOf(m, t) == 0 then m else SetWord(m, PrevOf(m, t) + 52, NextOf(m, t))
  }

  function Left(m: Mem, q: Queue, t: Frame): Queue {
    var head := if t == q.head then NextOf(m, t) else q.head;
    var tail := if t == q.tail then PrevOf(m, t) else q.tail;
    Queue(head, tail, if t != q.current then q.current else if NextOf(m, t) == 0 then head else NextOf(m, t))
  }

  /** Back link `p` of task `i` is what `task_list_remove` needs it to be: it leads to the task
      before it, or it does not matter because a first task has others behind it. */
  predicate Allows(ts: seq<Frame>, i: int, p: Word)
    requires 0 <= i < |ts|
  {
    p == Before(ts, i) || (i == 0 && |ts| > 1 && (p == ts[i] || p !in ts))
  }

  predicate Unlinkable(m: Mem, ts: seq<Frame>, i: int)
    requires 0 <= i < |ts|
  {
    Allows(ts, i, PrevOf(m, ts[i]))
  }

  lemma CutLinks(m: Mem, t: Frame)
    requires PrevOf(m, t) % 4096 == 0
    ensures var p := PrevOf(m, t);
      && (forall u: Frame :: NextOf(Cut(m, t), u) == if u == p && p != 0 then NextOf(m, t) else NextOf(m, u))
      && (forall u: Frame :: PrevOf(Cut(m, t), u) == PrevOf(m, u))
      && (forall u: Frame :: u != p || p == 0 ==> SamePage(m, Cut(m, t), u))
  {
    hide NextOf, PrevOf, SetWord;
    NextWrite(m, PrevOf(m, t), NextOf(m, t));
  }

  /** On a list with the right forward order and any back links, the removal leaves the forward order
      without the task exactly when its back link allows it; on a doubly linked list the back links stay
      right exactly when the task was the last. */
  lemma CutExactly(m: Mem, q: Queue, ts: seq<Frame>, i: int)
    requires Forward(m, q, ts) && 0 <= i < |ts| && PrevOf(m, ts[i]) % 4096 == 0
    ensures Forward(Cut(m, ts[i]), Left(m, q, ts[i]), Without(ts, i)) <==> Unlinkable(m, ts, i)
    ensures Linked(m, q, ts) ==> (Linked(Cut(m, ts[i]), Left(m, q, ts[i]), Without(ts, i)) <==> i == |ts| - 1)
  {
    hide NextOf, PrevOf, Cut, Left;
    CutLinks(m, ts[i]);
    WithoutAt(ts, i);
    if Unlinkable(m, ts, i) { CutCloses(m, q, ts, i); } else { CutBreaks(m, q, ts, i); }
    if Linked(m, q, ts) { CutBacks(m, q, ts, i); }
  }

  lemma CutCloses(m: Mem, q: Queue, ts: seq<Frame>, i: int)
    requires Forward(m, q, ts) && 0 <= i < |ts| && PrevOf(m, ts[i]) % 4096 == 0 && Unlinkable(m, ts, i)
    ensures Forward(Cut(m, ts[i]), Left(m, q, ts[i]), Without(ts, i))
  {
    hide NextOf, PrevOf, Cut, Without, After, Before, Left, Ends;
    CutLinks(m, ts[i]);
    WithoutAt(ts, i);
    LeftEnds(m, q, ts, i);
    var us := Without(ts, i);
    forall j | 0 <= j < |us| ensures NextOf(Cut(m, ts[i]), us[j]) == After(us, j) {
      var x := if j < i then j else j + 1;
      assert us[j] == ts[x] && NextOf(m, ts[x]) == After(ts, x);
      BeforeIs(ts, i);
    }
  }

  lemma BeforeIs(ts: seq<Frame>, i: int)
    requires 0 <= i < |ts|
    ensures Before(ts, i) == if i == 0 then 0 else ts[i - 1]
  {
  }

  lemma LeftEnds(m: Mem, q: Queue, ts: seq<Frame>, i: int)
    requires Forward(m, q, ts) && 0 <= i < |ts| && Unlinkable(m, ts, i)
    ensures Ends(Left(m, q, ts[i]), Without(ts, i))
  {
    hide NextOf, PrevOf, Without, Left, Unlinkable;
    WithoutAt(ts, i);
    if |ts| == 1 {
      LastLeft(m, q, ts, i);
    } else {
      LeftFirst(m, q, ts, i);
      LeftLast(m, q, ts, i);
      LeftCurrent(m, q, ts, i);
    }
  }

  lemma LastLeft(m: Mem, q: Queue, ts: seq<Frame>, i: int)
    requires Forward(m, q, ts) && 0 <= i < |ts| == 1 && Unlinkable(m, ts, i)
    ensures Left(m, q, ts[i]) == Queue(0, 0, 0) && Without(ts, i) == []
  {
    hide NextOf, PrevOf;
    assert NextOf(m, ts[i]) == After(ts, i);
  }

  lemma LeftFirst(m: Mem, q: Queue, ts: seq<Frame>, i: int)
    requires Forward(m, q, ts) && 0 <= i < |ts| && |ts| > 1
    ensures Left(m, q, ts[i]).head == Without(ts, i)[0]
  {
    hide NextOf, PrevOf;
    assert NextOf(m, ts[i]) == After(ts, i);
    if i > 0 { Distinct2(ts, 0, i); }
  }

  lemma LeftLast(m: Mem, q: Queue, ts: seq<Frame>, i: int)
    requires Forward(m, q, ts) && 0 <= i < |ts| && |ts| > 1 && Unlinkable(m, ts, i)
    ensures 0 <= |ts| - 2 < |Without(ts, i)| && Left(m, q, ts[i]).tail == Without(ts, i)[|ts| - 2]
  {
    hide NextOf, PrevOf, Without, Left, Unlinkable, Ends;
    LeftTail(m, q, ts, i);
    WithoutAt(ts, i);
    if i == |ts| - 1 { BackIs(m, ts, i); }
  }

  lemma NotNull(ts: seq<Frame>, i: int)
    requires Different(ts) && 0 <= i < |ts|
    ensures ts[i] != 0
  {
  }

  lemma BackIs(m: Mem, ts: seq<Frame>, i: int)
    requires 0 < i < |ts| && Unlinkable(m, ts, i)
    ensures PrevOf(m, ts[i]) == ts[i - 1]
  {
    hide NextOf, PrevOf;
  }

  lemma LeftCurrent(m: Mem, q: Queue, ts: seq<Frame>, i: int)
    requires Forward(m, q, ts) && 0 <= i < |ts| && |ts| > 1
    ensures Left(m, q, ts[i]).current in Without(ts, i)
  {
    hide NextOf, PrevOf, Without, Different;
    NextAt(m, q, ts, i);
    if q.current != ts[i] {
      Survives(ts, i, q.current);
    } else if i < |ts| - 1 {
      Distinct2(ts, i, i + 1);
      Survives(ts, i, ts[i + 1]);
      NotNull(ts, i + 1);
    } else {
      Distinct2(ts, 0, i);
      Survives(ts, i, ts[0]);
    }
  }

  lemma Survives(ts: seq<Frame>, i: int, t: Word)
    requires 0 <= i < |ts| && t in ts && t != ts[i]
    ensures t in Without(ts, i)
  {
    var j :| 0 <= j < |ts| && ts[j] == t;
    assert Without(ts, i)[if j < i then j else j - 1] == t;
  }

  lemma CutBreaks(m: Mem, q: Queue, ts: seq<Frame>, i: int)
    requires Forward(m, q, ts) && 0 <= i < |ts| && PrevOf(m, ts[i]) % 4096 == 0 && !Unlinkable(m, ts, i)
    ensures !Forward(Cut(m, ts[i]), Left(m, q, ts[i]), Without(ts, i))
  {
    hide NextOf, PrevOf, Cut;
    CutLinks(m, ts[i]);
    WithoutAt(ts, i);
    var us := Without(ts, i);
    if i > 0 {
      assert us[i - 1] == ts[i - 1] && After(us, i - 1) != ts[i];
    } else if |ts| > 1 {
      var j :| 0 < j < |ts| && ts[j] == PrevOf(m, ts[i]);
      assert us[j - 1] == ts[j] && After(us, j - 1) != ts[1];
    }
  }

  lemma CutBacks(m: Mem, q: Queue, ts: seq<Frame>, i: int)
    requires Linked(m, q, ts) && 0 <= i < |ts| && PrevOf(m, ts[i]) % 4096 == 0
    ensures Linked(Cut(m, ts[i]), Left(m, q, ts[i]), Without(ts, i)) <==> i == |ts| - 1
  {
    hide NextOf, PrevOf, Cut, Left;
    CutLinks(m, ts[i]);
    WithoutAt(ts, i);
    CutCloses(m, q, ts, i);
    var us := Without(ts, i);
    if i < |us| {
      assert us[i] == ts[i + 1] && PrevOf(m, us[i]) == ts[i];
    }
  }

  /** A removal spoils the back link of the task behind ... */
  lemma LinkSpoils(m: Mem, q: Queue, ts: seq<Frame>, i: int)
    requires Forward(m, q, ts) && 0 <= i < |ts| - 1 && PrevOf(m, ts[i]) % 4096 == 0 && PrevOf(m, ts[i + 1]) == ts[i]
    ensures PrevOf(Cut(m, ts[i]), Without(ts, i)[i]) != Before(Without(ts, i), i)
  {
    hide NextOf, PrevOf, Cut, Without;
    CutLinks(m, ts[i]);
    WithoutAt(ts, i);
    assert Without(ts, i)[i] == ts[i + 1];
    BeforeIs(ts, i);
  }

  /** ... and no other. */
  lemma LinksStay(m: Mem, q: Queue, ts: seq<Frame>, i: int, j: int)
    requires Forward(m, q, ts) && 0 <= i < |ts| && PrevOf(m, ts[i]) % 4096 == 0 && 0 <= j < |ts| - 1 && j != i
    ensures var us, x := Without(ts, i), if j < i then j else j + 1;
      PrevOf(Cut(m, ts[i]), us[j]) == Before(us, j) <==> PrevOf(m, ts[x]) == Before(ts, x)
  {
    hide NextOf, PrevOf, Cut, Without, Before;
    CutLinks(m, ts[i]);
    WithoutAt(ts, i);
    var us, x := Without(ts, i), if j < i then j else j + 1;
    assert us[j] == ts[x] && PrevOf(Cut(m, ts[i]), us[j]) == PrevOf(m, ts[x]);
    BeforeIs(ts, x);
  }

  // ---- the code -----------------------------------------------------------

  class Scheduler {
    var head: Word
    var tail: Word
    var current: Word
    ghost var order: seq<Frame>

    ghost function View(): Queue
      reads this
    {
      Queue(head, tail, current)
    }

    ghost predicate Valid(m: Mem)
      reads this
    {
      ListOk(m, View(), order)
    }

    constructor ()
      ensures View() == Queue(0, 0, 0) && order == []
    {
      head, tail, current := 0, 0, 0;
      order := [];
    }

    /** The end of `task_new`: a cleared record becomes the last one. */
    method Append(ram: array<Byte>, t: Frame)
      requires ram.Length == 0x1_0000_0000 && Valid(ram[..]) && t !in order && t != 0
      requires NextOf(ram[..], t) == 0 && PrevOf(ram[..], t) == 0
      modifies this, ram
      ensures Valid(ram[..]) && order == old(order) + [t] && View() == Joined(old(View()), t)
      ensures old(View()).tail % 4096 == 0 && ram[..] == Hung(old(ram[..]), old(View()), t)
      ensures old(Linked(ram[..], View(), order)) ==> Linked(ram[..], View(), order)
      ensures tail == t && if old(order) == [] then head == t == current && ram[..] == old(ram[..])
        else head == old(head) && current == old(current) && PrevOf(ram[..], t) == old(tail)
      ensures forall u: Frame :: u != t ==>
        NextOf(ram[..], u) == (if u == old(tail) && u != 0 then t else old(NextOf(ram[..], u))) &&
        PrevOf(ram[..], u) == old(PrevOf(ram[..], u))
    {
      hide NextOf, PrevOf, SetWord, WordAt, Forward, Linked;
      ghost var m, q, ts := ram[..], View(), order;
      HungLast(m, q, ts, t);
      TailKnown(m, q, ts);
      order := ts + [t];
      if head == 0 {
        head, tail, current := t, t, t;
        return;
      }
      NextWrite(m, tail, t);
      StoreWord(ram, tail + 52, t);
      ghost var m1: Mem := ram[..];
      PrevWrite(m1, t, tail);
      StoreWord(ram, t + 56, tail);
      tail := t;
    }

    /** `task_list_remove`, on whatever links there are. */
    method Remove(ram: array<Byte>, t: Frame, ghost i: int)
      requires ram.Length == 0x1_0000_0000 && Valid(ram[..]) && 0 <= i < |order| && order[i] == t
      modifies this, ram
      ensures old(PrevOf(ram[..], t) % 4096 == 0) && ram[..] == Cut(old(ram[..]), t)
      ensures View() == Left(old(ram[..]), old(View()), t) && order == Without(old(order), i)
      ensures Valid(ram[..]) <==> old(Unlinkable(ram[..], order, i))
      ensures Forward(ram[..], View(), order) <==> old(Unlinkable(ram[..], order, i))
      ensures order == old(order)[..i] + old(order)[i + 1..]
      ensures head == if t == old(head) then old(NextOf(ram[..], t)) else old(head)
      ensures tail == if t == old(tail) then old(PrevOf(ram[..], t)) else old(tail)
      ensures current == if t != old(current) then old(current) else if old(NextOf(ram[..], t)) == 0 then head
        else old(NextOf(ram[..], t))
      ensures forall u: Frame ::
        PrevOf(ram[..], u) == old(PrevOf(ram[..], u)) &&
        NextOf(ram[..], u) ==
        if u == old(PrevOf(ram[..], t)) && u != 0 then old(NextOf(ram[..], t)) else old(NextOf(ram[..], u))
    {
      hide NextOf, PrevOf, SetWord, WordAt, Forward, Linked, Unlinkable, Without;
      ghost var m, q, ts := ram[..], View(), order;
      CutExactly(m, q, ts, i);
      CutLinks(m, t);
      LinkPlaces(m, t);
      var next := LoadWord(ram, t + 52);
      var prev := LoadWord(ram, t + 56);
      if prev != 0 {
        NextWrite(m, prev, next);
        StoreWord(ram, prev + 52, next);
      }
      if t == head {
        head := next;
      }
      if t == tail {
        tail := prev;
      }
      if t == current {
        current := if next == 0 then head else next;
      }
      order := Without(ts, i);
      assert order == ts[..i] + ts[i + 1..] by { WithoutIs(ts, i); }
      forall u | u in order ensures u in ts { StillThere(ts, i, u); }
    }

    /** The task behind the current one, or the first. */
    method GetNext(ram: array<Byte>, ghost at: int) returns (t: Word)
      requires ram.Length == 0x1_0000_0000 && Valid(ram[..]) && 0 <= at < |order| && order[at] == current
      ensures t == order[if at + 1 < |order| then at + 1 else 0]
    {
      ghost var c: Frame := order[at];
      LinkPlaces(ram[..], c);
      var next := LoadWord(ram, current + 52);
      t := if next == 0 then head else next;
    }

    method Switch(t: Word)
      modifies this`current
      ensures current == t
    {
      current := t;
    }
  }

  lemma TailKnown(m: Mem, q: Queue, ts: seq<Frame>)
    requires Forward(m, q, ts)
    ensures if ts == [] then q == Queue(0, 0, 0) else q.head == ts[0] != 0 && q.tail == ts[|ts| - 1] != 0
  {
  }

  lemma StillThere(ts: seq<Frame>, i: int, u: Frame)
    requires 0 <= i < |ts| && u in Without(ts, i)
    ensures u in ts
  {
  }

  lemma LinkPlaces(m: Mem, t: Frame)
    ensures t + 56 <= 0xFFFF_FFFC && WordAt(m, t + 52) == NextOf(m, t) && WordAt(m, t + 56) == PrevOf(m, t)
  {
  }

  /** From any current task, `n` steps of round robin visit all `n` tasks once and end where they began. */
  method RoundRobin(ram: array<Byte>, s: Scheduler, n: nat, ghost at: int) returns (visited: seq<Word>)
    requires ram.Length == 0x1_0000_0000 && s.Valid(ram[..]) && n == |s.order| > 0 && 0 <= at < n
    requires s.order[at] == s.current
    modifies s`current
    ensures s.Valid(ram[..]) && s.current == old(s.current)
    ensures |visited| == n && (forall j :: 0 <= j < n ==> visited[j] == s.order[(at + 1 + j) % n])
    ensures (forall t :: t in s.order ==> t in visited) && forall i, j :: 0 <= i < j < n ==> visited[i] != visited[j]
  {
    hide NextOf, PrevOf, WordAt, Turn, Forward;
    ghost var ts := s.order;
    NoCurrent(ram[..], s.View(), ts);
    assert Turn(at, 0, n) == at by { TurnStart(at, n); }
    visited := [];
    for k := 0 to n
      invariant s.Valid(ram[..]) && |visited| == k && s.current == ts[Turn(at, k, n)]
      invariant forall j :: 0 <= j < k ==> visited[j] == ts[Turn(at, j + 1, n)]
    {
      var t := s.GetNext(ram, Turn(at, k, n));
      TurnNext(at, k, n);
      CurrentMoves(ram[..], s.View(), ts, t);
      s.Switch(t);
      visited := visited + [t];
    }
    assert s.current == ts[at] by { TurnStart(at, n); }
    AllVisited(ts, visited, at, n);
  }

  lemma AllVisited(ts: seq<Frame>, visited: seq<Word>, at: int, n: int)
    requires Different(ts) && n == |ts| == |visited| && 0 <= at < n
    requires forall j :: 0 <= j < n ==> visited[j] == ts[Turn(at, j + 1, n)]
    ensures forall j :: 0 <= j < n ==> visited[j] == ts[(at + 1 + j) % n]
    ensures (forall t :: t in ts ==> t in visited) && forall i, j :: 0 <= i < j < n ==> visited[i] != visited[j]
  {
    hide Turn, Different;
    forall j | 0 <= j < n ensures visited[j] == ts[(at + 1 + j) % n] { TurnNext(at, j, n); }
    forall i, j | 0 <= i < j < n ensures visited[i] != visited[j] {
      TurnsDiffer(at, i + 1, j + 1, n);
      Distinct2(ts, Turn(at, i + 1, n), Turn(at, j + 1, n));
    }
    forall t | t in ts ensures t in visited {
      var x :| 0 <= x < n && ts[x] == t;
      var j := TurnReaches(at, x, n);
      assert visited[j] == t;
    }
  }

  /** The position `k` steps round from `at`. */
  ghost function Turn(at: int, k: int, n: int): (x: int)
    requires 0 <= at < n && 0 <= k <= n
    ensures 0 <= x < n
  {
    if at + k < n then at + k else at + k - n
  }

  lemma CurrentMoves(m: Mem, q: Queue, ts: seq<Frame>, t: Word)
    requires Forward(m, q, ts) && t in ts
    ensures Forward(m, q.(current := t), ts)
  {
  }

  lemma TurnStart(at: int, n: int)
    requires 0 <= at < n
    ensures Turn(at, 0, n) == at && Turn(at, n, n) == at
  {
  }

  lemma Distinct2(ts: seq<Frame>, x: int, y: int)
    requires Different(ts) && 0 <= x < |ts| && 0 <= y < |ts| && x != y
    ensures ts[x] != ts[y]
  {
  }

  lemma TurnNext(at: int, k: int, n: int)
    requires 0 <= at < n && 0 <= k < n
    ensures Turn(at, k + 1, n) == (at + 1 + k) % n
    ensures Turn(at, k + 1, n) == if Turn(at, k, n) + 1 < n then Turn(at, k, n) + 1 else 0
  {
    var x := at + 1 + k;
    if x < n { ModUnique(x, n, 0, x); } else { ModUnique(x, n, 1, x - n); }
  }

  lemma TurnsDiffer(at: int, i: int, j: int, n: int)
    requires 0 <= at < n && 1 <= i < j <= n
    ensures Turn(at, i, n) != Turn(at, j, n)
  {
  }

  lemma TurnReaches(at: int, x: int, n: int) returns (j: int)
    requires 0 <= at < n && 0 <= x < n
    ensures 0 <= j < n && Turn(at, j + 1, n) == x
  {
    j := if x > at then x - at - 1 else x - at - 1 + n;
  }

  // ---- runs ---------------------------------------------------------------

  datatype Step = Create(t: Frame) | Drop(at: nat) | Next

  /** The tasks in forward order, each with its back link. */
  datatype Line = Line(ts: seq<Frame>, bs: seq<Word>)

  /** The line as it lies in memory. */
  ghost function LineOf(m: Mem, ts: seq<Frame>): Line {
    Line(ts, seq(|ts|, i requires 0 <= i < |ts| => PrevOf(m, ts[i])))
  }

  /** What a step makes of the line: a new task goes last with a back link to what was last before, and no back
      link changes after that. */
  function Stepped(c: Line, step: Step): Line {
    match step
    case Create(t) => Line(c.ts + [t], c.bs + [if c.ts == [] then 0 else c.ts[|c.ts| - 1]])
    case Drop(at) => if at < |c.ts| == |c.bs| then Line(Without(c.ts, at), c.bs[..at] + c.bs[at + 1..]) else c
    case Next => c
  }

  /** The line after `steps`. */
  function Lines(c: Line, steps: seq<Step>): Line {
    if steps == [] then c else Stepped(Lines(c, steps[..|steps| - 1]), steps[|steps| - 1])
  }

  /** What the code gets right: a new record at a new place, a removal that its back link allows. */
  predicate Allowed(c: Line, step: Step) {
    match step
    case Create(t) => t != 0 && t !in c.ts
    case Drop(at) => at < |c.ts| == |c.bs| && Allows(c.ts, at, c.bs[at])
    case Next => true
  }

  lemma LinesNext(c: Line, steps: seq<Step>, k: nat)
    requires k < |steps|
    ensures Lines(c, steps[..k + 1]) == Stepped(Lines(c, steps[..k]), steps[k])
  {
    assert steps[..k + 1][..k] == steps[..k];
  }

  lemma LineKept(m: Mem, m': Mem, ts: seq<Frame>)
    requires forall t :: t in ts ==> PrevOf(m', t) == PrevOf(m, t)
    ensures LineOf(m', ts) == LineOf(m, ts)
  {
    hide PrevOf;
  }

  lemma LineHung(m: Mem, q: Queue, ts: seq<Frame>, t: Frame)
    requires Forward(m, q, ts) && t !in ts && t != 0 && NextOf(m, t) == 0 && PrevOf(m, t) == 0
    ensures q.tail % 4096 == 0 && LineOf(Hung(m, q, t), ts + [t]) == Stepped(LineOf(m, ts), Create(t))
  {
    hide NextOf, PrevOf, Hung, Forward;
    HungLast(m, q, ts, t);
    TailKnown(m, q, ts);
  }

  lemma LineCut(m: Mem, ts: seq<Frame>, i: int)
    requires 0 <= i < |ts| && PrevOf(m, ts[i]) % 4096 == 0
    ensures LineOf(Cut(m, ts[i]), Without(ts, i)) == Stepped(LineOf(m, ts), Drop(i))
  {
    hide NextOf, PrevOf, Cut;
    CutLinks(m, ts[i]);
    var c, d := LineOf(Cut(m, ts[i]), Without(ts, i)), Stepped(LineOf(m, ts), Drop(i));
    assert |c.bs| == |d.bs|;
    forall j | 0 <= j < |c.bs| ensures c.bs[j] == d.bs[j] {}
  }

  method Take(ram: array<Byte>, s: Scheduler, step: Step, c: Line) returns (d: Line)
    requires ram.Length == 0x1_0000_0000 && s.Valid(ram[..]) && LineOf(ram[..], s.order) == c && Allowed(c, step)
    modifies ram, s
    ensures s.Valid(ram[..]) && LineOf(ram[..], s.order) == d == Stepped(c, step)
    ensures step.Next? ==> ram[..] == old(ram[..])
    ensures step.Next? && c.ts != [] ==> s.current == c.ts[(Position(c.ts, old(s.current)) + 1) % |c.ts|]
  {
    hide NextOf, PrevOf, WordAt, Forward, Hung, Cut, Without;
    ghost var m, ts := ram[..], s.order;
    d := Stepped(c, step);
    match step
    case Create(t) =>
      ClearRecord(ram, t, s);
      LineHung(ram[..], s.View(), ts, t);
      s.Append(ram, t);
    case Drop(at) =>
      LineCut(m, ts, at) by { LinkAligned(m, s.View(), ts, at); }
      s.Remove(ram, c.ts[at], at);
    case Next =>
      NoCurrent(ram[..], s.View(), ts);
      if s.current != 0 {
        Advance(ram, s, ts);
      }
  }

  lemma LinkAligned(m: Mem, q: Queue, ts: seq<Frame>, i: int)
    requires ListOk(m, q, ts) && 0 <= i < |ts|
    ensures PrevOf(m, ts[i]) % 4096 == 0
  {
    hide NextOf, PrevOf;
  }

  lemma NoCurrent(m: Mem, q: Queue, ts: seq<Frame>)
    requires Forward(m, q, ts)
    ensures q.current == 0 <==> ts == []
    ensures Different(ts) && (ts != [] ==> q.current in ts)
  {
  }

  /** `task_init` clears the record. */
  method ClearRecord(ram: array<Byte>, t: Frame, s: Scheduler)
    requires ram.Length == 0x1_0000_0000 && s.Valid(ram[..]) && t !in s.order
    modifies ram
    ensures s.Valid(ram[..]) && NextOf(ram[..], t) == 0 && PrevOf(ram[..], t) == 0
    ensures old(Linked(ram[..], s.View(), s.order)) ==> Linked(ram[..], s.View(), s.order)
    ensures LineOf(ram[..], s.order) == old(LineOf(ram[..], s.order))
    ensures forall u: Frame :: u != t ==> SamePage(old(ram[..]), ram[..], u)
  {
    hide NextOf, PrevOf;
    ghost var m: Mem := ram[..];
    FrameBound(t);
    Memset(ram, t, 0, 64);
    forall u: Frame | u != t ensures SamePage(m, ram[..], u) { FramesApart(t, u); }
    Cleared(ram[..], t);
    SameForward(m, ram[..], s.View(), s.order);
    forall u | u in s.order ensures PrevOf(ram[..], u) == PrevOf(m, u) { SameLinks(m, ram[..], u); }
    LineKept(m, ram[..], s.order);
  }

  lemma Cleared(m: Mem, t: Frame)
    requires t <= 0xFFFF_F000 && forall a: Word :: t <= a < t + 64 ==> m[a] == 0
    ensures NextOf(m, t) == 0 && PrevOf(m, t) == 0
  {
  }

  method Advance(ram: array<Byte>, s: Scheduler, ghost ts: seq<Frame>)
    requires ram.Length == 0x1_0000_0000 && s.Valid(ram[..]) && s.order == ts && ts != []
    modifies s`current
    ensures s.Valid(ram[..])
    ensures s.current == ts[(Position(ts, old(s.current)) + 1) % |ts|]
  {
    hide NextOf, PrevOf, WordAt;
    ghost var at := Position(ts, s.current);
    var t := s.GetNext(ram, at);
    TurnNext(at, 0, |ts|);
    s.Switch(t);
  }

  ghost function Position(ts: seq<Frame>, t: Word): (i: int)
    ensures t in ts ==> 0 <= i < |ts| && ts[i] == t
  {
    if t in ts then var i :| 0 <= i < |ts| && ts[i] == t; i else 0
  }

  /** In every run of creations, switches and allowed removals the forward order and all back links are those
      the steps describe. The run goes on to the first step that is not allowed, which the steps tell too. */
  method Run(ram: array<Byte>, s: Scheduler, steps: seq<Step>, c0: Line) returns (c: Line, done: nat)
    requires ram.Length == 0x1_0000_0000 && s.Valid(ram[..]) && LineOf(ram[..], s.order) == c0
    modifies ram, s
    ensures s.Valid(ram[..]) && LineOf(ram[..], s.order) == c
    ensures done <= |steps| && c == Lines(c0, steps[..done])
    ensures forall k :: 0 <= k < done ==> Allowed(Lines(c0, steps[..k]), steps[k])
    ensures done < |steps| ==> !Allowed(Lines(c0, steps[..done]), steps[done])
  {
    hide NextOf, PrevOf, WordAt, Forward, LineOf, Stepped, Allowed;
    c, done := c0, 0;
    while done < |steps|
      invariant s.Valid(ram[..]) && LineOf(ram[..], s.order) == c && done <= |steps| && c == Lines(c0, steps[..done])
      invariant forall k :: 0 <= k < done ==> Allowed(Lines(c0, steps[..k]), steps[k])
    {
      LinesNext(c0, steps, done);
      if !Allowed(c, steps[done]) {
        return;
      }
      c := Take(ram, s, steps[done], c);
      done := done + 1;
    }
  }

  // ---- runs that remove the last task only --------------------------------

  /** Each back link leads to the task before, or is null in the first one. */
  predicate Straight(c: Line) {
    |c.bs| == |c.ts| && forall i :: 0 <= i < |c.ts| ==> c.bs[i] == Before(c.ts, i)
  }

  /** A new record at a new place, a removal of the last task, or a switch. */
  predicate AtTail(ts: seq<Frame>, step: Step) {
    match step
    case Create(t) => t != 0 && t !in ts
    case Drop(at) => at + 1 == |ts|
    case Next => true
  }

  lemma LinkedIsStraight(m: Mem, q: Queue, ts: seq<Frame>)
    ensures Linked(m, q, ts) <==> Forward(m, q, ts) && Straight(LineOf(m, ts))
  {
    hide NextOf, PrevOf, Forward;
  }

  /** Such a step is allowed on a straight line and leaves it straight. */
  lemma StraightOn(c: Line, step: Step)
    requires Straight(c) && AtTail(c.ts, step)
    ensures Allowed(c, step) && Straight(Stepped(c, step))
  {
    var d := Stepped(c, step);
    forall i | 0 <= i < |d.ts| ensures d.bs[i] == Before(d.ts, i) {
      assert i < |c.ts| ==> c.bs[i] == Before(c.ts, i);
    }
  }

  /** From a doubly linked list every run of creations, switches and removals of the last task goes to its end
      and leaves a doubly linked list, in the order that the steps describe and with current in it. */
  method TailRun(ram: array<Byte>, s: Scheduler, steps: seq<Step>, c0: Line)
    requires ram.Length == 0x1_0000_0000 && s.Valid(ram[..]) && Linked(ram[..], s.View(), s.order)
    requires LineOf(ram[..], s.order) == c0
    requires forall k :: 0 <= k < |steps| ==> AtTail(Lines(c0, steps[..k]).ts, steps[k])
    modifies ram, s
    ensures s.Valid(ram[..]) && Linked(ram[..], s.View(), s.order) && s.order == Lines(c0, steps).ts
    ensures s.order != [] ==> s.current in s.order
  {
    hide NextOf, PrevOf, WordAt, Forward, Stepped, Allowed, Straight, AtTail, Linked;
    LinkedIsStraight(ram[..], s.View(), s.order);
    assert steps[..0] == [] && steps[..|steps|] == steps;
    var c, done := Run(ram, s, steps, c0);
    TailLines(c0, steps, done);
    NoCurrent(ram[..], s.View(), s.order);
    LinkedIsStraight(ram[..], s.View(), s.order);
  }

  lemma {:induction false} TailLines(c: Line, steps: seq<Step>, n: nat)
    requires Straight(c) && n <= |steps|
    requires forall k :: 0 <= k < |steps| ==> AtTail(Lines(c, steps[..k]).ts, steps[k])
    ensures Straight(Lines(c, steps[..n]))
    ensures n < |steps| ==> Allowed(Lines(c, steps[..n]), steps[n])
  {
    hide Stepped, Allowed, Straight, AtTail;
    if n > 0 {
      TailLines(c, steps, n - 1);
      LinesNext(c, steps, n - 1);
      StraightOn(Lines(c, steps[..n - 1]), steps[n - 1]);
    }
    if n < |steps| { StraightOn(Lines(c, steps[..n]), steps[n]); }
  }

  /** After a task from the middle was removed, removing its successor no longer unlinks it: the
      stale back link sends the update to the record removed first. */
  method RemoveTwice(ram: array<Byte>, s: Scheduler, i: nat, ts: seq<Frame>)
    requires ram.Length == 0x1_0000_0000 && s.Valid(ram[..]) && s.order == ts
    requires Linked(ram[..], s.View(), ts) && 0 < i < |ts| - 1
    modifies ram, s
    ensures s.order == Without(Without(ts, i), i) && !Forward(ram[..], s.View(), s.order)
    ensures NextOf(ram[..], ts[i - 1]) == ts[i + 1]
    ensures NextOf(ram[..], ts[i]) == if i + 2 < |ts| then ts[i + 2] else 0
    ensures i + 1 == |ts| - 1 ==> s.tail == ts[i]
  {
    hide NextOf, PrevOf, WordAt, Cut, Without, Forward, Linked, After, Before, Left;
    ghost var m, q, us := ram[..], s.View(), Without(ts, i);
    LinkedAt(m, q, ts, i);
    WithoutAt(ts, i);
    CutLinks(m, ts[i]);
    s.Remove(ram, ts[i], i);
    ghost var m1: Mem := ram[..];
    assert us[i] == ts[i + 1] && us[i - 1] == ts[i - 1] && PrevOf(m1, ts[i + 1]) == ts[i];
    StaleBreaks(m1, us, i, ts[i]);
    NextAt(m1, s.View(), us, i - 1);
    NextAt(m1, s.View(), us, i);
    CutLinks(m1, ts[i + 1]);
    LeftTail(m, q, ts, i);
    LeftTail(m1, s.View(), us, i);
    s.Remove(ram, ts[i + 1], i);
  }

  lemma LinkedAt(m: Mem, q: Queue, ts: seq<Frame>, i: int)
    requires Linked(m, q, ts) && 0 < i < |ts| - 1
    ensures Forward(m, q, ts) && Different(ts) && Unlinkable(m, ts, i) && q.tail == ts[|ts| - 1]
    ensures PrevOf(m, ts[i]) % 4096 == 0 && PrevOf(m, ts[i + 1]) == ts[i]
  {
    hide NextOf, PrevOf;
    assert PrevOf(m, ts[i]) == Before(ts, i) && PrevOf(m, ts[i + 1]) == Before(ts, i + 1);
  }

  lemma StaleBreaks(m: Mem, us: seq<Frame>, i: int, x: Frame)
    requires Different(us) && 0 < i < |us| && PrevOf(m, us[i]) == x && x !in us
    ensures !Unlinkable(m, us, i)
  {
    assert us[i - 1] in us;
  }

  lemma NextAt(m: Mem, q: Queue, ts: seq<Frame>, i: int)
    requires Forward(m, q, ts) && 0 <= i < |ts|
    ensures NextOf(m, ts[i]) == if i + 1 < |ts| then ts[i + 1] else 0
    ensures NextOf(m, ts[i]) == After(ts, i)
  {
  }

  lemma LeftTail(m: Mem, q: Queue, ts: seq<Frame>, i: int)
    requires Forward(m, q, ts) && 0 <= i < |ts|
    ensures Left(m, q, ts[i]).tail == if i == |ts| - 1 then PrevOf(m, ts[i]) else ts[|ts| - 1]
  {
    hide NextOf, PrevOf;
    if i < |ts| - 1 { Distinct2(ts, i, |ts| - 1); }
  }

  /** Three tasks, the middle one removed, then the last one: it is still linked, and the tail is a
      record that is gone. */
  method ThreeTasks(ram: array<Byte>, a: Frame, b: Frame, c: Frame) returns (s: Scheduler)
    requires ram.Length == 0x1_0000_0000 && Different([a, b, c])
    modifies ram
    ensures fresh(s) && s.order == [a] && !Forward(ram[..], s.View(), s.order) && NextOf(ram[..], a) == c && s.tail == b
  {
    hide NextOf, PrevOf, WordAt, Forward, Linked, Hung, Joined;
    s := new Scheduler();
    assert [a, b, c][0] == a && [a, b, c][1] == b && [a, b, c][2] == c;
    EmptyLinked(ram[..]);
    AddOne(ram, s, a);
    AddOne(ram, s, b);
    AddOne(ram, s, c);
    assert s.order == [a, b, c] && Without(Without([a, b, c], 1), 1) == [a];
    RemoveTwice(ram, s, 1, [a, b, c]);
  }

  lemma EmptyLinked(m: Mem)
    ensures Linked(m, Queue(0, 0, 0), [])
  {
  }

  method AddOne(ram: array<Byte>, s: Scheduler, t: Frame)
    requires ram.Length == 0x1_0000_0000 && s.Valid(ram[..]) && Linked(ram[..], s.View(), s.order) && t !in s.order
    requires t != 0
    modifies ram, s
    ensures s.Valid(ram[..]) && Linked(ram[..], s.View(), s.order) && s.order == old(s.order) + [t]
  {
    hide NextOf, PrevOf, WordAt, Forward, Linked, Hung, Joined;
    ClearRecord(ram, t, s);
    s.Append(ram, t);
  }
}
