/** programs/stdlib/src/boios.c: from a command line to a list of argument records in the memory of the
    shell, and on to argc and argv of the program it starts. */
module Command {
  import opened Ram
  import opened HeapTable
  import opened PageTables
  import opened Paging
  import opened Kheap
  import opened ProcessMemory
  import opened ProcessCode
  import opened Loader
  import opened LoadProcess
  import opened TaskMemory
  import opened Protection
  import opened Placement
  import opened Arguments
  import opened SystemRun
  import opened CommandLine

  /** Inside an allocation of its own a task's addresses are physical ones, and its stores succeed. */
  lemma OwnStore(m: Mem, live: Runs, p: Proc, s: Slot, a: Word, b: Byte)
    requires Agree(m, live, p) && s in p.slots && s.ptr != 0 && s.ptr <= a < s.ptr + s.size
    ensures Physical(m, p.sh, a) == a && Stored(m, p.sh, a, b) == m[a := b]
  {
    hide WordAt, Pte, BlockIndex, LowConfined, Blocks;
    var i :| 0 <= i < |p.slots| && p.slots[i] == s;
    SlotAligned(live, p.slots, i);
    var v: Page := a / 4096;
    SizeInBlocks(s.size);
    PageOfRun(BlockIndex(s.ptr), s.ptr, s.size, live[BlockIndex(s.ptr)], 4096 * v) by { ModAdd(v, 0); }
    ModAdd(v, 0);
    assert SlotCovers(live, p.slots[i], v);
  }

  // ---- the list in memory -------------------------------------------------

  /** Record `i` leads to the next one. */
  ghost predicate LinkAt(m: Mem, nodes: seq<Word>, i: int) {
    0 <= i < |nodes| && nodes[i] <= 0x073F_F000 && WordAt(m, nodes[i] + 512) == Next(nodes, i)
  }

  ghost function Next(nodes: seq<Word>, i: int): Word {
    if 0 <= i && i + 1 < |nodes| then nodes[i + 1] else 0
  }

  /** Records `nodes` of `p` are linked in this order and hold `texts`. */
  ghost predicate Listed(m: Mem, p: Proc, nodes: seq<Word>, texts: seq<seq<Byte>>) {
    && |nodes| == |texts|
    && (forall i :: 0 <= i < |nodes| ==> nodes[i] != 0 && nodes[i] <= 0x073F_F000 && Slot(nodes[i], 516) in p.slots)
    && (forall i :: 0 <= i < |nodes| ==> |texts[i]| <= 511 && Delivered(m, nodes[i], texts[i]))
    && (forall i :: 0 <= i < |nodes| ==> LinkAt(m, nodes, i))
    && (forall i, j :: 0 <= i < j < |nodes| ==> nodes[i] != nodes[j])
  }

  /** Byte by byte: text, terminator, and at 512 the little-endian address of the next record or null. */
  lemma ListedIs(m: Mem, p: Proc, nodes: seq<Word>, texts: seq<seq<Byte>>, i: int)
    requires Listed(m, p, nodes, texts) && 0 <= i < |nodes|
    ensures |texts| == |nodes| && |texts[i]| <= 511 && nodes[i] + 516 <= 0x0740_0000
    ensures m[nodes[i]..nodes[i] + |texts[i]|] == texts[i] && m[nodes[i] + |texts[i]|] == 0
    ensures var a := nodes[i] + 512;
      m[a] as int + 0x100 * (m[a + 1] as int) + 0x1_0000 * (m[a + 2] as int) + 0x100_0000 * (m[a + 3] as int)
      == if i + 1 < |nodes| then nodes[i + 1] else 0
  {
    assert LinkAt(m, nodes, i);
  }

  lemma NodeSlot(m: Mem, live: Runs, p: Proc, a: Word)
    requires Agree(m, live, p) && a != 0 && Slot(a, 516) in p.slots
    ensures Slotted(live, p, a) && live[BlockIndex(a)] == 1 && Safe(live, p.sh, a, a + 4096)
    ensures 0x0100_0000 <= a && a + 4096 <= 0x0740_0000
  {
    hide WordAt, Pte, PagesAgree, LowConfined, BlockIndex;
    assert Blocks(516) == 1;
    SlotSafe(m, live, p, a);
  }

  lemma ListedKept(m: Mem, live: Runs, p: Proc, m': Mem, p': Proc, nodes: seq<Word>, texts: seq<seq<Byte>>)
    requires Agree(m, live, p) && Listed(m, p, nodes, texts)
    requires forall i :: 0 <= i < |nodes| ==> Same(m, m', nodes[i], nodes[i] + 4096)
    requires forall s :: s in p.slots && s.ptr != 0 ==> s in p'.slots
    ensures Listed(m', p', nodes, texts)
  {
    hide WordAt, Agree, Delivered;
    forall i | 0 <= i < |nodes| ensures Delivered(m', nodes[i], texts[i]) && LinkAt(m', nodes, i) {
      assert LinkAt(m, nodes, i);
      SameDelivered(m, m', nodes[i], texts[i]);
      SameWord(m, m', nodes[i] + 512);
    }
  }

  /** Other allocations and everything else that keeps what is in use keep the list. */
  lemma ListedStays(m: Mem, live: Runs, p: Proc, m': Mem, p': Proc, nodes: seq<Word>, texts: seq<seq<Byte>>)
    requires Agree(m, live, p) && Listed(m, p, nodes, texts) && KeptLive(m, live, m', p.sh)
    requires forall s :: s in p.slots && s.ptr != 0 ==> s in p'.slots
    ensures Listed(m', p', nodes, texts)
  {
    hide WordAt, Agree, Delivered, KeptLive, Safe;
    forall i | 0 <= i < |nodes| ensures Same(m, m', nodes[i], nodes[i] + 4096) {
      NodeSlot(m, live, p, nodes[i]);
      SafeKept(m, live, m', p.sh, nodes[i], nodes[i] + 4096);
    }
    ListedKept(m, live, p, m', p', nodes, texts);
  }

  lemma NodesApart(m: Mem, live: Runs, p: Proc, a: Word, b: Word)
    requires Agree(m, live, p) && a != 0 && b != 0 && a != b && Slot(a, 516) in p.slots && Slot(b, 516) in p.slots
    ensures a + 4096 <= b || b + 4096 <= a
  {
    hide WordAt, Pte, PagesAgree, LowConfined, BlockIndex;
    NodeSlot(m, live, p, a);
    NodeSlot(m, live, p, b);
    SlotsApart(m, live, p, a, b);
  }

  function Linked(m: Mem, last: Word, node: Word): Mem {
    if last == 0 || last > 0x0740_0000 then m else SetWord(m, last + 512, node)
  }

  ghost function Last(nodes: seq<Word>): Word {
    if nodes == [] then 0 else nodes[|nodes| - 1]
  }

  /** The writes that hang a new record on the list. */
  lemma ListedNext(m1: Mem, live: Runs, p: Proc, m2: Mem, m3: Mem, m4: Mem, nodes: seq<Word>, texts: seq<seq<Byte>>,
      node: Word, t: seq<Byte>)
    requires Agree(m1, live, p) && Listed(m1, p, nodes, texts) && node != 0 && Slot(node, 516) in p.slots
    requires node !in nodes
    requires |t| <= 511 && node <= 0x073F_F000
    requires Written(m1, m2, node, t) && m3 == SetWord(m2, node + 512, 0) && m4 == Linked(m3, Last(nodes), node)
    ensures Listed(m4, p, nodes + [node], texts + [t])
  {
    hide WordAt, SetWord, Agree, Delivered;
    var nodes', texts' := nodes + [node], texts + [t];
    var n := |nodes|;
    assert forall i :: 0 <= i < |nodes'| ==>
      nodes'[i] != 0 && nodes'[i] <= 0x073F_F000 && Slot(nodes'[i], 516) in p.slots;
    assert forall i, j :: 0 <= i < j < |nodes'| ==> nodes'[i] != nodes'[j];
    WrittenDelivered(m1, m2, node, t);
    SameDelivered(m2, m3, node, t);
    if n > 0 { NodesApart(m1, live, p, nodes[n - 1], node); }
    forall i | 0 <= i <= n ensures Delivered(m4, nodes'[i], texts'[i]) {
      if i < n {
        NodesApart(m1, live, p, nodes[i], node);
        if i < n - 1 { NodesApart(m1, live, p, nodes[i], nodes[n - 1]); }
        SameDelivered(m1, m4, nodes[i], texts[i]);
      } else {
        SameDelivered(m3, m4, node, t);
      }
    }
    forall i | 0 <= i <= n ensures LinkAt(m4, nodes', i) {
      if i < n - 1 {
        NodesApart(m1, live, p, nodes[i], node);
        NodesApart(m1, live, p, nodes[i], nodes[n - 1]);
        SameWord(m1, m4, nodes[i] + 512);
        assert LinkAt(m1, nodes, i) && Next(nodes', i) == Next(nodes, i);
      } else if i == n - 1 {
        assert Last(nodes) == nodes'[i] && Next(nodes', i) == node;
      } else {
        assert nodes'[n] == node && Next(nodes', n) == 0;
        SameWord(m3, m4, node + 512);
      }
    }
    forall i | 0 <= i < |nodes'| ensures |texts'[i]| <= 511 && Delivered(m4, nodes'[i], texts'[i]) {
      assert i < n ==> texts'[i] == texts[i];
    }
  }

  lemma WrittenDelivered(m: Mem, m': Mem, a: Word, t: seq<Byte>)
    requires Written(m, m', a, t)
    ensures Delivered(m', a, t)
  {
    assert m'[a..a + |t|] == t;
  }

  // ---- boios_parse_command ------------------------------------------------

  /** string.c `strncpy` from a word in the line buffer into a record. */
  method CopyWord(ram: array<Byte>, dst: Word, buf: array<Byte>, start: int, ghost t: seq<Byte>)
    requires ram.Length == 0x1_0000_0000 && dst + 512 <= 0x1_0000_0000 && ram != buf && 0 !in t
    requires 0 <= start && start + |t| < buf.Length && buf[start..start + |t|] == t && buf[start + |t|] == 0
    modifies ram
    ensures Written(old(ram[..]), ram[..], dst, Cut(t))
  {
    var i := 0;
    while i < 511
      invariant 0 <= i <= 511 && i <= |t| && buf[..] == old(buf[..])
      invariant forall a: Word :: ram[a] == if dst <= a < dst + i then t[a - dst] else old(ram[a])
    {
      assert i < |t| ==> buf[start + i] == buf[start..start + |t|][i] == t[i];
      if buf[start + i] == 0 {
        break;
      }
      ram[dst + i] := buf[start + i];
      i := i + 1;
    }
    ram[dst + i] := 0;
    assert Cut(t) == t[..i];
  }

  /** The texts of the first `n` words, cut to size. */
  function Cuts(ws: seq<seq<Byte>>, n: nat): (ts: seq<seq<Byte>>)
    requires n <= |ws|
    ensures |ts| == n && forall i :: 0 <= i < n ==> ts[i] <= ws[i] && |ts[i]| == if |ws[i]| < 511 then |ws[i]| else 511
  {
    seq(n, i requires 0 <= i < n => Cut(ws[i]))
  }

  /** What one more allocation leaves of slots, blocks and room. */
  ghost predicate Used(live: Runs, p: Proc, live1: Runs, p1: Proc, n: nat) {
    && |EmptySlots(p1.slots)| == |EmptySlots(p.slots)| - n && |FreeSet(live1)| == |FreeSet(live)| - n
    && forall rest :: rest >= 1 && Room(live, n + rest) ==> Room(live1, rest)
  }

  lemma UsedOne(m: Mem, live: Runs, p: Proc, live1: Runs, p1: Proc, a: Word)
    requires Encodes(m, live) && a != 0 && Allocated(live, 516, a, live1) && FirstFit(m, 1, a)
    requires Recorded(p.slots, p1.slots, Slot(a, 516))
    ensures Used(live, p, live1, p1, 1) && Slot(a, 516) in p1.slots
    ensures forall s :: s in p.slots && s.ptr != 0 ==> s in p1.slots
  {
    hide FreeSet, EmptySlots, BlockIndex;
    assert Blocks(516) == 1;
    EncodesWell(m, live);
    BlocksUsed(live, 516, a, live1);
    SlotUsed(p.slots, p1.slots, Slot(a, 516));
    forall rest | rest >= 1 && Room(live, 1 + rest)
      ensures Room(live1, rest)
    {
      RoomAfter(m, live, 516, a, live1, rest);
    }
    var i :| 0 <= i < |p.slots| && p.slots[i].ptr == 0 && (forall j :: 0 <= j < i ==> p.slots[j].ptr != 0)
      && p1.slots == p.slots[i := Slot(a, 516)];
    assert p1.slots[i] == Slot(a, 516);
    forall s | s in p.slots && s.ptr != 0 ensures s in p1.slots {
      var x :| 0 <= x < |p.slots| && p.slots[x] == s;
      assert p1.slots[x] == s;
    }
  }

  lemma UsedMore(live: Runs, p: Proc, live1: Runs, p1: Proc, live2: Runs, p2: Proc, n: nat)
    requires Used(live, p, live1, p1, n) && Used(live1, p1, live2, p2, 1)
    ensures Used(live, p, live2, p2, n + 1)
  {
    hide FreeSet, EmptySlots, Room;
    forall rest | rest >= 1 && Room(live, n + 1 + rest) ensures Room(live2, rest) { assert Room(live1, 1 + rest); }
  }

  /** A record for one word: allocated by the task itself, filled, and hung on the last one. */
  method AddNode(k: Machine, p: Process, buf: array<Byte>, start: int, last: Word, ghost nodes: seq<Word>,
      ghost texts: seq<seq<Byte>>, ghost t: seq<Byte>)
    returns (node: Word)
    requires p.Consistent(k) && Listed(k.ram[..], p.View(), nodes, texts) && last == Last(nodes) && k.ram != buf
    requires 0 !in t
    requires 0 <= start && start + |t| < buf.Length && buf[start..start + |t|] == t && buf[start + |t|] == 0
    modifies k, k.ram, p.allocations
    ensures p.Consistent(k) && Stays(old(k.ram[..]), old(k.live), old(p.View()), k.ram[..], k.live, p.View())
    ensures node == 0 ==>
      Listed(k.ram[..], p.View(), nodes, texts) && Used(old(k.live), old(p.View()), k.live, p.View(), 0)
    ensures node == 0 ==> |EmptySlots(p.allocations[..])| == 0 || |FreeSet(k.live)| == 0
    ensures node != 0 ==> Listed(k.ram[..], p.View(), nodes + [node], texts + [Cut(t)])
    ensures node != 0 ==> Used(old(k.live), old(p.View()), k.live, p.View(), 1)
  {
    hide WordAt, SetWord, Pte, BlockIndex, BlockAddr, Agree, Delivered, Confined, Encodes, FreeSet, EmptySlots,
      WellFormed, Stays, SlotRuns, Listed, Cut, KeptLive, Room, Recorded, Allocated;
    ghost var m, live, v := k.ram[..], k.live, p.View();
    assert Blocks(516) == 1;
    GuardOne(m);
    if |FreeSet(k.live)| > 0 { FreeBlockFits(m, k.live); }
    node := p.Malloc(k, 516);
    ghost var m1, live1, v1 := k.ram[..], k.live, p.View();
    MallocStays(m, live, v, m1, live1, v1, Slot(node, 516));
    if node == 0 {
      NoneEmpty(v.slots);
      ListedStays(m, live, v, m1, v1, nodes, texts);
      return;
    }
    UsedOne(m, live, v, live1, v1, node);
    ListedStays(m, live, v, m1, v1, nodes, texts);
    NewNode(m1, live1, v1, m, live, v, nodes, texts, node);
    CopyWord(k.ram, node, buf, start, t);
    ghost var m2: Mem := k.ram[..];
    StoreWord(k.ram, node + 512, 0);
    ghost var m3: Mem := k.ram[..];
    if last != 0 {
      LastNode(m1, v1, nodes, texts);
      StoreWord(k.ram, last + 512, node);
    }
    CutShort(t);
    ListedNext(m1, live1, v1, m2, m3, k.ram[..], nodes, texts, node, Cut(t)) by {
      if last != 0 { LastNode(m1, v1, nodes, texts); }
    }
    NodeWrites(m1, live1, v1, m2, m3, k.ram[..], nodes, texts, node, Cut(t));
    StaysTrans(m, live, v, m1, live1, v1, k.ram[..], live1, v1);
  }

  lemma CutShort(t: seq<Byte>)
    ensures |Cut(t)| <= 511
  {
  }

  lemma LastNode(m: Mem, p: Proc, nodes: seq<Word>, texts: seq<seq<Byte>>)
    requires Listed(m, p, nodes, texts)
    ensures Last(nodes) <= 0x073F_F000 && (nodes != [] ==> Last(nodes) != 0 && Slot(Last(nodes), 516) in p.slots)
  {
  }

  /** The new record is none of the old ones. */
  lemma NewNode(m1: Mem, live1: Runs, p1: Proc, m: Mem, live: Runs, p: Proc, nodes: seq<Word>, texts: seq<seq<Byte>>,
      node: Word)
    requires Agree(m1, live1, p1) && node != 0 && Slot(node, 516) in p1.slots
    requires Agree(m, live, p) && Listed(m, p, nodes, texts) && BlockIndex(node) !in live
    ensures node !in nodes && node <= 0x073F_F000
  {
    hide WordAt, Pte, BlockIndex, PagesAgree, LowConfined, Delivered;
    NodeSlot(m1, live1, p1, node);
  }

  /** They stay inside allocations of the task. */
  lemma NodeWrites(m1: Mem, live: Runs, p: Proc, m2: Mem, m3: Mem, m4: Mem, nodes: seq<Word>, texts: seq<seq<Byte>>,
      node: Word, t: seq<Byte>)
    requires Encodes(m1, live) && Agree(m1, live, p) && Listed(m1, p, nodes, texts)
    requires node != 0 && node <= 0x073F_F000 && Slot(node, 516) in p.slots && |t| <= 511
    requires Written(m1, m2, node, t) && m3 == SetWord(m2, node + 512, 0) && m4 == Linked(m3, Last(nodes), node)
    ensures Encodes(m4, live) && Agree(m4, live, p) && Stays(m1, live, p, m4, live, p)
  {
    hide WordAt, SetWord, Pte, BlockIndex, BlockAddr, Agree, Encodes, Stays, Delivered, Listed;
    NodeSlot(m1, live, p, node);
    OwnWrite(m1, live, p, m3, node);
    if Last(nodes) != 0 {
      LastNode(m1, p, nodes, texts);
      NodeSlot(m3, live, p, Last(nodes));
      OwnWrite(m3, live, p, m4, Last(nodes));
      StaysTrans(m1, live, p, m3, live, p, m4, live, p);
    }
  }

  /** Splits a line at blanks into a list of records in allocations of the task, in the order of the words,
      until an allocation fails. */
  method ParseCommand(k: Machine, p: Process, line: seq<Byte>, max: int, tok: Tokenizer)
    returns (root: Word, ghost nodes: seq<Word>)
    requires p.Consistent(k) && 0 !in line && tok.sp == -1
    modifies k, k.ram, p.allocations, tok
    ensures p.Consistent(k) && Stays(old(k.ram[..]), old(k.live), old(p.View()), k.ram[..], k.live, p.View())
    ensures root == First(nodes) && Used(old(k.live), old(p.View()), k.live, p.View(), |nodes|)
    ensures max >= 1025 ==> nodes == [] && tok.sp == -1
    ensures max < 1025 ==> var ws := Words(Shortened(line, 1025), BLANK);
      && |nodes| <= |ws| && Listed(k.ram[..], p.View(), nodes, Cuts(ws, |nodes|))
      && (tok.sp == -1 <==> |nodes| == |ws|)
      && (|nodes| < |ws| ==> |EmptySlots(p.allocations[..])| == 0 || |FreeSet(k.live)| == 0)
  {
    hide WordAt, WordsFrom, Scan, Cut, Ahead, Agree, Stays, Listed, FreeSet, EmptySlots, Room, Encodes, Used;
    root, nodes := 0, [];
    ghost var m, live, v := k.ram[..], k.live, p.View();
    StaysPut(m, live, v);
    UsedNothing(live, v);
    if max >= 1025 {
      return;
    }
    ghost var s := Shortened(line, 1025);
    var buf := LineBuffer(line);
    ghost var ws := Words(s, BLANK);
    assert Ahead(0, buf, s, ws) by { LineAhead(buf, s); }
    assert Listed(k.ram[..], p.View(), nodes, Cuts(ws, 0)) by { NoNodes(m, v, Cuts(ws, 0)); }
    var start := NextWord(tok, buf, true, s, ws);
    if start < 0 {
      return;
    }
    root := AddNode(k, p, buf, start, 0, nodes, Cuts(ws, 0), ws[0]);
    if root == 0 {
      return;
    }
    assert Cuts(ws, 1) == Cuts(ws, 0) + [Cut(ws[0])] && [] + [root] == [root];
    start := NextWord(tok, buf, false, s, ws[1..]);
    ghost var m1, live1, v1 := k.ram[..], k.live, p.View();
    nodes := RestOfLine(k, p, tok, buf, root, start, s, ws);
    StaysTrans(m, live, v, m1, live1, v1, k.ram[..], k.live, p.View());
    UsedBoth(live, v, live1, v1, k.live, p.View(), |nodes| - 1);
  }

  /** The loop over the remaining words. */
  method RestOfLine(k: Machine, p: Process, tok: Tokenizer, buf: array<Byte>, root: Word, next: int, ghost s: seq<Byte>,
      ghost ws: seq<seq<Byte>>)
    returns (ghost nodes: seq<Word>)
    requires p.Consistent(k) && ws != [] && k.ram != buf && root != 0
    requires Listed(k.ram[..], p.View(), [root], Cuts(ws, 1)) && Pending(tok.sp, buf, s, ws[1..], next)
    modifies k, k.ram, p.allocations, tok, buf
    ensures p.Consistent(k) && Stays(old(k.ram[..]), old(k.live), old(p.View()), k.ram[..], k.live, p.View())
    ensures 1 <= |nodes| <= |ws| && nodes[0] == root && Used(old(k.live), old(p.View()), k.live, p.View(), |nodes| - 1)
    ensures Listed(k.ram[..], p.View(), nodes, Cuts(ws, |nodes|))
    ensures tok.sp == -1 <==> |nodes| == |ws|
    ensures |nodes| < |ws| ==> |EmptySlots(p.allocations[..])| == 0 || |FreeSet(k.live)| == 0
  {
    hide WordAt, WordsFrom, Scan, Cut, Ahead, Agree, Stays, Listed, FreeSet, EmptySlots, Room, Encodes, Used;
    ghost var m, live, v := k.ram[..], k.live, p.View();
    StaysPut(m, live, v);
    UsedNothing(live, v);
    nodes := [root];
    var current, start := root, next;
    while start >= 0
      invariant 1 <= |nodes| <= |ws| && current == Last(nodes) && nodes[0] == root
      invariant p.Consistent(k) && Stays(m, live, v, k.ram[..], k.live, p.View())
      invariant Used(live, v, k.live, p.View(), |nodes| - 1)
      invariant Listed(k.ram[..], p.View(), nodes, Cuts(ws, |nodes|)) && Pending(tok.sp, buf, s, ws[|nodes|..], start)
      decreases |ws| - |nodes|
    {
      ghost var m1, live1, v1 := k.ram[..], k.live, p.View();
      ghost var t := ws[|nodes|];
      var node := AddNode(k, p, buf, start, current, nodes, Cuts(ws, |nodes|), t);
      StaysTrans(m, live, v, m1, live1, v1, k.ram[..], k.live, p.View());
      if node == 0 {
        UsedNone(live, v, live1, v1, k.live, p.View(), |nodes| - 1);
        break;
      }
      UsedMore(live, v, live1, v1, k.live, p.View(), |nodes| - 1);
      assert Cuts(ws, |nodes| + 1) == Cuts(ws, |nodes|) + [Cut(t)];
      ghost var more := ws[|nodes| + 1..];
      assert ws[|nodes|..][1..] == more;
      nodes := nodes + [node];
      current := node;
      start := NextWord(tok, buf, false, s, more);
    }
  }

  lemma UsedNothing(live: Runs, p: Proc)
    ensures Used(live, p, live, p, 0)
  {
    hide FreeSet, EmptySlots, Room;
    assert forall rest :: rest >= 1 && Room(live, 0 + rest) ==> Room(live, rest);
  }

  lemma UsedBoth(live: Runs, p: Proc, live1: Runs, p1: Proc, live2: Runs, p2: Proc, n: nat)
    requires Used(live, p, live1, p1, 1) && Used(live1, p1, live2, p2, n)
    ensures Used(live, p, live2, p2, n + 1)
  {
    hide FreeSet, EmptySlots, Room;
    forall rest | rest >= 1 && Room(live, n + 1 + rest) ensures Room(live2, rest) {
      assert Room(live, 1 + (n + rest)) && Room(live1, n + rest);
    }
  }

  lemma NoNodes(m: Mem, p: Proc, texts: seq<seq<Byte>>)
    requires texts == []
    ensures Listed(m, p, [], texts)
  {
  }

  lemma UsedNone(live: Runs, p: Proc, live1: Runs, p1: Proc, live2: Runs, p2: Proc, n: nat)
    requires Used(live, p, live1, p1, n) && Used(live1, p1, live2, p2, 0)
    ensures Used(live, p, live2, p2, n)
  {
    hide FreeSet, EmptySlots, Room;
    forall rest | rest >= 1 && Room(live, n + rest) ensures Room(live2, rest) { assert Room(live1, 0 + rest); }
  }

  // ---- what the words are, for the kernel ---------------------------------

  lemma {:induction false} FewWords(s: seq<Byte>, d: seq<Byte>, i: int)
    requires 0 <= i <= |s|
    ensures 2 * |WordsFrom(s, d, i)| <= |s| - i + 1
    ensures i < |s| && s[i] in d ==> 2 * |WordsFrom(s, d, i)| <= |s| - i
    decreases |s| - i
  {
    var a := Scan(s, d, i, false);
    if a < |s| { FewWords(s, d, Scan(s, d, a, true)); }
  }

  lemma {:induction false} WordsClean(s: seq<Byte>, d: seq<Byte>, i: int)
    requires 0 <= i <= |s| && 0 !in s
    ensures forall w :: w in WordsFrom(s, d, i) ==> w != [] && 0 !in w
    decreases |s| - i
  {
    var a := Scan(s, d, i, false);
    if a < |s| { WordsClean(s, d, Scan(s, d, a, true)); }
  }

  lemma RecordText(m: Mem, node: Word, t: seq<Byte>)
    requires node as int + 516 <= 0x1_0000_0000 && |t| <= 511 && 0 !in t && Delivered(m, node, t)
    ensures Text(m, node) == t
  {
    var s := m[node..node + 511];
    assert s[..|t|] == t;
    CStringIs(s, |t|);
  }

  /** The list as `process_inject_arguments` walks it. */
  lemma ListedIsArgList(m: Mem, p: Proc, nodes: seq<Word>, texts: seq<seq<Byte>>)
    requires Listed(m, p, nodes, texts) && forall i :: 0 <= i < |texts| ==> 0 !in texts[i]
    ensures ArgList(m, First(nodes), nodes) && forall i :: 0 <= i < |nodes| ==> HeldBy(p.slots, nodes[i], 516)
    ensures Texts(m, nodes, |nodes|) == texts
  {
    hide WordAt, Delivered, CString;
    forall i | 0 <= i < |nodes|
      ensures WordAt(m, nodes[i] + 512) == (if i + 1 < |nodes| then nodes[i + 1] else 0)
      ensures HeldBy(p.slots, nodes[i], 516)
      ensures Text(m, nodes[i]) == texts[i]
    {
      assert LinkAt(m, nodes, i);
      var x :| 0 <= x < |p.slots| && p.slots[x] == Slot(nodes[i], 516);
      RecordText(m, nodes[i], texts[i]);
    }
  }

  /** A load keeps the list of the process that asks for it. */
  lemma ListedLoaded(m: Mem, live: Runs, ps: map<int, Proc>, i: int, m': Mem, live': Runs, x: Word, nodes: seq<Word>,
      texts: seq<seq<Byte>>)
    requires AllAgree(m, live, ps) && i in ps && NullOrTask(ps, x)
    requires Listed(m, ps[i], nodes, texts) && ExtendsBut(m, live, m', live', x)
    ensures Listed(m', ps[i], nodes, texts)
  {
    hide WordAt, Agree, Delivered, BlockIndex, AllAgree;
    assert Agree(m, live, ps[i]) by { OneAgrees(m, live, ps, i); }
    forall y | 0 <= y < |nodes| ensures Same(m, m', nodes[y], nodes[y] + 4096) {
      NodeSlot(m, live, ps[i], nodes[y]);
      NodeNoTask(m, live, ps, i, nodes[y], x);
      NodePage(live, ps[i].sh, nodes[y]);
      var t: Frame := nodes[y];
      assert SamePage(m, m', t);
    }
    ListedKept(m, live, ps[i], m', ps[i], nodes, texts);
  }

  lemma OneAgrees(m: Mem, live: Runs, ps: map<int, Proc>, i: int)
    requires AllAgree(m, live, ps) && i in ps
    ensures Agree(m, live, ps[i])
  {
  }

  lemma NodePage(live: Runs, sh: Space, a: Word)
    requires a % 4096 == 0 && Safe(live, sh, a, a + 4096)
    ensures !HeapPage(a) && !FreePage(live, a)
  {
    var t: Frame := a;
    assert a < t + 4096 && t < a + 4096;
  }

  /** An allocation holds no task record. */
  lemma NodeNoTask(m: Mem, live: Runs, ps: map<int, Proc>, i: int, a: Word, x: Word)
    requires AllAgree(m, live, ps) && i in ps && NullOrTask(ps, x) && Slotted(live, ps[i], a)
    ensures a % 4096 == 0 && (a != x || x == 0)
  {
    hide WordAt, Pte, Agree, BlockIndex, Encodes, OwnRuns;
    BlockAligned(BlockIndex(a));
    DataApart(m, live, ps[i]);
    assert BlockIndex(a) in DataRuns(ps[i]);
    if x != 0 {
      var j :| j in ps && x == ps[j].parts.task;
      TaskPage(m, live, ps[j]);
    }
  }

  /** Argument `x` of the vector at `argv` is `t`. */
  ghost predicate ArgAt(m: Mem, argv: Word, x: int, t: seq<Byte>) {
    0 <= x && argv + 4 * x <= 0xFFFF_FFFC && Delivered(m, WordAt(m, argv + 4 * x), t)
  }

  // ---- boios_system_run ---------------------------------------------------

  lemma ShortenedTwice(line: seq<Byte>)
    ensures Shortened(Shortened(line, 1024), 1025) == Shortened(line, 1024) && |Shortened(line, 1024)| <= 1023
    ensures 0 !in line ==> 0 !in Shortened(line, 1024)
  {
  }

  /** The words of a command line. */
  function CommandWords(line: seq<Byte>): seq<seq<Byte>> {
    Words(Shortened(line, 1024), BLANK)
  }

  /** They are, in order, the longest stretches of characters other than 32 among the first 1023 of the line. */
  lemma CommandWordsAre(line: seq<Byte>) returns (ws: seq<Span>)
    ensures |CommandWords(line)| == |ws|
    ensures forall x :: 0 <= x < |ws| ==>
      && 0 <= ws[x].from < ws[x].to <= |line| && ws[x].to <= 1023
      && CommandWords(line)[x] == line[ws[x].from..ws[x].to]
      && (forall q :: ws[x].from <= q < ws[x].to ==> line[q] != 32)
      && (ws[x].from == 0 || line[ws[x].from - 1] == 32)
      && (ws[x].to == |line| || ws[x].to == 1023 || line[ws[x].to] == 32)
    ensures forall x, y :: 0 <= x < y < |ws| ==> ws[x].to <= ws[y].from
    ensures forall q :: 0 <= q < |line| && q < 1023 && line[q] != 32 ==>
      exists x :: 0 <= x < |ws| && ws[x].from <= q < ws[x].to
  {
    hide Words, Shortened;
    ws := WordsOfLine(line, 1024);
  }

  /** Memory and slots for the command's records, for the program and for its arguments. */
  ghost predicate Affordable(k: Machine, slots: seq<Slot>, file: seq<Byte>, n: nat)
    reads k
  {
    && 0 < |file| <= 0x0640_0000 && |EmptySlots(slots)| >= n
    && Room(k.live, n + Blocks(|file|) + 15) && |FreeSet(k.live)| >= 2 * n + Blocks(|file|) + 1039
  }

  /** `boios_parse_command` by the process in place `i`, with memory and slots for all its words. */
  method ParseInSystem(k: Machine, sch: TaskList.Scheduler, ps: Table, i: int, command: seq<Byte>, max: int,
      tok: Tokenizer, ghost ws: seq<seq<Byte>>)
    returns (root: Word, ghost nodes: seq<Word>)
    requires Sys(k, sch, ps) && Present(ps, i) && 0 !in command && tok.sp == -1 && max < 1025
    requires ws == Words(Shortened(command, 1025), BLANK)
    requires |EmptySlots(ps[i].allocations[..])| >= |ws| && |FreeSet(k.live)| >= |ws|
    modifies k, k.ram, ps[i].allocations, tok
    ensures Sys(k, sch, ps) && OthersSee(old(k.ram[..]), k.ram[..], ps, i) && tok.sp == -1
    ensures |nodes| == |ws| && root == First(nodes) && Listed(k.ram[..], ps[i].View(), nodes, Cuts(ws, |ws|))
    ensures Used(old(k.live), old(ps[i].View()), k.live, ps[i].View(), |ws|)
  {
    hide TaskLinks.Scheduled, TasksSame, SameLow, WordAt, Pte, BlockIndex, Agree, Confined, OwnRuns, LowStop,
      FreeSet, WordsFrom, Cut, Listed, EmptySlots, Room;
    ghost var m, live, vs := k.ram[..], k.live, Views(ps);
    SysOne(k, sch, ps, i);
    root, nodes := ParseCommand(k, ps[i], command, max, tok);
    ghost var v1 := ps[i].View();
    assert Views(ps) == vs[i := v1];
    StepKeeps(m, live, vs, i, k.ram[..], k.live, v1);
    TaskLinks.ScheduledKept(m, k.ram[..], sch.View(), sch.order, vs, Views(ps));
    forall q | 0 <= q < 12 && q != i && ps[q] != null ensures q in vs && vs[q].sh == ps[q].sh {}
    LowStopKept(m, k.ram[..]);
  }

  /** `process_inject_arguments` into a newly loaded process. */
  method InjectNew(k: Machine, sch: TaskList.Scheduler, ps: Table, i: int, j: int, root: Word, ghost nodes: seq<Word>,
      ghost ws: seq<seq<Byte>>)
    returns (r: int)
    requires Sys(k, sch, ps) && Present(ps, i) && Present(ps, j) && ws != [] && |ws| <= 512 && |nodes| == |ws|
    requires root == First(nodes)
    requires Listed(k.ram[..], ps[i].View(), nodes, Cuts(ws, |ws|)) && forall w :: w in ws ==> 0 !in w
    requires ps[j].allocations[..] == seq(1024, _ => Slot(0, 0)) && |FreeSet(k.live)| >= |ws| + 1
    modifies k, k.ram, ps[j], ps[j].allocations
    ensures r == 0 && Sys(k, sch, ps) && OthersSee(old(k.ram[..]), k.ram[..], ps, j)
    ensures ps[j].argc == |ws| && forall x :: 0 <= x < |ws| ==> ArgAt(k.ram[..], ps[j].argv, x, Cut(ws[x]))
  {
    hide WordAt, Pte, BlockIndex, Agree, OwnRuns, LowStop, FreeSet, Cut, Listed, Guard, SomeFit, HeldBy, ArgList,
      Delivered, Vector, Texts, EmptySlots, AllAgree;
    ghost var m, live := k.ram[..], k.live;
    assert forall x :: 0 <= x < |ws| ==> 0 !in Cut(ws[x]) by { CutsClean(ws); }
    ListedIsArgList(m, ps[i].View(), nodes, Cuts(ws, |ws|));
    assert Blocks(4 * |ws|) == 1;
    GuardOne(m);
    SysEncodes(k, sch, ps);
    FreeBlockFits(m, live);
    AllEmpty(ps[j].allocations[..]);
    ghost var ptrs;
    r, ptrs := SysInject(k, sch, ps, i, j, root, nodes);
    VectorArgs(k.ram[..], k.live, ps[j].View(), ps[j].argv, ps[j].argc, ptrs, Cuts(ws, |ws|));
    forall x | 0 <= x < |ws| ensures ArgAt(k.ram[..], ps[j].argv, x, Cut(ws[x])) {
      assert Cuts(ws, |ws|)[x] == Cut(ws[x]);
    }
  }

  lemma CutsClean(ws: seq<seq<Byte>>)
    requires forall w :: w in ws ==> 0 !in w
    ensures forall x :: 0 <= x < |ws| ==> 0 !in Cut(ws[x])
  {
    forall x | 0 <= x < |ws| ensures 0 !in Cut(ws[x]) {
      assert ws[x] in ws && forall q :: 0 <= q < |Cut(ws[x])| ==> Cut(ws[x])[q] == ws[x][q];
    }
  }

  lemma AllEmpty(slots: seq<Slot>)
    requires slots == seq(1024, _ => Slot(0, 0))
    ensures |EmptySlots(slots)| == 1024
  {
    var X := Interval(0, 1024);
    assert EmptySlots(slots) == X;
  }

  lemma VectorArgs(m: Mem, live: Runs, p: Proc, argv: Word, argc: int, ptrs: seq<Word>, texts: seq<seq<Byte>>)
    requires Vector(m, live, p, argv, argc, ptrs, texts)
    ensures forall x :: 0 <= x < |texts| ==> ArgAt(m, argv, x, texts[x])
  {
    hide WordAt, Delivered, BlockIndex;
  }

  /** The shell in place `i` runs a command: it parses the line in its own memory, and the kernel loads the
      program and hands it the words. */
  method RunCommand(k: Machine, sch: TaskList.Scheduler, ps: Table, i: int, line: seq<Byte>, file: seq<Byte>,
      segs: seq<Segment>, tok: Tokenizer)
    returns (r: int, ps': Table, ghost image: Word)
    requires Sys(k, sch, ps) && Present(ps, i) && 0 !in line && tok.sp == -1
    requires Affordable(k, ps[i].allocations[..], file, |CommandWords(line)|)
    requires forall q :: 0 <= q < |segs| ==> WellPlaced(Blocks(|file|), segs[q])
    modifies k, k.ram, sch, ps[i].allocations, tok
    ensures Sys(k, sch, ps') && tok.sp == -1 && OthersSee(old(k.ram[..]), k.ram[..], ps, i)
    ensures CommandWords(line) == [] <==> r == -1
    ensures r == -3 ==> forall j :: 0 <= j < 12 ==> ps[j] != null
    ensures r == -2 ==> exists q :: 0 <= q < |segs| && Rejected(image, segs[q])
    ensures r == 0 || r == -1 || r == -2 || r == -3
    ensures r != 0 ==> ps' == ps
    ensures r == 0 ==> exists j ::
      && FirstEmpty(ps, j) && ps' == ps[j := ps'[j]]
      && Started(k.ram[..], ps'[j], image, Blocks(|file|), segs, line)
  {
    hide WordAt, Pte, BlockIndex, Agree, OwnRuns, LowStop, Extends, FreeSet, WellPlaced, Rejected, Listed,
      WordsFrom, Cut, Room, EmptySlots, Started, ArgAt, Used, Affordable, Sys, AsLoaded, OthersSee, LoadedLast,
      ExtendsBut, AllAgree, NullOrTask, Shortened, OthersKeep, UnownedKeep, TaskList.LineOf, TaskList.Stepped, Words;
    image := 0;
    ps' := ps;
    ShortenedTwice(line);
    ghost var ws := CommandWords(line);
    CommandFacts(line);
    ghost var m, live, v := k.ram[..], k.live, ps[i].View();
    Afford(k, v.slots, file, |ws|);
    var root;
    ghost var nodes;
    root, nodes := ParseInSystem(k, sch, ps, i, Shortened(line, 1024), 1024, tok, ws);
    SysAgrees(k, sch, ps, i);
    ghost var m1, live1, v1, vs, tail := k.ram[..], k.live, ps[i].View(), Views(ps), sch.tail;
    ShellViews(k, sch, ps, i);
    if root == 0 {
      assert ws == [] by { FirstListed(m1, v1, nodes, Cuts(ws, |ws|)); }
      return -1, ps, 0;
    }
    Afforded(live, v, live1, v1, |ws|, Blocks(|file|) + 15);
    ghost var path;
    r, ps', image, path := SysLoad(k, sch, ps, file, segs);
    ghost var m2: Mem := k.ram[..];
    OthersTwice(m, m1, m2, ps, i, -1, ps);
    if r < 0 {
      return;
    }
    SysAgrees(k, sch, ps', i);
    ListedLoaded(m1, live1, vs, i, k.ram[..], k.live, tail, nodes, Cuts(ws, |ws|));
    var j := 0;
    while ps[j] != null
      invariant 0 <= j < 12 && forall q :: 0 <= q < j ==> ps[q] != null
      decreases 12 - j
    {
      j := j + 1;
    }
    assert FirstEmpty(ps, j);
    r := InjectNew(k, sch, ps', i, j, root, nodes, ws);
    OthersTwice(m, m2, k.ram[..], ps, i, j, ps');
    IsStarted(k.ram[..], ps'[j], image, Blocks(|file|), segs, line);
  }

  /** What others see over two steps, the second by a process that was not there before. */
  lemma OthersTwice(m: Mem, m1: Mem, m2: Mem, ps: Table, i: int, j: int, ps': Table)
    requires OthersSee(m, m1, ps, i) && OthersSee(m1, m2, ps', j) && (0 <= j < 12 ==> ps[j] == null)
    requires forall q :: 0 <= q < 12 && ps[q] != null ==> ps'[q] == ps[q]
    ensures OthersSee(m, m2, ps, i)
  {
    hide Pte;
  }

  lemma ShellViews(k: Machine, sch: TaskList.Scheduler, ps: Table, i: int)
    requires Sys(k, sch, ps) && Present(ps, i)
    ensures AllAgree(k.ram[..], k.live, Views(ps)) && i in Views(ps) && Views(ps)[i] == ps[i].View()
    ensures NullOrTask(Views(ps), sch.tail)
  {
    hide AllAgree, WordAt, LowStop, TaskList.ListOk, TaskList.PrevOf;
    TasksThere(k.ram[..], k.live, sch.View(), sch.order, Views(ps));
  }

  lemma CommandFacts(line: seq<Byte>)
    requires 0 !in line
    ensures |CommandWords(line)| <= 512 && forall w :: w in CommandWords(line) ==> 0 !in w
  {
    hide WordsFrom;
    ShortenedTwice(line);
    FewWords(Shortened(line, 1024), BLANK, 0);
    WordsClean(Shortened(line, 1024), BLANK, 0);
  }

  lemma Afford(k: Machine, slots: seq<Slot>, file: seq<Byte>, n: nat)
    requires Affordable(k, slots, file, n)
    ensures 0 < |file| <= 0x0640_0000 && |EmptySlots(slots)| >= n
    ensures Room(k.live, n + (Blocks(|file|) + 15)) && |FreeSet(k.live)| >= 2 * n + Blocks(|file|) + 1039
  {
    assert n + (Blocks(|file|) + 15) == n + Blocks(|file|) + 15;
  }

  lemma Afforded(live: Runs, p: Proc, live1: Runs, p1: Proc, n: nat, rest: int)
    requires Used(live, p, live1, p1, n) && rest >= 1 && Room(live, n + rest)
    ensures Room(live1, rest) && |FreeSet(live1)| == |FreeSet(live)| - n
  {
  }

  lemma SysAgrees(k: Machine, sch: TaskList.Scheduler, ps: Table, i: int)
    requires Sys(k, sch, ps) && Present(ps, i)
    ensures k.ram.Length == 0x1_0000_0000 && Agree(k.ram[..], k.live, ps[i].View())
  {
    SysOne(k, sch, ps, i);
  }

  lemma IsStarted(m: Mem, p: Process?, image: Word, n: int, segs: seq<Segment>, line: seq<Byte>)
    requires Entered(p, image, n, segs) && p.argc == |CommandWords(line)|
    requires forall x :: 0 <= x < |CommandWords(line)| ==> ArgAt(m, p.argv, x, Cut(CommandWords(line)[x]))
    ensures Started(m, p, image, n, segs, line)
  {
  }

  lemma FirstListed(m: Mem, p: Proc, nodes: seq<Word>, texts: seq<seq<Byte>>)
    requires Listed(m, p, nodes, texts)
    ensures First(nodes) == 0 <==> texts == []
  {
  }

  /** The program in its place, with argc and argv for the words of the line. */
  ghost predicate Started(m: Mem, p: Process?, image: Word, n: int, segs: seq<Segment>, line: seq<Byte>)
    reads if p == null then {} else {p}
  {
    && Entered(p, image, n, segs) && p.argc == |CommandWords(line)|
    && forall x :: 0 <= x < |CommandWords(line)| ==> ArgAt(m, p.argv, x, Cut(CommandWords(line)[x]))
  }

  /** Byte by byte: argc is the number of words, and the little-endian word `x` at argv is the address of word `x`,
      at most 511 characters of it, with a terminator behind. */
  lemma StartedIs(m: Mem, p: Process, image: Word, n: int, segs: seq<Segment>, line: seq<Byte>, x: int)
    requires Started(m, p, image, n, segs, line) && 0 <= x < |CommandWords(line)|
    ensures p.argc == |CommandWords(line)| && p.parts.image == image && p.argv + 4 * x + 3 < 0x1_0000_0000
    ensures
      var a, t := p.argv + 4 * x, CommandWords(line)[x];
      var len := if |t| < 511 then |t| else 511;
      var q := m[a] as int + 0x100 * (m[a + 1] as int) + 0x1_0000 * (m[a + 2] as int) + 0x100_0000 * (m[a + 3] as int);
      q + len < 0x1_0000_0000 && m[q..q + len] == t[..len] && m[q + len] == 0
  {
    hide Words, AsLoaded;
    assert ArgAt(m, p.argv, x, Cut(CommandWords(line)[x]));
  }
}
