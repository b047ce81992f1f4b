/** pparser.c: a path as drive digit and parts, and the lists the parser builds for it on the heap. */
module PathText {
  import opened Ram

  /** The next slash from `i` on, or the end. */
  function PartEnd(s: seq<Byte>, i: int): (e: int)
    requires 0 <= i <= |s|
    ensures i <= e <= |s| && 47 !in s[i..e] && (e < |s| ==> s[e] == 47)
    decreases |s| - i
  {
    if i == |s| || s[i] == 47 then i else PartEnd(s, i + 1)
  }

  function Next(s: seq<Byte>, e: int): int {
    if e < |s| then e + 1 else e
  }

  /** What the parser collects from position `i` on. */
  function Parts(s: seq<Byte>, i: int): seq<seq<Byte>>
    requires 0 <= i <= |s|
    decreases |s| - i
  {
    var e := PartEnd(s, i);
    if e == i then [] else [s[i..e]] + Parts(s, Next(s, e))
  }

  /** All the stretches between slashes, empty ones included. */
  function Split(s: seq<Byte>, i: int): seq<seq<Byte>>
    requires 0 <= i <= |s|
    decreases |s| - i
  {
    var e := PartEnd(s, i);
    if e == |s| then [s[i..]] else [s[i..e]] + Split(s, e + 1)
  }

  function UpToEmpty(ts: seq<seq<Byte>>): seq<seq<Byte>> {
    if ts == [] || ts[0] == [] then [] else [ts[0]] + UpToEmpty(ts[1..])
  }

  /** The parts are the slash-separated stretches up to the first empty one. */
  lemma {:induction false} PartsStopAtEmpty(s: seq<Byte>, i: int)
    requires 0 <= i <= |s|
    ensures Parts(s, i) == UpToEmpty(Split(s, i))
    decreases |s| - i
  {
    var e := PartEnd(s, i);
    if i < e < |s| {
      PartsStopAtEmpty(s, e + 1);
    } else if i < e {
      assert Parts(s, e) == [] && s[i..e] == s[i..];
      assert Split(s, i)[1..] == [];
    }
  }

  /** Every part is nonempty, free of slashes, and fits what is left of the path. */
  lemma {:induction false} PartsFit(s: seq<Byte>, i: int)
    requires 0 <= i <= |s|
    ensures forall t :: t in Parts(s, i) ==> 0 < |t| <= |s| - i && 47 !in t && (0 !in s ==> 0 !in t)
    ensures 2 * |Parts(s, i)| <= |s| - i + 1
    decreases |s| - i
  {
    var e := PartEnd(s, i);
    if e > i { PartsFit(s, Next(s, e)); }
  }

  datatype Stretch = Stretch(from: int, to: int)

  /** Part `t` is what lies at `w`, up to a 47 or the end. */
  ghost predicate PartAt(s: seq<Byte>, w: Stretch, t: seq<Byte>) {
    && 0 <= w.from < w.to <= |s| && t == s[w.from..w.to]
    && 47 !in t && (w.to < |s| ==> s[w.to] == 47)
  }

  lemma FirstAt(s: seq<Byte>, i: int)
    requires 0 <= i <= |s| && PartEnd(s, i) > i
    ensures var e := PartEnd(s, i);
      0 <= Next(s, e) <= |s| && Next(s, e) > i && PartAt(s, Stretch(i, e), s[i..e]) &&
      Parts(s, i) == [s[i..e]] + Parts(s, Next(s, e))
  {
    hide PartEnd;
  }

  /** The parts lie one after the other, with one character 47 between two of them; the parser stops at the end or where
      a further 47 follows. */
  lemma {:induction false} PartsAre(s: seq<Byte>, i: int) returns (ws: seq<Stretch>)
    requires 0 <= i <= |s|
    ensures |ws| == |Parts(s, i)|
    ensures forall x :: 0 <= x < |ws| ==> PartAt(s, ws[x], Parts(s, i)[x])
    ensures ws != [] ==> ws[0].from == i
    ensures forall x, y :: 0 <= x && y == x + 1 < |ws| ==> ws[y].from == ws[x].to + 1
    ensures var z := if ws == [] then i else if ws[|ws| - 1].to < |s| then ws[|ws| - 1].to + 1 else |s|;
      0 <= z <= |s| && (z < |s| ==> s[z] == 47)
    decreases |s| - i
  {
    var e := PartEnd(s, i);
    ws := [];
    if e > i {
      FirstAt(s, i);
      var n, t := Next(s, e), s[i..e];
      assert n == if e < |s| then e + 1 else e;
      hide PartEnd, PartAt, Parts, Next;
      var parts := Parts(s, n);
      var more := PartsAre(s, n);
      if more != [] { FromBelow(s, more[0], parts[0]); }
      ws := [Stretch(i, e)] + more;
      forall x | 0 <= x < |ws| ensures PartAt(s, ws[x], ([t] + parts)[x]) {
        if x > 0 { assert ws[x] == more[x - 1]; }
      }
      forall x, y | 0 <= x && y == x + 1 < |ws| ensures ws[y].from == ws[x].to + 1 {
        assert ws[y] == more[y - 1];
        if x > 0 { assert ws[x] == more[x - 1]; }
      }
      assert more != [] ==> ws[|ws| - 1] == more[|more| - 1];
    }
  }

  lemma FromBelow(s: seq<Byte>, w: Stretch, t: seq<Byte>)
    requires PartAt(s, w, t)
    ensures w.from < |s|
  {
  }

  /** What a path is taken for: up to 128 characters that begin with a digit, 58 and 47 give a drive and the parts from
      position 3 on, and everything else is refused. */
  lemma ParseIs(s: seq<Byte>) returns (ws: seq<Stretch>)
    ensures Parse(s).Path? <==> 3 <= |s| <= 128 && 48 <= s[0] <= 57 && s[1] == 58 && s[2] == 47
    ensures Parse(s).Path? ==> Parse(s).drive == s[0] - 48 && |Parse(s).parts| == |ws|
    ensures Parse(s).Path? ==> forall x :: 0 <= x < |ws| ==>
      && 0 <= ws[x].from < ws[x].to <= |s| && Parse(s).parts[x] == s[ws[x].from..ws[x].to]
      && 47 !in s[ws[x].from..ws[x].to] && (ws[x].to < |s| ==> s[ws[x].to] == 47)
    ensures Parse(s).Path? && ws != [] ==> ws[0].from == 3
    ensures Parse(s).Path? ==> forall x, y :: 0 <= x && y == x + 1 < |ws| ==> ws[y].from == ws[x].to + 1
    ensures Parse(s).Path? ==>
      var z := if ws == [] then 3 else if ws[|ws| - 1].to < |s| then ws[|ws| - 1].to + 1 else |s|;
      0 <= z <= |s| && (z < |s| ==> s[z] == 47)
  {
    hide Parts;
    ws := [];
    if Parse(s).Path? {
      ws := PartsAre(s, 3);
      assert forall x :: 0 <= x < |ws| ==> PartAt(s, ws[x], Parse(s).parts[x]);
    }
  }

  datatype Parsed = Bad | Path(drive: int, parts: seq<seq<Byte>>)

  predicate WellFormatted(s: seq<Byte>) {
    |s| >= 3 && 48 <= s[0] <= 57 && s[1] == 58 && s[2] == 47
  }

  function Parse(s: seq<Byte>): Parsed {
    if |s| > 128 || !WellFormatted(s) then Bad else Path(s[0] - 48, Parts(s, 3))
  }

  function Join(ts: seq<seq<Byte>>): seq<Byte> {
    if ts == [] then [] else if |ts| == 1 then ts[0] else ts[0] + [47] + Join(ts[1..])
  }

  function Print(drive: int, ts: seq<seq<Byte>>): seq<Byte>
    requires 0 <= drive <= 9
  {
    [48 + drive, 58, 47] + Join(ts)
  }

  predicate Canonical(ts: seq<seq<Byte>>) {
    forall t :: t in ts ==> t != [] && 47 !in t
  }

  lemma {:induction false} EndOfPart(s: seq<Byte>, i: int, e: int)
    requires 0 <= i <= e <= |s| && 47 !in s[i..e] && (e < |s| ==> s[e] == 47)
    ensures PartEnd(s, i) == e
    decreases e - i
  {
    if i < e {
      assert s[i] == s[i..e][0] && s[i + 1..e] == s[i..e][1..];
      EndOfPart(s, i + 1, e);
    }
  }

  lemma PartsFrom(s: seq<Byte>, i: int, e: int)
    requires 0 <= i <= e <= |s| && 47 !in s[i..e] && (e < |s| ==> s[e] == 47)
    ensures Parts(s, i) == if e == i then [] else [s[i..e]] + Parts(s, Next(s, e))
  {
    EndOfPart(s, i, e);
  }

  /** How a joined list begins. */
  lemma JoinBegins(s: seq<Byte>, i: int, ts: seq<seq<Byte>>)
    requires 0 <= i <= |s| && s[i..] == Join(ts) && ts != []
    ensures var e := i + |ts[0]|;
      && e <= |s| && s[i..e] == ts[0]
      && (if |ts| == 1 then e == |s| else e < |s| && s[e] == 47 && s[e + 1..] == Join(ts[1..]))
  {
    var e := i + |ts[0]|;
    assert s[i..e] == s[i..][..|ts[0]|] == ts[0];
    if |ts| > 1 {
      assert s[e] == s[i..][|ts[0]|] == 47;
      assert s[e + 1..] == s[i..][|ts[0]| + 1..] == Join(ts[1..]);
    }
  }

  lemma {:induction false} PartsOfJoin(s: seq<Byte>, i: int, ts: seq<seq<Byte>>)
    requires 0 <= i <= |s| && s[i..] == Join(ts) && Canonical(ts)
    ensures Parts(s, i) == ts
    decreases |ts|
  {
    hide Parts, PartEnd;
    if ts == [] {
      PartsFrom(s, i, i);
    } else {
      var e := i + |ts[0]|;
      JoinBegins(s, i, ts);
      assert ts[0] in ts;
      PartsFrom(s, i, e);
      if |ts| > 1 {
        assert forall t :: t in ts[1..] ==> t in ts;
        PartsOfJoin(s, e + 1, ts[1..]);
        assert ts == [ts[0]] + ts[1..];
      } else {
        PartsFrom(s, e, e);
      }
    }
  }

  /** Printing a canonical path and parsing it gives it back. */
  lemma ParsePrint(drive: int, ts: seq<seq<Byte>>)
    requires 0 <= drive <= 9 && Canonical(ts) && |Print(drive, ts)| <= 128
    ensures Parse(Print(drive, ts)) == Path(drive, ts)
  {
    var s := Print(drive, ts);
    assert s[3..] == Join(ts);
    PartsOfJoin(s, 3, ts);
  }

  /** No empty part behind position `i`: no slash at `i`, none doubled, none at the end. */
  predicate NoEmptyPart(s: seq<Byte>, i: int)
    requires 0 <= i <= |s|
  {
    && (i < |s| ==> s[i] != 47 && s[|s| - 1] != 47)
    && forall k :: i <= k < |s| - 1 ==> !(s[k] == 47 && s[k + 1] == 47)
  }

  lemma {:induction false} JoinOfParts(s: seq<Byte>, i: int)
    requires 0 <= i <= |s|
    ensures Join(Parts(s, i)) == s[i..] <==> NoEmptyPart(s, i)
    ensures |Join(Parts(s, i))| <= |s| - i
    decreases |s| - i
  {
    var e := PartEnd(s, i);
    if i < e == |s| {
      EndOfPart(s, e, e);
      assert s[i..e] == s[i..];
      assert forall k :: i <= k < e ==> s[k] == s[i..e][k - i];
    } else if i < e {
      JoinOfParts(s, e + 1);
      JoinStep(s, i, e);
    }
  }

  lemma JoinStep(s: seq<Byte>, i: int, e: int)
    requires 0 <= i < e < |s| && e == PartEnd(s, i)
    requires Join(Parts(s, e + 1)) == s[e + 1..] <==> NoEmptyPart(s, e + 1)
    requires |Join(Parts(s, e + 1))| <= |s| - (e + 1)
    ensures Join(Parts(s, i)) == s[i..] <==> NoEmptyPart(s, i)
    ensures |Join(Parts(s, i))| <= |s| - i
  {
    var rest := Parts(s, e + 1);
    assert Parts(s, i) == [s[i..e]] + rest;
    assert forall k :: i <= k < e ==> s[k] == s[i..e][k - i];
    assert s[i..] == s[i..e] + [47] + s[e + 1..];
    if rest == [] {
      assert Join(Parts(s, i)) == s[i..e];
    } else {
      assert ([s[i..e]] + rest)[1..] == rest;
      var whole := s[i..e] + [47] + Join(rest);
      assert Join(Parts(s, i)) == whole;
      assert whole[e - i + 1..] == Join(rest) && s[i..][e - i + 1..] == s[e + 1..];
      assert e + 1 < |s| && s[e + 1] != 47 by { assert PartEnd(s, e + 1) > e + 1; }
    }
  }

  /** Parsing a path and printing it gives it back exactly when it has no empty part. */
  lemma PrintParse(s: seq<Byte>)
    requires Parse(s).Path?
    ensures Print(Parse(s).drive, Parse(s).parts) == s <==> NoEmptyPart(s, 3)
  {
    JoinOfParts(s, 3);
    assert s == [s[0], s[1], s[2]] + s[3..];
    assert Print(Parse(s).drive, Parse(s).parts)[3..] == Join(Parse(s).parts);
  }

  /** "0:/a//b" comes back as "0:/a". */
  lemma DoubledSlash(s: seq<Byte>)
    requires s == [48, 58, 47, 97, 47, 47, 98]
    ensures Parse(s) == Path(0, [[97]]) && Print(0, [[97]]) == [48, 58, 47, 97] && !NoEmptyPart(s, 3)
  {
    EndOfPart(s, 3, 4);
    EndOfPart(s, 5, 5);
    assert s[3..4] == [97];
    assert Parts(s, 3) == [s[3..4]] + Parts(s, 5) && Parts(s, 5) == [];
  }
}

module PathParser {
  import opened Ram
  import opened HeapTable
  import opened PageTables
  import opened Paging
  import opened Kheap
  import opened PathText
  import opened TaskMemory
  import opened LoadProcess
  import opened ProcessMemory

  /** A list node: the block of the part record and the block of its name. */
  datatype Node = Node(part: Frame, name: Frame)

  ghost function FirstPart(nodes: seq<Node>): Word {
    if nodes == [] then 0 else nodes[0].part
  }

  ghost function Frames(root: Frame, nodes: seq<Node>): set<Word> {
    {root} + (set i | 0 <= i < |nodes| :: nodes[i].part as Word) + (set i | 0 <= i < |nodes| :: nodes[i].name as Word)
  }

  ghost function NextPart(nodes: seq<Node>, i: int): Word {
    if 0 <= i < |nodes| - 1 then nodes[i + 1].part else 0
  }

  /** All blocks of the list are live and different. */
  ghost predicate Apart(live: Runs, nodes: seq<Node>) {
    && (forall i :: 0 <= i < |nodes| ==> OneBlock(live, nodes[i].part))
    && (forall i :: 0 <= i < |nodes| ==> OneBlock(live, nodes[i].name))
    && (forall i, j :: 0 <= i < |nodes| && 0 <= j < |nodes| ==> nodes[i].part != nodes[j].name)
    && (forall i, j :: 0 <= i < j < |nodes| ==> nodes[i].part != nodes[j].part)
    && (forall i, j :: 0 <= i < j < |nodes| ==> nodes[i].name != nodes[j].name)
  }

  /** Record `i` of the list: its name, its successor, and the text. */
  ghost predicate RecordAt(m: Mem, nodes: seq<Node>, i: int, t: seq<Byte>)
    requires 0 <= i < |nodes|
  {
    && WordIn(m, nodes[i].part, 0) == nodes[i].name && WordIn(m, nodes[i].part, 1) == NextPart(nodes, i)
    && |t| < 128 && Delivered(m, nodes[i].name, t)
  }

  /** The records of `nodes` link up and name `parts`. */
  ghost predicate ListAt(m: Mem, live: Runs, nodes: seq<Node>, parts: seq<seq<Byte>>) {
    && |nodes| == |parts| && Apart(live, nodes)
    && forall i :: 0 <= i < |nodes| ==> RecordAt(m, nodes, i, parts[i])
  }

  /** A parsed path in memory. */
  ghost predicate PathAt(m: Mem, live: Runs, root: Frame, nodes: seq<Node>, drive: int, parts: seq<seq<Byte>>) {
    && OneBlock(live, root) && WordIn(m, root, 0) == drive && WordIn(m, root, 1) == FirstPart(nodes)
    && ListAt(m, live, nodes, parts)
    && forall i :: 0 <= i < |nodes| ==> nodes[i].part != root && nodes[i].name != root
  }

  /** Byte by byte: the root holds the drive and the address of the first record or null; a record the address of its
      name and that of the next record or null; a name the characters of its part and a terminator. */
  lemma PathIs(m: Mem, live: Runs, root: Frame, nodes: seq<Node>, drive: int, parts: seq<seq<Byte>>, i: int)
    requires PathAt(m, live, root, nodes, drive, parts)
    ensures root <= 0xFFFF_F000 && |nodes| == |parts|
    ensures drive == m[root] as int + 0x100 * (m[root + 1] as int) + 0x1_0000 * (m[root + 2] as int)
                     + 0x100_0000 * (m[root + 3] as int)
    ensures (if nodes == [] then 0 else nodes[0].part)
      == m[root + 4] as int + 0x100 * (m[root + 5] as int) + 0x1_0000 * (m[root + 6] as int)
         + 0x100_0000 * (m[root + 7] as int)
    ensures 0 <= i < |nodes| ==> var p := nodes[i].part;
      && p <= 0xFFFF_F000 && nodes[i].name + |parts[i]| < 0x1_0000_0000
      && nodes[i].name
         == m[p] as int + 0x100 * (m[p + 1] as int) + 0x1_0000 * (m[p + 2] as int) + 0x100_0000 * (m[p + 3] as int)
      && (if i + 1 < |nodes| then nodes[i + 1].part else 0)
         == m[p + 4] as int + 0x100 * (m[p + 5] as int) + 0x1_0000 * (m[p + 6] as int) + 0x100_0000 * (m[p + 7] as int)
      && m[nodes[i].name..nodes[i].name + |parts[i]|] == parts[i] && m[nodes[i].name + |parts[i]|] == 0
  {
    FrameBound(root);
    if 0 <= i < |nodes| {
      FrameBound(nodes[i].part);
      assert RecordAt(m, nodes, i, parts[i]);
    }
  }

  ghost predicate Zeros(m: Mem, p: Word, size: int) {
    forall a: Word :: p <= a < p + size ==> m[a] == 0
  }

  /** `kzalloc` of at most a page when a free block is left. */
  method Small(k: Machine, size: Word) returns (p: Frame)
    requires k.Valid() && |FreeSet(k.live)| > 0 && 8 <= size <= 4096
    modifies k, k.ram
    ensures k.Valid() && OneBlock(k.live, p) && BlockIndex(p) !in old(k.live) && p != 0
    ensures k.live == old(k.live)[BlockIndex(p) := 1] && |FreeSet(k.live)| == |FreeSet(old(k.live))| - 1
    ensures Kept(old(k.ram[..]), k.ram[..], {p})
    ensures Zeros(k.ram[..], p, size)
  {
    ghost var m: Mem := k.ram[..];
    assert Blocks(size) == 1;
    FreeBlockFits(m, k.live);
    GuardOne(m);
    var q := k.Kzalloc(size);
    SmallBlock(m, old(k.live), size, q, k.ram[..], k.live);
    p := q;
  }

  lemma SmallBlock(m: Mem, live: Runs, size: Word, q: Word, m': Mem, live': Runs)
    requires WellFormed(live) && q != 0 && Allocated(live, size, q, live') && Blocks(size) == 1
    requires ZeroedAt(m, m', q, size) && q + size <= 0x0740_0000
    ensures q % 4096 == 0 && OneBlock(live', q) && BlockIndex(q) !in live && |FreeSet(live')| == |FreeSet(live)| - 1
    ensures Kept(m, m', {q}) && Zeros(m', q, size)
  {
    hide BlockIndex, BlockAddr;
    var b := BlockIndex(q);
    AddRun(live, b, 1);
    BlockAligned(b);
    assert FreeSet(live') == FreeSet(live) - {b};
    BlockAtLeast(q);
    forall t: Frame | !HeapPage(t) && t != q ensures SamePage(m, m', t) { FramesApart(t, q); }
  }

  /** All blocks in use keep their content. */
  ghost predicate KeptBlocks(m: Mem, live: Runs, m': Mem) {
    forall t: Frame :: OneBlock(live, t) ==> SamePage(m, m', t)
  }

  lemma FreshKeeps(m: Mem, live: Runs, m': Mem, p: Frame)
    requires WellFormed(live) && BlockIndex(p) !in live && Kept(m, m', {p})
    ensures KeptBlocks(m, live, m')
  {
    forall t: Frame | OneBlock(live, t) ensures SamePage(m, m', t) { OneBlockInPool(live, t); }
  }

  lemma SamePageDelivered(m: Mem, m': Mem, a: Frame, t: seq<Byte>)
    requires SamePage(m, m', a) && |t| < 4096 && Delivered(m, a, t)
    ensures Delivered(m', a, t)
  {
    assert m'[a..a + |t|] == m[a..a + |t|];
  }

  /** Writes inside one block of the pool leave the heap and all other pages alone. */
  lemma BlockStore(m: Mem, m': Mem, live: Runs, p: Frame)
    requires Encodes(m, live) && OneBlock(live, p)
    requires forall a: Word :: !(p <= a < p + 4096) ==> m'[a] == m[a]
    ensures Encodes(m', live) && Kept(m, m', {p}) && forall t: Frame :: t != p ==> SamePage(m, m', t)
  {
    OneBlockInPool(live, p);
    forall t: Frame | t != p ensures SamePage(m, m', t) { FramesApart(t, p); }
    TableUntouched(m, m', live);
    SameLowPages(m, m');
  }

  /** Reads one part of the path into a buffer of 128 bytes; an empty part gives the null pointer
      and takes no memory. */
  method GetPathPart(k: Machine, path: seq<Byte>, i: int) returns (name: Word, j: int)
    requires k.Valid() && |FreeSet(k.live)| > 0 && 3 <= i <= |path| <= 128 && 0 !in path
    modifies k, k.ram
    ensures j == Next(path, PartEnd(path, i)) && (name == 0 <==> PartEnd(path, i) == i)
    ensures name == 0 ==> k.live == old(k.live)
    ensures name != 0 ==> name % 4096 == 0 && NewName(old(k.live), k.live, k.ram[..], name, path[i..PartEnd(path, i)])
    ensures k.Valid() && KeptBlocks(old(k.ram[..]), old(k.live), k.ram[..])
  {
    hide WordAt, BlockIndex, OneBlock, FreeSet;
    ghost var m, live := k.ram[..], k.live;
    ghost var e := PartEnd(path, i);
    var p := Small(k, 128);
    ghost var m1, live1 := k.ram[..], k.live;
    FreshKeeps(m, live, m1, p) by { EncodesWell(m, live); }
    FrameBound(p);
    j := i;
    var n := 0;
    while j < |path| && path[j] != 47
      invariant 0 <= n == j - i && i <= j <= e && PartEnd(path, j) == e && k.live == live1
      invariant forall a: Word :: k.ram[a] == if p <= a < p + n then path[i + (a - p)] else m1[a]
    {
      k.ram[p + n] := path[j];
      j := j + 1;
      n := n + 1;
    }
    ghost var m2: Mem := k.ram[..];
    BlockStore(m1, m2, k.live, p);
    FreshKeeps(m, live, m2, p) by { EncodesWell(m, live); TwiceKept(m, m1, m2, p); }
    if j < |path| && path[j] == 47 {
      j := j + 1;
    }
    name := p;
    if n == 0 {
      k.Free(p) by { StartOf(k.live, p); }
      TakenBack(m, live, m2, k.ram[..]);
      name := 0;
    } else {
      assert m2[p..p + n] == path[i..e];
      assert Delivered(m2, p, path[i..e]);
    }
  }

  lemma StartOf(live: Runs, p: Word)
    requires OneBlock(live, p)
    ensures Start(live, p)
  {
  }

  lemma TwiceKept(m: Mem, m1: Mem, m2: Mem, p: Frame)
    requires Kept(m, m1, {p}) && Kept(m1, m2, {p})
    ensures Kept(m, m2, {p})
  {
    KeptTrans(m, m1, m2, {p}, {p});
  }

  lemma TakenBack(m: Mem, live: Runs, m2: Mem, m3: Mem)
    requires WellFormed(live) && KeptBlocks(m, live, m2) && OnlyTable(m2, m3)
    ensures KeptBlocks(m, live, m3)
  {
    forall t: Frame | OneBlock(live, t) ensures SamePage(m, m3, t) {
      OneBlockInPool(live, t);
      assert SamePage(m, m2, t);
    }
  }

  /** One more block is live, and it holds the text. */
  ghost predicate NewName(live: Runs, live': Runs, m: Mem, name: Word, t: seq<Byte>) {
    && BlockIndex(name) !in live && live' == live[BlockIndex(name) := 1] && OneBlock(live', name)
    && |FreeSet(live')| == |FreeSet(live)| - 1
    && Delivered(m, name, t)
  }

  ghost function LastPart(nodes: seq<Node>): Word {
    if nodes == [] then 0 else nodes[|nodes| - 1].part
  }

  /** Blocks in use other than `last` keep their content. */
  ghost predicate KeptBut(m: Mem, live: Runs, m': Mem, last: Word) {
    forall t: Frame :: OneBlock(live, t) && t != last ==> SamePage(m, m', t)
  }

  /** The state after a new node was made and hung on the last one. */
  ghost predicate Hung(m: Mem, live: Runs, m': Mem, live': Runs, nodes: seq<Node>, node: Node, t: seq<Byte>) {
    && (forall b :: b in live ==> b in live' && live'[b] == live[b])
    && OneBlock(live', node.part) && OneBlock(live', node.name) && node.part != node.name
    && BlockIndex(node.part) !in live && BlockIndex(node.name) !in live
    && KeptBut(m, live, m', LastPart(nodes))
    && (nodes != [] ==> WordIn(m', nodes[|nodes| - 1].part, 0) == WordIn(m, nodes[|nodes| - 1].part, 0))
    && (nodes != [] ==> WordIn(m', nodes[|nodes| - 1].part, 1) == node.part)
    && WordIn(m', node.part, 0) == node.name && WordIn(m', node.part, 1) == 0
    && |t| < 128 && Delivered(m', node.name, t)
  }

  lemma AppendNode(m: Mem, live: Runs, m': Mem, live': Runs, nodes: seq<Node>, parts: seq<seq<Byte>>, node: Node,
      t: seq<Byte>)
    requires ListAt(m, live, nodes, parts) && Hung(m, live, m', live', nodes, node, t)
    ensures ListAt(m', live', nodes + [node], parts + [t])
  {
    hide WordAt, BlockIndex, Delivered, OneBlock, Apart, RecordAt, Hung;
    var nodes' := nodes + [node];
    var n := |nodes|;
    ApartMore(m, live, m', live', nodes, node, t);
    forall i | 0 <= i <= n ensures RecordAt(m', nodes', i, (parts + [t])[i]) {
      if i < n {
        OldNode(m, live, m', live', nodes, parts, node, t, i);
      } else {
        NewNode(m, live, m', live', nodes, node, t);
      }
    }
  }

  lemma ApartMore(m: Mem, live: Runs, m': Mem, live': Runs, nodes: seq<Node>, node: Node, t: seq<Byte>)
    requires Apart(live, nodes) && Hung(m, live, m', live', nodes, node, t)
    ensures Apart(live', nodes + [node])
  {
    hide WordAt, BlockIndex, Delivered, OneBlock;
    forall i | 0 <= i < |nodes|
      ensures OneBlock(live', nodes[i].part) && OneBlock(live', nodes[i].name)
      ensures nodes[i].part != node.part && nodes[i].name != node.name && nodes[i].part != node.name
      ensures node.part != nodes[i].name
    {
      NotLive(live, live', nodes[i].part, node);
      NotLive(live, live', nodes[i].name, node);
    }
  }

  lemma NotLive(live: Runs, live': Runs, a: Frame, node: Node)
    requires OneBlock(live, a) && BlockIndex(node.part) !in live && BlockIndex(node.name) !in live
    requires forall b :: b in live ==> b in live' && live'[b] == live[b]
    ensures a != node.part && a != node.name && OneBlock(live', a)
  {
  }

  lemma NewNode(m: Mem, live: Runs, m': Mem, live': Runs, nodes: seq<Node>, node: Node, t: seq<Byte>)
    requires Hung(m, live, m', live', nodes, node, t)
    ensures RecordAt(m', nodes + [node], |nodes|, t)
  {
    hide WordAt, BlockIndex, Delivered;
  }

  lemma OldNode(m: Mem, live: Runs, m': Mem, live': Runs, nodes: seq<Node>, parts: seq<seq<Byte>>, node: Node,
      t: seq<Byte>, i: int)
    requires ListAt(m, live, nodes, parts) && Hung(m, live, m', live', nodes, node, t) && 0 <= i < |nodes|
    ensures RecordAt(m', nodes + [node], i, parts[i])
  {
    hide WordAt, BlockIndex, Delivered;
    var n := |nodes|;
    assert OneBlock(live, nodes[i].part) && OneBlock(live, nodes[i].name) && nodes[n - 1].part != nodes[i].name;
    assert RecordAt(m, nodes, i, parts[i]);
    SamePageDelivered(m, m', nodes[i].name, parts[i]);
    if i < n - 1 {
      assert nodes[i].part != nodes[n - 1].part;
      SamePageWord(m, m', nodes[i].part, 0);
      SamePageWord(m, m', nodes[i].part, 1);
    }
  }

  /** The list so far survives when its blocks keep their bytes. */
  lemma ListStands(m: Mem, live: Runs, m': Mem, live': Runs, nodes: seq<Node>, parts: seq<seq<Byte>>)
    requires ListAt(m, live, nodes, parts) && KeptBlocks(m, live, m')
    requires forall b :: b in live ==> b in live' && live'[b] == live[b]
    ensures ListAt(m', live', nodes, parts)
  {
    hide WordAt, BlockIndex, Delivered;
    forall i | 0 <= i < |nodes| ensures RecordAt(m', nodes, i, parts[i]) {
      assert RecordAt(m, nodes, i, parts[i]) && OneBlock(live, nodes[i].part) && OneBlock(live, nodes[i].name);
      SamePageWord(m, m', nodes[i].part, 0);
      SamePageWord(m, m', nodes[i].part, 1);
      SamePageDelivered(m, m', nodes[i].name, parts[i]);
    }
  }

  /** One part: its name, its record, and the link from the record before it. */
  method ParsePathPart(k: Machine, last: Word, path: seq<Byte>, i: int, ghost nodes: seq<Node>,
      ghost parts: seq<seq<Byte>>)
    returns (part: Word, j: int, ghost node: Node)
    requires k.Valid() && |FreeSet(k.live)| > 1 && 3 <= i <= |path| <= 128 && 0 !in path
    requires ListAt(k.ram[..], k.live, nodes, parts) && last == LastPart(nodes)
    modifies k, k.ram
    ensures k.Valid() && j == Next(path, PartEnd(path, i)) && (part == 0 <==> PartEnd(path, i) == i)
    ensures KeptBut(old(k.ram[..]), old(k.live), k.ram[..], if part == 0 then 0 else last)
    ensures part == 0 ==> k.live == old(k.live) && ListAt(k.ram[..], k.live, nodes, parts)
    ensures part != 0 ==>
      part == node.part && ListAt(k.ram[..], k.live, nodes + [node], parts + [path[i..PartEnd(path, i)]])
    ensures part != 0 ==> Added(old(k.live), k.live, node)
  {
    hide WordAt, SetWord, BlockIndex, Delivered, FreeSet, ListAt, Encodes;
    node := Node(0, 0);
    EncodesWell(k.ram[..], k.live);
    ghost var m, live := k.ram[..], k.live;
    var name;
    name, j := GetPathPart(k, path, i);
    ghost var m1, live1 := k.ram[..], k.live;
    if name == 0 {
      ListStands(m, live, m1, live1, nodes, parts);
      return 0, j, node;
    }
    var p := Small(k, 8);
    ghost var m2, live2 := k.ram[..], k.live;
    node := Node(p, name);
    EncodesWell(m2, live2);
    BeforeLinks(m, live, m1, live1, m2, live2, nodes, node, path[i..PartEnd(path, i)]);
    FrameBound(p);
    StoreWord(k.ram, p, name);
    ghost var m3: Mem := k.ram[..];
    StoreWord(k.ram, p as int + 4, 0);
    ghost var m4: Mem := k.ram[..];
    if last != 0 {
      StoreWord(k.ram, last as int + 4, p);
    }
    part := p;
    LastNonzero(m, live, nodes, parts);
    Links(m, live, m2, live2, m3, m4, k.ram[..], nodes, node, path[i..PartEnd(path, i)]);
    AppendNode(m, live, k.ram[..], live2, nodes, parts, node, path[i..PartEnd(path, i)]);
  }

  /** Two blocks more, those of `node`. */
  ghost predicate Added(live: Runs, live': Runs, node: Node) {
    && BlockIndex(node.name) !in live && BlockIndex(node.part) !in live && node.part != node.name
    && OneBlock(live', node.name) && OneBlock(live', node.part)
    && live' == live[BlockIndex(node.name) := 1][BlockIndex(node.part) := 1]
    && |FreeSet(live')| == |FreeSet(live)| - 2
  }

  lemma BeforeLinks(m: Mem, live: Runs, m1: Mem, live1: Runs, m2: Mem, live2: Runs, nodes: seq<Node>, node: Node,
      t: seq<Byte>)
    requires Encodes(m1, live1) && KeptBlocks(m, live, m1) && NewName(live, live1, m1, node.name, t) && |t| < 128
    requires BlockIndex(node.part) !in live1 && live2 == live1[BlockIndex(node.part) := 1] && OneBlock(live2, node.part)
    requires |FreeSet(live2)| == |FreeSet(live1)| - 1 && Kept(m1, m2, {node.part}) && WellFormed(live2)
    ensures KeptBlocks(m, live, m2) && Delivered(m2, node.name, t) && Added(live, live2, node)
    ensures node.part >= 0x0100_0000 && node.name >= 0x0100_0000
  {
    hide WordAt, BlockIndex, Delivered, FreeSet;
    FreshKeeps(m1, live1, m2, node.part);
    SamePageDelivered(m1, m2, node.name, t);
    forall u: Frame | OneBlock(live, u) ensures SamePage(m, m2, u) {
      assert SamePage(m, m1, u) && OneBlock(live1, u);
    }
    OneBlockInPool(live2, node.part);
    OneBlockInPool(live1, node.name);
  }

  lemma LastNonzero(m: Mem, live: Runs, nodes: seq<Node>, parts: seq<seq<Byte>>)
    requires WellFormed(live) && ListAt(m, live, nodes, parts)
    ensures Apart(live, nodes)
    ensures nodes != [] ==> OneBlock(live, LastPart(nodes)) && 0x0100_0000 <= LastPart(nodes) <= 0xFFFF_F000
  {
    if nodes != [] { OneBlockInPool(live, LastPart(nodes)); }
  }

  lemma MakeRecord(m2: Mem, m3: Mem, m4: Mem, p: Frame, name: Word)
    requires p <= 0xFFFF_F000 && m3 == SetWord(m2, p, name) && m4 == SetWord(m3, p as int + 4, 0)
    ensures WordIn(m4, p, 0) == name && WordIn(m4, p, 1) == 0
    ensures forall u: Frame :: u != p ==> SamePage(m2, m4, u)
  {
    hide WordAt, SetWord;
    WordStored(m2, p, 0, name);
    assert WordIn(m3, p, 0) == name;
    WordStored(m3, p, 1, 0);
    assert WordIn(m4, p, 0) == WordIn(m3, p, 0);
    forall u: Frame | u != p ensures SamePage(m2, m4, u) { assert SamePage(m2, m3, u) && SamePage(m3, m4, u); }
  }

  lemma Links(m: Mem, live: Runs, m2: Mem, live2: Runs, m3: Mem, m4: Mem, m5: Mem, nodes: seq<Node>, node: Node,
      t: seq<Byte>)
    requires Encodes(m2, live2) && Apart(live, nodes) && KeptBlocks(m, live, m2) && Added(live, live2, node)
    requires |t| < 128 && Delivered(m2, node.name, t) && node.part <= 0xFFFF_F000 && LastPart(nodes) <= 0xFFFF_F000
    requires m3 == SetWord(m2, node.part, node.name) && m4 == SetWord(m3, node.part as int + 4, 0)
    requires m5 == if nodes == [] then m4 else SetWord(m4, LastPart(nodes) as int + 4, node.part)
    ensures Encodes(m5, live2) && Hung(m, live, m5, live2, nodes, node, t)
  {
    hide WordAt, SetWord, BlockIndex, Delivered, FreeSet;
    MakeRecord(m2, m3, m4, node.part, node.name);
    OneBlockInPool(live2, node.part);
    ghost var last := LastPart(nodes);
    if nodes != [] {
      assert OneBlock(live, last);
      assert OneBlock(live2, last);
      WordStored(m4, last, 1, node.part);
      OneBlockInPool(live2, last);
      assert last != node.part && last != node.name;
      SamePageWord(m4, m5, node.part, 0);
      SamePageWord(m4, m5, node.part, 1);
      SamePageWord(m, m2, last, 0);
      SamePageWord(m2, m4, last, 0);
    }
    forall u: Frame | u != node.part && (nodes == [] || u != last) ensures SamePage(m2, m5, u) {
      assert SamePage(m2, m4, u) && SamePage(m4, m5, u);
    }
    assert SamePage(m2, m5, node.name);
    SamePageDelivered(m2, m5, node.name, t);
    TableUntouched(m2, m5, live2);
    assert WordIn(m5, node.part, 0) == node.name && WordIn(m5, node.part, 1) == 0;
    forall u: Frame | OneBlock(live, u) && u != last ensures SamePage(m, m5, u) {
      assert u != node.part;
      assert SamePage(m, m2, u) && SamePage(m2, m5, u);
    }
    assert KeptBut(m, live, m5, last);
    assert forall b :: b in live ==> b in live2 && live2[b] == live[b];
    assert nodes != [] ==> WordIn(m5, last, 0) == WordIn(m, last, 0) && WordIn(m5, last, 1) == node.part;
  }

  // ---- the whole path -----------------------------------------------------

  /** Since memory `m` with runs `live`, exactly the blocks of root and list were taken. */
  ghost predicate Took(live: Runs, live': Runs, root: Frame, nodes: seq<Node>) {
    && Grown(live, live', Frames(root, nodes)) && |FreeSet(live')| == |FreeSet(live)| - 1 - 2 * |nodes|
  }

  lemma TookRoot(live: Runs, live': Runs, root: Frame)
    requires OneBlock(live', root) && BlockIndex(root) !in live && live' == live[BlockIndex(root) := 1]
    requires |FreeSet(live')| == |FreeSet(live)| - 1
    ensures Took(live, live', root, [])
  {
    hide BlockIndex, FreeSet;
    GrownStep(live, live, live', {}, root);
    assert Frames(root, []) == {} + {root};
  }

  lemma TookNode(live: Runs, live1: Runs, live2: Runs, root: Frame, nodes: seq<Node>, node: Node)
    requires Took(live, live1, root, nodes) && Added(live1, live2, node)
    ensures Took(live, live2, root, nodes + [node])
  {
    hide BlockIndex, FreeSet;
    var X := Frames(root, nodes);
    var mid := live1[BlockIndex(node.name) := 1];
    NameOnly(live1, live2, node);
    GrownStep(live, live1, mid, X, node.name);
    GrownStep(live, mid, live2, X + {node.name as Word}, node.part);
    FramesMore(root, nodes, node);
  }

  lemma NameOnly(live1: Runs, live2: Runs, node: Node)
    requires Added(live1, live2, node)
    ensures OneBlock(live1[BlockIndex(node.name) := 1], node.name)
    ensures BlockIndex(node.part) !in live1[BlockIndex(node.name) := 1]
  {
  }

  lemma FramesMore(root: Frame, nodes: seq<Node>, node: Node)
    ensures Frames(root, nodes + [node]) == Frames(root, nodes) + {node.name as Word} + {node.part as Word}
  {
    var nodes' := nodes + [node];
    forall t
      ensures t in Frames(root, nodes') <==> t in Frames(root, nodes) + {node.name as Word} + {node.part as Word}
    {
      if t in Frames(root, nodes) && t != root {
        var i :| 0 <= i < |nodes| && (nodes[i].part == t || nodes[i].name == t);
        assert nodes'[i] == nodes[i];
      }
      assert nodes'[|nodes|] == node;
      if t in Frames(root, nodes') && t != root {
        var i :| 0 <= i < |nodes'| && (nodes'[i].part == t || nodes'[i].name == t);
        assert i < |nodes| ==> nodes'[i] == nodes[i];
      }
    }
  }

  ghost predicate Clear(root: Frame, nodes: seq<Node>) {
    forall i :: 0 <= i < |nodes| ==> nodes[i].part != root && nodes[i].name != root
  }

  /** Hanging a further node on the list leaves the root record alone. */
  lemma PathMore(m: Mem, live: Runs, m': Mem, live': Runs, root: Frame, nodes: seq<Node>, drive: int,
      parts: seq<seq<Byte>>, node: Node, t: seq<Byte>)
    requires PathAt(m, live, root, nodes, drive, parts) && nodes != [] && Added(live, live', node)
    requires ListAt(m', live', nodes + [node], parts + [t]) && KeptBut(m, live, m', LastPart(nodes))
    ensures PathAt(m', live', root, nodes + [node], drive, parts + [t])
  {
    hide WordAt, BlockIndex, ListAt;
    assert root != LastPart(nodes);
    SamePageWord(m, m', root, 0);
    SamePageWord(m, m', root, 1);
    assert OneBlock(live', root) && root != node.part && root != node.name;
  }

  /** The last call, which finds no part, changes nothing that is in use. */
  lemma PathSame(m: Mem, live: Runs, m': Mem, root: Frame, nodes: seq<Node>, drive: int, parts: seq<seq<Byte>>)
    requires PathAt(m, live, root, nodes, drive, parts) && KeptBlocks(m, live, m')
    ensures PathAt(m', live, root, nodes, drive, parts)
  {
    hide WordAt, BlockIndex, ListAt;
    SamePageWord(m, m', root, 0);
    SamePageWord(m, m', root, 1);
    ListStands(m, live, m', live, nodes, parts);
  }

  /** Entering the first part in the root record. */
  lemma PathFirst(m1: Mem, live1: Runs, m2: Mem, live2: Runs, m3: Mem, root: Frame, drive: Word, node: Node,
      t: seq<Byte>)
    requires OneBlock(live1, root) && WordIn(m1, root, 0) == drive && Added(live1, live2, node) && Encodes(m2, live2)
    requires KeptBlocks(m1, live1, m2) && ListAt(m2, live2, [node], [t])
    requires root <= 0xFFFF_F000 && m3 == SetWord(m2, root as int + 4, node.part)
    ensures Encodes(m3, live2) && PathAt(m3, live2, root, [node], drive, [t])
  {
    hide WordAt, SetWord, BlockIndex, Delivered;
    SamePageWord(m1, m2, root, 0);
    WordStored(m2, root, 1, node.part);
    assert OneBlock(live2, root) && root != node.part && root != node.name;
    OneBlockInPool(live2, root);
    TableUntouched(m2, m3, live2);
    assert RecordAt(m2, [node], 0, [t][0]) && [node][0] == node;
    assert OneBlock(live2, [node][0].part) && OneBlock(live2, [node][0].name);
    SamePageWord(m2, m3, node.part, 0);
    SamePageWord(m2, m3, node.part, 1);
    SamePageDelivered(m2, m3, node.name, t);
  }

  lemma PartsStep(path: seq<Byte>, i: int)
    requires 0 <= i <= |path|
    ensures var e := PartEnd(path, i);
      0 <= Next(path, e) <= |path| && Parts(path, i) == if e == i then [] else [path[i..e]] + Parts(path, Next(path, e))
  {
  }

  /** Drive and parts of a path as records on the heap; the null pointer for a path that is too long
      or badly formatted. */
  method ParsePath(k: Machine, path: seq<Byte>) returns (root: Word, ghost nodes: seq<Node>)
    requires k.Valid() && 0 !in path && |FreeSet(k.live)| >= 130
    modifies k, k.ram
    ensures k.Valid() && (root == 0 <==> Parse(path).Bad?)
    ensures root == 0 ==> k.live == old(k.live) && k.ram[..] == old(k.ram[..])
    ensures root != 0 ==> root % 4096 == 0 && Took(old(k.live), k.live, root, nodes)
    ensures root != 0 ==> PathAt(k.ram[..], k.live, root, nodes, Parse(path).drive, Parse(path).parts)
  {
    hide WordAt, SetWord, BlockIndex, FreeSet, ListAt, Encodes, PathAt, Took, Added, Parts, PartEnd,
      WellFormed, KeptBut, KeptBlocks, Kept, Zeros, Delivered, Hung,
      FirstPart, Frames, OneBlock;
    ghost var live := k.live;
    root, nodes := 0, [];
    if |path| > 128 || !WellFormatted(path) {
      return;
    }
    PartsFit(path, 3);
    var r := Small(k, 8);
    TookRoot(live, k.live, r);
    FrameBound(r);
    ghost var m0: Mem := k.ram[..];
    StoreWord(k.ram, r, path[0] - 48);
    ghost var m1: Mem := k.ram[..];
    StoreWord(k.ram, r as int + 4, 0);
    RootMade(m0, m1, k.ram[..], k.live, r, path[0] - 48);
    root := r;
    PartsStep(path, 3);
    EmptyList(k.ram[..], k.live);
    ghost var m2, live2 := k.ram[..], k.live;
    var part, j;
    ghost var node;
    part, j, node := ParsePathPart(k, 0, path, 3, [], []);
    if part == 0 {
      NoParts(m2, live2, k.ram[..], r, path[0] - 48);
      return;
    }
    ghost var m3: Mem := k.ram[..];
    StoreWord(k.ram, r as int + 4, part);
    nodes := [node];
    ghost var parts := [path[3..PartEnd(path, 3)]];
    assert [] + nodes == nodes && [] + parts == parts;
    NothingLast(m2, live2, m3);
    PathFirst(m2, live2, m3, k.live, k.ram[..], r, path[0] - 48, node, parts[0]);
    TookNode(live, live2, k.live, r, [], node);
    parts, nodes := Rest(k, path, live, r, part, j, node, parts);
  }

  lemma EmptyList(m: Mem, live: Runs)
    ensures ListAt(m, live, [], [])
  {
  }

  lemma NothingLast(m: Mem, live: Runs, m': Mem)
    requires WellFormed(live) && KeptBut(m, live, m', 0)
    ensures KeptBlocks(m, live, m')
  {
    forall t: Frame | OneBlock(live, t) ensures SamePage(m, m', t) { OneBlockInPool(live, t); }
  }

  lemma RootMade(m0: Mem, m1: Mem, m2: Mem, live: Runs, root: Frame, drive: Word)
    requires Encodes(m0, live) && OneBlock(live, root) && root <= 0xFFFF_F000
    requires m1 == SetWord(m0, root, drive) && m2 == SetWord(m1, root as int + 4, 0)
    ensures Encodes(m2, live) && WordIn(m2, root, 0) == drive && WordIn(m2, root, 1) == 0 && WellFormed(live)
  {
    hide WordAt, SetWord, BlockIndex;
    MakeRecord(m0, m1, m2, root, drive);
    OneBlockInPool(live, root);
    TableUntouched(m0, m2, live);
  }

  lemma NoParts(m: Mem, live: Runs, m': Mem, root: Frame, drive: Word)
    requires WellFormed(live) && OneBlock(live, root) && WordIn(m, root, 0) == drive && WordIn(m, root, 1) == 0
    requires KeptBut(m, live, m', 0)
    ensures PathAt(m', live, root, [], drive, [])
  {
    hide WordAt, BlockIndex;
    NothingLast(m, live, m');
    SamePageWord(m, m', root, 0);
    SamePageWord(m, m', root, 1);
  }

  /** The loop over the remaining parts. */
  method Rest(k: Machine, path: seq<Byte>, ghost live: Runs, root: Frame, first: Word, from: int, ghost node0: Node,
      ghost parts0: seq<seq<Byte>>)
    returns (ghost parts: seq<seq<Byte>>, ghost nodes: seq<Node>)
    requires k.Valid() && WellFormatted(path) && 3 <= from <= |path| <= 128 && 0 !in path && first == node0.part
    requires first != 0
    requires |parts0| == 1 && Parts(path, 3) == parts0 + Parts(path, from) && |FreeSet(live)| >= 130
    requires PathAt(k.ram[..], k.live, root, [node0], path[0] - 48, parts0) && Took(live, k.live, root, [node0])
    modifies k, k.ram
    ensures k.Valid() && parts == Parts(path, 3)
    ensures PathAt(k.ram[..], k.live, root, nodes, path[0] - 48, parts) && Took(live, k.live, root, nodes)
  {
    hide WordAt, SetWord, BlockIndex, FreeSet, ListAt, Encodes, Grown, Parts, PartEnd, PathAt, Took, KeptBut;
    parts, nodes := parts0, [node0];
    var part, j := first, from;
    while part != 0
      invariant k.Valid() && 3 <= j <= |path| && nodes != [] && (part != 0 ==> part == LastPart(nodes))
      invariant Parts(path, 3) == parts + (if part == 0 then [] else Parts(path, j))
      invariant PathAt(k.ram[..], k.live, root, nodes, path[0] - 48, parts) && Took(live, k.live, root, nodes)
      decreases part != 0, |path| - j
    {
      ghost var m1, live1, j1 := k.ram[..], k.live, j;
      PartsStep(path, j);
      Ready(path, live, m1, live1, root, nodes, parts, j);
      ghost var node;
      part, j, node := ParsePathPart(k, part, path, j, nodes, parts);
      if part != 0 {
        ghost var t := path[j1..PartEnd(path, j1)];
        PathMore(m1, live1, k.ram[..], k.live, root, nodes, path[0] - 48, parts, node, t);
        TookNode(live, live1, k.live, root, nodes, node);
        assert parts + ([t] + Parts(path, j)) == (parts + [t]) + Parts(path, j);
        nodes, parts := nodes + [node], parts + [t];
      } else {
        EncodesWell(m1, live1);
        NothingLast(m1, live1, k.ram[..]);
        PathSame(m1, live1, k.ram[..], root, nodes, path[0] - 48, parts);
      }
    }
  }

  /** Enough blocks are left for the next part. */
  lemma Ready(path: seq<Byte>, live: Runs, m1: Mem, live1: Runs, root: Frame, nodes: seq<Node>, parts: seq<seq<Byte>>,
      j: int)
    requires 3 <= j <= |path| <= 128 && WellFormatted(path) && PathAt(m1, live1, root, nodes, path[0] - 48, parts)
    requires Took(live, live1, root, nodes) && |FreeSet(live)| >= 130 && Parts(path, 3) == parts + Parts(path, j)
    ensures ListAt(m1, live1, nodes, parts) && |FreeSet(live1)| > 1
  {
    hide WordAt, BlockIndex, FreeSet, Parts;
    PartsFit(path, 3);
  }

  // ---- freeing ------------------------------------------------------------

  /** The blocks of the first `i` nodes. */
  ghost function FreedNodes(nodes: seq<Node>, i: int): set<int>
    requires 0 <= i <= |nodes|
  {
    (set j | 0 <= j < i :: BlockIndex(nodes[j].part)) + (set j | 0 <= j < i :: BlockIndex(nodes[j].name))
  }

  lemma OtherIndex(live: Runs, a: Frame, b: Frame)
    requires OneBlock(live, a) && OneBlock(live, b) && a != b
    ensures BlockIndex(a) != BlockIndex(b)
  {
  }

  /** Node `i` and the root are still live after the nodes before `i` were freed. */
  lemma StillLive(live: Runs, nodes: seq<Node>, i: int, root: Frame)
    requires Apart(live, nodes) && 0 <= i <= |nodes| && OneBlock(live, root) && Clear(root, nodes)
    ensures Start(live - FreedNodes(nodes, i), root)
    ensures i < |nodes| ==> Start(live - FreedNodes(nodes, i), nodes[i].name)
    ensures i < |nodes| ==> Start(live - FreedNodes(nodes, i) - {BlockIndex(nodes[i].name)}, nodes[i].part)
    ensures i < |nodes| ==>
      live - FreedNodes(nodes, i + 1)
        == live - FreedNodes(nodes, i) - {BlockIndex(nodes[i].name)} - {BlockIndex(nodes[i].part)}
  {
    hide BlockIndex;
    forall j | 0 <= j < i
      ensures BlockIndex(nodes[j].part) != BlockIndex(root) && BlockIndex(nodes[j].name) != BlockIndex(root)
    {
      OtherIndex(live, nodes[j].part, root);
      OtherIndex(live, nodes[j].name, root);
    }
    if i < |nodes| {
      var a, b := nodes[i].part, nodes[i].name;
      forall j | 0 <= j < i
        ensures BlockIndex(nodes[j].part) != BlockIndex(a) && BlockIndex(nodes[j].name) != BlockIndex(a)
        ensures BlockIndex(nodes[j].part) != BlockIndex(b) && BlockIndex(nodes[j].name) != BlockIndex(b)
      {
        OtherIndex(live, nodes[j].part, a);
        OtherIndex(live, nodes[j].name, a);
        OtherIndex(live, nodes[j].part, b);
        OtherIndex(live, nodes[j].name, b);
      }
      OtherIndex(live, a, b);
      assert FreedNodes(nodes, i + 1) == FreedNodes(nodes, i) + {BlockIndex(b)} + {BlockIndex(a)};
    }
  }

  lemma AllFreed(root: Frame, nodes: seq<Node>)
    ensures BlocksOf(Frames(root, nodes)) == FreedNodes(nodes, |nodes|) + {BlockIndex(root)}
  {
    hide BlockIndex;
    forall b ensures b in BlocksOf(Frames(root, nodes)) <==> b in FreedNodes(nodes, |nodes|) + {BlockIndex(root)} {
      if b in FreedNodes(nodes, |nodes|) {
        var j :| 0 <= j < |nodes| && (b == BlockIndex(nodes[j].part) || b == BlockIndex(nodes[j].name));
        assert nodes[j].part in Frames(root, nodes) && nodes[j].name in Frames(root, nodes);
      }
      assert root in Frames(root, nodes);
    }
  }

  /** What the walk over the list reads. */
  lemma WalkFacts(m: Mem, live: Runs, m1: Mem, root: Frame, nodes: seq<Node>, drive: int, parts: seq<seq<Byte>>, i: int)
    requires WellFormed(live) && PathAt(m, live, root, nodes, drive, parts) && OnlyTable(m, m1) && 0 <= i < |nodes|
    ensures WordIn(m1, nodes[i].part, 0) == nodes[i].name && WordIn(m1, nodes[i].part, 1) == NextPart(nodes, i)
    ensures 0x0100_0000 <= nodes[i].part <= 0xFFFF_F000
  {
    hide WordAt, BlockIndex, Delivered;
    assert RecordAt(m, nodes, i, parts[i]) && OneBlock(live, nodes[i].part);
    OneBlockInPool(live, nodes[i].part);
    assert SamePage(m, m1, nodes[i].part);
    SamePageWord(m, m1, nodes[i].part, 0);
    SamePageWord(m, m1, nodes[i].part, 1);
  }

  lemma RootFacts(m: Mem, live: Runs, root: Frame, nodes: seq<Node>, drive: int, parts: seq<seq<Byte>>)
    requires WellFormed(live) && PathAt(m, live, root, nodes, drive, parts)
    ensures WordIn(m, root, 1) == FirstPart(nodes) && Apart(live, nodes) && OneBlock(live, root) && Clear(root, nodes)
    ensures 0x0100_0000 <= root <= 0xFFFF_F000
  {
    OneBlockInPool(live, root);
  }

  lemma NoneFreed(live: Runs, nodes: seq<Node>)
    ensures live - FreedNodes(nodes, 0) == live
  {
  }

  /** Gives back exactly the blocks of the path. */
  method FreePath(k: Machine, root: Frame, ghost nodes: seq<Node>, ghost drive: int, ghost parts: seq<seq<Byte>>)
    requires k.Valid() && PathAt(k.ram[..], k.live, root, nodes, drive, parts)
    modifies k, k.ram
    ensures k.Valid() && k.live == old(k.live) - BlocksOf(Frames(root, nodes)) && OnlyTable(old(k.ram[..]), k.ram[..])
  {
    hide WordAt, BlockIndex, ListAt, PathAt, Encodes, Apart, Clear, OneBlock, Start, FreedNodes, WellFormed, Frames;
    ghost var m, live := k.ram[..], k.live;
    EncodesWell(m, live);
    RootFacts(m, live, root, nodes, drive, parts);
    var part := LoadWord(k.ram, root as int + 4);
    ghost var i := 0;
    NoneFreed(live, nodes);
    while part != 0
      invariant 0 <= i <= |nodes| && part == if i < |nodes| then nodes[i].part else 0
      invariant k.Valid() && k.live == live - FreedNodes(nodes, i) && OnlyTable(m, k.ram[..])
      decreases |nodes| - i
    {
      WalkFacts(m, live, k.ram[..], root, nodes, drive, parts, i);
      StillLive(live, nodes, i, root);
      var next := LoadWord(k.ram, part as int + 4);
      var name := LoadWord(k.ram, part);
      k.Free(name);
      k.Free(part);
      part := next;
      i := i + 1;
      if i < |nodes| { WalkFacts(m, live, m, root, nodes, drive, parts, i); }
    }
    if i < |nodes| { WalkFacts(m, live, m, root, nodes, drive, parts, i); }
    StillLive(live, nodes, |nodes|, root);
    k.Free(root);
    AllFreed(root, nodes);
  }

  /** Parsing a path and freeing the result restores the heap table byte for byte. */
  method ParseAndFree(k: Machine, path: seq<Byte>)
    requires k.Valid() && 0 !in path && |FreeSet(k.live)| >= 130
    modifies k, k.ram
    ensures k.Valid() && k.live == old(k.live) && Same(old(k.ram[..]), k.ram[..], 0x7E00, 0x7E00 + 25600)
  {
    hide WordAt, BlockIndex, PathAt, Encodes, Frames, FreeSet;
    ghost var m, live := k.ram[..], k.live;
    var root;
    ghost var nodes;
    root, nodes := ParsePath(k, path);
    if root != 0 {
      FreePath(k, root, nodes, Parse(path).drive, Parse(path).parts);
    }
    TableOfRuns(m, k.ram[..], live);
  }
}
