/** keyboard.c: the ring buffer of a process, with counters of 32 bits. */
module Keyboard {
  import opened Ram

  /** Slot of the `i`-th character behind a counter. */
  function SlotOf(counter: Word, i: nat): nat {
    (counter + i) % 1024
  }

  lemma WrapSlot(x: int)
    ensures Wrap(x) % 1024 == x % 1024
  {
    var q := x / 0x1_0000_0000;
    assert x == Wrap(x) + 1024 * (4194304 * q);
    Shift(Wrap(x), 4194304 * q);
  }

  lemma Shift(y: int, k: int)
    ensures (y + 1024 * k) % 1024 == y % 1024
  {
    var z, r := y / 1024, y % 1024;
    assert y + 1024 * k == 1024 * (z + k) + r;
    Digits(z + k, r);
  }

  lemma Digits(q: int, r: int)
    requires 0 <= r < 1024
    ensures (1024 * q + r) % 1024 == r
  {
  }

  lemma SlotsDiffer(counter: Word, i: nat, j: nat)
    requires i < 1024 && j < 1024 && i != j
    ensures SlotOf(counter, i) != SlotOf(counter, j)
  {
  }

  lemma SlotReached(counter: Word, s: nat) returns (i: nat)
    requires s < 1024
    ensures i < 1024 && SlotOf(counter, i) == s
  {
    i := (s - counter) % 1024;
    var q := (s - counter) / 1024;
    assert counter + i == s + 1024 * (-q);
    Shift(s, -q);
  }

  lemma NextSlot(head: Word, i: nat)
    ensures SlotOf(Wrap(head as int + 1), i) == SlotOf(head, i + 1)
  {
    var x := head as int + 1;
    assert Wrap(x) == x || Wrap(x) == x - 0x1_0000_0000;
    Shift(x + i, -4194304);
  }

  /** The characters between head and tail are `q`, oldest first; every other slot is zero. */
  ghost predicate Ring(b: seq<Byte>, head: Word, tail: Word, q: seq<Byte>) {
    && |b| == 1024 && |q| <= 1024 && 0 !in q && tail == Wrap(head + |q|)
    && (forall i :: 0 <= i < |q| ==> b[SlotOf(head, i)] == q[i])
    && (forall i :: |q| <= i < 1024 ==> b[SlotOf(head, i)] == 0)
  }

  /** A slot is nonzero exactly when it lies between head and tail. */
  lemma NonzeroIsQueued(b: seq<Byte>, head: Word, tail: Word, q: seq<Byte>, s: nat)
    requires Ring(b, head, tail, q) && s < 1024
    ensures b[s] != 0 <==> exists i :: 0 <= i < |q| && SlotOf(head, i) == s
  {
    hide SlotOf;
    var i := SlotReached(head, s);
    forall j | 0 <= j < |q| && SlotOf(head, j) == s ensures j == i {
      if j != i { SlotsDiffer(head, i, j); }
    }
  }

  lemma TailSlot(b: seq<Byte>, head: Word, tail: Word, q: seq<Byte>)
    requires Ring(b, head, tail, q)
    ensures tail % 1024 == SlotOf(head, |q|) && Wrap(tail as int + 1) == Wrap(head + |q| + 1)
    ensures Wrap(tail as int - 1) == Wrap(head + |q| - 1)
  {
    WrapSlot(head + |q|);
  }

  lemma PushRing(b: seq<Byte>, head: Word, tail: Word, q: seq<Byte>, c: Byte)
    requires Ring(b, head, tail, q) && c != 0 && |q| < 1024
    ensures Ring(b[tail % 1024 := c], head, Wrap(tail as int + 1), q + [c])
  {
    TailSlot(b, head, tail, q);
    hide SlotOf, Wrap;
    forall i | 0 <= i < 1024 && i != |q| ensures SlotOf(head, i) != tail % 1024 { SlotsDiffer(head, i, |q|); }
  }

  lemma PopRing(b: seq<Byte>, head: Word, tail: Word, q: seq<Byte>)
    requires Ring(b, head, tail, q) && q != []
    ensures b[head % 1024] == q[0]
    ensures Ring(b[head % 1024 := 0], Wrap(head as int + 1), tail, q[1..])
  {
    var b', head' := b[head % 1024 := 0], Wrap(head as int + 1);
    assert SlotOf(head, 0) == head % 1024;
    assert Wrap(head' + |q[1..]|) == Wrap(head + |q|);
    LastSlot(head);
    hide SlotOf, Wrap;
    forall i | 0 <= i < 1023 ensures b'[SlotOf(head', i)] == if i < |q| - 1 then q[i + 1] else 0 {
      NextSlot(head, i);
      SlotsDiffer(head, i + 1, 0);
    }
  }

  lemma LastSlot(head: Word)
    ensures SlotOf(Wrap(head as int + 1), 1023) == head % 1024
  {
    NextSlot(head, 1023);
    Shift(head, 1);
  }

  lemma BackRing(b: seq<Byte>, head: Word, tail: Word, q: seq<Byte>)
    requires Ring(b, head, tail, q) && q != []
    ensures Ring(b[Wrap(tail as int - 1) % 1024 := 0], head, Wrap(tail as int - 1), q[..|q| - 1])
  {
    TailSlot(b, head, tail, q);
    WrapSlot(head + |q| - 1);
    var n := |q| - 1;
    assert Wrap(tail as int - 1) % 1024 == SlotOf(head, n);
    hide SlotOf, Wrap;
    forall i | 0 <= i < 1024 && i != n ensures SlotOf(head, i) != SlotOf(head, n) { SlotsDiffer(head, i, n); }
  }

  class Buffer {
    const buffer: array<Byte>
    var head: Word
    var tail: Word
    ghost var queue: seq<Byte>

    ghost predicate Valid()
      reads this, buffer
    {
      Ring(buffer[..], head, tail, queue)
    }

    constructor ()
      ensures Valid() && queue == [] && fresh(buffer)
    {
      buffer := new Byte[1024](_ => 0);
      head, tail, queue := 0, 0, [];
    }

    method GetTailIndex() returns (i: nat)
      ensures i == tail % 1024
    {
      i := tail % 1024;
    }

    /** With room left a character joins the queue; the zero character is ignored. On a full buffer
        the oldest character is overwritten, the new one is delivered first, and buffer and counters
        stand for no queue at all. */
    method Push(c: Byte)
      requires Valid()
      modifies this, buffer
      ensures c == 0 ==> Valid() && queue == old(queue) && head == old(head)
      ensures c != 0 ==> head == old(head) && tail == Wrap(old(tail) as int + 1)
      ensures c != 0 ==> buffer[..] == old(buffer[..])[old(tail) % 1024 := c] && queue == old(queue) + [c]
      ensures c != 0 ==> (Valid() <==> |old(queue)| < 1024)
      ensures c != 0 && |old(queue)| == 1024 ==>
        buffer[head % 1024] == c && forall q :: !Ring(buffer[..], head, tail, q)
    {
      if c == 0 {
        return;
      }
      var slot := GetTailIndex();
      TailSlot(buffer[..], head, tail, queue);
      assert |queue| == 1024 ==> slot == head % 1024 by { Shift(head, 1); }
      if |queue| < 1024 { PushRing(buffer[..], head, tail, queue, c); }
      buffer[slot] := c;
      tail := Wrap(tail as int + 1);
      queue := queue + [c];
    }

    /** What the head's slot holds: on a queue the oldest character, or zero when there is none. */
    method Pop() returns (c: Byte)
      requires buffer.Length == 1024
      modifies this, buffer
      ensures c == old(buffer[head % 1024])
      ensures old(Valid()) ==> Valid()
      ensures old(Valid()) && old(queue) == [] ==>
        c == 0 && queue == [] && buffer[..] == old(buffer[..]) && head == old(head)
      ensures old(Valid()) && old(queue) != [] ==>
        c == old(queue)[0] && queue == old(queue)[1..] && head == Wrap(old(head) as int + 1)
    {
      var slot := head % 1024;
      c := buffer[slot];
      assert slot == SlotOf(head, 0);
      if Valid() && queue != [] { PopRing(buffer[..], head, tail, queue); }
      if c == 0 {
        return;
      }
      buffer[slot] := 0;
      head := Wrap(head as int + 1);
      queue := if queue == [] then [] else queue[1..];
    }

    /** Removes the newest character. With nothing to remove the tail falls behind the head, and buffer
        and counters stand for no queue at all. */
    method Backspace()
      requires Valid()
      modifies this, buffer
      ensures head == old(head) && tail == Wrap(old(tail) as int - 1)
      ensures buffer[..] == old(buffer[..])[tail % 1024 := 0]
      ensures old(queue) != [] ==> Valid() && queue == old(queue)[..|old(queue)| - 1]
      ensures old(queue) == [] ==> queue == [] && forall q :: !Ring(buffer[..], head, tail, q)
    {
      if queue != [] { BackRing(buffer[..], head, tail, queue); }
      tail := Wrap(tail as int - 1);
      var slot := GetTailIndex();
      buffer[slot] := 0;
      if queue != [] { queue := queue[..|queue| - 1]; }
    }
  }

  // ---- runs ---------------------------------------------------------------

  datatype Key = Pushed(c: Byte) | Popped | Erased

  /** The queue after `keys`, started from `q`. */
  ghost function Queue(q: seq<Byte>, keys: seq<Key>): seq<Byte> {
    if keys == [] then q
    else
      var before := Queue(q, keys[..|keys| - 1]);
      match keys[|keys| - 1]
      case Pushed(c) => if c == 0 then before else before + [c]
      case Popped => if before == [] then [] else before[1..]
      case Erased => if before == [] then [] else before[..|before| - 1]
  }

  /** What the pops among `keys` deliver. */
  ghost function Delivered(q: seq<Byte>, keys: seq<Key>): seq<Byte> {
    if keys == [] then []
    else
      var n := |keys| - 1;
      var before := Queue(q, keys[..n]);
      if keys[n].Popped? then Delivered(q, keys[..n]) + [if before == [] then 0 else before[0]]
      else Delivered(q, keys[..n])
  }

  /** Never more than 1024 characters outstanding, and no erasing from an empty buffer. */
  ghost predicate InBounds(q: seq<Byte>, keys: seq<Key>) {
    forall n :: 0 <= n < |keys| ==>
      match keys[n]
      case Pushed(c) => |Queue(q, keys[..n])| < 1024
      case Popped => true
      case Erased => Queue(q, keys[..n]) != []
  }

  /** In every such run the buffer is the queue, whatever the counters are. */
  method Run(k: Buffer, keys: seq<Key>) returns (out: seq<Byte>)
    requires k.Valid() && InBounds(k.queue, keys)
    modifies k, k.buffer
    ensures k.Valid() && k.queue == Queue(old(k.queue), keys) && out == Delivered(old(k.queue), keys)
  {
    out := [];
    for n := 0 to |keys|
      invariant k.Valid() && k.queue == Queue(old(k.queue), keys[..n]) && out == Delivered(old(k.queue), keys[..n])
    {
      assert keys[..n + 1][..n] == keys[..n];
      match keys[n]
      case Pushed(c) => k.Push(c);
      case Popped =>
        var c := k.Pop();
        out := out + [c];
      case Erased => k.Backspace();
    }
    assert keys[..|keys|] == keys;
  }

  /** Characters come out in the order they went in. */
  lemma {:induction false} FirstInFirstOut(cs: seq<Byte>, n: nat)
    requires 0 !in cs && n <= |cs|
    ensures var keys := seq(|cs|, i requires 0 <= i < |cs| => Pushed(cs[i])) + seq(n, _ => Popped);
      Queue([], keys) == cs[n..] && Delivered([], keys) == cs[..n]
    decreases |cs| + n
  {
    var keys := seq(|cs|, i requires 0 <= i < |cs| => Pushed(cs[i])) + seq(n, _ => Popped);
    if n > 0 {
      FirstInFirstOut(cs, n - 1);
      assert keys[..|keys| - 1] == seq(|cs|, i requires 0 <= i < |cs| => Pushed(cs[i])) + seq(n - 1, _ => Popped);
    } else if cs != [] {
      var front := cs[..|cs| - 1];
      FirstInFirstOut(front, 0);
      assert keys[..|keys| - 1] == seq(|front|, i requires 0 <= i < |front| => Pushed(front[i])) + seq(0, _ => Popped);
    }
  }

  /** A backspace typed first of all. */
  method EraseFirst() returns (k: Buffer)
    ensures forall q :: !Ring(k.buffer[..], k.head, k.tail, q)
  {
    k := new Buffer();
    k.Backspace();
  }

  /** One character more than there are slots: the last one comes out first. */
  method OneTooMany(c: Byte) returns (k: Buffer, first: Byte)
    requires c > 1
    ensures first == c
  {
    k := new Buffer();
    for i := 0 to 1024
      invariant k.Valid() && |k.queue| == i && fresh(k) && fresh(k.buffer)
    {
      k.Push(1);
    }
    k.Push(c);
    first := k.Pop();
  }
}
