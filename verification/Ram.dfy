/** Physical memory: 2^32 bytes, read and written as bytes or as little-endian
    32-bit words, and the two bit operations the paging code uses on words. */
module Ram {

  type Byte = b: int | 0 <= b < 256
  type Word = w: int | 0 <= w < 0x1_0000_0000
  type Mem = m: seq<Byte> | |m| == 0x1_0000_0000 ghost witness seq(0x1_0000_0000, _ => 0)

  /** Address arithmetic of the machine. */
  function Wrap(x: int): Word {
    x % 0x1_0000_0000
  }

  lemma WrapSmall(x: int)
    requires 0 <= x < 0x1_0000_0000
    ensures Wrap(x) == x
  {
  }

  // ---- bitwise operations -------------------------------------------------

  function Or(x: nat, y: nat): nat {
    if x == 0 && y == 0 then 0
    else 2 * Or(x / 2, y / 2) + (if x % 2 == 1 || y % 2 == 1 then 1 else 0)
  }

  function And(x: nat, y: nat): nat {
    if x == 0 || y == 0 then 0
    else 2 * And(x / 2, y / 2) + (if x % 2 == 1 && y % 2 == 1 then 1 else 0)
  }

  function Pow2(k: nat): (p: nat)
    ensures p > 0
  {
    if k == 0 then 1 else 2 * Pow2(k - 1)
  }

  lemma {:induction false} OrZero(x: nat)
    ensures Or(x, 0) == x && Or(0, x) == x
  {
    if x > 0 { OrZero(x / 2); }
  }

  /** Bits below an aligned value combine among themselves. */
  lemma {:induction false} OrShifted(q: nat, f: nat, g: nat, k: nat)
    requires f < Pow2(k) && g < Pow2(k)
    ensures Or(q * Pow2(k) + f, g) == q * Pow2(k) + Or(f, g) && Or(f, g) < Pow2(k)
  {
    if k == 0 {
      OrZero(q);
    } else {
      var p := q * Pow2(k - 1);
      assert q * Pow2(k) == 2 * p;
      assert (2 * p + f) / 2 == p + f / 2 && (2 * p + f) % 2 == f % 2;
      OrShifted(q, f / 2, g / 2, k - 1);
    }
  }

  lemma OrAligned(a: nat, f: nat, g: nat)
    requires a % 4096 == 0 && f < 4096 && g < 4096
    ensures Or(a, f) == a + f && Or(a + f, g) == a + Or(f, g) && Or(f, g) < 4096
  {
    hide Or;
    assert Pow2(12) == 4096;
    OrShifted(a / 4096, 0, f, 12);
    OrZero(f);
    OrShifted(a / 4096, f, g, 12);
  }

  lemma {:induction false} AndOnes(x: nat, k: nat)
    requires x < Pow2(k)
    ensures And(x, Pow2(k) - 1) == x
  {
    if x > 0 {
      var ones := Pow2(k) - 1;
      assert ones / 2 == Pow2(k - 1) - 1 && ones % 2 == 1;
      AndOnes(x / 2, k - 1);
    }
  }

  function Mask(n: nat, k: nat): nat {
    if k == 0 then Pow2(n) - 1 else 2 * Mask(n, k - 1)
  }

  /** Masking with `n` ones shifted left by `k` clears the `k` low bits. */
  lemma {:induction false} AndMask(x: nat, n: nat, k: nat)
    requires x < Pow2(n + k)
    ensures And(x, Mask(n, k)) == x - x % Pow2(k)
  {
    if k == 0 {
      AndOnes(x, n);
    } else {
      AndMask(x / 2, n, k - 1);
      AndEven(x, Mask(n, k - 1));
      ModTwice(x, Pow2(k - 1));
    }
  }

  lemma AndEven(x: nat, y: nat)
    ensures And(x, 2 * y) == 2 * And(x / 2, y)
  {
    var z := 2 * y;
    assert z / 2 == y && z % 2 == 0;
    if x != 0 && z != 0 { assert And(x, z) == 2 * And(x / 2, z / 2); }
  }

  lemma ModTwice(x: nat, p: nat)
    requires p > 0
    ensures x % (2 * p) == 2 * (x / 2 % p) + x % 2
  {
    var q, r := x / 2 / p, 2 * (x / 2 % p) + x % 2;
    assert x / 2 == p * q + x / 2 % p;
    assert x == (2 * p) * q + r;
    ModUnique(x, 2 * p, q, r);
  }

  lemma ModUnique(x: nat, p: nat, q: nat, r: nat)
    requires r < p && x == p * q + r
    ensures x % p == r && x / p == q
  {
    var d: int := x / p - q;
    assert x == p * (x / p) + x % p;
    assert p * d == r - x % p;
    assert d >= 1 ==> p * d >= p;
    assert d <= -1 ==> p * d <= -(p as int);
  }

  /** The page-aligned part of a tagged pointer. */
  function Untag(e: Word): (t: Word)
    ensures t % 4096 == 0 && t <= e < t + 4096
  {
    e - e % 4096
  }

  /** `Untag` is the mask 0xFFFFF000 of the paging code. */
  lemma UntagIsMask(e: Word)
    ensures And(e, 0xFFFF_F000) == Untag(e)
  {
    hide And;
    assert Pow2(12) == 4096 && Pow2(20) == 0x10_0000;
    assert Pow2(32) == 0x1_0000_0000 && Mask(20, 12) == 0xFFFF_F000;
    AndMask(e, 20, 12);
  }

  // ---- words --------------------------------------------------------------

  function WordAt(m: Mem, a: int): (w: Word)
    requires 0 <= a <= 0xFFFF_FFFC
  {
    m[a] as int + 256 * (m[a + 1] as int) + 65536 * (m[a + 2] as int) + 16777216 * (m[a + 3] as int)
  }

  function SetWord(m: Mem, a: int, w: Word): (m': Mem)
    requires 0 <= a <= 0xFFFF_FFFC
    ensures WordAt(m', a) == w
    ensures forall x :: 0 <= x < 0x1_0000_0000 && !(a <= x < a + 4) ==> m'[x] == m[x]
  {
    m[a := w % 256][a + 1 := w / 256 % 256][a + 2 := w / 256 / 256 % 256][a + 3 := w / 256 / 256 / 256]
  }

  /** The two memories agree on every address in `lo..hi`. */
  ghost predicate Same(m: Mem, m': Mem, lo: int, hi: int) {
    forall a :: 0 <= a < 0x1_0000_0000 && lo <= a < hi ==> m'[a] == m[a]
  }

  lemma SameWord(m: Mem, m': Mem, a: int)
    requires 0 <= a <= 0xFFFF_FFFC && Same(m, m', a, a + 4)
    ensures WordAt(m', a) == WordAt(m, a)
  {
  }

  /** memory.c: `memset`. */
  method Memset(ram: array<Byte>, p: Word, c: Byte, size: Word)
    requires ram.Length == 0x1_0000_0000 && p + size <= 0x1_0000_0000
    modifies ram
    ensures forall a: Word :: ram[..][a] == if p <= a < p + size then c else old(ram[..])[a]
  {
    for i := 0 to size
      invariant forall a: Word :: ram[a] == if p <= a < p + i then c else old(ram[a])
    {
      ram[p + i] := c;
    }
  }

  method CopyIn(ram: array<Byte>, p: Word, bytes: seq<Byte>)
    requires ram.Length == 0x1_0000_0000 && p + |bytes| <= 0x1_0000_0000
    modifies ram
    ensures forall a: Word :: ram[..][a] == if p <= a < p + |bytes| then bytes[a - p] else old(ram[..])[a]
  {
    for i := 0 to |bytes|
      invariant forall a: Word :: ram[a] == if p <= a < p + i then bytes[a - p] else old(ram[a])
    {
      ram[p + i] := bytes[i];
    }
  }

  method LoadWord(ram: array<Byte>, a: int) returns (w: Word)
    requires ram.Length == 0x1_0000_0000 && 0 <= a <= 0xFFFF_FFFC
    ensures w == WordAt(ram[..], a)
  {
    w := ram[a] as int + 256 * (ram[a + 1] as int) + 65536 * (ram[a + 2] as int) + 16777216 * (ram[a + 3] as int);
  }

  method StoreWord(ram: array<Byte>, a: int, w: Word)
    requires ram.Length == 0x1_0000_0000 && 0 <= a <= 0xFFFF_FFFC
    modifies ram
    ensures ram[..] == SetWord(old(ram[..]), a, w)
  {
    ram[a] := w % 256;
    ram[a + 1] := w / 256 % 256;
    ram[a + 2] := w / 256 / 256 % 256;
    ram[a + 3] := w / 256 / 256 / 256;
  }
}
