/** streamer.c and the read path of fat16.c. */
module Disk {
  import opened Ram

  /** A disk: the byte at every position. */
  type Image = nat -> Byte

  function Slice(disk: Image, from: nat, n: nat): (s: seq<Byte>)
    ensures |s| == n
  {
    seq(n, i requires 0 <= i < n => disk(from + i))
  }

  lemma SliceJoin(disk: Image, from: nat, n: nat, k: nat)
    ensures Slice(disk, from, n) + Slice(disk, from + n, k) == Slice(disk, from, n + k)
  {
  }

  class Stream {
    const disk: Image
    var position: int

    constructor (disk: Image)
      ensures this.disk == disk && position == 0
    {
      this.disk := disk;
      position := 0;
    }

    method ReadBlock(sector: nat) returns (buf: array<Byte>)
      ensures fresh(buf) && buf.Length == 512 && buf[..] == Slice(disk, 512 * sector, 512)
    {
      buf := new Byte[512](i requires 0 <= i < 512 => disk(512 * sector + i));
    }

    method Seek(position: int) returns (r: int)
      modifies this
      ensures r == 0 && this.position == position
    {
      this.position := position;
      r := 0;
    }

    /** Delivers the next `total` bytes of the disk, one sector at a time, and moves past them. */
    method Read(out: array<Byte>, at: nat, total: nat) returns (r: int)
      requires 0 <= position && position + total < 0x8000_0000 && at + total <= out.Length
      modifies this, out
      ensures r == 0 && position == old(position) + total
      ensures out[at..at + total] == Slice(disk, old(position), total)
      ensures forall i :: 0 <= i < out.Length && !(at <= i < at + total) ==> out[i] == old(out[i])
      decreases total
    {
      var sector, offset := position / 512, position % 512;
      var count := total;
      var overflow := offset + count >= 512;
      if overflow {
        count := count - ((offset + count) - 512);
      }
      var buf := ReadBlock(sector);
      for i := 0 to count
        invariant position == old(position) && buf[..] == Slice(disk, 512 * sector, 512)
        invariant out[at..at + i] == Slice(disk, position, i)
        invariant forall j :: 0 <= j < out.Length && !(at <= j < at + i) ==> out[j] == old(out[j])
      {
        assert buf[offset + i] == Slice(disk, 512 * sector, 512)[offset + i];
        SliceJoin(disk, position, i, 1);
        out[at + i] := buf[offset + i];
        assert out[at..at + i + 1] == out[at..at + i] + [out[at + i]];
      }
      position := position + count;
      r := 0;
      if overflow {
        ghost var head := out[at..at + count];
        r := Read(out, at + count, total - count);
        SliceJoin(disk, old(position), count, total - count);
        assert out[at..at + count] == head;
        assert out[at..at + total] == out[at..at + count] + out[at + count..at + total];
      }
    }
  }
}

module Fat16 {
  import opened Ram
  import opened Disk

  /** The parts of a mounted FAT16 volume that reading a file uses. `fat` answers the look-up of a
      cluster's table entry. */
  datatype Volume = Volume(disk: Image, sectorsPerCluster: nat, dataSector: nat, fat: int -> nat)

  predicate Sound(v: Volume) {
    1 <= v.sectorsPerCluster < 256
  }

  function ClusterBytes(v: Volume): (n: nat)
    ensures Sound(v) ==> n > 0
  {
    v.sectorsPerCluster * 512
  }

  /** How many whole pieces of `size` bytes lie before byte `offset`, and how far it lies into the next. */
  function Chunk(size: nat, offset: nat): nat
    requires size > 0
  {
    if offset < size then 0 else 1 + Chunk(size, offset - size)
  }

  function Rest(size: nat, offset: nat): (r: nat)
    requires size > 0
    ensures r < size
  {
    if offset < size then offset else Rest(size, offset - size)
  }

  lemma {:induction false} ChunkRest(size: nat, offset: nat)
    requires size > 0
    ensures offset == size * Chunk(size, offset) + Rest(size, offset)
    ensures offset / size == Chunk(size, offset) && offset % size == Rest(size, offset)
  {
    if offset >= size {
      ChunkRest(size, offset - size);
      assert size * (1 + Chunk(size, offset - size)) == size + size * Chunk(size, offset - size);
    }
    ModUnique(offset, size, Chunk(size, offset), Rest(size, offset));
  }

  /** Entries at which the walk gives up. They are the marks of 12-bit tables, and 0 for a free cluster. */
  predicate Stops(entry: int) {
    entry == 0xFF8 || entry == 0xFFF || entry == 0xFF7 || entry == 0xFF0 || entry == 0xFF6 || entry == 0
  }

  /** The `k`-th cluster of the chain at `c`, or -1. */
  function ClusterAt(v: Volume, c: int, k: nat): int
    decreases k
  {
    if k == 0 then c
    else
      var e := v.fat(c);
      if Stops(e) then -1 else ClusterAt(v, e, k - 1)
  }

  /** One step of the walk. The end marks of 16-bit tables, 0xFFF8 to 0xFFFF, are taken for clusters. */
  lemma {:induction false} EndMarkFollowed(v: Volume, c: int, k: nat)
    requires ClusterAt(v, c, k) != -1
    ensures var e := v.fat(ClusterAt(v, c, k));
      && ClusterAt(v, c, k + 1) == (if Stops(e) then -1 else e)
      && (0xFFF8 <= e <= 0xFFFF ==> ClusterAt(v, c, k + 1) == e)
    decreases k
  {
    if k == 0 {
      assert ClusterAt(v, c, 1) == if Stops(v.fat(c)) then -1 else ClusterAt(v, v.fat(c), 0);
    } else {
      EndMarkFollowed(v, v.fat(c), k - 1);
    }
  }

  function ClusterToSector(v: Volume, c: int): int {
    v.dataSector + (c - 2) * v.sectorsPerCluster
  }

  /** Where byte `o` of cluster `c` lies on the disk. */
  function Position(v: Volume, c: int, o: int): int {
    ClusterToSector(v, c) * 512 + o
  }

  method GetClusterForOffset(v: Volume, start: int, offset: nat) returns (r: int)
    requires Sound(v)
    ensures r == (var c := ClusterAt(v, start, Chunk(ClusterBytes(v), offset)); if c == -1 then -1 else c)
  {
    hide ClusterBytes, Chunk;
    ChunkRest(ClusterBytes(v), offset);
    var ahead := offset / ClusterBytes(v);
    var c := start;
    for i := 0 to ahead
      invariant ClusterAt(v, start, ahead) == ClusterAt(v, c, ahead - i)
    {
      var entry := v.fat(c);
      if entry == 0xFF8 || entry == 0xFFF {
        return -1;
      }
      if entry == 0xFF7 {
        return -1;
      }
      if entry == 0xFF0 || entry == 0xFF6 {
        return -1;
      }
      if entry == 0 {
        return -1;
      }
      c := entry;
    }
    r := c;
  }

  /** Every cluster of the chain at `c` lies in the data area, within reach of a signed position. */
  ghost predicate LaidOut(v: Volume, c: int) {
    forall k: nat :: ClusterAt(v, c, k) != -1 ==>
      2 <= ClusterAt(v, c, k) && 0 <= Position(v, ClusterAt(v, c, k), 0) < 0x8000_0000 - 2 * ClusterBytes(v)
  }

  /** The cluster that holds byte `offset` of the file. */
  function ClusterOf(v: Volume, c: int, offset: nat): int
    requires Sound(v)
  {
    ClusterAt(v, c, Chunk(ClusterBytes(v), offset))
  }

  /** Where byte `offset` of the file that starts at cluster `c` lies. */
  function FilePosition(v: Volume, c: int, offset: nat): int
    requires Sound(v)
  {
    Position(v, ClusterOf(v, c, offset), Rest(ClusterBytes(v), offset))
  }

  /** Where a read of the file from `offset` takes its `i`-th byte: whole pieces of cluster size,
      each starting as far into its cluster as `offset` does. */
  function ReadPosition(v: Volume, c: int, offset: nat, i: nat): int
    requires Sound(v)
    decreases i
  {
    var size := ClusterBytes(v);
    if i < size then Position(v, ClusterOf(v, c, offset), Rest(size, offset) + i)
    else ReadPosition(v, c, offset + size, i - size)
  }

  /** The chain reaches every piece of a read of `total` bytes from `offset`. */
  predicate Reaches(v: Volume, c: int, offset: nat, total: nat)
    requires Sound(v)
    decreases total
  {
    && ClusterOf(v, c, offset) != -1
    && (total > ClusterBytes(v) ==> Reaches(v, c, offset + ClusterBytes(v), total - ClusterBytes(v)))
  }

  /** `fat16_read_internal_from_stream`: walks the chain anew for every piece. */
  method ReadInternal(v: Volume, stream: Stream, c: int, offset: nat, total: nat, out: array<Byte>, at: nat)
    returns (r: int)
    requires Sound(v) && stream.disk == v.disk && LaidOut(v, c) && at + total <= out.Length
    modifies stream, out
    ensures r == if Reaches(v, c, offset, total) then 0 else -1
    ensures r == 0 ==> IsReadOf(v, c, offset, out[at..at + total])
    ensures forall i :: 0 <= i < out.Length && !(at <= i < at + total) ==> out[i] == old(out[i])
    decreases total
  {
    hide Chunk, Rest, ClusterAt, ClusterBytes, IsReadOf;
    var size := ClusterBytes(v);
    ChunkRest(size, offset);
    var cluster := GetClusterForOffset(v, c, offset);
    if cluster < 0 {
      return cluster;
    }
    var inner := offset % size;
    var start := ClusterToSector(v, cluster) * 512 + inner;
    var count := if total > size then size else total;
    r := stream.Seek(start);
    if r != 0 {
      return;
    }
    r := stream.Read(out, at, count);
    if r != 0 {
      return;
    }
    ghost var piece := out[at..at + count];
    FirstPiece(v, c, offset, piece);
    if total - count > 0 {
      r := ReadInternal(v, stream, c, offset + count, total - count, out, at + count);
      assert out[at..at + total] == piece + out[at + count..at + total];
      if r == 0 { JoinPieces(v, c, offset, piece, out[at + count..at + total]); }
    }
  }

  /** `s` is what a read of the file from `offset` takes. */
  ghost predicate IsReadOf(v: Volume, c: int, offset: nat, s: seq<Byte>)
    requires Sound(v)
  {
    forall i :: 0 <= i < |s| ==> Holds(v, ReadPosition(v, c, offset, i), s[i])
  }

  lemma FirstPiece(v: Volume, c: int, offset: nat, s: seq<Byte>)
    requires Sound(v) && |s| <= ClusterBytes(v) && 0 <= FilePosition(v, c, offset)
    requires s == Slice(v.disk, FilePosition(v, c, offset), |s|)
    ensures IsReadOf(v, c, offset, s)
  {
  }

  lemma JoinPieces(v: Volume, c: int, offset: nat, s: seq<Byte>, t: seq<Byte>)
    requires Sound(v) && |s| == ClusterBytes(v) && IsReadOf(v, c, offset, s) && IsReadOf(v, c, offset + |s|, t)
    ensures IsReadOf(v, c, offset, s + t)
  {
    hide ClusterBytes, Position, ClusterOf;
    forall i | 0 <= i < |s + t| ensures Holds(v, ReadPosition(v, c, offset, i), (s + t)[i]) {
      if i >= |s| { assert Holds(v, ReadPosition(v, c, offset + |s|, i - |s|), t[i - |s|]); }
    }
  }

  /** Byte `b` is the one at position `p` of the disk. */
  predicate Holds(v: Volume, p: int, b: Byte) {
    0 <= p && b == v.disk(p)
  }

  lemma {:induction false} ChunkAdd(size: nat, k: nat, offset: nat)
    requires size > 0
    ensures size * k >= 0
    ensures Chunk(size, offset + size * k) == Chunk(size, offset) + k
    ensures Rest(size, offset + size * k) == Rest(size, offset)
  {
    if k > 0 {
      var before := offset + size * (k - 1);
      ChunkAdd(size, k - 1, offset);
      assert offset + size * k == before + size;
    }
  }

  /** The piece of a read that holds its `i`-th byte, and where in its cluster that byte is sought. */
  lemma {:induction false} ReadPiece(v: Volume, c: int, offset: nat, i: nat)
    requires Sound(v)
    ensures var size := ClusterBytes(v);
      ReadPosition(v, c, offset, i) ==
      Position(v, ClusterAt(v, c, Chunk(size, offset) + Chunk(size, i)), Rest(size, offset) + Rest(size, i))
    decreases i
  {
    hide ClusterAt, Position, ClusterBytes;
    var size := ClusterBytes(v);
    if i >= size { ReadPiece(v, c, offset + size, i - size); }
  }

  /** The piece of the file that holds byte `offset + i`. */
  lemma FilePiece(v: Volume, c: int, offset: nat, i: nat)
    requires Sound(v)
    ensures var size := ClusterBytes(v);
      var k, o := Chunk(size, offset) + Chunk(size, i), Rest(size, offset) + Rest(size, i);
      FilePosition(v, c, offset + i) ==
      if o < size then Position(v, ClusterAt(v, c, k), o) else Position(v, ClusterAt(v, c, k + 1), o - size)
  {
    hide ClusterAt, Position, ClusterBytes;
    var size := ClusterBytes(v);
    ChunkRest(size, offset);
    ChunkRest(size, i);
    var k, o := Chunk(size, offset) + Chunk(size, i), Rest(size, offset) + Rest(size, i);
    assert offset + i == o + size * k by { Distribute(size, Chunk(size, offset), Chunk(size, i)); }
    ChunkAdd(size, k, o);
  }

  lemma Distribute(size: nat, a: nat, b: nat)
    ensures size * (a + b) == size * a + size * b
  {
  }

  /** Neighbouring positions in neighbouring clusters. */
  lemma NextCluster(v: Volume, a: int, b: int, o: int)
    requires Sound(v)
    ensures Position(v, b, o) == Position(v, a, o + ClusterBytes(v)) <==> b == a + 1
  {
    var d := b - a;
    assert (b - 2) * v.sectorsPerCluster == (a - 2) * v.sectorsPerCluster + d * v.sectorsPerCluster;
    assert d >= 2 ==> d * v.sectorsPerCluster > v.sectorsPerCluster;
    assert d <= 0 ==> d * v.sectorsPerCluster <= 0;
  }

  /** Byte `i` of a read needs the cluster after the one it is sought in. */
  predicate Crosses(v: Volume, offset: nat, i: nat)
    requires Sound(v)
  {
    Rest(ClusterBytes(v), offset) + Rest(ClusterBytes(v), i) >= ClusterBytes(v)
  }

  /** A read takes its `i`-th byte from the right place exactly when the byte stays in its cluster or
      the file's next cluster is the next one on the disk. */
  lemma ByteIsRight(v: Volume, c: int, offset: nat, i: nat)
    requires Sound(v)
    ensures var k := Chunk(ClusterBytes(v), offset) + Chunk(ClusterBytes(v), i);
      ReadPosition(v, c, offset, i) == FilePosition(v, c, offset + i) <==>
      (Crosses(v, offset, i) ==> ClusterAt(v, c, k + 1) == ClusterAt(v, c, k) + 1)
  {
    hide ClusterAt, Position, ClusterBytes, Chunk, Rest;
    var size := ClusterBytes(v);
    var k, o := Chunk(size, offset) + Chunk(size, i), Rest(size, offset) + Rest(size, i);
    ReadPiece(v, c, offset, i);
    FilePiece(v, c, offset, i);
    if o >= size { NextCluster(v, ClusterAt(v, c, k), ClusterAt(v, c, k + 1), o - size); }
  }

  /** Aligned reads and reads inside one cluster never cross. */
  lemma NeverCrosses(v: Volume, offset: nat, total: nat, i: nat)
    requires Sound(v) && i < total
    requires offset % ClusterBytes(v) == 0 || offset % ClusterBytes(v) + total <= ClusterBytes(v)
    ensures !Crosses(v, offset, i)
  {
    hide ClusterBytes;
    ChunkRest(ClusterBytes(v), offset);
  }

  /** The bytes of the file. */
  ghost predicate IsFileSlice(v: Volume, c: int, offset: nat, s: seq<Byte>)
    requires Sound(v)
  {
    forall i :: 0 <= i < |s| ==> Holds(v, FilePosition(v, c, offset + i), s[i])
  }

  /** What a read takes is the requested slice of the file, for cluster-aligned offsets and for reads
      that stay in one cluster. */
  lemma ReadIsSlice(v: Volume, c: int, offset: nat, s: seq<Byte>)
    requires Sound(v) && IsReadOf(v, c, offset, s)
    requires offset % ClusterBytes(v) == 0 || offset % ClusterBytes(v) + |s| <= ClusterBytes(v)
    ensures IsFileSlice(v, c, offset, s)
  {
    hide ClusterBytes, Chunk, Rest, ClusterAt, ReadPosition;
    forall i | 0 <= i < |s| ensures ReadPosition(v, c, offset, i) == FilePosition(v, c, offset + i) {
      NeverCrosses(v, offset, |s|, i);
      ByteIsRight(v, c, offset, i);
    }
  }

  /** Byte `i` of the read stays in its cluster, or the next cluster of the chain follows on the disk. */
  predicate Adjacent(v: Volume, c: int, offset: nat, i: nat)
    requires Sound(v)
  {
    var k := Chunk(ClusterBytes(v), offset) + Chunk(ClusterBytes(v), i);
    Crosses(v, offset, i) ==> ClusterAt(v, c, k + 1) == ClusterAt(v, c, k) + 1
  }

  lemma {:induction false} SameChain(v: Volume, d: Image, c: int, k: nat)
    ensures ClusterAt(v.(disk := d), c, k) == ClusterAt(v, c, k)
    decreases k
  {
    if k > 0 && !Stops(v.fat(c)) { SameChain(v, d, v.fat(c), k - 1); }
  }

  lemma SamePlaces(v: Volume, d: Image, c: int, offset: nat, i: nat)
    requires Sound(v)
    ensures ReadPosition(v.(disk := d), c, offset, i) == ReadPosition(v, c, offset, i)
    ensures FilePosition(v.(disk := d), c, offset) == FilePosition(v, c, offset)
  {
    hide ClusterAt, Chunk, Rest, ReadPosition;
    ReadPiece(v, c, offset, i);
    ReadPiece(v.(disk := d), c, offset, i);
    SameChain(v, d, c, Chunk(ClusterBytes(v), offset) + Chunk(ClusterBytes(v), i));
    SameChain(v, d, c, Chunk(ClusterBytes(v), offset));
  }

  /** The places of a read and of the file are on the disk. */
  ghost predicate OnDisk(v: Volume, c: int, offset: nat, total: nat)
    requires Sound(v)
  {
    forall i :: 0 <= i < total ==> 0 <= ReadPosition(v, c, offset, i) && 0 <= FilePosition(v, c, offset + i)
  }

  /** On the disk `d`, whatever a read delivers is the slice of the file. */
  ghost predicate Delivers(v: Volume, d: Image, c: int, offset: nat, total: nat)
    requires Sound(v)
  {
    forall s: seq<Byte> :: |s| == total && IsReadOf(v.(disk := d), c, offset, s) ==>
      IsFileSlice(v.(disk := d), c, offset, s)
  }

  /** A read delivers the requested slice whatever the disk holds, exactly when every byte that crosses a
      cluster boundary finds the next cluster of its chain behind it. */
  lemma SliceExactly(v: Volume, c: int, offset: nat, total: nat)
    requires Sound(v) && OnDisk(v, c, offset, total)
    ensures (forall d: Image :: Delivers(v, d, c, offset, total)) <==>
      forall i :: 0 <= i < total ==> Adjacent(v, c, offset, i)
  {
    hide ClusterBytes, Chunk, Rest, ClusterAt, ReadPosition, FilePosition, Crosses;
    forall i | 0 <= i < total
      ensures ReadPosition(v, c, offset, i) == FilePosition(v, c, offset + i) <==> Adjacent(v, c, offset, i)
    {
      ByteIsRight(v, c, offset, i);
    }
    if i :| 0 <= i < total && !Adjacent(v, c, offset, i) {
      var d := Marked(FilePosition(v, c, offset + i));
      Misses(v, c, offset, total, i);
      assert !Delivers(v, d, c, offset, total);
    } else {
      forall d: Image ensures Delivers(v, d, c, offset, total) {
        forall j | 0 <= j < total
          ensures ReadPosition(v.(disk := d), c, offset, j) == FilePosition(v.(disk := d), c, offset + j)
        {
          SamePlaces(v, d, c, offset, j);
          SamePlaces(v, d, c, offset + j, 0);
          assert Adjacent(v, c, offset, j);
        }
      }
    }
  }

  /** A disk with one byte on it. */
  function Marked(p: int): Image {
    (x: nat) => if x == p then 1 else 0
  }

  lemma Misses(v: Volume, c: int, offset: nat, total: nat, i: nat)
    requires Sound(v) && OnDisk(v, c, offset, total) && i < total
    requires ReadPosition(v, c, offset, i) != FilePosition(v, c, offset + i)
    ensures !Delivers(v, Marked(FilePosition(v, c, offset + i)), c, offset, total)
  {
    hide ClusterBytes, Chunk, Rest, ClusterAt, ReadPosition, FilePosition;
    var d := Marked(FilePosition(v, c, offset + i));
    var w := v.(disk := d);
    forall j | 0 <= j < total
      ensures ReadPosition(w, c, offset, j) == ReadPosition(v, c, offset, j)
    {
      SamePlaces(v, d, c, offset, j);
    }
    SamePlaces(v, d, c, offset + i, 0);
    var s: seq<Byte> := seq(total, j requires 0 <= j < total => d(ReadPosition(v, c, offset, j)));
    assert IsReadOf(w, c, offset, s);
    assert !Holds(w, FilePosition(w, c, offset + i), s[i]);
  }

  /** One sector per cluster, and a file in clusters 2 and 4; one byte on the disk, the first of cluster 4. */
  function Fragmented(): Volume {
    Volume(Marked(1024), 1, 0, (e: int) => if e == 2 then 4 else if e == 4 then 0xFFF else 0)
  }

  /** Reading 512 bytes from offset 1 succeeds and misses that byte. */
  lemma FragmentedRead(v: Volume, offset: nat, s: seq<Byte>)
    requires v == Fragmented() && offset == 1 && |s| == 512
    ensures Sound(v) && LaidOut(v, 2) && Reaches(v, 2, offset, 512)
    ensures IsReadOf(v, 2, offset, s) ==> !IsFileSlice(v, 2, offset, s)
  {
    hide Fragmented, ReadPosition, FilePosition, ClusterAt, Reaches, Marked;
    FragmentedVolume(v);
    FragmentedPlaces(v, offset, 511);
    if IsReadOf(v, 2, offset, s) {
      assert Holds(v, ReadPosition(v, 2, offset, 511), s[511]);
      assert !Holds(v, FilePosition(v, 2, offset + 511), s[511]);
    }
  }

  lemma FragmentedVolume(v: Volume)
    requires v == Fragmented()
    ensures v.sectorsPerCluster == 1 && v.dataSector == 0 && v.disk(512) == 0 && v.disk(1024) == 1
    ensures ClusterAt(v, 2, 0) == 2 && ClusterAt(v, 2, 1) == 4 && forall k: nat :: k >= 2 ==> ClusterAt(v, 2, k) == -1
  {
    assert ClusterAt(v, 4, 0) == 4;
    forall k: nat | k >= 2 ensures ClusterAt(v, 2, k) == -1 {
      assert ClusterAt(v, 2, k) == ClusterAt(v, 4, k - 1) == -1;
    }
  }

  lemma FragmentedPlaces(v: Volume, offset: nat, i: nat)
    requires v.sectorsPerCluster == 1 && v.dataSector == 0 && offset == 1 && i == 511
    requires ClusterAt(v, 2, 0) == 2 && ClusterAt(v, 2, 1) == 4 && forall k: nat :: k >= 2 ==> ClusterAt(v, 2, k) == -1
    ensures ReadPosition(v, 2, offset, i) == 512 && FilePosition(v, 2, offset + i) == 1024
    ensures Reaches(v, 2, offset, 512) && LaidOut(v, 2)
  {
    hide ClusterAt, Chunk, Rest, ReadPosition;
    ChunkRest(512, offset);
    ChunkRest(512, i);
    ChunkRest(512, offset + i);
    ReadPiece(v, 2, offset, i);
    forall k: nat | ClusterAt(v, 2, k) != -1 ensures ClusterAt(v, 2, k) == 2 || ClusterAt(v, 2, k) == 4 {
      assert k == 0 || k == 1;
    }
  }

  /** The chain reaches all `count` elements of `size` bytes. */
  predicate ReachesAll(v: Volume, c: int, offset: nat, size: nat, count: nat)
    requires Sound(v)
    decreases count
  {
    count == 0 || (Reaches(v, c, offset, size) && ReachesAll(v, c, offset + size, size, count - 1))
  }

  /** `fat16_read`: `count` elements of `size` bytes, one read each. */
  method ReadFile(v: Volume, stream: Stream, first: int, position: nat, size: nat, count: nat, out: array<Byte>)
    returns (r: int)
    requires Sound(v) && stream.disk == v.disk && LaidOut(v, first) && size * count <= out.Length
    modifies stream, out
    ensures r == if ReachesAll(v, first, position, size, count) then count else -1
    ensures r >= 0 ==> forall e :: 0 <= e < count ==> ElementRead(v, first, position, size, e, out[..])
  {
    hide ClusterBytes, Chunk, Rest, ClusterAt, ReadPosition;
    var offset, at := position, 0;
    for e := 0 to count
      invariant at == size * e && offset == position + at && at <= out.Length
      invariant ReachesAll(v, first, position, size, count) == ReachesAll(v, first, offset, size, count - e)
      invariant forall x :: 0 <= x < e ==> ElementRead(v, first, position, size, x, out[..])
    {
      Room(size, e, count);
      ghost var before := out[..];
      r := ReadInternal(v, stream, first, offset, size, out, at);
      if r < 0 {
        return;
      }
      forall x | 0 <= x < e
        ensures ElementRead(v, first, position, size, x, out[..])
      {
        Earlier(v, first, position, size, x, e, before, out[..]);
      }
      at := at + size;
      offset := offset + size;
    }
    r := count;
  }

  lemma Room(size: nat, e: nat, count: nat)
    requires e < count
    ensures 0 <= size * e && size * e + size == size * (e + 1) <= size * count
  {
  }

  /** Element `e` of a read was delivered. */
  ghost predicate ElementRead(v: Volume, c: int, position: nat, size: nat, e: nat, out: seq<Byte>)
    requires Sound(v)
  {
    && 0 <= size * e && size * e + size <= |out|
    && IsReadOf(v, c, position + size * e, out[size * e..size * e + size])
  }

  /** An element of a file read is its slice of the file, under the same condition on its own offset. */
  lemma ElementIsSlice(v: Volume, c: int, position: nat, size: nat, e: nat, out: seq<Byte>)
    requires Sound(v) && ElementRead(v, c, position, size, e, out)
    requires var offset := position + size * e;
      offset % ClusterBytes(v) == 0 || offset % ClusterBytes(v) + size <= ClusterBytes(v)
    ensures IsFileSlice(v, c, position + size * e, out[size * e..size * e + size])
  {
    hide ClusterBytes;
    ReadIsSlice(v, c, position + size * e, out[size * e..size * e + size]);
  }

  lemma Earlier(v: Volume, c: int, position: nat, size: nat, x: nat, e: nat, before: seq<Byte>, after: seq<Byte>)
    requires Sound(v) && x < e && ElementRead(v, c, position, size, x, before) && |after| == |before|
    requires forall i :: 0 <= i < |after| && i < size * e ==> after[i] == before[i]
    ensures ElementRead(v, c, position, size, x, after)
  {
    Room(size, x, e);
    assert after[size * x..size * x + size] == before[size * x..size * x + size];
  }

  // ---- in numbers ---------------------------------------------------------

  /** The numbers that the look-ups give from cluster `c` on, one after the other. */
  ghost predicate LookedUp(v: Volume, c: int, chain: seq<int>) {
    chain != [] && chain[0] == c && forall x, y :: 0 <= x && y == x + 1 < |chain| ==> chain[y] == v.fat(chain[x])
  }

  lemma {:induction false} ChainIs(v: Volume, c: int, chain: seq<int>, k: nat)
    requires LookedUp(v, c, chain) && k < |chain| && 0 <= c
    ensures (forall x :: 1 <= x <= k ==> !Stops(chain[x])) <==> ClusterAt(v, c, k) != -1
    ensures ClusterAt(v, c, k) != -1 ==> ClusterAt(v, c, k) == chain[k]
    decreases k
  {
    if k > 0 {
      var rest := chain[1..];
      assert rest[0] == chain[1] == v.fat(c);
      forall x, y | 0 <= x && y == x + 1 < |rest| ensures rest[y] == v.fat(rest[x]) {
        assert rest[y] == chain[y + 1] && rest[x] == chain[x + 1];
      }
      ChainIs(v, v.fat(c), rest, k - 1);
      if forall x :: 1 <= x <= k ==> !Stops(chain[x]) {
        forall x | 1 <= x <= k - 1 ensures !Stops(rest[x]) { assert rest[x] == chain[x + 1]; }
      }
      if ClusterAt(v, c, k) != -1 {
        forall x | 1 <= x <= k ensures !Stops(chain[x]) { assert x > 1 ==> chain[x] == rest[x - 1]; }
      }
    }
  }

  lemma {:induction false} MinusOneStays(v: Volume, c: int, j: nat, k: nat)
    requires j <= k && ClusterAt(v, c, k) != -1 && 0 <= c
    ensures ClusterAt(v, c, j) != -1
    decreases k
  {
    if j > 0 { MinusOneStays(v, v.fat(c), j - 1, k - 1); }
  }

  /** A read needs the look-ups up to the cluster where its last piece starts, and no others. */
  lemma {:induction false} ReachesChunks(v: Volume, c: int, offset: nat, total: nat, b: nat)
    requires Sound(v) && 0 <= c
    requires b == Chunk(ClusterBytes(v), offset) + Chunk(ClusterBytes(v), if total == 0 then 0 else total - 1)
    ensures Reaches(v, c, offset, total) <==> ClusterAt(v, c, b) != -1
    decreases total
  {
    hide ClusterBytes, ClusterAt;
    var size := ClusterBytes(v);
    if total > size {
      ReachesChunks(v, c, offset + size, total - size, b);
      if ClusterAt(v, c, b) != -1 { MinusOneStays(v, c, Chunk(size, offset), b); }
    }
  }

  /** A read succeeds exactly when none of the look-ups up to its last piece gives 0xFF0, 0xFF6, 0xFF7, 0xFF8, 0xFFF
      or 0. */
  lemma ReachesIs(v: Volume, c: int, offset: nat, total: nat, chain: seq<int>, last: nat)
    requires 1 <= v.sectorsPerCluster < 256 && 0 <= c
    requires last == offset / (512 * v.sectorsPerCluster)
      + (if total == 0 then 0 else total - 1) / (512 * v.sectorsPerCluster) < |chain|
    requires chain[0] == c && forall x, y :: 0 <= x && y == x + 1 < |chain| ==> chain[y] == v.fat(chain[x])
    ensures Reaches(v, c, offset, total) <==> forall k :: 1 <= k <= last ==>
      && chain[k] != 0xFF0 && chain[k] != 0xFF6 && chain[k] != 0xFF7 && chain[k] != 0xFF8 && chain[k] != 0xFFF
      && chain[k] != 0
  {
    hide ClusterAt, Chunk, Reaches;
    var size := ClusterBytes(v);
    assert size == 512 * v.sectorsPerCluster;
    ChunkRest(size, offset);
    var end := if total == 0 then 0 else total - 1;
    ChunkRest(size, end);
    ReachesChunks(v, c, offset, total, last);
    ChainIs(v, c, chain, last);
  }

  lemma ReadChunks(v: Volume, c: int, offset: nat, s: seq<Byte>, chain: seq<int>, i: nat, k: nat)
    requires Sound(v) && 0 <= c && i < |s|
    requires LookedUp(v, c, chain) && k == Chunk(ClusterBytes(v), offset) + Chunk(ClusterBytes(v), i) < |chain|
    requires IsReadOf(v, c, offset, s) && Reaches(v, c, offset, |s|)
    ensures Holds(v, Position(v, chain[k], Rest(ClusterBytes(v), offset) + Rest(ClusterBytes(v), i)), s[i])
  {
    hide ClusterAt, Chunk, Reaches, ReadPosition, Rest, Position, ClusterBytes, LookedUp, Holds;
    ReadPiece(v, c, offset, i);
    assert ClusterAt(v, c, k) == chain[k] by {
      ReachesByte(v, c, offset, |s|, i, k);
      ChainIs(v, c, chain, k);
    }
  }

  /** The chain reaches the piece of a byte. */
  lemma ReachesByte(v: Volume, c: int, offset: nat, total: nat, i: nat, k: nat)
    requires Sound(v) && i < total && Reaches(v, c, offset, total) && 0 <= c
    requires k == Chunk(ClusterBytes(v), offset) + Chunk(ClusterBytes(v), i)
    ensures ClusterAt(v, c, k) != -1
  {
    hide ClusterAt, Chunk, Reaches, ClusterBytes;
    var size := ClusterBytes(v);
    var b := Chunk(size, offset) + Chunk(size, total - 1);
    ReachesChunks(v, c, offset, total, b);
    ChunksGrow(size, i, total - 1);
    MinusOneStays(v, c, k, b);
  }

  lemma {:induction false} ChunksGrow(size: nat, i: nat, n: nat)
    requires size > 0 && i <= n
    ensures Chunk(size, i) <= Chunk(size, n)
    decreases n
  {
    if i >= size { ChunksGrow(size, i - size, n - size); }
  }

  /** Where every byte of a read comes from: piece `i / size` of the read, each of the size of a cluster, starts
      `offset % size` bytes into the cluster that `offset / size + i / size` look-ups lead to, and the clusters lie
      one after the other from number 2 on in the data area. */
  lemma ReadIs(v: Volume, c: int, offset: nat, s: seq<Byte>, chain: seq<int>, size: int, k: int, i: int)
    requires 1 <= v.sectorsPerCluster < 256 && 0 <= c && size == 512 * v.sectorsPerCluster
    requires IsReadOf(v, c, offset, s) && Reaches(v, c, offset, |s|) && 0 <= i < |s|
    requires 0 <= k < |chain| && k == offset / size + i / size
    requires chain[0] == c && forall x, y :: 0 <= x && y == x + 1 < |chain| ==> chain[y] == v.fat(chain[x])
    ensures var p := 512 * v.dataSector + (chain[k] - 2) * size + (offset % size + i % size);
      0 <= p && s[i] == v.disk(p)
  {
    hide ClusterAt, Chunk, Reaches, IsReadOf, Rest, Position;
    assert size == ClusterBytes(v);
    ChunkRest(size, offset);
    ChunkRest(size, i);
    ReadChunks(v, c, offset, s, chain, i, k);
    PositionIs(v, chain[k], offset % size + i % size);
  }

  lemma PositionIs(v: Volume, c: int, o: int)
    ensures Position(v, c, o) == 512 * v.dataSector + (c - 2) * (512 * v.sectorsPerCluster) + o
  {
    var a, n := c - 2, v.sectorsPerCluster;
    assert (a * n) * 512 == a * (512 * n);
  }

  /** A successful read from the start of a cluster, or inside one, takes byte `i` from where byte `offset + i` of the
      file lies: that far, counted in clusters, along the chain. */
  lemma AlignedReadIs(v: Volume, c: int, offset: nat, s: seq<Byte>, chain: seq<int>, size: int, k: int, i: int)
    requires 1 <= v.sectorsPerCluster < 256 && 0 <= c && size == 512 * v.sectorsPerCluster
    requires IsReadOf(v, c, offset, s) && Reaches(v, c, offset, |s|) && 0 <= i < |s|
    requires offset % size == 0 || offset % size + |s| <= size
    requires 0 <= k < |chain| && k == (offset + i) / size
    requires chain[0] == c && forall x, y :: 0 <= x && y == x + 1 < |chain| ==> chain[y] == v.fat(chain[x])
    ensures var p := 512 * v.dataSector + (chain[k] - 2) * size + (offset + i) % size;
      0 <= p && s[i] == v.disk(p)
  {
    hide Reaches, IsReadOf;
    SumParts(size, offset, i, |s|);
    ReadIs(v, c, offset, s, chain, size, k, i);
  }

  lemma SumParts(size: nat, offset: nat, i: nat, n: nat)
    requires size > 0 && i < n && (offset % size == 0 || offset % size + n <= size)
    ensures (offset + i) / size == offset / size + i / size && (offset + i) % size == offset % size + i % size
  {
    hide Chunk, Rest;
    ChunkRest(size, offset);
    ChunkRest(size, i);
    var a, b, q, r := Chunk(size, offset), Chunk(size, i), Rest(size, offset), Rest(size, i);
    Distribute(size, a, b);
    if q + n <= size { ModUnique(i, size, 0, i); }
    ModUnique(offset + i, size, a + b, q + r);
  }

  /** Elements are read one after the other, and the last one needs the most look-ups. */
  lemma {:induction false} ReachesLast(v: Volume, c: int, offset: nat, size: nat, count: nat)
    requires Sound(v) && 0 <= c && count > 0
    ensures size * (count - 1) >= 0
    ensures ReachesAll(v, c, offset, size, count) <==> Reaches(v, c, offset + size * (count - 1), size)
    decreases count
  {
    hide Reaches;
    if count > 1 {
      ReachesLast(v, c, offset + size, size, count - 1);
      assert offset + size + size * (count - 1 - 1) == offset + size * (count - 1);
      if Reaches(v, c, offset + size * (count - 1), size) {
        ReachesFewer(v, c, offset, offset + size * (count - 1), size);
      }
    } else {
      assert ReachesAll(v, c, offset + size, size, 0);
    }
  }

  lemma ReachesFewer(v: Volume, c: int, offset: nat, later: nat, size: nat)
    requires Sound(v) && 0 <= c && offset <= later && Reaches(v, c, later, size)
    ensures Reaches(v, c, offset, size)
  {
    hide Reaches, Chunk, ClusterAt, ClusterBytes;
    var n := ClusterBytes(v);
    var x := Chunk(n, if size == 0 then 0 else size - 1);
    ReachesChunks(v, c, offset, size, Chunk(n, offset) + x);
    ReachesChunks(v, c, later, size, Chunk(n, later) + x);
    ChunksGrow(n, offset, later);
    MinusOneStays(v, c, Chunk(n, offset) + x, Chunk(n, later) + x);
  }

  /** The place of a byte of the file: as many look-ups as there are whole clusters before it, and the rest. */
  lemma FilePositionIs(v: Volume, c: int, offset: nat, chain: seq<int>, size: int, k: int)
    requires 1 <= v.sectorsPerCluster < 256 && 0 <= c && size == 512 * v.sectorsPerCluster
    requires 0 <= k < |chain| && k == offset / size
    requires chain[0] == c && forall x, y :: 0 <= x && y == x + 1 < |chain| ==> chain[y] == v.fat(chain[x])
    requires forall x :: 1 <= x <= k ==>
      && chain[x] != 0xFF0 && chain[x] != 0xFF6 && chain[x] != 0xFF7 && chain[x] != 0xFF8 && chain[x] != 0xFFF
      && chain[x] != 0
    ensures FilePosition(v, c, offset) == 512 * v.dataSector + (chain[k] - 2) * size + offset % size
  {
    hide ClusterAt, Chunk, Rest, Position;
    assert size == ClusterBytes(v);
    ChunkRest(size, offset);
    ChainIs(v, c, chain, k);
    PositionIs(v, chain[k], offset % size);
  }

  lemma {:induction false} ReachesElement(v: Volume, c: int, position: nat, size: nat, count: nat, e: nat)
    requires Sound(v) && e < count && ReachesAll(v, c, position, size, count)
    ensures size * e >= 0 && Reaches(v, c, position + size * e, size)
    decreases e
  {
    hide Reaches;
    if e > 0 {
      ReachesElement(v, c, position + size, size, count - 1, e - 1);
      assert position + size + size * (e - 1) == position + size * e;
    }
  }

  /** A file read of `count` elements succeeds exactly when none of the look-ups for the last element gives one of
      the six numbers. */
  lemma FileReachesIs(v: Volume, c: int, position: nat, size: nat, count: nat, chain: seq<int>, offset: nat, last: nat)
    requires 1 <= v.sectorsPerCluster < 256 && 0 <= c && count > 0 && offset == position + size * (count - 1)
    requires last == offset / (512 * v.sectorsPerCluster)
      + (if size == 0 then 0 else size - 1) / (512 * v.sectorsPerCluster) < |chain|
    requires chain[0] == c && forall x, y :: 0 <= x && y == x + 1 < |chain| ==> chain[y] == v.fat(chain[x])
    ensures ReachesAll(v, c, position, size, count) <==> forall k :: 1 <= k <= last ==>
      && chain[k] != 0xFF0 && chain[k] != 0xFF6 && chain[k] != 0xFF7 && chain[k] != 0xFF8 && chain[k] != 0xFFF
      && chain[k] != 0
  {
    hide Reaches, ReachesAll;
    ReachesLast(v, c, position, size, count);
    ReachesIs(v, c, offset, size, chain, last);
  }

  /** Byte `i` of element `e` of a successful file read. */
  lemma ElementIs(v: Volume, c: int, position: nat, elem: nat, count: nat, e: nat, out: seq<Byte>, chain: seq<int>,
      size: int, offset: nat, k: int, i: int)
    requires 1 <= v.sectorsPerCluster < 256 && 0 <= c && size == 512 * v.sectorsPerCluster
    requires e < count && offset == position + elem * e && 0 <= i < elem
    requires offset % size == 0 || offset % size + elem <= size
    requires 0 <= k < |chain| && k == (offset + i) / size
    requires chain[0] == c && forall x, y :: 0 <= x && y == x + 1 < |chain| ==> chain[y] == v.fat(chain[x])
    requires ElementRead(v, c, position, elem, e, out) && ReachesAll(v, c, position, elem, count)
    ensures 0 <= elem * e + i < |out|
    ensures var p := 512 * v.dataSector + (chain[k] - 2) * size + (offset + i) % size;
      0 <= p && out[elem * e + i] == v.disk(p)
  {
    hide Reaches, IsReadOf, ReachesAll;
    ReachesElement(v, c, position, elem, count, e);
    var s := out[elem * e..elem * e + elem];
    AlignedReadIs(v, c, offset, s, chain, size, k, i);
    assert s[i] == out[elem * e + i];
  }

  // ---- the table look-up --------------------------------------------------

  /** The disk position at which the code looks up the entry of cluster `c`. */
  function EntryPosition(reserved: nat, c: nat): int {
    reserved * 512 * (c * 2)
  }

  /** Its position in the layout of the file system: two bytes per entry behind the reserved sectors. */
  function TablePosition(reserved: nat, c: nat): int {
    reserved * 512 + c * 2
  }

  /** As long as the product fits in 32 bits, the two agree for no cluster of a volume that has a reserved sector. */
  lemma LookUpIsElsewhere(reserved: nat, c: nat)
    requires EntryPosition(reserved, c) < 0x1_0000_0000
    ensures EntryPosition(reserved, c) == TablePosition(reserved, c) <==> reserved == 0 && c == 0
  {
    if reserved > 0 && c > 0 { ProductExceedsSum(reserved * 512, c * 2); }
    if reserved == 0 { assert reserved * 512 * (c * 2) == 0; }
    if c == 0 { assert reserved * 512 * (c * 2) == 0; }
  }

  /** With one reserved sector the entry of cluster 2 is sought four sectors into the disk; it is in the second. */
  lemma EntryOfClusterTwo()
    ensures EntryPosition(1, 2) == 2048 && TablePosition(1, 2) == 516
  {
  }

  lemma ProductExceedsSum(a: nat, b: nat)
    requires a >= 512 && b >= 2
    ensures a * b > a + b
  {
    var z := b - 2;
    assert a * b == 2 * a + a * z;
    assert a * z >= z;
  }
}
