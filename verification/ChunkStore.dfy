/** Records kept in 32-byte storage slots. */
module ChunkStores {
  import opened Basics

  type Byte = n: nat | n < 256 witness 0
  type Key = nat

  /** Slot addresses are hashes of a domain, a key and an index; different inputs are taken to
      give different addresses. */
  datatype Slot = ChunkCount(key: Key) | Length(key: Key) | Chunk(key: Key, index: nat)

  type Storage = map<Slot, seq<Byte>>

  const SLOT_SIZE: nat := 32

  function Zeros(n: nat): seq<Byte> {
    seq(n, i => 0)
  }

  /** A slot that was never written reads as zeros. */
  function Read(s: Storage, slot: Slot): seq<Byte> {
    if slot in s then s[slot] else Zeros(SLOT_SIZE)
  }

  // ----- numbers -----

  /** Little-endian bytes. */
  function Encode(n: nat, width: nat): (b: seq<Byte>)
    ensures |b| == width
  {
    if width == 0 then [] else [n % 256] + Encode(n / 256, width - 1)
  }

  function Decode(b: seq<Byte>): nat {
    if b == [] then 0 else b[0] + 256 * Decode(b[1..])
  }

  function Pow256(n: nat): nat {
    if n == 0 then 1 else 256 * Pow256(n - 1)
  }

  lemma {:induction false} DecodeEncode(n: nat, width: nat)
    requires n < Pow256(width)
    ensures Decode(Encode(n, width)) == n
  {
    if width > 0 {
      DecodeEncode(n / 256, width - 1);
      assert Encode(n, width)[1..] == Encode(n / 256, width - 1);
    }
  }

  /** The eight bytes of a number, least significant first. */
  lemma {:induction false} EightBytes(n: nat)
    requires n <= U64_MAX
    ensures var b: seq<int> := Encode(n, 8);
      n == b[0] + 0x100 * b[1] + 0x1_0000 * b[2] + 0x100_0000 * b[3] + 0x1_0000_0000 * b[4] + 0x100_0000_0000 * b[5]
           + 0x1_0000_0000_0000 * b[6] + 0x100_0000_0000_0000 * b[7]
  {
    var n1, n2, n3 := n / 256, n / 256 / 256, n / 256 / 256 / 256;
    var n4 := n3 / 256;
    assert Encode(n, 8)[1..] == Encode(n1, 7) && Encode(n1, 7)[1..] == Encode(n2, 6);
    assert Encode(n2, 6)[1..] == Encode(n3, 5) && Encode(n3, 5)[1..] == Encode(n4, 4);
    FourBytes(n4);
  }

  lemma {:induction false} FourBytes(n: nat)
    requires n <= 0xFFFF_FFFF
    ensures var b: seq<int> := Encode(n, 4); n == b[0] + 0x100 * b[1] + 0x1_0000 * b[2] + 0x100_0000 * b[3]
  {
    var n1, n2 := n / 256, n / 256 / 256;
    assert Encode(n, 4)[1..] == Encode(n1, 3) && Encode(n1, 3)[1..] == Encode(n2, 2);
    assert Encode(n2, 2)[1..] == Encode(n2 / 256, 1);
  }

  function NumberSlot(n: nat): (v: seq<Byte>)
    ensures |v| == SLOT_SIZE
  {
    Encode(n, 8) + Zeros(24)
  }

  function ReadNumber(s: Storage, slot: Slot): nat {
    var v := Read(s, slot);
    if |v| < 8 then 0 else Decode(v[..8])
  }

  lemma {:induction false} NumberReadsBack(s: Storage, slot: Slot, n: nat)
    requires n <= U64_MAX && Read(s, slot) == NumberSlot(n)
    ensures ReadNumber(s, slot) == n
  {
    assert Pow256(8) == U64_MAX + 1 by {
      assert Pow256(4) == 0x1_0000_0000;
      assert Pow256(6) == 256 * (256 * Pow256(4));
    }
    DecodeEncode(n, 8);
    assert NumberSlot(n)[..8] == Encode(n, 8);
  }

  // ----- chunks -----

  function ChunksOf(bytes: seq<Byte>): nat {
    (|bytes| + SLOT_SIZE - 1) / SLOT_SIZE
  }

  /** The `i`-th chunk, filled up with zeros. */
  function ChunkAt(bytes: seq<Byte>, i: nat): (v: seq<Byte>)
    requires i < ChunksOf(bytes)
    ensures |v| == SLOT_SIZE
  {
    var from, to := i * SLOT_SIZE, if (i + 1) * SLOT_SIZE <= |bytes| then (i + 1) * SLOT_SIZE else |bytes|;
    bytes[from..to] + Zeros(SLOT_SIZE - (to - from))
  }

  ghost predicate CountersSet(t: Storage, key: Key, bytes: seq<Byte>) {
    Read(t, ChunkCount(key)) == NumberSlot(ChunksOf(bytes)) && Read(t, Length(key)) == NumberSlot(|bytes|)
  }

  ghost predicate ChunksSet(t: Storage, key: Key, chunks: seq<seq<Byte>>) {
    forall i :: 0 <= i < |chunks| ==> Read(t, Chunk(key, i)) == chunks[i]
  }

  ghost predicate SameElsewhere(s: Storage, t: Storage, key: Key) {
    forall slot: Slot :: slot.key != key ==> Read(t, slot) == Read(s, slot)
  }

  function Chunked(bytes: seq<Byte>, n: nat): (c: seq<seq<Byte>>)
    requires n <= ChunksOf(bytes)
    ensures |c| == n && forall i :: 0 <= i < n ==> |c[i]| == SLOT_SIZE
  {
    seq(n, i requires 0 <= i < n => ChunkAt(bytes, i))
  }

  /** `t` is `s` with `bytes` written under `key`; other slots are as they were. */
  ghost predicate Written(s: Storage, t: Storage, key: Key, bytes: seq<Byte>) {
    CountersSet(t, key, bytes) && ChunksSet(t, key, Chunked(bytes, ChunksOf(bytes))) && SameElsewhere(s, t, key)
  }

  function Joined(s: Storage, key: Key, n: nat): seq<Byte> {
    if n == 0 then [] else Joined(s, key, n - 1) + Read(s, Chunk(key, n - 1))
  }

  datatype Fetched = Missing | Corrupt | Found(bytes: seq<Byte>)

  function Fetch(s: Storage, key: Key): Fetched {
    var chunks, length := ReadNumber(s, ChunkCount(key)), ReadNumber(s, Length(key));
    if chunks == 0 then Missing
    else if length > |Joined(s, key, chunks)| then Corrupt
    else Found(Joined(s, key, chunks)[..length])
  }

  function Concat(chunks: seq<seq<Byte>>): seq<Byte> {
    if chunks == [] then [] else Concat(chunks[..|chunks| - 1]) + chunks[|chunks| - 1]
  }

  lemma {:induction false} JoinedIsConcat(s: Storage, key: Key, chunks: seq<seq<Byte>>)
    requires ChunksSet(s, key, chunks)
    ensures Joined(s, key, |chunks|) == Concat(chunks)
  {
    if chunks != [] { JoinedIsConcat(s, key, chunks[..|chunks| - 1]); }
  }

  /** The chunks of a record put together are the record and some zeros. */
  lemma {:induction false} ConcatChunked(bytes: seq<Byte>, n: nat)
    requires n <= ChunksOf(bytes)
    ensures
      if n * SLOT_SIZE <= |bytes| then Concat(Chunked(bytes, n)) == bytes[..n * SLOT_SIZE]
      else Concat(Chunked(bytes, n)) == bytes + Zeros(n * SLOT_SIZE - |bytes|)
  {
    if n > 0 {
      ConcatChunked(bytes, n - 1);
      assert Chunked(bytes, n)[..n - 1] == Chunked(bytes, n - 1);
      OneMoreChunk(bytes, n);
    }
  }

  lemma {:induction false} OneMoreChunk(bytes: seq<Byte>, n: nat)
    requires 0 < n <= ChunksOf(bytes)
    ensures (n - 1) * SLOT_SIZE <= |bytes|
    ensures bytes[..(n - 1) * SLOT_SIZE] + ChunkAt(bytes, n - 1) ==
      if n * SLOT_SIZE <= |bytes| then bytes[..n * SLOT_SIZE] else bytes + Zeros(n * SLOT_SIZE - |bytes|)
  {
    var from := (n - 1) * SLOT_SIZE;
    if n * SLOT_SIZE <= |bytes| {
      assert bytes[..from] + bytes[from..n * SLOT_SIZE] == bytes[..n * SLOT_SIZE];
    } else {
      assert bytes[..from] + bytes[from..] == bytes;
    }
  }

  /** A record reads back as written, whatever was stored under its key before; an empty one
      cannot be told from none. */
  lemma {:induction false} ReadsBack(s: Storage, t: Storage, key: Key, bytes: seq<Byte>)
    requires |bytes| <= U64_MAX && Written(s, t, key, bytes)
    ensures Fetch(t, key) == if bytes == [] then Missing else Found(bytes)
  {
    var n := ChunksOf(bytes);
    NumberReadsBack(t, ChunkCount(key), n);
    NumberReadsBack(t, Length(key), |bytes|);
    JoinedIsConcat(t, key, Chunked(bytes, n));
    ConcatChunked(bytes, n);
    assert Joined(t, key, n)[..|bytes|] == bytes;
  }

  /** Where the bytes stand: thirty-two to a slot, the last slot filled with zeros, and the two
      counters in the first eight bytes of theirs. */
  lemma {:induction false} WrittenLayout(s: Storage, t: Storage, key: Key, bytes: seq<Byte>, i: nat, j: nat)
    requires |bytes| <= U64_MAX && Written(s, t, key, bytes)
    requires 32 * i < |bytes| && j < 32
    ensures var slot := Read(t, Chunk(key, i));
      |slot| == 32 && slot[j] == if 32 * i + j < |bytes| then bytes[32 * i + j] else 0
    ensures var n := ReadNumber(t, ChunkCount(key)); 32 * (n - 1) < |bytes| <= 32 * n
    ensures Read(t, Length(key)) == Encode(|bytes|, 8) + Zeros(24)
  {
    var n := ChunksOf(bytes);
    NumberReadsBack(t, ChunkCount(key), n);
    assert i < n;
    assert Read(t, Chunk(key, i)) == Chunked(bytes, n)[i] == ChunkAt(bytes, i);
    ChunkByte(bytes, i, j);
  }

  lemma {:induction false} ChunkByte(bytes: seq<Byte>, i: nat, j: nat)
    requires i < ChunksOf(bytes) && j < 32
    ensures ChunkAt(bytes, i)[j] == if 32 * i + j < |bytes| then bytes[32 * i + j] else 0
  {
  }

  lemma {:induction false} JoinedSame(s: Storage, t: Storage, key: Key, n: nat)
    requires forall slot: Slot :: slot.key == key ==> Read(t, slot) == Read(s, slot)
    ensures Joined(t, key, n) == Joined(s, key, n)
  {
    if n > 0 { JoinedSame(s, t, key, n - 1); }
  }

  /** Writing one key leaves what is read under every other key. */
  lemma {:induction false} OthersUndisturbed(s: Storage, t: Storage, key: Key, bytes: seq<Byte>, other: Key)
    requires Written(s, t, key, bytes) && other != key
    ensures Fetch(t, other) == Fetch(s, other)
  {
    JoinedSame(s, t, other, ReadNumber(s, ChunkCount(other)));
  }

  // ----- in place -----

  lemma {:induction false} WriteNext(s: Storage, t: Storage, key: Key, chunks: seq<seq<Byte>>, v: seq<Byte>)
    requires ChunksSet(t, key, chunks) && SameElsewhere(s, t, key)
    ensures ChunksSet(t[Chunk(key, |chunks|) := v], key, chunks + [v])
    ensures SameElsewhere(s, t[Chunk(key, |chunks|) := v], key)
  {
  }

  class ChunkStore {
    var storage: Storage

    constructor ()
      ensures storage == map[]
    {
      storage := map[];
    }

    /** Write the counters and then chunk after chunk. */
    method PutRecord(key: Key, bytes: seq<Byte>)
      modifies this
      ensures Written(old(storage), storage, key, bytes)
    {
      var chunks := ChunksOf(bytes);
      storage := storage[ChunkCount(key) := NumberSlot(chunks)];
      storage := storage[Length(key) := NumberSlot(|bytes|)];
      var i := 0;
      while i < chunks
        invariant 0 <= i <= chunks
        invariant CountersSet(storage, key, bytes) && SameElsewhere(old(storage), storage, key)
        invariant ChunksSet(storage, key, Chunked(bytes, i))
      {
        var chunk := ChunkAt(bytes, i);
        WriteNext(old(storage), storage, key, Chunked(bytes, i), chunk);
        assert Chunked(bytes, i) + [chunk] == Chunked(bytes, i + 1);
        storage := storage[Chunk(key, i) := chunk];
        i := i + 1;
      }
    }

    /** Read chunk after chunk and cut at the stored length. */
    method GetRecord(key: Key) returns (r: Fetched)
      ensures r == Fetch(storage, key)
    {
      var chunks := ReadNumber(storage, ChunkCount(key));
      if chunks == 0 { return Missing; }
      var length := ReadNumber(storage, Length(key));
      var bytes: seq<Byte> := [];
      var i := 0;
      while i < chunks
        invariant 0 <= i <= chunks && bytes == Joined(storage, key, i)
      {
        bytes := bytes + Read(storage, Chunk(key, i));
        i := i + 1;
      }
      if length > |bytes| { return Corrupt; }
      return Found(bytes[..length]);
    }
  }
}
