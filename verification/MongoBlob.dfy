/**
 * How the MongoDB driver hands over a large result: the documents packed one behind the other, each after its length
 * in four bytes, and the packed buffer read in chunks.
 */
module MongoBlob {
  import opened Arithmetic
  import opened Wrappers

  type Bytes = seq<Byte>

  const U32_RANGE := 0x1_0000_0000

  /** `len as u32` in little-endian order: a longer document loses the high part of its length. */
  function LengthPrefix(len: nat): (r: Bytes)
    ensures |r| == 4
  {
    [(len % 256) as Byte, (len / 256 % 256) as Byte, (len / 65536 % 256) as Byte, (len / 16777216 % 256) as Byte]
  }

  function ReadLength(b: Bytes): nat
    requires |b| == 4
  {
    b[0] as int + 256 * b[1] as int + 65536 * b[2] as int + 16777216 * b[3] as int
  }

  /** The prefix reads back as the length modulo the range of u32. */
  lemma LengthReadsBack(len: nat)
    ensures ReadLength(LengthPrefix(len)) == len % U32_RANGE
  {
    var a, b, c, d := len % 256, len / 256 % 256, len / 256 / 256 % 256, len / 256 / 256 / 256 % 256;
    var q := len / 256 / 256 / 256 / 256;
    assert len == 256 * (256 * (256 * (256 * q + d) + c) + b) + a;
    Remainder(len, 65536, 65536 * q + 256 * d + c, 256 * b + a);
    Remainder(len, 16777216, 256 * q + d, 65536 * c + 256 * b + a);
    Remainder(len, U32_RANGE, q, 16777216 * d + 65536 * c + 256 * b + a);
    Remainder(65536 * q + 256 * d + c, 256, 256 * q + d, c);
    Remainder(256 * q + d, 256, q, d);
  }

  // ---------- packing ----------

  function Pack(documents: seq<Bytes>): Bytes {
    if documents == [] then [] else LengthPrefix(|documents[0]|) + documents[0] + Pack(documents[1..])
  }

  /** The loop of `find`: for each document its length and then its bytes. */
  method PackDocuments(documents: seq<Bytes>) returns (packed: Bytes)
    ensures packed == Pack(documents)
  {
    packed := [];
    var n := 0;
    while n < |documents|
      invariant 0 <= n <= |documents|
      invariant packed + Pack(documents[n..]) == Pack(documents)
    {
      var bytes := documents[n];
      assert documents[n..][0] == bytes && documents[n..][1..] == documents[n + 1..];
      ghost var rest := Pack(documents[n + 1..]);
      assert packed + (LengthPrefix(|bytes|) + bytes + rest) == packed + LengthPrefix(|bytes|) + bytes + rest;
      packed := packed + LengthPrefix(|bytes|);
      packed := packed + bytes;
      n := n + 1;
    }
    assert documents[n..] == [];
  }

  /** How a reader splits the buffer: four bytes of length, then that many bytes; None when the buffer ends early. */
  function Unpack(packed: Bytes): Option<seq<Bytes>>
    decreases |packed|
  {
    if packed == [] then Some([])
    else if |packed| < 4 then None
    else
      var len := ReadLength(packed[..4]);
      if |packed| < 4 + len then None
      else
        match Unpack(packed[4 + len..])
        case None => None
        case Some(rest) => Some([packed[4..4 + len]] + rest)
  }

  lemma UnpackFirst(d: Bytes, rest: Bytes)
    ensures var out := Unpack(LengthPrefix(|d|) + d + rest);
      && (|d| < U32_RANGE ==> out == match Unpack(rest) { case None => None case Some(more) => Some([d] + more) })
      && (|d| >= U32_RANGE && out.Some? ==> out.value != [] && out.value[0] != d)
  {
    var packed := LengthPrefix(|d|) + d + rest;
    assert packed[..4] == LengthPrefix(|d|) && packed[4..] == d + rest;
    LengthReadsBack(|d|);
    hide LengthPrefix, ReadLength;
    if |d| < U32_RANGE {
      SmallModulo(|d|);
      assert packed[4..4 + |d|] == d && packed[4 + |d|..] == rest;
    }
  }

  /** The reader gets exactly the documents back if and only if each is shorter than 2^32 bytes. */
  lemma {:induction false} UnpackingIff(documents: seq<Bytes>)
    ensures Unpack(Pack(documents)) == Some(documents) <==>
              forall i :: 0 <= i < |documents| ==> |documents[i]| < U32_RANGE
    decreases |documents|
  {
    if documents != [] {
      var d, rest := documents[0], Pack(documents[1..]);
      assert documents == [d] + documents[1..];
      UnpackFirst(d, rest);
      UnpackingIff(documents[1..]);
      hide Unpack, LengthPrefix;
      if |d| < U32_RANGE {
        assert forall i :: 1 <= i < |documents| ==> documents[i] == documents[1..][i - 1];
        if Unpack(rest).Some? {
          assert ([d] + Unpack(rest).value)[1..] == Unpack(rest).value;
        }
      }
    }
  }

  lemma SmallModulo(n: nat)
    requires n < U32_RANGE
    ensures n % U32_RANGE == n
  {
  }

  // ---------- reading in chunks ----------

  class Blob {
    const bytes: Bytes
    var offset: nat

    ghost predicate Valid()
      reads this
    {
      offset <= |bytes|
    }

    constructor (bytes: Bytes)
      ensures Valid() && this.bytes == bytes && offset == 0
    {
      this.bytes := bytes;
      offset := 0;
    }

    method Read(maxBytes: nat) returns (chunk: Bytes, done: bool)
      requires Valid()
      modifies this
      ensures Valid() && (chunk, offset, done) == ReadAt(bytes, old(offset), maxBytes)
    {
      var end := if offset + maxBytes < |bytes| then offset + maxBytes else |bytes|;
      chunk := bytes[offset..end];
      offset := end;
      done := end == |bytes|;
    }
  }

  function ReadAt(bytes: Bytes, offset: nat, maxBytes: nat): (r: (Bytes, nat, bool))
    requires offset <= |bytes|
    ensures offset <= r.1 <= |bytes| && r.0 == bytes[offset..r.1]
  {
    var end := if offset + maxBytes < |bytes| then offset + maxBytes else |bytes|;
    (bytes[offset..end], end, end == |bytes|)
  }

  /** The chunks of a sequence of reads, joined, and where the blob stands afterwards. */
  function ReadAll(bytes: Bytes, sizes: seq<nat>): (r: (Bytes, nat))
    ensures r.1 <= |bytes| && r.0 == bytes[..r.1]
    decreases |sizes|
  {
    if sizes == [] then ([], 0)
    else
      var (before, offset) := ReadAll(bytes, sizes[..|sizes| - 1]);
      var (chunk, end, _) := ReadAt(bytes, offset, sizes[|sizes| - 1]);
      (before + chunk, end)
  }

  /**
   * Packed, read in chunks of any sizes until a read says it is done, and unpacked: exactly the documents come back,
   * in order.
   */
  lemma BlobRoundTrip(documents: seq<Bytes>, sizes: seq<nat>, last: nat)
    requires forall i :: 0 <= i < |documents| ==> |documents[i]| < U32_RANGE
    ensures var packed := Pack(documents);
      var (before, offset) := ReadAll(packed, sizes);
      var (chunk, _, done) := ReadAt(packed, offset, last);
      done ==> Unpack(before + chunk) == Some(documents)
  {
    var packed := Pack(documents);
    var (before, offset) := ReadAll(packed, sizes);
    var (chunk, end, done) := ReadAt(packed, offset, last);
    if done {
      assert packed[..offset] + packed[offset..end] == packed;
      UnpackingIff(documents);
    }
  }

  /** Reads of at least one byte come to an end: as many reads as there are bytes suffice. */
  lemma {:induction false} ReadsComeToAnEnd(bytes: Bytes, sizes: seq<nat>)
    requires forall i :: 0 <= i < |sizes| ==> sizes[i] > 0
    ensures ReadAll(bytes, sizes).1 == |bytes| || ReadAll(bytes, sizes).1 >= |sizes|
    decreases |sizes|
  {
    if sizes != [] {
      ReadsComeToAnEnd(bytes, sizes[..|sizes| - 1]);
    }
  }

  function Total(sizes: seq<nat>): nat {
    if sizes == [] then 0 else Total(sizes[..|sizes| - 1]) + sizes[|sizes| - 1]
  }

  /** Every read hands out what was asked for as long as there is as much; it is done exactly when nothing is left. */
  lemma {:induction false} ReadsTakeAll(bytes: Bytes, sizes: seq<nat>, last: nat)
    ensures var (_, offset) := ReadAll(bytes, sizes);
      var (chunk, end, done) := ReadAt(bytes, offset, last);
      && offset == Min(Total(sizes), |bytes|)
      && |chunk| == Min(last, |bytes| - offset)
      && (done <==> Total(sizes) + last >= |bytes|)
    decreases |sizes|
  {
    if sizes != [] {
      ReadsTakeAll(bytes, sizes[..|sizes| - 1], sizes[|sizes| - 1]);
    }
  }
}
