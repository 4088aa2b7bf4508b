/** Embedding vectors as stored blobs: four little-endian bytes per single-precision value. */
module VectorCodec {
  import opened Names

  newtype Byte = x: int | 0 <= x < 256

  /** The bit pattern of one single-precision value. */
  type Bits = x: int | 0 <= x < 0x1_0000_0000

  type Vector = seq<Bits>

  /** A stored row: the declared dimension and the blob. */
  datatype Row = Row(dim: nat, blob: seq<Byte>)

  function LittleEndian(v: Bits): (r: seq<Byte>)
    ensures |r| == 4
  {
    [(v % 256) as Byte, (v / 256 % 256) as Byte, (v / 65536 % 256) as Byte, (v / 16777216) as Byte]
  }

  function FromLittleEndian(a: Byte, b: Byte, c: Byte, d: Byte): Bits {
    a as int + 256 * (b as int) + 65536 * (c as int) + 16777216 * (d as int)
  }

  lemma BytesRoundTrip(v: Bits)
    ensures var r := LittleEndian(v); FromLittleEndian(r[0], r[1], r[2], r[3]) == v
  {
    var w := v / 256;
    var x := v / 65536;
    assert v == v % 256 + 256 * w;
    assert x == w / 256 && w == w % 256 + 256 * x;
    assert v / 16777216 == x / 256 && x == x % 256 + 256 * (x / 256);
  }

  function Blob(v: Vector): (r: seq<Byte>)
    ensures |r| == 4 * |v|
  {
    if v == [] then [] else LittleEndian(v[0]) + Blob(v[1..])
  }

  function Chunks(blob: seq<Byte>): (r: Vector)
    ensures |r| == |blob| / 4
  {
    if |blob| < 4 then [] else [FromLittleEndian(blob[0], blob[1], blob[2], blob[3])] + Chunks(blob[4..])
  }

  function Encode(v: Vector): Row {
    Row(|v|, Blob(v))
  }

  /** A row whose blob has another length than its dimension says is undecodable. */
  function Decode(r: Row): (v: Option<Vector>) {
    if |r.blob| == 4 * r.dim then Some(Chunks(r.blob)) else None
  }

  lemma {:induction false} ChunksOfBlob(v: Vector)
    ensures Chunks(Blob(v)) == v
  {
    if v != [] {
      BytesRoundTrip(v[0]);
      assert Blob(v)[4..] == Blob(v[1..]);
      ChunksOfBlob(v[1..]);
    }
  }

  /** A value's four bytes, its lowest first. */
  lemma {:induction false} BlobBytes(v: Vector, i: nat)
    requires i < |v|
    ensures var b := Blob(v);
            v[i] == b[4 * i] as int + 256 * b[4 * i + 1] as int + 65536 * b[4 * i + 2] as int
                    + 16777216 * b[4 * i + 3] as int
  {
    if i == 0 {
      BytesRoundTrip(v[0]);
    } else {
      BlobBytes(v[1..], i - 1);
      var b, rest, at := Blob(v), Blob(v[1..]), 4 * (i - 1);
      assert b == LittleEndian(v[0]) + rest && 4 * i == at + 4;
      assert b[at + 4] == rest[at] && b[at + 5] == rest[at + 1];
      assert b[at + 6] == rest[at + 2] && b[at + 7] == rest[at + 3];
    }
  }

  /** Every vector is read back bit for bit from the row that stores it. */
  lemma DecodeEncode(v: Vector)
    ensures Decode(Encode(v)) == Some(v)
  {
    ChunksOfBlob(v);
  }

  lemma FromBytesRoundTrip(a: Byte, b: Byte, c: Byte, d: Byte)
    ensures LittleEndian(FromLittleEndian(a, b, c, d)) == [a, b, c, d]
  {
    var v := FromLittleEndian(a, b, c, d);
    assert v / 256 == b as int + 256 * (c as int) + 65536 * (d as int);
    assert v / 65536 == c as int + 256 * (d as int);
    assert v / 16777216 == d as int;
  }

  lemma {:induction false} BlobOfChunks(blob: seq<Byte>)
    requires |blob| % 4 == 0
    ensures Blob(Chunks(blob)) == blob
  {
    if blob != [] {
      FromBytesRoundTrip(blob[0], blob[1], blob[2], blob[3]);
      BlobOfChunks(blob[4..]);
      assert Chunks(blob)[1..] == Chunks(blob[4..]);
      assert blob == blob[..4] + blob[4..];
    }
  }

  /** A row decodes exactly when it is the encoding of some vector, namely of the decoded one. */
  lemma EncodeDecode(r: Row)
    ensures Decode(r).Some? <==> exists v :: r == Encode(v)
    ensures Decode(r).Some? ==> r == Encode(Decode(r).value)
  {
    if Decode(r).Some? {
      BlobOfChunks(r.blob);
      assert r == Encode(Decode(r).value);
    }
  }

  // ---------------------------------------------------------------- the loops

  lemma {:induction false} BlobAppend(v: Vector, x: Bits)
    ensures Blob(v + [x]) == Blob(v) + LittleEndian(x)
  {
    if v == [] {
      assert v + [x] == [x] && [x][1..] == [];
    } else {
      assert (v + [x])[1..] == v[1..] + [x];
      BlobAppend(v[1..], x);
    }
  }

  method VectorToBlob(vector: Vector) returns (blob: seq<Byte>)
    ensures blob == Blob(vector)
  {
    blob := [];
    var i := 0;
    while i < |vector|
      invariant i <= |vector| && blob == Blob(vector[..i])
    {
      BlobAppend(vector[..i], vector[i]);
      assert vector[..i + 1] == vector[..i] + [vector[i]];
      blob := blob + LittleEndian(vector[i]);
      i := i + 1;
    }
    assert vector[..i] == vector;
  }

  method BlobToVector(blob: seq<Byte>, dim: nat) returns (r: Option<Vector>)
    ensures r == Decode(Row(dim, blob))
  {
    if |blob| != dim * 4 { return None; }
    var vector: Vector := [];
    var i := 0;
    assert blob[0..] == blob;
    while i + 4 <= |blob|
      invariant i <= |blob| && Chunks(blob) == vector + Chunks(blob[i..])
    {
      assert blob[i..][4..] == blob[i + 4..];
      vector := vector + [FromLittleEndian(blob[i], blob[i + 1], blob[i + 2], blob[i + 3])];
      i := i + 4;
    }
    assert Chunks(blob[i..]) == [] && vector + [] == vector;
    return Some(vector);
  }
}
