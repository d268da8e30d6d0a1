/** The 512-byte trailer of a table file (mtbl/metadata.c). */
module Metadata {
  import opened ByteOrder
  import opened Codec

  const METADATA_SIZE: nat := 512
  const MAGIC_V1: nat := 0x77846676
  const MAGIC: nat := 0x4D54424C

  datatype Version = V1 | V2

  datatype Metadata = Metadata(
    version: Version,
    indexBlockOffset: nat,
    dataBlockSize: nat,
    compression: nat,
    countEntries: nat,
    countDataBlocks: nat,
    bytesDataBlocks: nat,
    bytesIndexBlock: nat,
    bytesKeys: nat,
    bytesValues: nat)
  {
    function Fields(): (f: seq<nat>)
      ensures |f| == 9
    {
      [indexBlockOffset, dataBlockSize, compression, countEntries, countDataBlocks,
       bytesDataBlocks, bytesIndexBlock, bytesKeys, bytesValues]
    }

    ghost predicate Fits() { forall v <- Fields() :: v < TWO64 }
  }

  datatype ReadResult = Rejected | Accepted(m: Metadata)

  function FieldBytes(fields: seq<nat>): (r: Bytes)
    ensures |r| == 8 * |fields|
  {
    if |fields| == 0 then [] else Fixed64(fields[0]) + FieldBytes(fields[1..])
  }

  lemma {:induction false} FieldAt(fields: seq<nat>, i: nat, data: Bytes)
    requires i < |fields| && fields[i] < TWO64 && FieldBytes(fields) <= data
    ensures 8 * i + 8 <= |data| && Decode64(data[8 * i..]) == fields[i]
  {
    var all := FieldBytes(fields);
    if i == 0 {
      assert Fixed64(fields[0]) <= all <= data;
      Fixed64RoundTrip(fields[0], data);
      assert data[0..] == data;
    } else {
      assert FieldBytes(fields[1..]) == all[8..] <= data[8..];
      FieldAt(fields[1..], i - 1, data[8..]);
      assert data[8..][8 * (i - 1)..] == data[8 * i..];
    }
  }

  function ReadMetadata(buf: Bytes): ReadResult
    requires |buf| == METADATA_SIZE
  {
    var magic := Decode32(buf[METADATA_SIZE - 4..]);
    if magic != MAGIC_V1 && magic != MAGIC then Rejected
    else
      Accepted(Metadata(if magic == MAGIC_V1 then V1 else V2,
                        Decode64(buf[0..]), Decode64(buf[8..]), Decode64(buf[16..]), Decode64(buf[24..]),
                        Decode64(buf[32..]), Decode64(buf[40..]), Decode64(buf[48..]), Decode64(buf[56..]),
                        Decode64(buf[64..])))
  }

  function Zeros(n: nat): (r: Bytes)
    ensures |r| == n
  {
    seq(n, _ => 0)
  }

  function TrailerBytes(m: Metadata): (r: Bytes)
    ensures |r| == METADATA_SIZE
  {
    FieldBytes(m.Fields()) + Zeros(METADATA_SIZE - 72 - 4) + Fixed32(MAGIC)
  }

  /** A version-2 trailer reads back as it was written; the fields come first,
      zero padding follows, and the magic number is last. */
  method WriteMetadata(m: Metadata) returns (buf: Bytes)
    requires m.Fits() && m.version == V2
    ensures buf == TrailerBytes(m)
    ensures ReadMetadata(buf) == Accepted(m)
    ensures |buf| == 512 && buf[508..] == [0x4C, 0x42, 0x54, 0x4D] && forall i :: 72 <= i < 508 ==> buf[i] == 0
    ensures Decode64(buf[0..]) == m.indexBlockOffset && Decode64(buf[8..]) == m.dataBlockSize && Decode64(buf[16..]) == m.compression
    ensures Decode64(buf[24..]) == m.countEntries && Decode64(buf[32..]) == m.countDataBlocks
    ensures Decode64(buf[40..]) == m.bytesDataBlocks && Decode64(buf[48..]) == m.bytesIndexBlock
    ensures Decode64(buf[56..]) == m.bytesKeys && Decode64(buf[64..]) == m.bytesValues
  {
    hide FixedBytes, FixedValue;
    buf := FieldBytes(m.Fields());
    var padding: nat := METADATA_SIZE - |buf| - 4;
    while padding != 0
      decreases padding
      invariant padding <= METADATA_SIZE - 76
      invariant buf == FieldBytes(m.Fields()) + Zeros(METADATA_SIZE - 76 - padding)
    {
      assert Zeros(METADATA_SIZE - 76 - padding) + [0] == Zeros(METADATA_SIZE - 76 - (padding - 1));
      buf := buf + [0];
      padding := padding - 1;
    }
    FixedAre(MAGIC);
    buf := buf + Fixed32(MAGIC);
    ReadsBack(m, buf);
  }

  lemma ReadsBack(m: Metadata, buf: Bytes)
    requires |buf| == METADATA_SIZE && m.Fits() && m.version == V2
    requires FieldBytes(m.Fields()) <= buf && buf[METADATA_SIZE - 4..] == Fixed32(MAGIC)
    ensures ReadMetadata(buf) == Accepted(m)
  {
    Fixed32RoundTrip(MAGIC, buf[METADATA_SIZE - 4..]);
    var f := m.Fields();
    forall i | 0 <= i < 9 ensures Decode64(buf[8 * i..]) == f[i] {
      assert f[i] in f;
      FieldAt(f, i, buf);
    }
    NineFields(f, buf);
  }

  lemma NineFields(f: seq<nat>, buf: Bytes)
    requires |f| == 9 && |buf| == METADATA_SIZE
    requires forall i :: 0 <= i < 9 ==> Decode64(buf[8 * i..]) == f[i]
    ensures Decode64(buf[0..]) == f[0] && Decode64(buf[8..]) == f[1] && Decode64(buf[16..]) == f[2]
    ensures Decode64(buf[24..]) == f[3] && Decode64(buf[32..]) == f[4] && Decode64(buf[40..]) == f[5]
    ensures Decode64(buf[48..]) == f[6] && Decode64(buf[56..]) == f[7] && Decode64(buf[64..]) == f[8]
  {
    assert forall i :: i in [0, 1, 2, 3, 4, 5, 6, 7, 8] ==> Decode64(buf[8 * i..]) == f[i];
  }
}
