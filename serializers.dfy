/** The two result serializers the catalog defines itself: ALLOCATE_IDS writes an
    IdAllocation, HANDSHAKE a HandshakeResult. Each comes with a reference decoder
    that reads the same fields back. */
module Serializers {
  import opened Wire
  import opened Failures
  import opened Buffers

  /** IdRange: ids to reuse, then a fresh contiguous range. */
  datatype IdRange = IdRange(defragIds: LongArray, rangeStart: Int64, rangeLength: Int32)

  datatype IdAllocation = IdAllocation(idRange: IdRange, highestIdInUse: Int64, defragCount: Int64)

  datatype HandshakeResult = HandshakeResult(txAuthor: Int32, txChecksum: Int64, epoch: Int64)

  /** The bytes the ALLOCATE_IDS serializer appends: the defrag id count, the
      defrag ids, range start, range length, highest id in use, defrag count. */
  function EncodeIdAllocation(a: IdAllocation): (r: seq<Byte>)
    ensures |r| == 32 + 8 * |a.idRange.defragIds|
  {
    EncodeInt(|a.idRange.defragIds|)
      + EncodeLongs(a.idRange.defragIds)
      + EncodeLong(a.idRange.rangeStart)
      + EncodeInt(a.idRange.rangeLength)
      + EncodeLong(a.highestIdInUse)
      + EncodeLong(a.defragCount)
  }

  /** Reads an IdAllocation from the front of `s`, with the number of bytes read. */
  function DecodeIdAllocation(s: seq<Byte>): Option<(IdAllocation, nat)>
  {
    if |s| < 4 then None
    else
      var k := IntAt(s, 0);
      if k < 0 || |s| < 32 + 8 * k then None
      else
        var p := 4 + 8 * k;
        var range := IdRange(LongsAt(s, 4, k), LongAt(s, p), IntAt(s, p + 8));
        Some((IdAllocation(range, LongAt(s, p + 12), LongAt(s, p + 20)), p + 28))
  }

  /** The serialized fields sit at fixed offsets after the defrag ids. */
  lemma EncodeIdAllocationLayout(a: IdAllocation, rest: seq<Byte>)
    ensures var s := EncodeIdAllocation(a) + rest;
            var k := |a.idRange.defragIds|;
            var p := 4 + 8 * k;
            && s[..4] == EncodeInt(k)
            && s[4..p] == EncodeLongs(a.idRange.defragIds)
            && s[p..p + 8] == EncodeLong(a.idRange.rangeStart)
            && s[p + 8..p + 12] == EncodeInt(a.idRange.rangeLength)
            && s[p + 12..p + 20] == EncodeLong(a.highestIdInUse)
            && s[p + 20..p + 28] == EncodeLong(a.defragCount)
  {
  }

  /** Decoding what the serializer wrote, followed by anything, recovers every
      field and stops after the 32 + 8k bytes written. */
  lemma DecodeEncodeIdAllocation(a: IdAllocation, rest: seq<Byte>)
    ensures DecodeIdAllocation(EncodeIdAllocation(a) + rest)
         == Some((a, 32 + 8 * |a.idRange.defragIds|))
  {
    var s := EncodeIdAllocation(a) + rest;
    var ids := a.idRange.defragIds;
    var k := |ids|;
    var p := 4 + 8 * k;
    EncodeIdAllocationLayout(a, rest);
    IntRoundTrip(k);
    LongsAtEncodeLongs(s, 4, ids);
    LongRoundTrip(a.idRange.rangeStart);
    IntRoundTrip(a.idRange.rangeLength);
    LongRoundTrip(a.highestIdInUse);
    LongRoundTrip(a.defragCount);
  }

  /** Conversely, whatever the decoder accepts is exactly the serializer's output
      for the value it returns. */
  lemma EncodeDecodeIdAllocation(s: seq<Byte>)
    requires DecodeIdAllocation(s).Some?
    ensures var (a, n) := DecodeIdAllocation(s).value;
            n <= |s| && s[..n] == EncodeIdAllocation(a)
  {
    var (a, n) := DecodeIdAllocation(s).value;
    var k: int := IntAt(s, 0);
    var p: int := 4 + 8 * k;
    IntBytesRoundTrip(s[0..4]);
    EncodeLongsAtBytes(s, 4, k);
    LongBytesRoundTrip(s[p..p + 8]);
    IntBytesRoundTrip(s[p + 8..p + 12]);
    LongBytesRoundTrip(s[p + 12..p + 20]);
    LongBytesRoundTrip(s[p + 20..p + 28]);
    assert s[0..p] == s[0..4] + s[4..p];
    assert s[0..p + 12] == s[0..p] + s[p..p + 8] + s[p + 8..p + 12];
    assert s[0..p + 28] == s[0..p + 12] + s[p + 12..p + 20] + s[p + 20..p + 28];
    assert s[..n] == s[0..p + 28];
  }

  /** The bytes the HANDSHAKE serializer appends: author, checksum, epoch. */
  function EncodeHandshake(h: HandshakeResult): (r: seq<Byte>)
    ensures |r| == 20
  {
    EncodeInt(h.txAuthor) + EncodeLong(h.txChecksum) + EncodeLong(h.epoch)
  }

  function DecodeHandshake(s: seq<Byte>): Option<(HandshakeResult, nat)>
  {
    if |s| < 20 then None
    else Some((HandshakeResult(IntAt(s, 0), LongAt(s, 4), LongAt(s, 12)), 20))
  }

  lemma DecodeEncodeHandshake(h: HandshakeResult, rest: seq<Byte>)
    ensures DecodeHandshake(EncodeHandshake(h) + rest) == Some((h, 20))
  {
    var s := EncodeHandshake(h) + rest;
    assert s[0..4] == EncodeInt(h.txAuthor);
    assert s[4..12] == EncodeLong(h.txChecksum);
    assert s[12..20] == EncodeLong(h.epoch);
    IntRoundTrip(h.txAuthor);
    LongRoundTrip(h.txChecksum);
    LongRoundTrip(h.epoch);
  }

  lemma EncodeDecodeHandshake(s: seq<Byte>)
    requires DecodeHandshake(s).Some?
    ensures var (h, n) := DecodeHandshake(s).value;
            n <= |s| && s[..n] == EncodeHandshake(h)
  {
    IntBytesRoundTrip(s[0..4]);
    LongBytesRoundTrip(s[4..12]);
    LongBytesRoundTrip(s[12..20]);
    assert s[..20] == s[0..4] + s[4..12] + s[12..20];
  }

  /** Author 3, checksum 999, epoch 2: an int then two longs, most significant byte first. */
  lemma HandshakeBytes()
    ensures EncodeHandshake(HandshakeResult(3, 999, 2))
         == [0, 0, 0, 3,  0, 0, 0, 0, 0, 0, 3, 231,  0, 0, 0, 0, 0, 0, 0, 2]
  {
  }

  /** ALLOCATE_IDS's ObjectSerializer.write. */
  method WriteIdAllocation(a: IdAllocation, result: ChannelBuffer)
    modifies result`data
    ensures result.data == old(result.data) + EncodeIdAllocation(a)
  {
    var ids := a.idRange.defragIds;
    result.WriteInt(|ids|);
    for i := 0 to |ids|
      invariant result.data == old(result.data) + EncodeInt(|ids|) + EncodeLongs(ids[..i])
    {
      assert ids[..i + 1][..i] == ids[..i];
      result.WriteLong(ids[i]);
    }
    assert ids[..|ids|] == ids;
    result.WriteLong(a.idRange.rangeStart);
    result.WriteInt(a.idRange.rangeLength);
    result.WriteLong(a.highestIdInUse);
    result.WriteLong(a.defragCount);
  }

  /** HANDSHAKE's ObjectSerializer.write. */
  method WriteHandshake(h: HandshakeResult, result: ChannelBuffer)
    modifies result`data
    ensures result.data == old(result.data) + EncodeHandshake(h)
  {
    result.WriteInt(h.txAuthor);
    result.WriteLong(h.txChecksum);
    result.WriteLong(h.epoch);
  }
}
