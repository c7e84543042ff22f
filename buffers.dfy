/** The Netty ChannelBuffer a caller reads its arguments from and a serializer
    writes its result to: the bytes written so far and a read cursor. */
module Buffers {
  import opened Wire
  import opened Failures

  /** What a decoder defined elsewhere (Protocol.readString, Protocol.readBoolean)
      makes of the readable bytes: a value or a failure, and how many bytes it took. */
  datatype Decoded<T> = Decoded(result: Result<T>, consumed: nat)

  class ChannelBuffer {
    /** Everything written so far; the writer index is |data|. */
    var data: seq<Byte>
    var readerIndex: nat

    ghost predicate Valid()
      reads this
    {
      readerIndex <= |data|
    }

    /** The bytes between the reader and the writer index. */
    function Readable(): seq<Byte>
      reads this
      requires Valid()
    {
      data[readerIndex..]
    }

    constructor Wrap(bytes: seq<Byte>)
      ensures Valid() && data == bytes && readerIndex == 0
    {
      data := bytes;
      readerIndex := 0;
    }

    method ReadByte() returns (r: Result<Int8>)
      requires Valid()
      modifies this`readerIndex
      ensures Valid()
      ensures |old(Readable())| >= 1 ==> r == Ok(ByteAt(old(Readable()), 0)) && readerIndex == old(readerIndex) + 1
      ensures |old(Readable())| < 1 ==> r == Err(IndexOutOfBounds) && readerIndex == old(readerIndex)
    {
      if |data| - readerIndex < 1 {
        return Err(IndexOutOfBounds);
      }
      r := Ok(ByteAt(data, readerIndex));
      readerIndex := readerIndex + 1;
    }

    method ReadInt() returns (r: Result<Int32>)
      requires Valid()
      modifies this`readerIndex
      ensures Valid()
      ensures |old(Readable())| >= 4 ==> r == Ok(IntAt(old(Readable()), 0)) && readerIndex == old(readerIndex) + 4
      ensures |old(Readable())| < 4 ==> r == Err(IndexOutOfBounds) && readerIndex == old(readerIndex)
    {
      if |data| - readerIndex < 4 {
        return Err(IndexOutOfBounds);
      }
      assert data[readerIndex..readerIndex + 4] == Readable()[0..4];
      r := Ok(IntAt(data, readerIndex));
      readerIndex := readerIndex + 4;
    }

    method ReadLong() returns (r: Result<Int64>)
      requires Valid()
      modifies this`readerIndex
      ensures Valid()
      ensures |old(Readable())| >= 8 ==> r == Ok(LongAt(old(Readable()), 0)) && readerIndex == old(readerIndex) + 8
      ensures |old(Readable())| < 8 ==> r == Err(IndexOutOfBounds) && readerIndex == old(readerIndex)
    {
      if |data| - readerIndex < 8 {
        return Err(IndexOutOfBounds);
      }
      assert data[readerIndex..readerIndex + 8] == Readable()[0..8];
      r := Ok(LongAt(data, readerIndex));
      readerIndex := readerIndex + 8;
    }

    /** Runs a decoder defined elsewhere on the readable bytes and moves the
        cursor past what it consumed. */
    method ReadWith<T>(read: seq<Byte> -> Decoded<T>) returns (r: Result<T>)
      requires Valid() && read(Readable()).consumed <= |Readable()|
      modifies this`readerIndex
      ensures Valid()
      ensures r == read(old(Readable())).result
      ensures readerIndex == old(readerIndex) + read(old(Readable())).consumed
    {
      var d := read(data[readerIndex..]);
      r := d.result;
      readerIndex := readerIndex + d.consumed;
    }

    method WriteInt(x: Int32)
      modifies this`data
      ensures data == old(data) + EncodeInt(x)
    {
      data := data + EncodeInt(x);
    }

    method WriteLong(x: Int64)
      modifies this`data
      ensures data == old(data) + EncodeLong(x)
    {
      data := data + EncodeLong(x);
    }
  }
}
