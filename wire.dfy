/** Fixed-width wire primitives of a ChannelBuffer: Java's signed byte, int and
    long, written big-endian in two's complement (the ChannelBuffer default). */
module Wire {

  /** One unsigned octet as it sits in a buffer. */
  type Byte = b: int | 0 <= b < 0x100

  /** Java's signed integer types. */
  type Int8 = x: int | -0x80 <= x < 0x80
  type Int32 = x: int | -0x8000_0000 <= x < 0x8000_0000
  type Int64 = x: int | -0x8000_0000_0000_0000 <= x < 0x8000_0000_0000_0000

  /** A Java `long[]`: its length is itself a non-negative Java int. */
  type LongArray = s: seq<Int64> | |s| < 0x8000_0000

  function Pow256(n: nat): (p: nat)
    ensures p > 0
  {
    if n == 0 then 1 else 256 * Pow256(n - 1)
  }

  /** The `w` least significant octets of `u`, most significant first. */
  function EncodeBE(u: nat, w: nat): (r: seq<Byte>)
    requires u < Pow256(w)
    ensures |r| == w
  {
    if w == 0 then [] else EncodeBE(u / 256, w - 1) + [u % 256]
  }

  /** The unsigned value of a big-endian octet string. */
  function DecodeBE(s: seq<Byte>): (u: nat)
    ensures u < Pow256(|s|)
  {
    if s == [] then 0 else DecodeBE(s[..|s| - 1]) * 256 + s[|s| - 1]
  }

  lemma {:induction false} DecodeEncodeBE(u: nat, w: nat)
    requires u < Pow256(w)
    ensures DecodeBE(EncodeBE(u, w)) == u
  {
    if w > 0 {
      var s := EncodeBE(u, w);
      assert s[..|s| - 1] == EncodeBE(u / 256, w - 1);
      DecodeEncodeBE(u / 256, w - 1);
    }
  }

  lemma {:induction false} EncodeDecodeBE(s: seq<Byte>)
    ensures EncodeBE(DecodeBE(s), |s|) == s
  {
    if s != [] {
      var p := s[..|s| - 1];
      EncodeDecodeBE(p);
      assert s == p + [s[|s| - 1]];
    }
  }

  /** Java's narrowing cast `(byte) n`: keeps the low eight bits, read as signed. */
  function ToJavaByte(n: int): (b: Int8)
    ensures (b - n) % 256 == 0
  {
    (n + 0x80) % 0x100 - 0x80
  }

  /** ChannelBuffer.readByte at offset `i`: the octet read as a signed Java byte. */
  function ByteAt(s: seq<Byte>, i: nat): (b: Int8)
    requires i < |s|
    ensures b % 256 == s[i]
  {
    var v: int := s[i];
    if v < 0x80 then v else v - 0x100
  }

  /** ChannelBuffer.writeInt: four octets, big-endian two's complement. */
  function EncodeInt(x: Int32): (r: seq<Byte>)
    ensures |r| == 4
  {
    EncodeBE(if x < 0 then x + 0x1_0000_0000 else x, 4)
  }

  function DecodeInt(s: seq<Byte>): Int32
    requires |s| == 4
  {
    var u := DecodeBE(s);
    if u < 0x8000_0000 then u else u - 0x1_0000_0000
  }

  /** ChannelBuffer.writeLong: eight octets, big-endian two's complement. */
  function EncodeLong(x: Int64): (r: seq<Byte>)
    ensures |r| == 8
  {
    EncodeBE(if x < 0 then x + 0x1_0000_0000_0000_0000 else x, 8)
  }

  function DecodeLong(s: seq<Byte>): Int64
    requires |s| == 8
  {
    var u := DecodeBE(s);
    if u < 0x8000_0000_0000_0000 then u else u - 0x1_0000_0000_0000_0000
  }

  lemma IntRoundTrip(x: Int32)
    ensures DecodeInt(EncodeInt(x)) == x
  {
    DecodeEncodeBE(if x < 0 then x + 0x1_0000_0000 else x, 4);
  }

  lemma IntBytesRoundTrip(s: seq<Byte>)
    requires |s| == 4
    ensures EncodeInt(DecodeInt(s)) == s
  {
    EncodeDecodeBE(s);
  }

  lemma LongRoundTrip(x: Int64)
    ensures DecodeLong(EncodeLong(x)) == x
  {
    DecodeEncodeBE(if x < 0 then x + 0x1_0000_0000_0000_0000 else x, 8);
  }

  lemma LongBytesRoundTrip(s: seq<Byte>)
    requires |s| == 8
    ensures EncodeLong(DecodeLong(s)) == s
  {
    EncodeDecodeBE(s);
  }

  lemma SliceOfSlice<T>(s: seq<T>, i: nat, j: nat, a: nat, b: nat)
    requires i <= j <= |s| && a <= b <= j - i
    ensures s[i..j][a..b] == s[i + a..i + b]
  {
    var l, r := s[i..j][a..b], s[i + a..i + b];
    forall k | 0 <= k < |l|
      ensures l[k] == r[k]
    {
    }
  }

  /** ChannelBuffer.readInt at offset `i`. */
  function IntAt(s: seq<Byte>, i: nat): Int32
    requires i + 4 <= |s|
  {
    DecodeInt(s[i..i + 4])
  }

  /** ChannelBuffer.readLong at offset `i`. */
  function LongAt(s: seq<Byte>, i: nat): Int64
    requires i + 8 <= |s|
  {
    DecodeLong(s[i..i + 8])
  }

  /** `n` longs read one after another from offset `start`. */
  function LongsAt(s: seq<Byte>, start: nat, n: nat): (r: seq<Int64>)
    requires start + 8 * n <= |s|
    ensures |r| == n
  {
    seq(n, j requires 0 <= j < n => LongAt(s, start + 8 * j))
  }

  lemma LongsAtIndex(s: seq<Byte>, start: nat, n: nat, j: nat)
    requires start + 8 * n <= |s| && j < n
    ensures LongsAt(s, start, n)[j] == LongAt(s, start + 8 * j)
  {
  }

  /** The longs of `xs` written one after another with writeLong. */
  function EncodeLongs(xs: seq<Int64>): (r: seq<Byte>)
    ensures |r| == 8 * |xs|
  {
    if xs == [] then [] else EncodeLongs(xs[..|xs| - 1]) + EncodeLong(xs[|xs| - 1])
  }

  /** The `j`-th group of eight octets of EncodeLongs(xs) is xs[j]. */
  lemma {:induction false} EncodeLongsAt(xs: seq<Int64>, j: nat)
    requires j < |xs|
    ensures EncodeLongs(xs)[8 * j..8 * j + 8] == EncodeLong(xs[j])
  {
    var p := xs[..|xs| - 1];
    if j < |xs| - 1 {
      EncodeLongsAt(p, j);
      assert EncodeLongs(xs)[8 * j..8 * j + 8] == EncodeLongs(p)[8 * j..8 * j + 8];
    }
  }

  /** A long encoded at offset 8 * j of a block `e` found at offset `start` of `s`. */
  lemma LongAtEncodeLong(s: seq<Byte>, start: nat, e: seq<Byte>, j: nat, x: Int64)
    requires start + |e| <= |s| && s[start..start + |e|] == e
    requires 8 * j + 8 <= |e| && e[8 * j..8 * j + 8] == EncodeLong(x)
    ensures LongAt(s, start + 8 * j) == x
  {
    SliceOfSlice(s, start, start + |e|, 8 * j, 8 * j + 8);
    LongRoundTrip(x);
  }

  /** One long written with EncodeLongs, read back at its offset. */
  lemma LongAtEncodeLongs(s: seq<Byte>, start: nat, xs: seq<Int64>, j: nat)
    requires start + 8 * |xs| <= |s| && s[start..start + 8 * |xs|] == EncodeLongs(xs)
    requires j < |xs|
    ensures LongAt(s, start + 8 * j) == xs[j]
  {
    EncodeLongsAt(xs, j);
    LongAtEncodeLong(s, start, EncodeLongs(xs), j, xs[j]);
  }

  /** Reading back longs written with EncodeLongs, wherever they sit, gives them back. */
  lemma LongsAtEncodeLongs(s: seq<Byte>, start: nat, xs: seq<Int64>)
    requires start + 8 * |xs| <= |s| && s[start..start + 8 * |xs|] == EncodeLongs(xs)
    ensures LongsAt(s, start, |xs|) == xs
  {
    var r := LongsAt(s, start, |xs|);
    forall j | 0 <= j < |xs|
      ensures r[j] == xs[j]
    {
      LongAtEncodeLongs(s, start, xs, j);
      LongsAtIndex(s, start, |xs|, j);
    }
  }

  /** Conversely, `n` longs read from offset `start` re-encode to exactly the octets read. */
  lemma {:induction false} EncodeLongsAtBytes(s: seq<Byte>, start: nat, n: nat)
    requires start + 8 * n <= |s|
    ensures EncodeLongs(LongsAt(s, start, n)) == s[start..start + 8 * n]
  {
    if n > 0 {
      var xs := LongsAt(s, start, n);
      EncodeLongsAtBytes(s, start, n - 1);
      assert xs[..n - 1] == LongsAt(s, start, n - 1);
      LongBytesRoundTrip(s[start + 8 * (n - 1)..start + 8 * n]);
      assert s[start..start + 8 * n]
          == s[start..start + 8 * (n - 1)] + s[start + 8 * (n - 1)..start + 8 * n];
    }
  }
}
