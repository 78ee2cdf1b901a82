/**
 * `java.io.DataInputStream`'s fixed-width reads over a byte sequence: the high byte
 * comes first and the value is two's complement.
 */
module BigEndian {
  import opened Numeric

  type byte = x: int | 0 <= x < 256

  function Pow256(k: nat): (r: nat)
    ensures r >= 1
  {
    if k == 0 then 1 else 256 * Pow256(k - 1)
  }

  /** The unsigned value of bytes read high byte first. */
  function Unsigned(bs: seq<byte>): (r: nat)
    ensures r < Pow256(|bs|)
  {
    if bs == [] then 0 else Unsigned(bs[..|bs| - 1]) * 256 + bs[|bs| - 1]
  }

  /** The unsigned value of the `k` bytes of `file` from `pos`, high byte first. */
  function UnsignedAt(file: seq<byte>, pos: nat, k: nat): (r: nat)
    requires pos + k <= |file|
    ensures r < Pow256(k)
  {
    if k == 0 then 0 else UnsignedAt(file, pos, k - 1) * 256 + file[pos + k - 1]
  }

  lemma {:induction false} UnsignedAtSlice(file: seq<byte>, pos: nat, k: nat)
    requires pos + k <= |file|
    ensures UnsignedAt(file, pos, k) == Unsigned(file[pos..pos + k])
  {
    if k > 0 {
      UnsignedAtSlice(file, pos, k - 1);
      assert file[pos..pos + k][..k - 1] == file[pos..pos + k - 1];
    }
  }

  /** The `k` bytes that spell `u` high byte first. */
  function UnsignedBytes(u: nat, k: nat): (r: seq<byte>)
    requires u < Pow256(k)
    ensures |r| == k
  {
    if k == 0 then [] else UnsignedBytes(u / 256, k - 1) + [u % 256]
  }

  lemma {:induction false} UnsignedRoundTrip(u: nat, k: nat)
    requires u < Pow256(k)
    ensures Unsigned(UnsignedBytes(u, k)) == u
  {
    if k > 0 {
      var bs := UnsignedBytes(u, k);
      assert bs[..k - 1] == UnsignedBytes(u / 256, k - 1);
      UnsignedRoundTrip(u / 256, k - 1);
    }
  }

  lemma Pow256Values()
    ensures Pow256(4) == TWO_32 && Pow256(8) == TWO_64
  {
    assert Pow256(4) == 0x1_0000_0000;
    assert Pow256(8) == 0x1_0000_0000_0000_0000;
  }

  /** `readLong`: eight bytes as a signed 64-bit value. */
  function ReadLong(file: seq<byte>, pos: nat): (r: int)
    requires pos + 8 <= |file|
    ensures IsLong(r)
  {
    Pow256Values();
    var u := UnsignedAt(file, pos, 8);
    if u > LONG_MAX then u - TWO_64 else u
  }

  /** `readInt`: four bytes as a signed 32-bit value. */
  function ReadInt(file: seq<byte>, pos: nat): (r: int)
    requires pos + 4 <= |file|
    ensures IsInt(r)
  {
    Pow256Values();
    var u := UnsignedAt(file, pos, 4);
    if u > INT_MAX then u - TWO_32 else u
  }

  /** `writeLong`: the eight bytes `readLong` turns back into `x`. */
  function LongBytes(x: int): (r: seq<byte>)
    requires IsLong(x)
    ensures |r| == 8
  {
    Pow256Values();
    UnsignedBytes(if x < 0 then x + TWO_64 else x, 8)
  }

  /** `writeInt`: the four bytes `readInt` turns back into `x`. */
  function IntBytes(x: int): (r: seq<byte>)
    requires IsInt(x)
    ensures |r| == 4
  {
    Pow256Values();
    UnsignedBytes(if x < 0 then x + TWO_32 else x, 4)
  }

  /** Reading a long where one was written gives it back, wherever it sits in the file. */
  lemma ReadLongBytes(x: int, pre: seq<byte>, post: seq<byte>)
    requires IsLong(x)
    ensures |pre + LongBytes(x) + post| >= |pre| + 8
    ensures ReadLong(pre + LongBytes(x) + post, |pre|) == x
  {
    var file := pre + LongBytes(x) + post;
    assert file[|pre|..|pre| + 8] == LongBytes(x);
    ReadLongAt(file, |pre|, x);
  }

  /** Reading an int where one was written gives it back, wherever it sits in the file. */
  lemma ReadIntBytes(x: int, pre: seq<byte>, post: seq<byte>)
    requires IsInt(x)
    ensures |pre + IntBytes(x) + post| >= |pre| + 4
    ensures ReadInt(pre + IntBytes(x) + post, |pre|) == x
  {
    var file := pre + IntBytes(x) + post;
    assert file[|pre|..|pre| + 4] == IntBytes(x);
    ReadIntAt(file, |pre|, x);
  }

  /** A long read where its eight bytes were written gives it back. */
  lemma ReadLongAt(file: seq<byte>, pos: nat, x: int)
    requires IsLong(x) && pos + 8 <= |file| && file[pos..pos + 8] == LongBytes(x)
    ensures ReadLong(file, pos) == x
  {
    Pow256Values();
    UnsignedRoundTrip(if x < 0 then x + TWO_64 else x, 8);
    UnsignedAtSlice(file, pos, 8);
  }

  /** An int read where its four bytes were written gives it back. */
  lemma ReadIntAt(file: seq<byte>, pos: nat, x: int)
    requires IsInt(x) && pos + 4 <= |file| && file[pos..pos + 4] == IntBytes(x)
    ensures ReadInt(file, pos) == x
  {
    Pow256Values();
    UnsignedRoundTrip(if x < 0 then x + TWO_32 else x, 4);
    UnsignedAtSlice(file, pos, 4);
  }
}
