/**
 The integer codecs of utils/io.go. IntToBytes and BytesToInt put the length in
 front of every frame; IntToByteArray and ByteArrayToInt go through the host's
 memory one byte at a time (a little-endian host is modelled).
 */
module IntCodec {
  import opened Prelude

  /** Two's complement: the 64-bit pattern of n, read as an unsigned number. */
  function Unsigned(n: int64): nat {
    if n < 0 then n + TWO_TO_THE_64 else n
  }

  function Signed(u: nat): int64
    requires u < TWO_TO_THE_64
  {
    if u < TWO_TO_THE_63 then u else u - TWO_TO_THE_64
  }

  /** The k low base-256 digits of u, most significant first. */
  function ToBE(u: nat, k: nat): (bs: seq<byte>)
    ensures |bs| == k
  {
    if k == 0 then [] else ToBE(u / 256, k - 1) + [u % 256]
  }

  function FromBE(bs: seq<byte>): nat {
    if bs == [] then 0 else FromBE(bs[..|bs| - 1]) * 256 + bs[|bs| - 1]
  }

  function Pow256(k: nat): nat {
    if k == 0 then 1 else 256 * Pow256(k - 1)
  }

  lemma Pow256Of8()
    ensures Pow256(8) == TWO_TO_THE_64
  {
    assert Pow256(4) == 0x1_0000_0000;
    assert Pow256(6) == 0x1_0000_0000_0000;
  }

  lemma {:induction false} FromBEBound(bs: seq<byte>)
    ensures FromBE(bs) < Pow256(|bs|)
  {
    if bs != [] {
      FromBEBound(bs[..|bs| - 1]);
    }
  }

  lemma {:induction false} FromToBE(u: nat, k: nat)
    requires u < Pow256(k)
    ensures FromBE(ToBE(u, k)) == u
  {
    if k > 0 {
      FromToBE(u / 256, k - 1);
      assert ToBE(u, k)[..k - 1] == ToBE(u / 256, k - 1);
    }
  }

  lemma {:induction false} ToFromBE(bs: seq<byte>)
    ensures ToBE(FromBE(bs), |bs|) == bs
  {
    if bs != [] {
      ToFromBE(bs[..|bs| - 1]);
    }
  }

  /** utils/io.go: encoding/binary writes the int64 in big-endian order. */
  function IntToBytes(n: int64): (bs: seq<byte>)
    ensures |bs| == 8
  {
    ToBE(Unsigned(n), 8)
  }

  /** binary.Read takes the first eight bytes; with fewer it fails and leaves the zero value. */
  function BytesToInt(bs: seq<byte>): int64 {
    if |bs| < 8 then 0
    else
      FromBEBound(bs[..8]);
      Pow256Of8();
      Signed(FromBE(bs[..8]))
  }

  lemma BytesToIntInvertsIntToBytes(n: int64, tail: seq<byte>)
    ensures BytesToInt(IntToBytes(n) + tail) == n
  {
    Pow256Of8();
    FromToBE(Unsigned(n), 8);
    assert (IntToBytes(n) + tail)[..8] == IntToBytes(n);
  }

  lemma IntToBytesInvertsBytesToInt(bs: seq<byte>)
    requires |bs| == 8
    ensures IntToBytes(BytesToInt(bs)) == bs
  {
    assert bs[..8] == bs;
    FromBEBound(bs);
    Pow256Of8();
    ToFromBE(bs);
  }

  lemma FromBEStep(bs: seq<byte>, k: nat)
    requires k < |bs|
    ensures FromBE(bs[..k + 1]) == FromBE(bs[..k]) * 256 + bs[k]
  {
    assert bs[..k + 1][..k] == bs[..k];
  }

  /** Eight bytes as one number, the first byte being the most significant. */
  function Weighted(bs: seq<byte>): int
    requires |bs| >= 8
  {
    bs[0] as int * 0x100_0000_0000_0000 + bs[1] as int * 0x1_0000_0000_0000
    + bs[2] as int * 0x100_0000_0000 + bs[3] as int * 0x1_0000_0000
    + bs[4] as int * 0x100_0000 + bs[5] as int * 0x1_0000 + bs[6] as int * 0x100 + bs[7] as int
  }

  /** What bytes read as: from 128 on the first byte makes the number negative. */
  lemma IntOfBytes(bs: seq<byte>)
    ensures |bs| < 8 ==> BytesToInt(bs) == 0
    ensures |bs| >= 8 ==> BytesToInt(bs) == Weighted(bs) - if bs[0] >= 128 then 0x1_0000_0000_0000_0000 else 0
  {
    if |bs| >= 8 {
      FromBEStep(bs, 0);
      FromBEStep(bs, 1);
      FromBEStep(bs, 2);
      FromBEStep(bs, 3);
      FromBEStep(bs, 4);
      FromBEStep(bs, 5);
      FromBEStep(bs, 6);
      FromBEStep(bs, 7);
    }
  }

  /** So a number determines its eight bytes. */
  lemma BytesOfInt(n: int64)
    ensures var bs := IntToBytes(n); n == Weighted(bs) - if bs[0] >= 128 then 0x1_0000_0000_0000_0000 else 0
  {
    BytesToIntInvertsIntToBytes(n, []);
    assert IntToBytes(n) + [] == IntToBytes(n);
    IntOfBytes(IntToBytes(n));
  }

  // ---------- the loop versions ----------

  function Reversed(bs: seq<byte>): (r: seq<byte>)
    ensures |r| == |bs|
    ensures forall i :: 0 <= i < |bs| ==> r[i] == bs[|bs| - 1 - i]
  {
    if bs == [] then [] else [bs[|bs| - 1]] + Reversed(bs[..|bs| - 1])
  }

  lemma ReversedTwice(bs: seq<byte>)
    ensures Reversed(Reversed(bs)) == bs
  {
  }

  /** The k low base-256 digits of u as a little-endian host stores them, least significant first. */
  function ToLE(u: nat, k: nat): (bs: seq<byte>)
    ensures |bs| == k
  {
    if k == 0 then [] else [u % 256] + ToLE(u / 256, k - 1)
  }

  function FromLE(bs: seq<byte>): nat {
    if bs == [] then 0 else bs[0] + 256 * FromLE(bs[1..])
  }

  /** A little-endian host stores the big-endian digits in reverse. */
  lemma {:induction false} LittleIsReversedBig(u: nat, k: nat)
    ensures ToLE(u, k) == Reversed(ToBE(u, k))
  {
    if k > 0 {
      LittleIsReversedBig(u / 256, k - 1);
      assert ToBE(u, k)[..k - 1] == ToBE(u / 256, k - 1);
    }
  }

  lemma {:induction false} FromLittleIsFromBig(bs: seq<byte>)
    ensures FromLE(bs) == FromBE(Reversed(bs))
  {
    if bs != [] {
      FromLittleIsFromBig(bs[1..]);
      var r := Reversed(bs);
      assert r[..|r| - 1] == Reversed(bs[1..]);
    }
  }

  /** The eight bytes that hold n in the memory of a little-endian host. */
  function Memory(n: int64): (bs: seq<byte>)
    ensures |bs| == 8
  {
    ToLE(Unsigned(n), 8)
  }

  /** The number held by eight bytes of such memory. */
  function Load(mem: seq<byte>): int64
    requires |mem| == 8
  {
    FromLittleIsFromBig(mem);
    FromBEBound(Reversed(mem));
    Pow256Of8();
    Signed(FromLE(mem))
  }

  lemma MemoryIsReversed(n: int64)
    ensures Memory(n) == Reversed(IntToBytes(n))
  {
    LittleIsReversedBig(Unsigned(n), 8);
  }

  lemma LoadIsReversed(mem: seq<byte>)
    requires |mem| == 8
    ensures Load(mem) == BytesToInt(Reversed(mem))
  {
    FromLittleIsFromBig(mem);
    assert Reversed(mem)[..8] == Reversed(mem);
  }

  function Zeros(k: nat): (bs: seq<byte>)
    ensures |bs| == k
    ensures forall i :: 0 <= i < k ==> bs[i] == 0
  {
    seq(k, _ => 0)
  }

  method IntToByteArray(num: int64) returns (arr: array<byte>)
    ensures fresh(arr) && arr.Length == 8
    ensures arr[..] == Reversed(IntToBytes(num))
  {
    var size := 8;
    arr := new byte[size];
    for i := 0 to size
      invariant arr[..i] == Memory(num)[..i]
    {
      arr[i] := Memory(num)[i];
    }
    assert arr[..] == arr[..size];
    MemoryIsReversed(num);
  }

  /**
   The bytes go one by one to where the variable is stored: the first eight
   determine its value, and what an array has beyond them ends up past it.
   */
  method ByteArrayToInt(arr: array<byte>) returns (val: int64, past: seq<byte>)
    ensures arr.Length <= 8 ==> val == BytesToInt(Reversed(arr[..] + Zeros(8 - arr.Length))) && past == []
    ensures arr.Length > 8 ==> val == BytesToInt(Reversed(arr[..8])) && past == arr[8..]
  {
    var mem: seq<byte> := Zeros(8);
    past := [];
    var size := arr.Length;
    for i := 0 to size
      invariant |mem| == 8
      invariant i <= 8 ==> mem == arr[..i] + Zeros(8 - i) && past == []
      invariant i > 8 ==> mem == arr[..8] && past == arr[8..i]
    {
      if i < 8 {
        mem := mem[i := arr[i]];
      } else {
        past := past + [arr[i]];
      }
    }
    assert arr[..size] == arr[..];
    val := Load(mem);
    LoadIsReversed(mem);
  }

  /** What a short array holds is kept: the missing high bytes count as zero. */
  lemma {:induction false} ZeroExtension(bs: seq<byte>, k: nat)
    ensures FromBE(Reversed(bs + Zeros(k))) == FromBE(Reversed(bs))
  {
    if k == 0 {
      assert bs + Zeros(0) == bs;
    } else {
      var longer := bs + Zeros(k);
      var shorter := bs + Zeros(k - 1);
      ZeroExtension(bs, k - 1);
      assert longer[..|longer| - 1] == shorter;
      assert Reversed(longer) == [0] + Reversed(shorter);
      LeadingZero(Reversed(shorter));
    }
  }

  lemma ShortArrayValue(bs: seq<byte>, k: nat)
    requires |bs| + k == 8 && k > 0
    ensures BytesToInt(Reversed(bs + Zeros(k))) == FromBE(Reversed(bs))
  {
    ZeroExtension(bs, k);
    ShortValueBound(Reversed(bs));
    SmallValueIsUnsigned(Reversed(bs + Zeros(k)));
  }

  lemma ShortValueBound(bs: seq<byte>)
    requires |bs| < 8
    ensures FromBE(bs) < TWO_TO_THE_63
  {
    FromBEBound(bs);
    Pow256Monotone(|bs|, 7);
    Pow256Of7();
  }

  lemma SmallValueIsUnsigned(bs: seq<byte>)
    requires |bs| == 8 && FromBE(bs) < TWO_TO_THE_63
    ensures BytesToInt(bs) == FromBE(bs)
  {
    assert bs[..8] == bs;
  }

  lemma Pow256Of7()
    ensures Pow256(7) < TWO_TO_THE_63
  {
    assert Pow256(3) == 0x100_0000;
    assert Pow256(5) == 0x100_0000_0000;
  }

  lemma {:induction false} Pow256Monotone(j: nat, k: nat)
    requires j <= k
    ensures Pow256(j) <= Pow256(k)
  {
    if j < k {
      Pow256Monotone(j, k - 1);
    }
  }

  lemma {:induction false} LeadingZero(bs: seq<byte>)
    ensures FromBE([0] + bs) == FromBE(bs)
  {
    if bs == [] {
      assert [0] + bs == [0];
      assert [0][..0] == [];
    } else {
      LeadingZero(bs[..|bs| - 1]);
      assert ([0] + bs)[..|bs|] == [0] + bs[..|bs| - 1];
    }
  }

  /** The two loops undo each other, on any int64 and on any eight bytes. */
  method LoopsAreInverse(num: int64, bytes: array<byte>) returns (num': int64, bytes': array<byte>)
    requires bytes.Length == 8
    ensures num' == num
    ensures bytes'[..] == bytes[..]
  {
    var arr := IntToByteArray(num);
    var past;
    num', past := ByteArrayToInt(arr);
    assert arr[..] + Zeros(0) == arr[..];
    ReversedTwice(IntToBytes(num));
    BytesToIntInvertsIntToBytes(num, []);
    assert IntToBytes(num) + [] == IntToBytes(num);
    var n;
    n, past := ByteArrayToInt(bytes);
    bytes' := IntToByteArray(n);
    assert bytes[..] + Zeros(0) == bytes[..];
    IntToBytesInvertsBytesToInt(Reversed(bytes[..]));
    ReversedTwice(bytes[..]);
  }
}
