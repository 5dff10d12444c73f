/** Little-endian two's-complement integers, as Python's `struct` reads the `b`, `i` and `q`
    fields of a `<` format (standard sizes 1, 4 and 8 bytes, least significant byte first). */
module LittleEndian {

  type byte = b: int | 0 <= b < 256

  function Pow256(k: nat): (r: int)
    ensures r >= 1
  {
    if k == 0 then 1 else 256 * Pow256(k - 1)
  }

  /** Half the range of a k-byte integer: the signed range is [-Half(k), Half(k)). */
  function Half(k: nat): (r: int)
    requires k > 0
    ensures r >= 1 && 2 * r == Pow256(k)
  {
    128 * Pow256(k - 1)
  }

  /** The unsigned value of `bs`, least significant byte first. */
  function Unsigned(bs: seq<byte>): (r: nat)
    ensures r < Pow256(|bs|)
  {
    if |bs| == 0 then 0 else bs[0] + 256 * Unsigned(bs[1..])
  }

  /** The two's-complement value of `bs`. */
  function Signed(bs: seq<byte>): (r: int)
    requires |bs| > 0
    ensures -Half(|bs|) <= r < Half(|bs|)
    ensures r == Unsigned(bs) || r == Unsigned(bs) - Pow256(|bs|)
  {
    var u := Unsigned(bs);
    if u < Half(|bs|) then u else u - Pow256(|bs|)
  }

  /** The `k` bytes that hold `n` modulo 256^k, least significant first. */
  function EncodeUnsigned(n: nat, k: nat): (r: seq<byte>)
    ensures |r| == k
  {
    if k == 0 then [] else [n % 256] + EncodeUnsigned(n / 256, k - 1)
  }

  function EncodeSigned(v: int, k: nat): (r: seq<byte>)
    requires k > 0 && -Half(k) <= v < Half(k)
    ensures |r| == k
  {
    EncodeUnsigned(if v >= 0 then v else v + Pow256(k), k)
  }

  lemma {:induction false} UnsignedOfEncode(n: nat, k: nat)
    requires n < Pow256(k)
    ensures Unsigned(EncodeUnsigned(n, k)) == n
  {
    if k > 0 {
      var rest := EncodeUnsigned(n / 256, k - 1);
      assert EncodeUnsigned(n, k)[1..] == rest;
      UnsignedOfEncode(n / 256, k - 1);
    }
  }

  lemma {:induction false} EncodeOfUnsigned(bs: seq<byte>)
    ensures EncodeUnsigned(Unsigned(bs), |bs|) == bs
  {
    if |bs| > 0 {
      var u := Unsigned(bs[1..]);
      assert (bs[0] + 256 * u) % 256 == bs[0];
      assert (bs[0] + 256 * u) / 256 == u;
      EncodeOfUnsigned(bs[1..]);
    }
  }

  /** Decoding what was encoded gives the value back ... */
  lemma SignedOfEncode(v: int, k: nat)
    requires k > 0 && -Half(k) <= v < Half(k)
    ensures Signed(EncodeSigned(v, k)) == v
  {
    UnsignedOfEncode(if v >= 0 then v else v + Pow256(k), k);
  }

  /** ... and encoding what was decoded gives the bytes back: the codec is a bijection
      between k-byte strings and the k-byte signed range. */
  lemma EncodeOfSigned(bs: seq<byte>)
    requires |bs| > 0
    ensures EncodeSigned(Signed(bs), |bs|) == bs
  {
    EncodeOfUnsigned(bs);
  }

  /** The 4-byte case written out: the `<i` field. */
  lemma Int32Value(bs: seq<byte>)
    requires |bs| == 4
    ensures var b0, b1, b2, b3 := bs[0] as int, bs[1] as int, bs[2] as int, bs[3] as int;
            Signed(bs) == b0 + 0x100 * b1 + 0x1_0000 * b2 + 0x100_0000 * b3
                          - (if b3 >= 0x80 then 0x1_0000_0000 else 0)
  {
    var s1, s2, s3 := bs[1..], bs[2..], bs[3..];
    assert s1[1..] == s2 && s2[1..] == s3 && s3[1..] == [];
    assert Unsigned(s3) == bs[3];
    assert Unsigned(s2) == bs[2] as int + 256 * (bs[3] as int);
    assert Unsigned(s1) == bs[1] + 256 * Unsigned(s2);
    assert Half(4) == 0x8000_0000 && Pow256(4) == 0x1_0000_0000;
  }

  /** The 1-byte case written out: the `b` field. */
  lemma Int8Value(b: byte)
    ensures Signed([b]) == if b >= 0x80 then b - 0x100 else b
  {
    assert [b][1..] == [];
  }
}
