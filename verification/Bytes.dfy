/** Bytes, and the integer encodings used on the wire and inside packed messages. */
module Bytes {

  newtype byte = x: int | 0 <= x < 256

  function Pow256(k: nat): (p: nat)
    ensures p > 0
  {
    if k == 0 then 1 else 256 * Pow256(k - 1)
  }

  // ----- little-endian words of k bytes (packed messages)

  function FromLittleEndian(bs: seq<byte>): (n: nat)
    ensures n < Pow256(|bs|)
  {
    if bs == [] then 0 else bs[0] as int + 256 * FromLittleEndian(bs[1..])
  }

  function ToLittleEndian(n: nat, k: nat): (bs: seq<byte>)
    ensures |bs| == k
  {
    if k == 0 then [] else [(n % 256) as byte] + ToLittleEndian(n / 256, k - 1)
  }

  /** The sum of the first `k` bytes, each with the weight of its place. */
  function Weighted(bs: seq<byte>, k: nat): (n: nat)
    requires k <= |bs|
  {
    if k == 0 then 0 else Weighted(bs, k - 1) + bs[k - 1] as int * Pow256(k - 1)
  }

  lemma {:induction false} WeightedShifts(bs: seq<byte>, k: nat)
    requires 0 < k <= |bs|
    ensures Weighted(bs, k) == bs[0] as int + 256 * Weighted(bs[1..], k - 1)
  {
    if k > 1 {
      WeightedShifts(bs, k - 1);
      assert 256 * (bs[k - 1] as int * Pow256(k - 2)) == bs[k - 1] as int * Pow256(k - 1);
    }
  }

  /** The least significant byte comes first: byte `i` counts 256 to the `i`. */
  lemma {:induction false} LittleEndianIsWeighted(bs: seq<byte>)
    ensures FromLittleEndian(bs) == Weighted(bs, |bs|)
  {
    if bs != [] {
      LittleEndianIsWeighted(bs[1..]);
      WeightedShifts(bs, |bs|);
    }
  }

  /** A key of four bytes. */
  lemma FourLittleBytes(bs: seq<byte>)
    requires |bs| == 4
    ensures FromLittleEndian(bs)
            == bs[0] as int + 0x100 * bs[1] as int + 0x1_0000 * bs[2] as int + 0x100_0000 * bs[3] as int
  {
    LittleEndianIsWeighted(bs);
    assert Pow256(1) == 0x100 && Pow256(2) == 0x1_0000 && Pow256(3) == 0x100_0000;
    assert Weighted(bs, 1) == bs[0] as int * Pow256(0);
    assert Weighted(bs, 3) == Weighted(bs, 1) + bs[1] as int * Pow256(1) + bs[2] as int * Pow256(2);
  }

  lemma {:induction false} LittleEndianRoundTrip(n: nat, k: nat)
    requires n < Pow256(k)
    ensures FromLittleEndian(ToLittleEndian(n, k)) == n
  {
    if k > 0 {
      assert n / 256 < Pow256(k - 1);
      LittleEndianRoundTrip(n / 256, k - 1);
      assert ToLittleEndian(n, k)[1..] == ToLittleEndian(n / 256, k - 1);
    }
  }

  lemma {:induction false} LittleEndianOfBytes(bs: seq<byte>)
    ensures ToLittleEndian(FromLittleEndian(bs), |bs|) == bs
  {
    if bs != [] {
      LittleEndianOfBytes(bs[1..]);
      var n := FromLittleEndian(bs);
      assert n % 256 == bs[0] as int && n / 256 == FromLittleEndian(bs[1..]);
    }
  }

  // ----- the four-byte network-order length header

  const UNSIGNED_RANGE := 0x1_0000_0000

  function ToNetworkOrder(n: nat): (bs: seq<byte>)
    requires n < UNSIGNED_RANGE
    ensures |bs| == 4
  {
    [(n / 0x100_0000) as byte, (n / 0x1_0000 % 0x100) as byte, (n / 0x100 % 0x100) as byte, (n % 0x100) as byte]
  }

  function FromNetworkOrder(bs: seq<byte>): (n: nat)
    requires |bs| == 4
    ensures n < UNSIGNED_RANGE
  {
    bs[0] as int * 0x100_0000 + bs[1] as int * 0x1_0000 + bs[2] as int * 0x100 + bs[3] as int
  }

  /** The most significant byte comes first, and the length is read back as it was written. */
  lemma NetworkOrderRoundTrip(n: nat)
    requires n < UNSIGNED_RANGE
    ensures FromNetworkOrder(ToNetworkOrder(n)) == n
    ensures var bs := ToNetworkOrder(n);
            n == 0x100_0000 * bs[0] as int + 0x1_0000 * bs[1] as int + 0x100 * bs[2] as int + bs[3] as int
  {
    var high := n / 0x100;
    var higher := high / 0x100;
    assert n / 0x1_0000 == higher;
    assert n / 0x100_0000 == higher / 0x100;
    assert n == high * 0x100 + n % 0x100;
    assert high == higher * 0x100 + high % 0x100;
  }
}
