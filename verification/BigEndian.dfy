// Big-endian numbers and the unsigned machine arithmetic that assembles them.

module BigEndian {
  import opened Prelude

  function Pow256(n: nat): (p: nat)
    ensures p > 0
  {
    if n == 0 then 1 else 256 * Pow256(n - 1)
  }

  function Decode(bs: seq<byte>): nat {
    if bs == [] then 0 else 256 * Decode(bs[..|bs| - 1]) + bs[|bs| - 1]
  }

  function Encode(v: nat, n: nat): (bs: seq<byte>)
    ensures |bs| == n
  {
    if n == 0 then [] else Encode(v / 256, n - 1) + [v % 256]
  }

  lemma {:induction false} DecodeEncode(v: nat, n: nat)
    requires v < Pow256(n)
    ensures Decode(Encode(v, n)) == v
  {
    if n > 0 {
      DecodeEncode(v / 256, n - 1);
      assert Encode(v, n)[..n - 1] == Encode(v / 256, n - 1);
    }
  }

  lemma {:induction false} EncodeDecode(bs: seq<byte>)
    ensures Encode(Decode(bs), |bs|) == bs
    ensures Decode(bs) < Pow256(|bs|)
  {
    if bs != [] {
      var init := bs[..|bs| - 1];
      EncodeDecode(init);
      assert Decode(bs) / 256 == Decode(init);
      assert bs == init + [bs[|bs| - 1]];
    }
  }

  // A non-zero leading byte fixes the size of the number.
  lemma {:induction false} DecodeAtLeast(bs: seq<byte>)
    requires bs != [] && bs[0] > 0
    ensures Decode(bs) >= Pow256(|bs| - 1)
  {
    if |bs| > 1 {
      DecodeAtLeast(bs[..|bs| - 1]);
    }
  }

  lemma {:induction false} Pow256Monotone(m: nat, n: nat)
    requires m <= n
    ensures Pow256(m) <= Pow256(n)
  {
    if m < n {
      Pow256Monotone(m, n - 1);
    }
  }

  // ---- uint64 ----

  const TWO_64 := 0x1_0000_0000_0000_0000

  // x << 8: the bits shifted past the 64th are gone.
  function ShiftLeft8(x: nat): nat {
    (x * 256) % TWO_64
  }

  // x | y, bit by bit.
  function BitOr(x: nat, y: nat): nat {
    if x == 0 && y == 0 then 0
    else 2 * BitOr(x / 2, y / 2) + (if x % 2 == 1 || y % 2 == 1 then 1 else 0)
  }

  function Pow2(k: nat): (p: nat)
    ensures p > 0
  {
    if k == 0 then 1 else 2 * Pow2(k - 1)
  }

  lemma {:induction false} OrZero(x: nat)
    ensures BitOr(x, 0) == x
  {
    if x > 0 {
      OrZero(x / 2);
    }
  }

  // Or-ing bits into a place that is still zero is adding them.
  lemma {:induction false} OrDisjoint(x: nat, y: nat, k: nat)
    requires y < Pow2(k)
    ensures BitOr(x * Pow2(k), y) == x * Pow2(k) + y
  {
    if k == 0 {
      OrZero(x);
    } else {
      var z := x * Pow2(k - 1);
      assert x * Pow2(k) == 2 * z;
      OrDisjoint(x, y / 2, k - 1);
    }
  }

  lemma Pow2Of8()
    ensures Pow2(8) == 256
  {
    assert Pow2(4) == 16;
  }

  // One round of the shift/or loop loses nothing while 8 bits are still free.
  lemma ShiftOr(x: nat, b: byte)
    requires 256 * x < TWO_64
    ensures BitOr(ShiftLeft8(x), b) == 256 * x + b
  {
    hide Pow2, BitOr;
    Pow2Of8();
    OrDisjoint(x, b, 8);
  }

  // int64(u): the value in the signed range that agrees with u modulo 2^64.
  function ToInt64(u: nat): (i: int)
    requires u < TWO_64
    ensures -TWO_64 / 2 <= i < TWO_64 / 2
    ensures (i - u) % TWO_64 == 0
    ensures i == u <==> u < TWO_64 / 2
  {
    if u < TWO_64 / 2 then u else u - TWO_64
  }
}
