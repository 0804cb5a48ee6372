/** Machine words as numbers and as bits, counted from the lowest. */
module Bits {

  function Pow2(n: nat): (p: nat)
    ensures p > 0
  {
    if n == 0 then 1 else 2 * Pow2(n - 1)
  }

  /** v >> n. */
  function Half(v: nat, n: nat): (r: nat)
  {
    if n == 0 then v else Half(v / 2, n - 1)
  }

  /** v << n. */
  function Double(v: nat, n: nat): (r: nat)
  {
    if n == 0 then v else 2 * Double(v, n - 1)
  }

  /** v & (2^n - 1). */
  function Low(v: nat, n: nat): (r: nat)
    ensures r < Pow2(n)
  {
    if n == 0 then 0 else 2 * Low(v / 2, n - 1) + v % 2
  }

  /** a | b, on n bits. */
  function Or(a: nat, b: nat, n: nat): (r: nat)
    ensures r < Pow2(n)
  {
    if n == 0 then 0 else 2 * Or(a / 2, b / 2, n - 1) + (if a % 2 + b % 2 > 0 then 1 else 0)
  }

  function Bit(v: nat, k: nat): (b: nat)
    ensures b <= 1
  {
    Half(v, k) % 2
  }

  lemma {:induction false} HalfMore(v: nat, a: nat, b: nat)
    ensures Half(Half(v, a), b) == Half(v, a + b)
    decreases a
  {
    if a > 0 {
      HalfMore(v / 2, a - 1, b);
    }
  }

  lemma BitHalf(v: nat, a: nat, k: nat)
    ensures Bit(Half(v, a), k) == Bit(v, a + k)
  {
    HalfMore(v, a, k);
  }

  lemma {:induction false} BitDouble(v: nat, a: nat, k: nat)
    ensures Bit(Double(v, a), k) == if k < a then 0 else Bit(v, k - a)
    decreases a
  {
    if a > 0 {
      assert Double(v, a) / 2 == Double(v, a - 1);
      if k > 0 {
        BitDouble(v, a - 1, k - 1);
      }
    }
  }

  lemma {:induction false} BitLow(v: nat, n: nat, k: nat)
    ensures Bit(Low(v, n), k) == if k < n then Bit(v, k) else 0
    decreases n
  {
    if n == 0 {
      BitNone(k);
    } else {
      assert Low(v, n) / 2 == Low(v / 2, n - 1);
      if k > 0 {
        BitLow(v / 2, n - 1, k - 1);
      }
    }
  }

  lemma {:induction false} BitOr(a: nat, b: nat, n: nat, k: nat)
    ensures Bit(Or(a, b, n), k) == if k < n && Bit(a, k) + Bit(b, k) > 0 then 1 else 0
    decreases n
  {
    if n == 0 {
      BitNone(k);
    } else {
      assert Or(a, b, n) / 2 == Or(a / 2, b / 2, n - 1);
      if k > 0 {
        BitOr(a / 2, b / 2, n - 1, k - 1);
      }
    }
  }

  lemma {:induction false} BitNone(k: nat)
    ensures Bit(0, k) == 0
  {
    if k > 0 {
      BitNone(k - 1);
    }
  }

  /** No bit beyond the size. */
  lemma {:induction false} BitBeyond(v: nat, n: nat, k: nat)
    requires v < Pow2(n) && n <= k
    ensures Bit(v, k) == 0
    decreases n
  {
    if n == 0 {
      BitNone(k);
    } else {
      BitBeyond(v / 2, n - 1, k - 1);
    }
  }

  lemma {:induction false} BitsEqual(a: nat, b: nat, n: nat)
    requires a < Pow2(n) && b < Pow2(n) && forall k :: 0 <= k < n ==> Bit(a, k) == Bit(b, k)
    ensures a == b
    decreases n
  {
    if n > 0 {
      assert Bit(a, 0) == Bit(b, 0);
      forall k | 0 <= k < n - 1 ensures Bit(a / 2, k) == Bit(b / 2, k) {
        assert Bit(a, k + 1) == Bit(b, k + 1);
      }
      BitsEqual(a / 2, b / 2, n - 1);
    }
  }

  /** The highest bit in which two numbers differ decides which is smaller. */
  lemma {:induction false} FirstDifference(a: nat, b: nat, n: nat) returns (e: nat)
    requires a < b < Pow2(n)
    ensures e < n && Bit(a, e) == 0 && Bit(b, e) == 1
    ensures forall k :: e < k < n ==> Bit(a, k) == Bit(b, k)
    decreases n
  {
    if a / 2 == b / 2 {
      e := 0;
      forall k | 0 < k < n ensures Bit(a, k) == Bit(b, k) {
        assert Bit(a, k) == Bit(a / 2, k - 1) && Bit(b, k) == Bit(b / 2, k - 1);
      }
    } else {
      var d := FirstDifference(a / 2, b / 2, n - 1);
      e := d + 1;
      forall k | e < k < n ensures Bit(a, k) == Bit(b, k) {
        assert Bit(a, k) == Bit(a / 2, k - 1) && Bit(b, k) == Bit(b / 2, k - 1);
      }
    }
  }

  lemma {:induction false} DecidedBy(a: nat, b: nat, n: nat, e: nat)
    requires a < Pow2(n) && b < Pow2(n) && e < n && Bit(a, e) == 0 && Bit(b, e) == 1
    requires forall k :: e < k < n ==> Bit(a, k) == Bit(b, k)
    ensures a < b
    decreases n
  {
    forall k | 0 <= k < n - 1 ensures Bit(a / 2, k) == Bit(a, k + 1) && Bit(b / 2, k) == Bit(b, k + 1) {
    }
    if e == 0 {
      BitsEqual(a / 2, b / 2, n - 1);
    } else {
      DecidedBy(a / 2, b / 2, n - 1, e - 1);
    }
  }

  lemma HalfStep(v: nat, n: nat)
    ensures Half(v, n + 1) == Half(v, n) / 2
  {
    HalfMore(v, n, 1);
    assert Half(Half(v, n), 1) == Half(Half(v, n) / 2, 0);
  }

  /** a ^ b, on n bits. */
  function Xor(a: nat, b: nat, n: nat): (r: nat)
    ensures r < Pow2(n)
  {
    if n == 0 then 0 else 2 * Xor(a / 2, b / 2, n - 1) + (a + b) % 2
  }

  lemma XorStep(r: nat, a: nat, b: nat, x: nat)
    requires x == 2 * r + (a + b) % 2
    ensures x / 2 == r && (x + b) % 2 == a % 2 && a == 2 * (a / 2) + a % 2
  {
  }

  lemma {:induction false} XorTwice(a: nat, b: nat, n: nat)
    requires a < Pow2(n)
    ensures Xor(Xor(a, b, n), b, n) == a
  {
    if n > 0 {
      XorTwice(a / 2, b / 2, n - 1);
      XorStep(Xor(a / 2, b / 2, n - 1), a, b, Xor(a, b, n));
    }
  }

  lemma Pow2Values()
    ensures Pow2(5) == 32 && Pow2(8) == 256 && Pow2(16) == 65536
  {
    assert Pow2(4) == 16;
    assert Pow2(12) == 4096;
  }
}
