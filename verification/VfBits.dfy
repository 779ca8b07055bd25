/** Bits of bytes, as the VLAN bitmap of a pending request uses them. */
module VfBits {

  type byte = x: int | 0 <= x < 256

  /** Bit `k` of a byte, counted from the least significant one. */
  predicate Bit(m: nat, k: nat)
    decreases k
  {
    if k == 0 then m % 2 == 1 else Bit(m / 2, k - 1)
  }

  /** `m | (1 << k)`. */
  function SetBit(m: nat, k: nat): nat
    decreases k
  {
    if k == 0 then m - m % 2 + 1 else 2 * SetBit(m / 2, k - 1) + m % 2
  }

  function Pow2(k: nat): (p: nat)
    ensures p > 0
  {
    if k == 0 then 1 else 2 * Pow2(k - 1)
  }

  /** Setting a bit sets that bit and no other. */
  lemma {:induction false} SetBitSets(m: nat, k: nat, j: nat)
    ensures Bit(SetBit(m, k), j) <==> j == k || Bit(m, j)
    decreases k
  {
    if k > 0 && j > 0 {
      SetBitSets(m / 2, k - 1, j - 1);
      assert SetBit(m, k) / 2 == SetBit(m / 2, k - 1);
    }
  }

  lemma {:induction false} SetBitFits(m: nat, k: nat, n: nat)
    requires k < n && m < Pow2(n)
    ensures SetBit(m, k) < Pow2(n)
    decreases k
  {
    if k > 0 {
      SetBitFits(m / 2, k - 1, n - 1);
    }
  }

  lemma {:induction false} NoBits(m: nat, k: nat)
    requires m == 0
    ensures !Bit(m, k)
    decreases k
  {
    if k > 0 {
      NoBits(0, k - 1);
    }
  }

  lemma {:induction false} SomeBit(m: nat, n: nat)
    requires 0 < m < Pow2(n)
    ensures exists k :: 0 <= k < n && Bit(m, k)
    decreases n
  {
    if n == 0 {
    } else if m % 2 == 1 {
      assert Bit(m, 0);
    } else {
      SomeBit(m / 2, n - 1);
      var k :| 0 <= k < n - 1 && Bit(m / 2, k);
      assert Bit(m, k + 1);
    }
  }

  /** A byte shifted right by `j`. */
  function Shifted(m: nat, j: nat): nat {
    if j == 0 then m else Shifted(m, j - 1) / 2
  }

  lemma {:induction false} BitOfShifted(m: nat, j: nat, k: nat)
    ensures Bit(Shifted(m, j), k) <==> Bit(m, j + k)
    decreases j
  {
    if j > 0 {
      BitOfShifted(m, j - 1, k + 1);
    }
  }

  lemma {:induction false} HighBits(m: nat, n: nat, k: nat)
    requires m < Pow2(n) && k >= n
    ensures !Bit(m, k)
    decreases n
  {
    if n == 0 {
      NoBits(m, k);
    } else {
      HighBits(m / 2, n - 1, k - 1);
    }
  }

  /** The position of the least significant set bit, counted from one; zero for a zero byte. */
  method FirstBitSet(mask: byte) returns (bit: nat)
    ensures bit == 0 <==> mask == 0
    ensures bit > 0 ==> bit <= 8 && Bit(mask, bit - 1) && forall k :: 0 <= k < bit - 1 ==> !Bit(mask, k)
  {
    if mask == 0 {
      return 0;
    }
    var m: nat := mask;
    bit := 1;
    while m % 2 == 0
      invariant 1 <= bit && m == Shifted(mask, bit - 1) > 0
      invariant forall k :: 0 <= k < bit - 1 ==> !Bit(mask, k)
      decreases m
    {
      BitOfShifted(mask, bit - 1, 0);
      m := m / 2;
      bit := bit + 1;
    }
    BitOfShifted(mask, bit - 1, 0);
    if bit > 8 {
      assert Pow2(8) == 256;
      HighBits(mask, 8, bit - 1);
    }
  }
}
