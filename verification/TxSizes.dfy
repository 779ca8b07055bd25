/**
 Sizes of transmit packets: how many DMA descriptors a buffer list needs, and
 the bounds the driver's estimates rely on.
 */
module TxSizes {
  import opened Seqs

  /** Most DMA descriptors the firmware accepts for one segmented packet. */
  const TSO_DMA_DESC_MAX: nat := 24

  /** Option descriptors a segmented packet starts with. */
  const FATSOV2_OPT_NDESCS: nat := 2

  /** Descriptors needed for `len` bytes when one holds at most `max`: division rounding up. */
  function TxdNeeded(len: nat, max: nat): nat
    requires max > 0
  {
    (len + max - 1) / max
  }

  function Sum(lens: seq<nat>): nat {
    if lens == [] then 0 else Sum(lens[..|lens| - 1]) + lens[|lens| - 1]
  }

  function SumNeeded(lens: seq<nat>, max: nat): nat
    requires max > 0
  {
    if lens == [] then 0
    else SumNeeded(lens[..|lens| - 1], max) + TxdNeeded(lens[|lens| - 1], max)
  }

  /** `TxdNeeded` is the least number of pieces of at most `max` bytes that cover `len`. */
  lemma NeededIsLeast(len: nat, max: nat, k: nat)
    requires max > 0
    ensures TxdNeeded(len, max) <= k <==> len <= k * max
  {
    var q := TxdNeeded(len, max);
    assert q * max <= len + max - 1 < q * max + max;
    if q <= k {
      assert q * max <= k * max;
    } else {
      assert (k + 1) * max <= q * max;
      assert k * max + max == (k + 1) * max;
    }
  }

  /** Merging two buffers never needs more descriptors than keeping them apart. */
  lemma NeededIsSubadditive(a: nat, b: nat, max: nat)
    requires max > 0
    ensures TxdNeeded(a + b, max) <= TxdNeeded(a, max) + TxdNeeded(b, max)
  {
    var p, q := TxdNeeded(a, max), TxdNeeded(b, max);
    NeededIsLeast(a, max, p);
    NeededIsLeast(b, max, q);
    assert (p + q) * max == p * max + q * max;
    NeededIsLeast(a + b, max, p + q);
  }

  lemma NeededIsMonotone(a: nat, b: nat, max: nat)
    requires max > 0 && a <= b
    ensures TxdNeeded(a, max) <= TxdNeeded(b, max)
  {
    NeededIsLeast(b, max, TxdNeeded(b, max));
    NeededIsLeast(a, max, TxdNeeded(b, max));
  }

  lemma NeededSmall(len: nat, max: nat)
    requires 0 < len <= max
    ensures TxdNeeded(len, max) == 1
  {
  }

  /** Taking off one full piece saves exactly one descriptor. */
  lemma NeededStep(len: nat, max: nat)
    requires 0 < max < len
    ensures TxdNeeded(len, max) == 1 + TxdNeeded(len - max, max)
  {
    var q := TxdNeeded(len - max, max);
    NeededIsLeast(len - max, max, q);
    assert (q + 1) * max == q * max + max;
    NeededIsLeast(len, max, q + 1);
    if q > 0 {
      NeededIsLeast(len - max, max, q - 1);
      assert q * max == (q - 1) * max + max;
    }
    NeededIsLeast(len, max, q);
  }

  lemma {:induction false} SumNeededAppend(a: seq<nat>, b: seq<nat>, max: nat)
    requires max > 0
    ensures SumNeeded(a + b, max) == SumNeeded(a, max) + SumNeeded(b, max)
    ensures Sum(a + b) == Sum(a) + Sum(b)
  {
    if b == [] {
      assert a + b == a;
    } else {
      var n := |b| - 1;
      InitOfAppend(a, b);
      SumNeededAppend(a, b[..n], max);
    }
  }
}
