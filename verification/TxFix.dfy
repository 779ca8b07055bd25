/**
 Restructuring of packets that break the rules of firmware-assisted
 segmentation: at most 24 DMA descriptors, and all headers in the first one.
 */
module TxFix {
  import opened Seqs
  import opened TxSizes

  /** The two repairs a packet may need (SFVMK_TSO_DEFRAG_SGES, SFVMK_TSO_DEFRAG_HEADER). */
  datatype FixFlags = FixFlags(sges: bool, header: bool)

  /** What header parsing leaves in the transmit info: the adjusted estimate and the flags. */
  datatype Parsed = Parsed(est: nat, fix: FixFlags)

  /**
   The estimate made before parsing: every element on its own, and one
   descriptor more because headers must be split off.
   */
  function InitialEstimate(lens: seq<nat>, max: nat): nat
    requires max > 0
  {
    SumNeeded(lens, max) + 1
  }

  /** The adjustment and the two checks made once the header length is known. */
  function Adjust(lens: seq<nat>, headerLen: nat, max: nat): Parsed
    requires max > 0 && lens != [] && headerLen > 0
  {
    var est := if lens[0] == headerLen then InitialEstimate(lens, max) - 1 else InitialEstimate(lens, max);
    Parsed(est, FixFlags(est > TSO_DMA_DESC_MAX, lens[0] < headerLen))
  }

  /** The lengths after the first `k` elements have been copied into one. */
  function Merged(lens: seq<nat>, k: nat): seq<nat>
    requires 1 <= k <= |lens|
  {
    [Sum(lens[..k])] + lens[k..]
  }

  /**
   The DMA descriptors that a packet with these element lengths is given:
   one for the headers, then each element in pieces of at most `max` bytes.
   */
  function SplitCount(lens: seq<nat>, headerLen: nat, max: nat): nat
    requires max > 0 && lens != [] && headerLen <= lens[0]
  {
    1 + TxdNeeded(lens[0] - headerLen, max) + SumNeeded(lens[1..], max)
  }

  /** The running estimate when the first `k` elements are merged. */
  function EstimateAt(lens: seq<nat>, headerLen: nat, max: nat, k: nat): nat
    requires max > 0 && 1 <= k <= |lens|
  {
    TxdNeeded(Sum(lens[..k]), max) + SumNeeded(lens[k..], max)
    + (if k == 1 && lens[0] == headerLen then 0 else 1)
  }

  lemma SumOfOne(x: nat, max: nat)
    requires max > 0
    ensures Sum([x]) == x && SumNeeded([x], max) == TxdNeeded(x, max)
  {
  }

  /** Merging one element more: what the totals become, and that the estimate does not grow. */
  lemma MergeOneMore(lens: seq<nat>, headerLen: nat, max: nat, k: nat)
    requires max > 0 && 1 <= k < |lens|
    ensures Sum(lens[..k + 1]) == Sum(lens[..k]) + lens[k]
    ensures SumNeeded(lens[k..], max) == TxdNeeded(lens[k], max) + SumNeeded(lens[k + 1..], max)
    ensures TxdNeeded(Sum(lens[..k + 1]), max) <= TxdNeeded(Sum(lens[..k]), max) + TxdNeeded(lens[k], max)
  {
    assert lens[..k + 1][..k] == lens[..k];
    assert lens[k..] == [lens[k]] + lens[k + 1..];
    SumNeededAppend([lens[k]], lens[k + 1..], max);
    SumOfOne(lens[k], max);
    NeededIsSubadditive(Sum(lens[..k]), lens[k], max);
  }

  /** How the estimate changes when one element more is merged. */
  lemma EstimateOneMore(lens: seq<nat>, headerLen: nat, max: nat, k: nat)
    requires max > 0 && 1 <= k < |lens|
    ensures Sum(lens[..k + 1]) == Sum(lens[..k]) + lens[k]
    ensures var less := TxdNeeded(lens[k], max) + TxdNeeded(Sum(lens[..k]), max) - TxdNeeded(Sum(lens[..k + 1]), max);
      && 0 <= less && EstimateAt(lens, headerLen, max, k + 1) > 0
      && EstimateAt(lens, headerLen, max, k + 1)
         == EstimateAt(lens, headerLen, max, k) - less + (if k == 1 && lens[0] == headerLen then 1 else 0)
  {
    MergeOneMore(lens, headerLen, max, k);
  }

  /** With two or more elements merged, the estimate falls towards that of the whole packet. */
  lemma {:induction false} EstimateFalls(lens: seq<nat>, headerLen: nat, max: nat, j: nat, k: nat)
    requires max > 0 && 1 <= j <= k <= |lens|
    requires j >= 2 || lens[0] != headerLen
    ensures EstimateAt(lens, headerLen, max, k) <= EstimateAt(lens, headerLen, max, j)
    decreases k - j
  {
    if j < k {
      MergeOneMore(lens, headerLen, max, j);
      EstimateFalls(lens, headerLen, max, j + 1, k);
    }
  }

  lemma EstimateOfWhole(lens: seq<nat>, headerLen: nat, max: nat)
    requires max > 0 && |lens| >= 2
    ensures EstimateAt(lens, headerLen, max, |lens|) == TxdNeeded(Sum(lens), max) + 1
  {
    assert lens[..|lens|] == lens;
    assert SumNeeded(lens[|lens|..], max) == 0;
  }

  lemma EstimateOfNone(lens: seq<nat>, headerLen: nat, max: nat)
    requires max > 0 && lens != [] && headerLen > 0
    ensures Adjust(lens, headerLen, max).est == EstimateAt(lens, headerLen, max, 1)
    ensures Sum(lens[..1]) == lens[0]
  {
    assert lens == [lens[0]] + lens[1..] && lens[..1] == [lens[0]];
    SumNeededAppend([lens[0]], lens[1..], max);
    SumOfOne(lens[0], max);
  }

  /** The estimate never falls below what the descriptors for the merged packet come to. */
  lemma SplitWithinEstimate(lens: seq<nat>, headerLen: nat, max: nat, k: nat)
    requires max > 0 && 1 <= k <= |lens| && 0 < headerLen <= max
    requires headerLen <= Sum(lens[..k])
    ensures SplitCount(Merged(lens, k), headerLen, max) <= EstimateAt(lens, headerLen, max, k)
  {
    var s := Sum(lens[..k]);
    assert Merged(lens, k)[1..] == lens[k..];
    NeededIsMonotone(s - headerLen, s, max);
    if k == 1 && lens[0] == headerLen {
      assert lens[..1] == [lens[0]];
      SumOfOne(lens[0], max);
      NeededSmall(headerLen, max);
      NeededIsLeast(0, max, 0);
    }
  }

  /** With the first `k` elements merged the rules that were broken are obeyed. */
  predicate Repairs(lens: seq<nat>, headerLen: nat, max: nat, fix: FixFlags, k: nat)
    requires max > 0 && 1 <= k <= |lens|
  {
    && (fix.sges ==> EstimateAt(lens, headerLen, max, k) <= TSO_DMA_DESC_MAX)
    && headerLen <= Sum(lens[..k])
  }

  /** The least number of elements, from `k` on, whose merging repairs the packet; all of them if none does. */
  function RepairLen(lens: seq<nat>, headerLen: nat, max: nat, fix: FixFlags, k: nat): (r: nat)
    requires max > 0 && 1 <= k
    ensures r <= |lens| && (r < k ==> r == |lens|) && (lens != [] ==> r >= 1)
    decreases |lens| - k
  {
    if k >= |lens| then |lens|
    else if Repairs(lens, headerLen, max, fix, k) then k
    else RepairLen(lens, headerLen, max, fix, k + 1)
  }

  lemma {:induction false} RepairLenIs(lens: seq<nat>, headerLen: nat, max: nat, fix: FixFlags, k: nat, c: nat)
    requires max > 0 && 1 <= k <= c <= |lens|
    requires forall j {:trigger Repairs(lens, headerLen, max, fix, j)} ::
               k <= j < c ==> !Repairs(lens, headerLen, max, fix, j)
    requires c == |lens| || Repairs(lens, headerLen, max, fix, c)
    ensures RepairLen(lens, headerLen, max, fix, k) == c
    decreases c - k
  {
    if k < c {
      RepairLenIs(lens, headerLen, max, fix, k + 1, c);
    }
  }

  /** What the flags say about the elements merged so far. */
  lemma FlagsTell(lens: seq<nat>, headerLen: nat, max: nat, p: Parsed, fix: FixFlags, est: nat, settled: nat,
                  copied: nat)
    requires max > 0 && 2 <= copied <= |lens| && 1 <= settled <= copied && headerLen > 0
    requires p == Adjust(lens, headerLen, max)
    requires est == EstimateAt(lens, headerLen, max, settled)
    requires (fix.sges <==> est > TSO_DMA_DESC_MAX) && (fix.sges ==> settled == copied && p.fix.sges)
    requires p.fix.sges && !fix.sges ==> settled >= 2
    requires fix.header <==> Sum(lens[..copied]) < headerLen
    ensures Repairs(lens, headerLen, max, p.fix, copied) <==> !fix.sges && !fix.header
  {
    if p.fix.sges && !fix.sges {
      EstimateFalls(lens, headerLen, max, settled, copied);
    }
  }

  lemma PrefixSum(lens: seq<nat>, k: nat)
    requires k <= |lens|
    ensures Sum(lens[..k]) <= Sum(lens) && (k == |lens| ==> Sum(lens[..k]) == Sum(lens))
  {
    Cut(lens, k);
    SumNeededAppend(lens[..k], lens[k..], 1);
  }

  /** What the state of the loop says about the whole packet when the loop stops. */
  lemma FixOutcome(lens: seq<nat>, headerLen: nat, max: nat, p: Parsed, copied: nat, settled: nat)
    requires max > 0 && lens != [] && 0 < headerLen <= max
    requires p == Adjust(lens, headerLen, max) && (p.fix.sges || p.fix.header)
    requires 1 <= settled <= copied <= |lens|
    requires settled == 1 ==> lens[0] != headerLen || copied == 1
    ensures settled >= 2 || (lens[0] != headerLen) ==>
              EstimateAt(lens, headerLen, max, |lens|) <= EstimateAt(lens, headerLen, max, settled)
    ensures |lens| >= 2 ==> EstimateAt(lens, headerLen, max, |lens|) == TxdNeeded(Sum(lens), max) + 1
    ensures headerLen <= Sum(lens[..copied]) && (settled >= 2 || lens[0] != headerLen) ==>
              SplitCount(Merged(lens, copied), headerLen, max) <= EstimateAt(lens, headerLen, max, settled)
    ensures Sum(lens[..copied]) <= Sum(lens) && (copied == |lens| ==> Sum(lens[..copied]) == Sum(lens))
    ensures |lens| == 1 ==> copied == 1 && Sum(lens) == lens[0]
    ensures |lens| == 1 && p.fix.sges ==> TxdNeeded(Sum(lens), max) + 1 > TSO_DMA_DESC_MAX
  {
    if settled >= 2 || lens[0] != headerLen {
      EstimateFalls(lens, headerLen, max, settled, |lens|);
      EstimateFalls(lens, headerLen, max, settled, copied);
    }
    if |lens| >= 2 {
      EstimateOfWhole(lens, headerLen, max);
    } else {
      assert lens == [lens[0]];
      SumOfOne(lens[0], max);
    }
    if headerLen <= Sum(lens[..copied]) {
      SplitWithinEstimate(lens, headerLen, max, copied);
    }
    PrefixSum(lens, copied);
  }

  /**
   The merging loop. It returns the number of bytes to copy, the final
   estimate and the flags still set; `copied` is the number of elements merged.
   */
  method HwTsoFixPkt(lens: seq<nat>, headerLen: nat, max: nat, p: Parsed)
    returns (copyBytes: nat, est: nat, fix: FixFlags, copied: nat)
    requires max > 0 && lens != [] && 0 < headerLen <= max
    requires p == Adjust(lens, headerLen, max)
    requires p.fix.sges || p.fix.header
    ensures 1 <= copied <= |lens| && copyBytes == Sum(lens[..copied])
    ensures copied == RepairLen(lens, headerLen, max, p.fix, 2)
    // Every violation is repaired exactly when the packet as a whole allows it.
    ensures !fix.sges && !fix.header <==>
            (p.fix.sges ==> TxdNeeded(Sum(lens), max) + 1 <= TSO_DMA_DESC_MAX) && headerLen <= Sum(lens)
    ensures !fix.sges && !fix.header ==>
              && copied >= 2
              && headerLen <= copyBytes
              && SplitCount(Merged(lens, copied), headerLen, max) <= est <= TSO_DMA_DESC_MAX
              && est <= InitialEstimate(lens, max)
  {
    hide EstimateAt, Repairs, RepairLen, Sum, SumNeeded, SplitCount, Merged, TxdNeeded;
    fix, est := p.fix, p.est;
    var headerSaved := headerLen == lens[0];
    EstimateOfNone(lens, headerLen, max);
    copyBytes := lens[0];
    var copiedEsti := TxdNeeded(copyBytes, max);
    copied := 1;
    ghost var settled: nat := 1;
    while copied < |lens| && (fix.sges || fix.header)
      invariant 1 <= settled <= copied <= |lens|
      invariant copyBytes == Sum(lens[..copied])
      invariant est == EstimateAt(lens, headerLen, max, settled)
      invariant fix.sges ==> settled == copied && copiedEsti == TxdNeeded(copyBytes, max) && p.fix.sges
      invariant fix.sges <==> est > TSO_DMA_DESC_MAX
      invariant p.fix.sges && !fix.sges ==> settled >= 2
      invariant fix.header <==> copyBytes < headerLen
      invariant settled == 1 && !fix.sges ==> p.fix.header
      invariant est <= InitialEstimate(lens, max) - (if settled == 1 && headerSaved then 1 else 0)
      invariant forall j {:trigger Repairs(lens, headerLen, max, p.fix, j)} ::
                  2 <= j < copied ==> !Repairs(lens, headerLen, max, p.fix, j)
      invariant copied >= 2 ==> (Repairs(lens, headerLen, max, p.fix, copied) <==> !fix.sges && !fix.header)
    {
      var elemLen := lens[copied];
      EstimateOneMore(lens, headerLen, max, copied);
      var i := copied;
      copyBytes := copyBytes + elemLen;
      if fix.sges {
        var oldEsti := TxdNeeded(elemLen, max) + copiedEsti;
        copiedEsti := TxdNeeded(copyBytes, max);
        est := est - (oldEsti - copiedEsti);
        if i == 1 && headerSaved {
          est := est + 1;
        }
        settled := copied + 1;
        if est <= TSO_DMA_DESC_MAX {
          fix := fix.(sges := false);
        }
      }
      if fix.header && copyBytes >= headerLen {
        fix := fix.(header := false);
      }
      copied := copied + 1;
      FlagsTell(lens, headerLen, max, p, fix, est, settled, copied);
    }
    if copied >= 2 {
      RepairLenIs(lens, headerLen, max, p.fix, 2, copied);
    }
    FixOutcome(lens, headerLen, max, p, copied, settled);
  }
}
