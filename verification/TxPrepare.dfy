/** From a packet handed over to one that obeys the rules of the hardware: header parsing and repair. */
module TxPrepare {
  import opened Seqs
  import opened TxSizes
  import opened TxFix
  import opened TxPacket
  import opened TxDescriptors
  import opened TxHardware

  datatype Status = Ok | Busy | ParseFailed | CopyFailed | MapFailed

  const NO_TSO: TsoInfo := TsoInfo(0, 0, 0, 0)

  /** How many descriptors a segmented packet without headers is given: an empty one, and those for its bytes. */
  function HeadlessCount(a: Adapter, p: Packet): nat
    requires ValidAdapter(a)
  {
    1 + SumNeeded(Lengths(UsedElems(p.elems, p.frameLen)), a.descMax)
  }

  function NeedsFix(a: Adapter, p: Packet): FixFlags
    requires ValidAdapter(a) && ValidPacket(p) && p.headers.Tcp?
  {
    Adjust(Lengths(p.elems), p.headers.headerLen, a.descMax).fix
  }

  /**
   What the driver takes for granted of a packet: if too many elements have to
   be merged, that merging all of them is enough; and if its headers are not
   the expected ones, that it needs no merging.
   */
  predicate Acceptable(a: Adapter, p: Packet) {
    && ValidAdapter(a) && ValidPacket(p)
    && (UsesTso(a, p) ==>
          && (Misleads(a, p) ==> HeadlessCount(a, p) <= TSO_DMA_DESC_MAX)
          && (Parses(a, p) ==>
                && p.headers.headerLen <= p.frameLen
                && (NeedsFix(a, p).sges ==> TxdNeeded(Sum(Lengths(p.elems)), a.descMax) + 1 <= TSO_DMA_DESC_MAX)))
  }

  /** A packet that the driver accepts: for segmentation, its headers were read, whether or not they were expected. */
  predicate Takeable(a: Adapter, p: Packet) {
    && ValidPacket(p)
    && (UsesTso(a, p) ==>
          HasHeaderList(a, p) && (p.headers.Unexpected? || (p.headers.Tcp? && p.headers.headerLen <= p.frameLen)))
  }

  /** A packet that can be sent as it asks to be: for segmentation, its headers were found. */
  predicate Sendable(a: Adapter, p: Packet) {
    ValidPacket(p) && (UsesTso(a, p) ==> p.headers.Tcp? && p.headers.headerLen <= p.frameLen)
  }

  predicate NeedsCopy(a: Adapter, p: Packet)
    requires ValidAdapter(a) && ValidPacket(p)
  {
    UsesTso(a, p) && Parses(a, p) && (NeedsFix(a, p).sges || NeedsFix(a, p).header)
  }

  /** What is built for a packet: the packet itself, or a copy of it with the least number of elements merged. */
  function Transmitted(a: Adapter, p: Packet, copyHandle: nat): Xmit
    requires ValidAdapter(a) && ValidPacket(p)
  {
    if !UsesTso(a, p) || !p.headers.Tcp? then Xmit(p, 0, 0, NO_TSO)
    else if !NeedsCopy(a, p) then Xmit(p, 0, p.headers.headerLen, p.headers.info)
    else
      var k := RepairLen(Lengths(p.elems), p.headers.headerLen, a.descMax, NeedsFix(a, p), 2);
      Xmit(CopyPrefix(p, copyHandle, k), p.handle, p.headers.headerLen, p.headers.info)
  }

  /** The packet `x` asks for what `p` asks for, obeys the rules if headers were found, and fits `p`'s estimate. */
  predicate Prepared(a: Adapter, p: Packet, x: Xmit)
    requires ValidAdapter(a) && ValidPacket(p)
  {
    && Formed(a, x) && FrameBytes(x.pkt) == FrameBytes(p)
    && Wanted(a, x.pkt) == Wanted(a, p) && UsesTso(a, x.pkt) == UsesTso(a, p)
    && (if UsesTso(a, p) && p.headers.Tcp? then
          && x.head == p.headers.headerLen && x.info == p.headers.info
          && SplitCount(Lengths(x.pkt.elems), x.head, a.descMax) <= TSO_DMA_DESC_MAX
          && SplitCount(Lengths(x.pkt.elems), x.head, a.descMax) <= InitialEstimate(Lengths(p.elems), a.descMax)
        else
          && x == Xmit(p, 0, 0, NO_TSO)
          && (UsesTso(a, p) ==> p.headers.Unexpected? && HeadlessCount(a, p) <= TSO_DMA_DESC_MAX))
  }

  /** A packet that is not segmented, or whose headers are not the expected ones, is prepared as it is. */
  lemma PlainIsPrepared(a: Adapter, p: Packet)
    requires ValidAdapter(a) && ValidPacket(p) && (!UsesTso(a, p) || Misleads(a, p))
    ensures Acceptable(a, p) ==> Prepared(a, p, Xmit(p, 0, 0, NO_TSO))
    ensures forall h :: Transmitted(a, p, h) == Xmit(p, 0, 0, NO_TSO)
  {
  }

  /** The data descriptors of what is built for a segmented packet are within the running estimate. */
  predicate WithinEstimate(a: Adapter, x: Xmit, est: int)
    requires ValidAdapter(a) && ValidPacket(x.pkt)
  {
    && Used(x) != [] && SplitFits(SplitOf(a, x), |Used(x)[0]|, a.descMax)
    && BodyCount(Used(x), SplitOf(a, x), a.descMax) <= est
  }

  lemma SplitIsWithin(a: Adapter, x: Xmit, est: int)
    requires Formed(a, x) && UsesTso(a, x.pkt) && SplitCount(Lengths(x.pkt.elems), x.head, a.descMax) <= est
    ensures WithinEstimate(a, x, est)
  {
    hide UsedElems, SplitCount, Flatten;
    UsedIsShort(a, x);
    BodyWithinLengths(x.pkt.elems, x.pkt.frameLen, SplitOf(a, x), a.descMax);
  }

  /** Option and data descriptors of a segmented packet, as the driver asserts when it has built them. */
  lemma BuiltWithinEstimate(a: Adapter, x: Xmit, ioAddrs: seq<nat>, est: int)
    requires Formed(a, x) && UsesTso(a, x.pkt) && WithinEstimate(a, x, est) && |Used(x)| <= |ioAddrs|
    ensures |TsoPrefix(a, x)| + |BodyCells(Used(x), ioAddrs, SplitOf(a, x), a.descMax)| <= est + FATSOV2_OPT_NDESCS
  {
    hide UsedElems, BodyCells, Flatten;
    UsedIsShort(a, x);
    BodyHasCount(Used(x), ioAddrs, SplitOf(a, x), a.descMax);
  }

  /** The split without headers of all elements: what the estimate is before it is cut off. */
  lemma HeadlessEstimate(lens: seq<nat>, max: nat)
    requires max > 0 && lens != []
    ensures SplitCount(lens, 0, max) == InitialEstimate(lens, max)
  {
    CutFirst(lens);
    SumNeededAppend([lens[0]], lens[1..], max);
    SumOfOne(lens[0], max);
  }

  lemma PlainWithinEstimate(a: Adapter, p: Packet)
    requires ValidAdapter(a) && ValidPacket(p) && UsesTso(a, p)
    ensures WithinEstimate(a, Xmit(p, 0, 0, NO_TSO), InitialEstimate(Lengths(p.elems), a.descMax))
  {
    hide SplitCount;
    HeadlessEstimate(Lengths(p.elems), a.descMax);
    SplitIsWithin(a, Xmit(p, 0, 0, NO_TSO), InitialEstimate(Lengths(p.elems), a.descMax));
  }

  /** A packet that needs no repair is prepared as it is. */
  lemma UnfixedIsPrepared(a: Adapter, p: Packet)
    requires Acceptable(a, p) && UsesTso(a, p) && Parses(a, p)
    requires !NeedsFix(a, p).sges && !NeedsFix(a, p).header
    ensures Prepared(a, p, Xmit(p, 0, p.headers.headerLen, p.headers.info))
    ensures WithinEstimate(a, Xmit(p, 0, p.headers.headerLen, p.headers.info),
                           Adjust(Lengths(p.elems), p.headers.headerLen, a.descMax).est)
  {
    var lens := Lengths(p.elems);
    var h := p.headers.headerLen;
    EstimateOfNone(lens, h, a.descMax);
    SplitWithinEstimate(lens, h, a.descMax, 1);
    assert Merged(lens, 1) == lens;
    SplitIsWithin(a, Xmit(p, 0, h, p.headers.info), Adjust(lens, h, a.descMax).est);
  }

  lemma UnfixedIsTransmitted(a: Adapter, p: Packet)
    requires ValidAdapter(a) && ValidPacket(p) && UsesTso(a, p) && Parses(a, p)
    requires !NeedsFix(a, p).sges && !NeedsFix(a, p).header
    ensures forall h :: Transmitted(a, p, h) == Xmit(p, 0, p.headers.headerLen, p.headers.info)
  {
  }

  lemma CopyPrefixKeepsRequests(a: Adapter, p: Packet, handle: nat, k: nat)
    requires 1 <= k <= |p.elems|
    ensures var c := CopyPrefix(p, handle, k);
      && Wanted(a, c) == Wanted(a, p) && UsesTso(a, c) == UsesTso(a, p)
      && c.frameLen == p.frameLen && c.handle == handle
      && c.elems != [] && c.elems[0] == Flatten(p.elems[..k])
  {
  }

  /** A repaired packet is prepared. */
  lemma FixedIsPrepared(a: Adapter, p: Packet, handle: nat, copied: nat, est: nat)
    requires Acceptable(a, p) && UsesTso(a, p) && Parses(a, p) && handle != 0
    requires 1 <= copied <= |p.elems| && p.headers.headerLen <= Sum(Lengths(p.elems)[..copied])
    requires SplitCount(Merged(Lengths(p.elems), copied), p.headers.headerLen, a.descMax) <= est <= TSO_DMA_DESC_MAX
    requires est <= InitialEstimate(Lengths(p.elems), a.descMax)
    ensures var x := Xmit(CopyPrefix(p, handle, copied), p.handle, p.headers.headerLen, p.headers.info);
      Prepared(a, p, x) && WithinEstimate(a, x, est)
  {
    CopyPrefixKeepsFrame(p, handle, copied);
    CopyPrefixKeepsRequests(a, p, handle, copied);
    SumOfLengths(p.elems[..copied]);
    assert Lengths(p.elems)[..copied] == Lengths(p.elems[..copied]);
    SplitIsWithin(a, Xmit(CopyPrefix(p, handle, copied), p.handle, p.headers.headerLen, p.headers.info), est);
  }

  lemma FixedIsTransmitted(a: Adapter, p: Packet, handle: nat, copied: nat)
    requires ValidAdapter(a) && ValidPacket(p) && NeedsCopy(a, p) && 1 <= copied <= |p.elems|
    requires copied == RepairLen(Lengths(p.elems), p.headers.headerLen, a.descMax, NeedsFix(a, p), 2)
    ensures var x := Xmit(CopyPrefix(p, handle, copied), p.handle, p.headers.headerLen, p.headers.info);
      x == Transmitted(a, p, handle) && |x.pkt.elems| <= |p.elems|
  {
  }

  /** What becomes of a packet before its elements are mapped. */
  function Verdict(a: Adapter, p: Packet, copyHandle: nat): (status: Status)
    requires ValidAdapter(a) && ValidPacket(p)
    ensures status in {Ok, ParseFailed, CopyFailed}
  {
    if !UsesTso(a, p) || Misleads(a, p) then Ok
    else if !Parses(a, p) then ParseFailed
    else if (NeedsFix(a, p).sges || NeedsFix(a, p).header) && copyHandle == 0 then CopyFailed
    else Ok
  }

  /** Why a packet is turned away before anything is built. */
  lemma VerdictMeans(a: Adapter, p: Packet, copyHandle: nat)
    requires ValidAdapter(a) && ValidPacket(p)
    ensures var status := Verdict(a, p, copyHandle);
      var known := p.largeTcp || (a.tunnel && p.innerLargeTcp && p.innerOffload);
      && (status == ParseFailed <==>
            || (a.tunnel && p.innerLargeTcp && !p.innerOffload && !p.largeTcp)
            || (known && p.headers.Unreadable?)
            || (known && p.headers.Tcp? && (p.headers.headerLen > a.tcpOffsetLimit || p.headers.synOrUrg)))
      && (status == CopyFailed <==> NeedsCopy(a, p) && copyHandle == 0)
  {
    hide InitialEstimate;
  }

  /** Splitting off no more than a descriptor's worth of bytes saves at most one descriptor. */
  lemma SplitOffOne(len: nat, h: nat, max: nat)
    requires 0 < h <= max && h <= len
    ensures TxdNeeded(len - h, max) <= TxdNeeded(len, max) <= TxdNeeded(len - h, max) + 1
    ensures len == h ==> TxdNeeded(len, max) == 1 && TxdNeeded(len - h, max) == 0
  {
    NeededIsSubadditive(len - h, h, max);
    NeededSmall(h, max);
    NeededIsMonotone(len - h, len, max);
    NeededIsLeast(0, max, 0);
  }

  /**
   A packet is copied if its headers reach beyond its first element; or if its
   elements as they are, and one descriptor more unless the first holds just
   the headers, are more than the hardware takes. So a packet that would be
   built with too many is copied always, and one that would not be built with
   the most there can be never.
   */
  lemma CopiedIffTooMany(a: Adapter, p: Packet, ioAddrs: seq<nat>)
    requires ValidAdapter(a) && ValidPacket(p) && UsesTso(a, p) && Parses(a, p) && |ioAddrs| >= |p.elems|
    ensures var h, whole := p.headers.headerLen, |BodyCells(p.elems, ioAddrs, Whole, a.descMax)|;
      NeedsCopy(a, p) <==>
        |p.elems[0]| < h || whole + (if |p.elems[0]| == h then 0 else 1) > TSO_DMA_DESC_MAX
    ensures p.headers.headerLen <= |p.elems[0]| ==>
              var n := |BodyCells(p.elems, ioAddrs, After(p.headers.headerLen), a.descMax)|;
              && (n > TSO_DMA_DESC_MAX ==> NeedsCopy(a, p))
              && (n < TSO_DMA_DESC_MAX ==> !NeedsCopy(a, p))
  {
    hide BodyCells, SumNeeded, TxdNeeded;
    var lens, h := Lengths(p.elems), p.headers.headerLen;
    BodyHasCount(p.elems, ioAddrs, Whole, a.descMax);
    if h <= |p.elems[0]| {
      BodyHasCount(p.elems, ioAddrs, After(h), a.descMax);
      HeadlessEstimate(lens, a.descMax);
      SplitOffOne(lens[0], h, a.descMax);
    }
  }

  /** As many elements repair a packet as leave a copy that holds the headers in its first and is not too many. */
  lemma RepairsMeans(a: Adapter, p: Packet, k: nat, ioAddrs: seq<nat>)
    requires ValidAdapter(a) && ValidPacket(p) && Parses(a, p) && 2 <= k <= |p.elems| <= |ioAddrs|
    ensures var elems := CopyPrefix(p, p.handle, k).elems;
      Repairs(Lengths(p.elems), p.headers.headerLen, a.descMax, NeedsFix(a, p), k) <==>
        && p.headers.headerLen <= |elems[0]|
        && (NeedsFix(a, p).sges ==> |BodyCells(elems, ioAddrs, Whole, a.descMax)| + 1 <= TSO_DMA_DESC_MAX)
  {
    hide BodyCells, SumNeeded, TxdNeeded, Flatten;
    var c := CopyPrefix(p, p.handle, k);
    CopyPrefixKeepsFrame(p, p.handle, k);
    var lens := Merged(Lengths(p.elems), k);
    BodyHasCount(c.elems, ioAddrs, Whole, a.descMax);
    SumNeededAppend([lens[0]], lens[1..], a.descMax);
    SumOfOne(lens[0], a.descMax);
    CutFirst(lens);
  }

  /**
   Header parsing, and a partial copy when the packet breaks a rule.
   `copyHandle` is the address of the copy, zero if it cannot be made; `est` is
   the running estimate of data descriptors, for a segmented packet.
   */
  method Prepare(a: Adapter, p: Packet, copyHandle: nat) returns (status: Status, x: Xmit, est: int)
    requires ValidAdapter(a) && ValidPacket(p)
    ensures status == Verdict(a, p, copyHandle) && status in {Ok, ParseFailed, CopyFailed}
    ensures status == Ok ==> x == Transmitted(a, p, copyHandle) && |x.pkt.elems| <= |p.elems|
    ensures status == Ok && Acceptable(a, p) ==> Takeable(a, p) && Prepared(a, p, x)
    ensures status == Ok && Acceptable(a, p) && UsesTso(a, p) ==> WithinEstimate(a, x, est)
  {
    hide Prepared, SplitCount, TxdNeeded, RepairLen, SumNeeded, Flatten, HeadlessCount, UsedElems;
    hide Transmitted, CopyPrefix, WithinEstimate;
    x := Xmit(p, 0, 0, NO_TSO);
    est := 0;
    if !UsesTso(a, p) {
      PlainIsPrepared(a, p);
      return Ok, x, est;
    }
    var lens := Lengths(p.elems);
    est := InitialEstimate(lens, a.descMax);
    if Misleads(a, p) {
      PlainIsPrepared(a, p);
      PlainWithinEstimate(a, p);
      return Ok, x, est;
    }
    if !Parses(a, p) {
      return ParseFailed, x, est;
    }
    var h := p.headers.headerLen;
    var parsed := Adjust(lens, h, a.descMax);
    x, est := Xmit(p, 0, h, p.headers.info), parsed.est;
    if parsed.fix.sges || parsed.fix.header {
      SumOfLengths(p.elems);
      var copyBytes, fix, copied;
      copyBytes, est, fix, copied := HwTsoFixPkt(lens, h, a.descMax, parsed);
      if copyHandle == 0 {
        return CopyFailed, x, est;
      }
      FixedIsTransmitted(a, p, copyHandle, copied);
      if Acceptable(a, p) {
        FixedIsPrepared(a, p, copyHandle, copied, est);
      }
      x := Xmit(CopyPrefix(p, copyHandle, copied), p.handle, h, p.headers.info);
    } else {
      UnfixedIsTransmitted(a, p);
      if Acceptable(a, p) {
        UnfixedIsPrepared(a, p);
      }
    }
    status := Ok;
  }

  /** The split of the elements used of a packet without headers. */
  lemma HeadlessSplit(a: Adapter, p: Packet, used: seq<Bytes>)
    requires ValidAdapter(a) && used == UsedElems(p.elems, p.frameLen) && used != []
    ensures SplitCount(Lengths(used), 0, a.descMax) == HeadlessCount(a, p)
  {
    hide UsedElems;
    var lens := Lengths(used);
    CutFirst(lens);
    SumNeededAppend([lens[0]], lens[1..], a.descMax);
    SumOfOne(lens[0], a.descMax);
  }

  /** The most descriptors a packet may need: two options, and what all its elements give, or the most there can be. */
  function Room(a: Adapter, p: Packet, ioAddrs: seq<nat>): nat
    requires ValidAdapter(a) && ValidPacket(p) && |ioAddrs| >= |p.elems|
  {
    if UsesTso(a, p) then
      var n := |BodyCells(p.elems, ioAddrs, After(0), a.descMax)|;
      2 + FATSOV2_OPT_NDESCS + if n < TSO_DMA_DESC_MAX then n else TSO_DMA_DESC_MAX
    else
      2 + |BodyCells(p.elems, ioAddrs, Whole, a.descMax)|
  }

  /** The reservation is neither too small nor too large. */
  lemma ReservationIsTight(a: Adapter, p: Packet, ioAddrs: seq<nat>)
    requires ValidAdapter(a) && ValidPacket(p) && |ioAddrs| >= |p.elems|
    ensures DescEstimate(a, p) == Room(a, p, ioAddrs)
  {
    hide BodyCells, SumNeeded, SplitCount;
    if UsesTso(a, p) {
      BodyHasCount(p.elems, ioAddrs, After(0), a.descMax);
      HeadlessEstimate(Lengths(p.elems), a.descMax);
    } else {
      BodyHasCount(p.elems, ioAddrs, Whole, a.descMax);
    }
  }

  /** The DMA cells of a prepared packet, and its option cells, fit the estimate. */
  lemma FitsEstimate(a: Adapter, p: Packet, st: Sticky, x: Xmit, ioAddrs: seq<nat>)
    requires ValidAdapter(a) && ValidPacket(p) && Prepared(a, p, x) && |Used(x)| <= |ioAddrs|
    ensures Used(x) != [] && SplitFits(SplitOf(a, x), |Used(x)[0]|, a.descMax)
    ensures |OptionCells(st, Wanted(a, x.pkt))| + |TsoPrefix(a, x)|
            + |BodyCells(Used(x), ioAddrs, SplitOf(a, x), a.descMax)| <= DescEstimate(a, p)
  {
    hide UsedElems, SumNeeded, BodyCells, Flatten, HeadlessCount, SplitCount;
    UsedIsShort(a, x);
    BodyWithinLengths(x.pkt.elems, x.pkt.frameLen, SplitOf(a, x), a.descMax);
    BodyHasCount(Used(x), ioAddrs, SplitOf(a, x), a.descMax);
    if UsesTso(a, p) && !p.headers.Tcp? {
      HeadlessSplit(a, p, Used(x));
      HeadlessEstimate(Lengths(p.elems), a.descMax);
    }
  }

  /**
   For a packet with unexpected headers the reservation, which is made as if
   the packet were going to be repaired, is enough exactly when it has no need
   of repair.
   */
  lemma HeadlessFitsIff(a: Adapter, p: Packet, ioAddrs: seq<nat>)
    requires ValidAdapter(a) && ValidPacket(p) && UsesTso(a, p) && |ioAddrs| >= |p.elems|
    ensures var x := Xmit(p, 0, 0, NO_TSO);
      && Used(x) != [] && |Used(x)| <= |ioAddrs|
      && (2 + FATSOV2_OPT_NDESCS + |BodyCells(Used(x), ioAddrs, After(0), a.descMax)| <= DescEstimate(a, p)
          <==> HeadlessCount(a, p) <= TSO_DMA_DESC_MAX)
  {
    hide UsedElems, SumNeeded, BodyCells, Flatten, HeadlessCount, SplitCount;
    var x := Xmit(p, 0, 0, NO_TSO);
    UsedIsShort(a, x);
    BodyWithinLengths(p.elems, p.frameLen, After(0), a.descMax);
    BodyHasCount(Used(x), ioAddrs, After(0), a.descMax);
    HeadlessSplit(a, p, Used(x));
    HeadlessEstimate(Lengths(p.elems), a.descMax);
  }

  /** A prepared packet whose headers were found, and whose elements fit, is ready. */
  lemma PreparedIsReady(a: Adapter, p: Packet, x: Xmit)
    requires ValidAdapter(a) && Sendable(a, p) && Prepared(a, p, x) && |Used(x)| <= |x.pkt.elems|
    requires !UsesTso(a, p) ==> forall k :: 0 <= k < |Used(x)| ==> |x.pkt.elems[k]| <= a.descMax
    ensures Ready(a, x)
  {
    UsedElemsAreShort(x.pkt.elems, x.pkt.frameLen);
  }
}
