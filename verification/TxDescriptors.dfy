/**
 The descriptor stream a packet is turned into, together with the ring slot
 that records each descriptor for completion.
 */
module TxDescriptors {
  import opened Seqs
  import opened TxSizes
  import opened TxFix
  import opened TxPacket

  datatype Desc =
    | VlanOpt(tci: bv16)
    | CsumOpt(outer: bool, inner: bool)
    | TsoOpt(part: nat, info: TsoInfo)
    | Dma(ioAddr: nat, data: Bytes, eop: bool)

  /** A ring slot. Zero addresses are null pointers, as in the driver. */
  datatype TxMapping = TxMapping(orig: nat, xmit: nat, ioAddr: nat, length: nat)

  const EMPTY: TxMapping := TxMapping(0, 0, 0, 0)

  /** One descriptor and the slot at the same ring position. */
  datatype Cell = Cell(desc: Desc, slot: TxMapping)

  /** The option state the queue believes the hardware to be in. */
  datatype Sticky = Sticky(tci: bv16, outer: bool, inner: bool)

  /** The option state of a queue that has just been created. */
  const FRESH: Sticky := Sticky(0, true, false)

  function Wanted(a: Adapter, p: Packet): Sticky {
    Sticky(Tci(p), WantsOuterCsum(a, p), WantsInnerCsum(a, p))
  }

  lemma SmallId(id: bv16)
    requires id < 4096
    ensures id & 0x0fff == id
  {
  }

  /**
   Which checksums the hardware is asked for: always those of headers that it
   segments; otherwise those that the packet asks for, of inner headers only on
   an adapter that knows tunnels. And the tag that goes with the packet.
   */
  lemma WantedMeans(a: Adapter, p: Packet)
    ensures var w, tunneled := Wanted(a, p), p.innerOffload && a.tunnel;
      && (p.largeTcp ==> w.outer)
      && (!p.largeTcp && !tunneled ==> (w.outer <==> p.mustCsum))
      && (!p.largeTcp && tunneled ==> (w.outer <==> p.mustOuterCsum))
      && (tunneled && p.innerLargeTcp ==> w.inner)
      && (tunneled && !p.innerLargeTcp ==> (w.inner <==> p.mustInnerCsum))
      && (!tunneled ==> !w.inner)
    ensures !p.mustVlanTag ==> Wanted(a, p).tci == 0
    ensures p.mustVlanTag && p.vlanId < 4096 && p.vlanPrio < 8 ==>
              Wanted(a, p).tci & 0x0fff == p.vlanId && Wanted(a, p).tci >> 13 == p.vlanPrio
  {
    if p.mustVlanTag {
      TciCarriesBothFields(p);
      if p.vlanId < 4096 {
        SmallId(p.vlanId);
      }
    }
  }

  function VlanCells(st: Sticky, tci: bv16): seq<Cell> {
    if tci == st.tci then [] else [Cell(VlanOpt(tci), EMPTY)]
  }

  function CsumCells(st: Sticky, outer: bool, inner: bool): seq<Cell> {
    if st.outer == outer && st.inner == inner then [] else [Cell(CsumOpt(outer, inner), EMPTY)]
  }

  /** Option descriptors, left out where the hardware already is in the wanted state. */
  function OptionCells(st: Sticky, w: Sticky): seq<Cell> {
    VlanCells(st, w.tci) + CsumCells(st, w.outer, w.inner)
  }

  function TsoCells(info: TsoInfo): seq<Cell> {
    [Cell(TsoOpt(0, info), EMPTY), Cell(TsoOpt(1, info), EMPTY)]
  }

  /** The elements as far as the frame reaches, the last one cut at the end of the frame. */
  function UsedElems(elems: seq<Bytes>, frameLen: nat): seq<Bytes> {
    if elems == [] || frameLen == 0 then []
    else
      var n := if |elems[0]| < frameLen then |elems[0]| else frameLen;
      [elems[0][..n]] + UsedElems(elems[1..], frameLen - n)
  }

  /** How the first element of a packet is cut: only where it must be, or after so many bytes first. */
  datatype Split = Whole | After(len: nat)

  predicate SplitFits(split: Split, len: nat, max: nat) {
    split.After? ==> split.len <= len && split.len <= max
  }

  function Shorter(a: nat, b: nat): nat {
    if a < b then a else b
  }

  /** Length of the first piece of an element. A split fixes it, even to zero. */
  function FirstLen(len: nat, split: Split, max: nat): nat {
    if split.After? then split.len else Shorter(len, max)
  }

  /** The cells for an element from offset `off` on, after its first piece. Their slots are empty. */
  function TailCells(data: Bytes, ioAddr: nat, off: nat, max: nat): seq<Cell>
    requires max > 0 && off <= |data|
    decreases |data| - off
  {
    if off == |data| then []
    else
      var n := Shorter(|data| - off, max);
      [Cell(Dma(ioAddr + off, data[off..off + n], false), EMPTY)] + TailCells(data, ioAddr, off + n, max)
  }

  /** The cells for an element; only the first of them records the mapping. */
  function ElemCells(data: Bytes, ioAddr: nat, split: Split, max: nat): seq<Cell>
    requires max > 0 && SplitFits(split, |data|, max)
  {
    if data == [] then []
    else
      var n := FirstLen(|data|, split, max);
      [Cell(Dma(ioAddr, data[..n], false), TxMapping(0, 0, ioAddr, |data|))] + TailCells(data, ioAddr, n, max)
  }

  /** The cells for mapped elements, before the last one is marked as the end of the packet. */
  function BodyCells(used: seq<Bytes>, ioAddrs: seq<nat>, split: Split, max: nat): seq<Cell>
    requires max > 0 && |used| <= |ioAddrs|
    requires used != [] ==> SplitFits(split, |used[0]|, max)
  {
    if used == [] then []
    else
      var n := |used| - 1;
      BodyCells(used[..n], ioAddrs, split, max)
      + ElemCells(used[n], ioAddrs[n], if n == 0 then split else Whole, max)
  }

  /** Marks the end of the packet: the last descriptor ends it, its slot owns the packet. */
  function Close(cells: seq<Cell>, xmit: nat, orig: nat): seq<Cell>
    requires cells != [] && cells[|cells| - 1].desc.Dma?
  {
    var n := |cells| - 1;
    var last := cells[n];
    cells[..n] + [Cell(last.desc.(eop := true), last.slot.(xmit := xmit, orig := orig))]
  }

  predicate IsBody(cells: seq<Cell>, max: nat) {
    forall i :: 0 <= i < |cells| ==>
      && cells[i].desc.Dma? && !cells[i].desc.eop
      && |cells[i].desc.data| <= max
      && cells[i].slot.xmit == 0 && cells[i].slot.orig == 0
  }

  /** No data descriptor is empty. */
  predicate NoneEmpty(cells: seq<Cell>) {
    forall i :: 0 <= i < |cells| && cells[i].desc.Dma? ==> cells[i].desc.data != []
  }

  function Pieces(cells: seq<Cell>): (ps: seq<Bytes>)
    requires forall i :: 0 <= i < |cells| ==> cells[i].desc.Dma?
    ensures |ps| == |cells|
  {
    seq(|cells|, i requires 0 <= i < |cells| => cells[i].desc.data)
  }

  function RecordedOf(c: Cell): seq<nat> {
    if c.slot.ioAddr != 0 then [c.slot.ioAddr] else []
  }

  /** The mapped addresses recorded in the slots, in ring order. */
  function Recorded(cells: seq<Cell>): seq<nat> {
    if cells == [] then []
    else
      var n := |cells| - 1;
      Recorded(cells[..n]) + RecordedOf(cells[n])
  }

  lemma {:induction false} RecordedAppend(a: seq<Cell>, b: seq<Cell>)
    ensures Recorded(a + b) == Recorded(a) + Recorded(b)
  {
    if b == [] {
      AppendNothing(a);
      AppendNothing(Recorded(a));
    } else {
      var n := |b| - 1;
      InitOfAppend(a, b);
      RecordedAppend(a, b[..n]);
      Regroup(Recorded(a), Recorded(b[..n]), RecordedOf(b[n]));
    }
  }

  /** The pieces after the first are non-empty DMA descriptors of at most `max` bytes. */
  lemma {:induction false} TailIsBody(data: Bytes, ioAddr: nat, off: nat, max: nat)
    requires max > 0 && off <= |data|
    ensures IsBody(TailCells(data, ioAddr, off, max), max) && NoneEmpty(TailCells(data, ioAddr, off, max))
    decreases |data| - off
  {
    if off < |data| {
      TailIsBody(data, ioAddr, off + Shorter(|data| - off, max), max);
    }
  }

  /** Every piece of an element is a DMA descriptor of at most `max` bytes, and none is empty but by a split at zero. */
  lemma ElemIsBody(data: Bytes, ioAddr: nat, split: Split, max: nat)
    requires max > 0 && SplitFits(split, |data|, max)
    ensures IsBody(ElemCells(data, ioAddr, split, max), max)
    ensures split != After(0) ==> NoneEmpty(ElemCells(data, ioAddr, split, max))
  {
    if data != [] {
      TailIsBody(data, ioAddr, FirstLen(|data|, split, max), max);
    }
  }

  lemma PiecesFirst(c: Cell, rest: seq<Cell>)
    requires c.desc.Dma? && forall i :: 0 <= i < |rest| ==> rest[i].desc.Dma?
    ensures Pieces([c] + rest) == [c.desc.data] + Pieces(rest)
  {
  }

  lemma FirstAndRest(c: Cell, rest: seq<Cell>, b: Bytes)
    requires c.desc.Dma? && c.desc.data == b && forall i :: 0 <= i < |rest| ==> rest[i].desc.Dma?
    ensures Flatten(Pieces([c] + rest)) == b + Flatten(Pieces(rest))
  {
    PiecesFirst(c, rest);
    FlattenAppend([b], Pieces(rest));
    FlattenOne(b);
  }

  /** The part of an element from `off` on is cut into pieces that cover it exactly. */
  lemma {:induction false} TailIsTiled(data: Bytes, ioAddr: nat, off: nat, max: nat)
    requires max > 0 && off <= |data| && IsBody(TailCells(data, ioAddr, off, max), max)
    ensures Flatten(Pieces(TailCells(data, ioAddr, off, max))) == data[off..]
    decreases |data| - off
  {
    hide Flatten;
    if off == |data| {
      FlattenNone();
    } else {
      var n := Shorter(|data| - off, max);
      var first, rest := TailCells(data, ioAddr, off, max)[0], TailCells(data, ioAddr, off + n, max);
      TailIsBody(data, ioAddr, off + n, max);
      TailIsTiled(data, ioAddr, off + n, max);
      FirstAndRest(first, rest, data[off..off + n]);
      CutMiddle(data, off, off + n);
    }
  }

  /** An element is cut into pieces that cover it exactly. */
  lemma ElemIsTiled(data: Bytes, ioAddr: nat, split: Split, max: nat)
    requires max > 0 && SplitFits(split, |data|, max) && IsBody(ElemCells(data, ioAddr, split, max), max)
    ensures Flatten(Pieces(ElemCells(data, ioAddr, split, max))) == data
  {
    if data != [] {
      var n := FirstLen(|data|, split, max);
      var first, rest := ElemCells(data, ioAddr, split, max)[0], TailCells(data, ioAddr, n, max);
      TailIsBody(data, ioAddr, n, max);
      TailIsTiled(data, ioAddr, n, max);
      FirstAndRest(first, rest, data[..n]);
      Cut(data, n);
    }
  }

  lemma {:induction false} TailCount(data: Bytes, ioAddr: nat, off: nat, max: nat)
    requires max > 0 && off <= |data|
    ensures |TailCells(data, ioAddr, off, max)| == TxdNeeded(|data| - off, max)
    decreases |data| - off
  {
    NeededIsLeast(0, max, 0);
    if off < |data| {
      TailCount(data, ioAddr, off + Shorter(|data| - off, max), max);
      if |data| - off <= max {
        NeededSmall(|data| - off, max);
      } else {
        NeededStep(|data| - off, max);
      }
    }
  }

  /** The number of pieces: a split costs one descriptor of its own. */
  lemma ElemCount(data: Bytes, ioAddr: nat, split: Split, max: nat)
    requires max > 0 && data != [] && SplitFits(split, |data|, max)
    ensures |ElemCells(data, ioAddr, split, max)|
            == if split.After? then 1 + TxdNeeded(|data| - split.len, max) else TxdNeeded(|data|, max)
  {
    TailCount(data, ioAddr, FirstLen(|data|, split, max), max);
    NeededIsLeast(0, max, 0);
    if split.Whole? {
      if |data| <= max {
        NeededSmall(|data|, max);
      } else {
        NeededStep(|data|, max);
      }
    }
  }

  lemma RecordedFirst(c: Cell, rest: seq<Cell>)
    ensures Recorded([c] + rest) == RecordedOf(c) + Recorded(rest)
  {
    assert [c][..0] == [];
    assert Recorded([c][..0]) == [];
    RecordedAppend([c], rest);
  }

  lemma {:induction false} RecordedNone(o: seq<Cell>)
    requires forall k :: 0 <= k < |o| ==> o[k].slot == EMPTY
    ensures Recorded(o) == []
  {
    if o != [] {
      RecordedNone(o[..|o| - 1]);
    }
  }

  lemma {:induction false} TailIsBare(data: Bytes, ioAddr: nat, off: nat, max: nat)
    requires max > 0 && off <= |data|
    ensures forall k :: 0 <= k < |TailCells(data, ioAddr, off, max)| ==>
              TailCells(data, ioAddr, off, max)[k].slot == EMPTY
    decreases |data| - off
  {
    if off < |data| {
      TailIsBare(data, ioAddr, off + Shorter(|data| - off, max), max);
    }
  }

  /** An element's mapping is recorded by its first piece only. */
  lemma ElemRecorded(data: Bytes, ioAddr: nat, split: Split, max: nat)
    requires max > 0 && data != [] && SplitFits(split, |data|, max) && ioAddr != 0
    ensures Recorded(ElemCells(data, ioAddr, split, max)) == [ioAddr]
  {
    hide Recorded, TailCells;
    var n := FirstLen(|data|, split, max);
    TailIsBare(data, ioAddr, n, max);
    RecordedNone(TailCells(data, ioAddr, n, max));
    RecordedFirst(ElemCells(data, ioAddr, split, max)[0], TailCells(data, ioAddr, n, max));
    AppendNothing([ioAddr]);
  }

  lemma PiecesAppend(a: seq<Cell>, b: seq<Cell>)
    requires forall i :: 0 <= i < |a| ==> a[i].desc.Dma?
    requires forall i :: 0 <= i < |b| ==> b[i].desc.Dma?
    ensures Pieces(a + b) == Pieces(a) + Pieces(b)
  {
  }

  /** How many cells the used elements give. */
  function BodyCount(used: seq<Bytes>, split: Split, max: nat): nat
    requires max > 0
    requires used != [] ==> SplitFits(split, |used[0]|, max)
  {
    if used == [] then 0
    else if split.Whole? then SumNeeded(Lengths(used), max)
    else SplitCount(Lengths(used), split.len, max)
  }

  lemma CountOneMore(used: seq<Bytes>, split: Split, max: nat)
    requires max > 0 && used != [] && SplitFits(split, |used[0]|, max)
    ensures var n := |used| - 1;
      BodyCount(used, split, max)
      == BodyCount(used[..n], split, max)
         + if n == 0 && split.After? then 1 + TxdNeeded(|used[0]| - split.len, max) else TxdNeeded(|used[n]|, max)
  {
    var n := |used| - 1;
    var ls := Lengths(used);
    assert ls[..n] == Lengths(used[..n]);
    if n == 0 {
      assert ls == [|used[0]|] && ls[1..] == [];
      SumOfOne(|used[0]|, max);
    } else {
      assert Lengths(used[..n])[1..] == ls[1..n] == ls[1..][..n - 1];
    }
  }

  /** The number of cells for the used elements. */
  lemma {:induction false} BodyHasCount(used: seq<Bytes>, ioAddrs: seq<nat>, split: Split, max: nat)
    requires max > 0 && |used| <= |ioAddrs|
    requires used != [] ==> SplitFits(split, |used[0]|, max)
    requires forall i :: 0 <= i < |used| ==> used[i] != []
    ensures |BodyCells(used, ioAddrs, split, max)| == BodyCount(used, split, max)
  {
    if used != [] {
      var n := |used| - 1;
      BodyHasCount(used[..n], ioAddrs, split, max);
      ElemCount(used[n], ioAddrs[n], if n == 0 then split else Whole, max);
      CountOneMore(used, split, max);
    }
  }

  lemma {:induction false} TailRecordsNothing(data: Bytes, ioAddr: nat, off: nat, max: nat)
    requires max > 0 && off <= |data|
    ensures forall c :: c in TailCells(data, ioAddr, off, max) ==> c.slot == EMPTY
    decreases |data| - off
  {
    if off < |data| {
      var n := Shorter(|data| - off, max);
      TailRecordsNothing(data, ioAddr, off + n, max);
    }
  }

  /** A slot that records a mapping records it whole: the address of an element used, and its length. */
  lemma {:induction false} MappingsAreWhole(used: seq<Bytes>, ioAddrs: seq<nat>, split: Split, max: nat)
    requires max > 0 && |used| <= |ioAddrs|
    requires used != [] ==> SplitFits(split, |used[0]|, max)
    ensures forall c :: c in BodyCells(used, ioAddrs, split, max) && c.slot != EMPTY ==>
              exists k :: 0 <= k < |used| && c.slot.ioAddr == ioAddrs[k] && c.slot.length == |used[k]|
  {
    if used != [] {
      var n := |used| - 1;
      var first := if n == 0 then split else Whole;
      MappingsAreWhole(used[..n], ioAddrs, split, max);
      if used[n] != [] {
        TailRecordsNothing(used[n], ioAddrs[n], FirstLen(|used[n]|, first, max), max);
      }
      forall c | c in BodyCells(used, ioAddrs, split, max) && c.slot != EMPTY
        ensures exists k :: 0 <= k < |used| && c.slot.ioAddr == ioAddrs[k] && c.slot.length == |used[k]|
      {
        if c in BodyCells(used[..n], ioAddrs, split, max) {
          var k :| 0 <= k < n && c.slot.ioAddr == ioAddrs[k] && c.slot.length == |used[..n][k]|;
          assert used[..n][k] == used[k];
        } else {
          assert c in ElemCells(used[n], ioAddrs[n], first, max);
          assert c.slot.ioAddr == ioAddrs[n] && c.slot.length == |used[n]|;
        }
      }
    }
  }

  /** Each mapping is recorded in exactly one slot, in order. */
  lemma {:induction false} BodyRecorded(used: seq<Bytes>, ioAddrs: seq<nat>, split: Split, max: nat)
    requires max > 0 && |used| <= |ioAddrs|
    requires used != [] ==> SplitFits(split, |used[0]|, max)
    requires forall i :: 0 <= i < |used| ==> used[i] != [] && ioAddrs[i] != 0
    ensures Recorded(BodyCells(used, ioAddrs, split, max)) == ioAddrs[..|used|]
  {
    hide Recorded, ElemCells;
    if used == [] {
      RecordedNone([]);
    } else {
      var n := |used| - 1;
      var h := if n == 0 then split else Whole;
      BodyRecorded(used[..n], ioAddrs, split, max);
      ElemRecorded(used[n], ioAddrs[n], h, max);
      RecordedAppend(BodyCells(used[..n], ioAddrs, split, max), ElemCells(used[n], ioAddrs[n], h, max));
      CutAt(ioAddrs, n);
    }
  }

  /** Every data descriptor is at most `max` long, and none is empty unless the split is at zero. */
  lemma {:induction false} BodyIsBody(used: seq<Bytes>, ioAddrs: seq<nat>, split: Split, max: nat)
    requires max > 0 && |used| <= |ioAddrs|
    requires used != [] ==> SplitFits(split, |used[0]|, max)
    ensures IsBody(BodyCells(used, ioAddrs, split, max), max)
    ensures split != After(0) ==> NoneEmpty(BodyCells(used, ioAddrs, split, max))
  {
    if used != [] {
      var n := |used| - 1;
      BodyIsBody(used[..n], ioAddrs, split, max);
      ElemIsBody(used[n], ioAddrs[n], if n == 0 then split else Whole, max);
    }
  }

  /**
   The descriptors of a packet concatenate to its bytes, and with a split the
   first of them holds the headers and nothing else.
   */
  lemma {:induction false} BodyIsTiled(used: seq<Bytes>, ioAddrs: seq<nat>, split: Split, max: nat)
    requires max > 0 && |used| <= |ioAddrs|
    requires used != [] ==> SplitFits(split, |used[0]|, max) && used[0] != []
    requires IsBody(BodyCells(used, ioAddrs, split, max), max)
    ensures Flatten(Pieces(BodyCells(used, ioAddrs, split, max))) == Flatten(used)
    ensures used != [] ==> BodyCells(used, ioAddrs, split, max) != []
    ensures used != [] && split.After? ==> Pieces(BodyCells(used, ioAddrs, split, max))[0] == used[0][..split.len]
  {
    if used != [] {
      var n := |used| - 1;
      var h := if n == 0 then split else Whole;
      var front := BodyCells(used[..n], ioAddrs, split, max);
      var back := ElemCells(used[n], ioAddrs[n], h, max);
      BodyIsBody(used[..n], ioAddrs, split, max);
      BodyIsTiled(used[..n], ioAddrs, split, max);
      ElemIsBody(used[n], ioAddrs[n], h, max);
      ElemIsTiled(used[n], ioAddrs[n], h, max);
      PiecesAppend(front, back);
      FlattenAppend(Pieces(front), Pieces(back));
      if n > 0 {
        assert (front + back)[0] == front[0];
      }
    }
  }

  /** Closing a list closes its last part. */
  lemma CloseAppend(a: seq<Cell>, b: seq<Cell>, xmit: nat, orig: nat)
    requires b != [] && b[|b| - 1].desc.Dma?
    ensures Close(a + b, xmit, orig) == a + Close(b, xmit, orig)
  {
  }

  /** The cells of the first elements come first. */
  lemma {:induction false} BodyGrows(used: seq<Bytes>, ioAddrs: seq<nat>, split: Split, max: nat, i: nat)
    requires max > 0 && |used| <= |ioAddrs| && i <= |used|
    requires used != [] ==> SplitFits(split, |used[0]|, max)
    ensures |BodyCells(used[..i], ioAddrs, split, max)| <= |BodyCells(used, ioAddrs, split, max)|
    decreases |used| - i
  {
    if i == |used| {
      assert used[..i] == used;
    } else {
      assert used[..i + 1][..i] == used[..i];
      BodyGrows(used, ioAddrs, split, max, i + 1);
    }
  }

  /** An element that fits one descriptor is one cell. */
  lemma ElemOfOne(data: Bytes, ioAddr: nat, max: nat)
    requires 0 < |data| <= max
    ensures ElemCells(data, ioAddr, Whole, max)
         == [Cell(Dma(ioAddr, data, false), TxMapping(0, 0, ioAddr, |data|))]
  {
    assert data[..|data|] == data;
    assert TailCells(data, ioAddr, |data|, max) == [];
  }

  /** Closing changes only the last cell, and keeps bytes and mappings. */
  lemma CloseKeeps(cells: seq<Cell>, xmit: nat, orig: nat, max: nat)
    requires IsBody(cells, max) && cells != []
    ensures var c := Close(cells, xmit, orig);
      && |c| == |cells|
      && (forall i :: 0 <= i < |c| ==> c[i].desc.Dma? && (c[i].desc.eop <==> i == |c| - 1))
      && Pieces(c) == Pieces(cells)
      && Recorded(c) == Recorded(cells)
  {
  }

  /** The elements are used up to the frame length, and none is lengthened. */
  lemma {:induction false} UsedElemsAreShort(elems: seq<Bytes>, frameLen: nat)
    requires forall i :: 0 <= i < |elems| ==> |elems[i]| > 0
    ensures var used := UsedElems(elems, frameLen);
      && |used| <= |elems|
      && (forall i :: 0 <= i < |used| ==> 0 < |used[i]| <= |elems[i]|)
  {
    if elems != [] && frameLen > 0 {
      var n := if |elems[0]| < frameLen then |elems[0]| else frameLen;
      var rest := UsedElems(elems[1..], frameLen - n);
      UsedElemsAreShort(elems[1..], frameLen - n);
      forall i | 0 <= i < 1 + |rest|
        ensures 0 < |UsedElems(elems, frameLen)[i]| <= |elems[i]|
      {
        if i > 0 {
          assert elems[i] == elems[1..][i - 1];
        }
      }
    }
  }

  /** The used elements together are the frame. */
  lemma {:induction false} UsedElemsAreFrame(elems: seq<Bytes>, frameLen: nat)
    requires frameLen <= |Flatten(elems)|
    ensures Flatten(UsedElems(elems, frameLen)) == Flatten(elems)[..frameLen]
  {
    if elems != [] && frameLen > 0 {
      var n := if |elems[0]| < frameLen then |elems[0]| else frameLen;
      assert elems == [elems[0]] + elems[1..];
      FlattenAppend([elems[0]], elems[1..]);
      FlattenOne(elems[0]);
      UsedElemsAreFrame(elems[1..], frameLen - n);
      FlattenAppend([elems[0][..n]], UsedElems(elems[1..], frameLen - n));
      FlattenOne(elems[0][..n]);
    }
  }

  /** Cutting elements shorter cannot need more descriptors. */
  lemma {:induction false} FewerForShorter(a: seq<nat>, b: seq<nat>, max: nat)
    requires max > 0 && |a| <= |b| && forall i :: 0 <= i < |a| ==> a[i] <= b[i]
    ensures SumNeeded(a, max) <= SumNeeded(b, max)
    decreases |b|
  {
    if |b| > |a| {
      FewerForShorter(a, b[..|b| - 1], max);
    } else if a != [] {
      var n := |a| - 1;
      FewerForShorter(a[..n], b[..n], max);
      NeededIsMonotone(a[n], b[n], max);
    }
  }

  /** The descriptors for the used elements are within what the whole element lengths need. */
  lemma BodyWithinLengths(elems: seq<Bytes>, frameLen: nat, split: Split, max: nat)
    requires max > 0 && 0 < frameLen <= |Flatten(elems)|
    requires forall i :: 0 <= i < |elems| ==> |elems[i]| > 0
    requires elems != [] && SplitFits(split, |elems[0]|, max) && (split.After? ==> split.len <= frameLen)
    ensures var used := UsedElems(elems, frameLen);
      && used != [] && SplitFits(split, |used[0]|, max)
      && BodyCount(used, split, max)
         <= if split.After? then SplitCount(Lengths(elems), split.len, max) else SumNeeded(Lengths(elems), max)
  {
    hide Flatten, SumNeeded, TxdNeeded;
    var used := UsedElems(elems, frameLen);
    UsedElemsAreShort(elems, frameLen);
    if split.After? {
      NeededIsMonotone(|used[0]| - split.len, |elems[0]| - split.len, max);
      FewerForShorter(Lengths(used)[1..], Lengths(elems)[1..], max);
    } else {
      FewerForShorter(Lengths(used), Lengths(elems), max);
    }
  }
}
