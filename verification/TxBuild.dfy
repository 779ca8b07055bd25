/** Building the descriptors of one packet in the memory of the queue. */
module TxBuild {
  import opened Seqs
  import opened Words
  import opened TxSizes
  import opened TxPacket
  import opened TxDescriptors
  import opened TxHardware
  import opened TxRing

  /** What is still to be made of an element: all of it, or what follows `off`. */
  function ToMake(data: Bytes, ioAddr: nat, off: nat, first: bool, split: Split, max: nat): seq<Cell>
    requires max > 0 && off <= |data| && SplitFits(split, |data|, max)
  {
    if first then ElemCells(data, ioAddr, split, max) else TailCells(data, ioAddr, off, max)
  }

  /** The same, closed if it is the last element of the packet. */
  function Remaining(data: Bytes, ioAddr: nat, off: nat, first: bool, split: Split, max: nat, last: bool, xmit: nat,
                     orig: nat): seq<Cell>
    requires max > 0 && off <= |data| && SplitFits(split, |data|, max)
  {
    var cells := ToMake(data, ioAddr, off, first, split, max);
    if last && cells != [] && cells[|cells| - 1].desc.Dma? then Close(cells, xmit, orig) else cells
  }

  /** The piece of `n` bytes at `off`. */
  function NextPiece(data: Bytes, ioAddr: nat, off: nat, first: bool, n: nat, eop: bool, xmit: nat, orig: nat): Cell
    requires off + n <= |data|
  {
    var slot := if first then TxMapping(0, 0, ioAddr, |data|) else EMPTY;
    Cell(Dma(ioAddr + off, data[off..off + n], eop), if eop then slot.(xmit := xmit, orig := orig) else slot)
  }

  lemma ToMakeStep(data: Bytes, ioAddr: nat, off: nat, first: bool, n: nat, split: Split, max: nat)
    requires 0 < max && SplitFits(split, |data|, max) && off < |data| && (first ==> off == 0)
    requires n == if first then FirstLen(|data|, split, max) else Shorter(|data| - off, max)
    ensures ToMake(data, ioAddr, off, first, split, max)
         == [NextPiece(data, ioAddr, off, first, n, false, 0, 0)] + ToMake(data, ioAddr, off + n, false, split, max)
    ensures ToMake(data, ioAddr, off + n, false, split, max) == TailCells(data, ioAddr, off + n, max)
    ensures TailCells(data, ioAddr, off + n, max) == [] <==> off + n == |data|
  {
  }

  /** The next piece is the first of what remains. */
  lemma RemainingStep(data: Bytes, ioAddr: nat, off: nat, first: bool, n: nat, split: Split, max: nat, last: bool,
                      xmit: nat, orig: nat)
    requires 0 < max && SplitFits(split, |data|, max) && off < |data| && (first ==> off == 0)
    requires n == if first then FirstLen(|data|, split, max) else Shorter(|data| - off, max)
    ensures Remaining(data, ioAddr, off, first, split, max, last, xmit, orig)
         == [NextPiece(data, ioAddr, off, first, n, last && off + n == |data|, xmit, orig)]
            + Remaining(data, ioAddr, off + n, false, split, max, last, xmit, orig)
  {
    hide ToMake, ElemCells, TailCells;
    var rest := ToMake(data, ioAddr, off + n, false, split, max);
    var c := NextPiece(data, ioAddr, off, first, n, false, 0, 0);
    ToMakeStep(data, ioAddr, off, first, n, split, max);
    TailIsBody(data, ioAddr, off + n, max);
    if last && rest != [] {
      CloseAppend([c], rest, xmit, orig);
    }
    AppendNothing([NextPiece(data, ioAddr, off, first, n, last && off + n == |data|, xmit, orig)]);
  }

  /** One more piece made: `goal` is what will have been made in the end. */
  lemma PieceMade(made: seq<Cell>, goal: seq<Cell>, data: Bytes, ioAddr: nat, off: nat, first: bool, n: nat,
                  split: Split, max: nat, last: bool, xmit: nat, orig: nat)
    requires 0 < max && SplitFits(split, |data|, max) && off < |data| && (first ==> off == 0)
    requires n == if first then FirstLen(|data|, split, max) else Shorter(|data| - off, max)
    requires made + Remaining(data, ioAddr, off, first, split, max, last, xmit, orig) == goal
    ensures |made| < |goal|
    ensures made + [NextPiece(data, ioAddr, off, first, n, last && off + n == |data|, xmit, orig)]
            + Remaining(data, ioAddr, off + n, false, split, max, last, xmit, orig) == goal
  {
    hide Remaining, NextPiece;
    RemainingStep(data, ioAddr, off, first, n, split, max, last, xmit, orig);
    Regroup(made, [NextPiece(data, ioAddr, off, first, n, last && off + n == |data|, xmit, orig)],
            Remaining(data, ioAddr, off + n, false, split, max, last, xmit, orig));
  }

  /** The descriptor and the slot for one piece. */
  method MakePiece(data: Bytes, ioAddr: nat, off: nat, first: bool, n: nat, eop: bool, xmit: nat, orig: nat)
    returns (desc: Desc, slot: TxMapping)
    requires off + n <= |data|
    ensures Cell(desc, slot) == NextPiece(data, ioAddr, off, first, n, eop, xmit, orig)
  {
    slot := if first then TxMapping(0, 0, ioAddr, |data|) else EMPTY;
    if eop {
      slot := slot.(xmit := xmit, orig := orig);
    }
    desc := Dma(ioAddr + off, data[off..off + n], eop);
  }

  /** One piece: `left` bytes of the element are not yet covered, and `goal` is what the element will give. */
  method BuildPiece(ring: DescRing, data: Bytes, ioAddr: nat, left: nat, first: bool, split: Split, max: nat,
                    last: bool, xmit: nat, orig: nat, id: nat, ghost goal: seq<Cell>) returns (rest: nat, next: nat)
    requires ring.Valid() && ring.IsNext(id) && |ring.window| + |goal| <= ring.n
    requires 0 < max && SplitFits(split, |data|, max) && 0 < left <= |data| && (first ==> left == |data|)
    requires ring.cells + Remaining(data, ioAddr, |data| - left, first, split, max, last, xmit, orig) == goal
    modifies ring`nPendDesc, ring`view, ring`cells, ring.txMap, ring.pendDesc
    ensures ring.Valid() && ring.IsNext(next) && rest <= left && (!first ==> rest < left)
    ensures ring.cells + Remaining(data, ioAddr, |data| - rest, false, split, max, last, xmit, orig) == goal
  {
    hide Remaining;
    var n := if left < max then left else max;
    if first && split.After? {
      n := split.len;
    }
    rest := left - n;
    PieceMade(ring.cells, goal, data, ioAddr, |data| - left, first, n, split, max, last, xmit, orig);
    var desc, slot := MakePiece(data, ioAddr, |data| - left, first, n, last && rest == 0, xmit, orig);
    next := ring.Append(id, desc, slot);
  }

  /** An element is cut into pieces of at most `max` bytes; the first element's first piece is its headers. */
  method BuildElem(ring: DescRing, data: Bytes, ioAddr: nat, split: Split, max: nat, last: bool, xmit: nat, orig: nat,
                   id: nat) returns (next: nat)
    requires ring.Valid() && ring.IsNext(id)
    requires 0 < max && SplitFits(split, |data|, max) && data != []
    requires ring.Used() + |Remaining(data, ioAddr, 0, true, split, max, last, xmit, orig)| <= ring.n
    modifies ring`nPendDesc, ring`view, ring`cells, ring.txMap, ring.pendDesc
    ensures ring.Valid() && ring.IsNext(next)
    ensures ring.cells == old(ring.cells) + Remaining(data, ioAddr, 0, true, split, max, last, xmit, orig)
  {
    ghost var goal := ring.cells + Remaining(data, ioAddr, 0, true, split, max, last, xmit, orig);
    var left: nat, first := |data|, true;
    next := id;
    while left > 0
      invariant left <= |data| && (first ==> left == |data|)
      invariant ring.Valid() && ring.IsNext(next) && (left == 0 ==> !first)
      invariant ring.cells + Remaining(data, ioAddr, |data| - left, first, split, max, last, xmit, orig) == goal
      decreases left, first
    {
      left, next := BuildPiece(ring, data, ioAddr, left, first, split, max, last, xmit, orig, next, goal);
      first := false;
    }
    AppendNothing(ring.cells);
  }

  /** The loops over elements: `used[i..]` is what is left of the frame. */
  predicate At(elems: seq<Bytes>, used: seq<Bytes>, i: nat, left: nat) {
    && i <= |elems| && i <= |used|
    && used[i..] == UsedElems(elems[i..], left)
    && left <= |Flatten(elems[i..])|
  }

  /** One more element: it is used as far as the frame reaches, and is the last one used when the frame ends in it. */
  lemma NextElem(elems: seq<Bytes>, used: seq<Bytes>, i: nat, left: nat)
    requires At(elems, used, i, left)
    requires forall k :: 0 <= k < |elems| ==> |elems[k]| > 0
    ensures left == 0 ==> i == |used|
    ensures left > 0 ==> i < |elems| && i < |used|
    ensures left > 0 ==>
              var n := if left < |elems[i]| then left else |elems[i]|;
              && used[i] == elems[i][..n] && At(elems, used, i + 1, left - n)
              && (i == |used| - 1 <==> left == n) && (i == |elems| - 1 ==> left == n)
  {
    if left > 0 {
      assert elems[i..] != [];
      assert elems[i..] == [elems[i]] + elems[i + 1..];
      FlattenAppend([elems[i]], elems[i + 1..]);
      FlattenOne(elems[i]);
      assert used[i + 1..] == used[i..][1..];
    }
  }

  /** What has been made of the first `i` elements used; the last one of all is closed. */
  function Made(used: seq<Bytes>, ioAddrs: seq<nat>, i: nat, split: Split, max: nat, xmit: nat, orig: nat): seq<Cell>
    requires max > 0 && i <= |used| <= |ioAddrs|
    requires used != [] ==> SplitFits(split, |used[0]|, max)
  {
    var cells := BodyCells(used[..i], ioAddrs, split, max);
    if i == |used| && cells != [] && cells[|cells| - 1].desc.Dma? then Close(cells, xmit, orig) else cells
  }

  lemma MadeStep(used: seq<Bytes>, ioAddrs: seq<nat>, i: nat, split: Split, max: nat, xmit: nat, orig: nat)
    requires 0 < max && i < |used| <= |ioAddrs| && SplitFits(split, |used[0]|, max)
    requires forall k :: 0 <= k < |used| ==> |used[k]| > 0
    ensures Made(used, ioAddrs, i + 1, split, max, xmit, orig)
         == Made(used, ioAddrs, i, split, max, xmit, orig)
            + Remaining(used[i], ioAddrs[i], 0, true, if i == 0 then split else Whole, max, i == |used| - 1, xmit, orig)
  {
    var h := if i == 0 then split else Whole;
    assert used[..i + 1][..i] == used[..i];
    var front, back := BodyCells(used[..i], ioAddrs, split, max), ElemCells(used[i], ioAddrs[i], h, max);
    assert BodyCells(used[..i + 1], ioAddrs, split, max) == front + back;
    ElemIsBody(used[i], ioAddrs[i], h, max);
    if i == |used| - 1 {
      CloseAppend(front, back, xmit, orig);
    }
  }

  /** Room for everything is room for the first elements. */
  lemma MadeFits(used: seq<Bytes>, ioAddrs: seq<nat>, i: nat, split: Split, max: nat, xmit: nat, orig: nat)
    requires 0 < max && i <= |used| <= |ioAddrs|
    requires used != [] ==> SplitFits(split, |used[0]|, max)
    ensures |Made(used, ioAddrs, i, split, max, xmit, orig)| <= |BodyCells(used, ioAddrs, split, max)|
  {
    BodyGrows(used, ioAddrs, split, max, i);
  }

  /** What is made before the last element owns no packet, and records each mapping once. */
  lemma MadeIsBare(o: seq<Cell>, used: seq<Bytes>, ioAddrs: seq<nat>, i: nat, split: Split, max: nat, xmit: nat,
                   orig: nat)
    requires 0 < max && i < |used| <= |ioAddrs| && SplitFits(split, |used[0]|, max)
    requires forall k :: 0 <= k < |used| ==> |used[k]| > 0
    requires forall k :: 0 <= k < i ==> ioAddrs[k] != 0
    requires forall k :: 0 <= k < |o| ==> o[k].slot == EMPTY
    ensures var cs := o + Made(used, ioAddrs, i, split, max, xmit, orig);
      && (forall k :: 0 <= k < |cs| ==> NoPacket(cs[k].slot))
      && IoAddrs(Slots(cs)) == ioAddrs[..i]
  {
    hide BodyCells, Recorded, Slots, IoAddrs;
    var body := BodyCells(used[..i], ioAddrs, split, max);
    BodyIsBody(used[..i], ioAddrs, split, max);
    BodyRecorded(used[..i], ioAddrs, split, max);
    RecordedIsIoAddrs(o + body);
    RecordedAppend(o, body);
    RecordedNone(o);
  }

  /** When every element is made, the DMA part of the packet is complete. */
  lemma MadeAll(a: Adapter, x: Xmit, ioAddrs: seq<nat>)
    requires Formed(a, x) && |ioAddrs| >= |Used(x)|
    ensures Used(x) != [] && SplitFits(SplitOf(a, x), |Used(x)[0]|, a.descMax)
    ensures Made(Used(x), ioAddrs, |Used(x)|, SplitOf(a, x), a.descMax, x.pkt.handle, x.orig) == DmaCells(a, x, ioAddrs)
  {
    UsedIsShort(a, x);
    BodyIsBody(Used(x), ioAddrs, SplitOf(a, x), a.descMax);
    BodyIsTiled(Used(x), ioAddrs, SplitOf(a, x), a.descMax);
    assert Used(x)[..|Used(x)|] == Used(x);
  }

  /** The packet and the addresses of its elements, as the loops over elements need them. */
  predicate Usable(a: Adapter, x: Xmit, ioAddrs: seq<nat>) {
    && Formed(a, x) && |Used(x)| <= |x.pkt.elems| == |ioAddrs|
    && Used(x) != [] && SplitFits(SplitOf(a, x), |Used(x)[0]|, a.descMax)
  }

  /** What both builders demand of the packet, and that there is room for it after `start`. */
  ghost predicate Buildable(ring: DescRing, a: Adapter, x: Xmit, ioAddrs: seq<nat>, start: seq<Cell>)
    reads ring`window
  {
    && Usable(a, x, ioAddrs)
    && |ring.window| + |start| + |BodyCells(Used(x), ioAddrs, SplitOf(a, x), a.descMax)| <= ring.n
  }

  /** The loops over elements: after `start`, `cells` holds the first `i` elements, and their mappings are live. */
  predicate Progress(cells: seq<Cell>, now: seq<nat>, start: seq<Cell>, live: seq<nat>, a: Adapter, x: Xmit,
                     ioAddrs: seq<nat>, i: nat, left: nat)
    requires Usable(a, x, ioAddrs)
  {
    && At(x.pkt.elems, Used(x), i, left)
    && cells == start + Made(Used(x), ioAddrs, i, SplitOf(a, x), a.descMax, x.pkt.handle, x.orig)
    && now == live + ioAddrs[..i]
    && (forall k :: 0 <= k < i ==> ioAddrs[k] != 0)
  }

  /** The length used of the next element. */
  function Take(x: Xmit, i: nat, left: nat): nat
    requires i < |x.pkt.elems|
  {
    if left < |x.pkt.elems[i]| then left else |x.pkt.elems[i]|
  }

  /** The cells of the next element. */
  function NextCells(a: Adapter, x: Xmit, ioAddrs: seq<nat>, i: nat, left: nat): seq<Cell>
    requires a.descMax > 0 && i < |x.pkt.elems| && i < |ioAddrs|
    requires i == 0 ==> SplitFits(SplitOf(a, x), Take(x, i, left), a.descMax)
  {
    var n := Take(x, i, left);
    Remaining(x.pkt.elems[i][..n], ioAddrs[i], 0, true, if i == 0 then SplitOf(a, x) else Whole, a.descMax,
              i == |x.pkt.elems| - 1 || left == n, x.pkt.handle, x.orig)
  }

  lemma ProgressStep(cells: seq<Cell>, now: seq<nat>, start: seq<Cell>, live: seq<nat>, a: Adapter, x: Xmit,
                     ioAddrs: seq<nat>, i: nat, left: nat)
    requires Usable(a, x, ioAddrs) && 0 < left && i < |ioAddrs| && ioAddrs[i] != 0
    requires Progress(cells, now, start, live, a, x, ioAddrs, i, left)
    ensures 0 < Take(x, i, left) <= left && (i == 0 ==> SplitFits(SplitOf(a, x), Take(x, i, left), a.descMax))
    ensures Progress(cells + NextCells(a, x, ioAddrs, i, left), now + [ioAddrs[i]], start, live, a, x, ioAddrs,
                     i + 1, left - Take(x, i, left))
    ensures |cells + NextCells(a, x, ioAddrs, i, left)|
            <= |start| + |BodyCells(Used(x), ioAddrs, SplitOf(a, x), a.descMax)|
  {
    hide UsedElems, Flatten, Made, BodyCells, Remaining;
    var used := Used(x);
    UsedElemsAreShort(x.pkt.elems, x.pkt.frameLen);
    NextElem(x.pkt.elems, used, i, left);
    MadeStep(used, ioAddrs, i, SplitOf(a, x), a.descMax, x.pkt.handle, x.orig);
    MadeFits(used, ioAddrs, i + 1, SplitOf(a, x), a.descMax, x.pkt.handle, x.orig);
    Regroup(start, Made(used, ioAddrs, i, SplitOf(a, x), a.descMax, x.pkt.handle, x.orig),
            NextCells(a, x, ioAddrs, i, left));
    CutAt(ioAddrs, i);
    Regroup(live, ioAddrs[..i], [ioAddrs[i]]);
  }

  /** Takes back what was made for a packet, after `i` of its elements. */
  method GiveUp(ring: DescRing, a: Adapter, x: Xmit, ioAddrs: seq<nat>, id: nat, startCount: nat, clear: bool,
                ghost i: nat, ghost left: nat, ghost before: seq<Cell>, ghost o: seq<Cell>, ghost live: seq<nat>)
    requires ring.Valid() && Buildable(ring, a, x, ioAddrs, before + o) && startCount == |before|
    requires id == RingSlot(ring.base + (|ring.window| + |before|), ring.n)
    requires i < |ioAddrs| && 0 < left && Progress(ring.cells, ring.live, before + o, live, a, x, ioAddrs, i, left)
    requires forall k :: 0 <= k < |o| ==> o[k].slot == EMPTY
    modifies ring`nPendDesc, ring`view, ring`cells, ring`live, ring.txMap
    ensures ring.Valid() && ring.cells == before && ring.live == live
  {
    hide DescRing.Valid, Made, BodyCells, NextCells, Remaining, UsedElems, Flatten, Slots, IoAddrs;
    UsedIsShort(a, x);
    NextElem(x.pkt.elems, Used(x), i, left);
    MadeIsBare(o, Used(x), ioAddrs, i, SplitOf(a, x), a.descMax, x.pkt.handle, x.orig);
    ring.PendingCount();
    ghost var tail := o + Made(Used(x), ioAddrs, i, SplitOf(a, x), a.descMax, x.pkt.handle, x.orig);
    Regroup(before, o, Made(Used(x), ioAddrs, i, SplitOf(a, x), a.descMax, x.pkt.handle, x.orig));
    ring.Rollback(id, ring.nPendDesc - startCount, clear, before, tail, live);
  }

  /** One mapped element of a segmented packet. */
  method HwTsoElem(ring: DescRing, a: Adapter, x: Xmit, ioAddrs: seq<nat>, i: nat, left: nat, id: nat)
    returns (rest: nat, next: nat)
    requires ring.Valid() && ring.IsNext(id) && ValidAdapter(a) && UsesTso(a, x.pkt) && Formed(a, x)
    requires 0 < left && i < |x.pkt.elems| == |ioAddrs| && 0 < Take(x, i, left) <= left
    requires i == 0 ==> SplitFits(SplitOf(a, x), Take(x, i, left), a.descMax)
    requires ring.Used() + |NextCells(a, x, ioAddrs, i, left)| <= ring.n
    modifies ring`nPendDesc, ring`view, ring`cells, ring`live, ring.txMap, ring.pendDesc
    ensures ring.Valid() && ring.IsNext(next) && rest == left - Take(x, i, left)
    ensures ring.cells == old(ring.cells) + NextCells(a, x, ioAddrs, i, left)
    ensures ring.live == old(ring.live) + [ioAddrs[i]]
  {
    var n := if left < |x.pkt.elems[i]| then left else |x.pkt.elems[i]|;
    rest := left - n;
    ring.live := ring.live + [ioAddrs[i]];
    next := BuildElem(ring, x.pkt.elems[i][..n], ioAddrs[i], if i == 0 then After(x.head) else Whole, a.descMax,
                      i == |x.pkt.elems| - 1 || rest == 0, x.pkt.handle, x.orig, id);
  }

  /** Nothing made yet. */
  lemma ProgressStart(start: seq<Cell>, live: seq<nat>, a: Adapter, x: Xmit, ioAddrs: seq<nat>)
    requires Usable(a, x, ioAddrs)
    ensures Progress(start, live, start, live, a, x, ioAddrs, 0, x.pkt.frameLen)
  {
  }

  /** Nothing left to make. */
  lemma ProgressEnd(cells: seq<Cell>, now: seq<nat>, start: seq<Cell>, live: seq<nat>, a: Adapter, x: Xmit,
                    ioAddrs: seq<nat>, i: nat, left: nat)
    requires Usable(a, x, ioAddrs) && Progress(cells, now, start, live, a, x, ioAddrs, i, left)
    ensures if i < |x.pkt.elems| && left > 0 then i < |Used(x)| else i == |Used(x)|
    ensures !(i < |x.pkt.elems| && left > 0) ==>
              && cells == start + DmaCells(a, x, ioAddrs)
              && now == live + ioAddrs[..|Used(x)|]
              && Mapped(x, ioAddrs)
  {
    NextElem(x.pkt.elems, Used(x), i, left);
    MadeAll(a, x, ioAddrs);
  }

  /** The segmentation option takes two descriptors, with empty slots. */
  method TsoOptDesc(ring: DescRing, info: TsoInfo, id: nat) returns (next: nat)
    requires ring.Valid() && ring.IsNext(id) && ring.Used() + FATSOV2_OPT_NDESCS <= ring.n
    modifies ring`nPendDesc, ring`view, ring`cells, ring.txMap, ring.pendDesc
    ensures ring.Valid() && ring.IsNext(next) && ring.cells == old(ring.cells) + TsoCells(info)
  {
    next := ring.Append(id, TsoOpt(0, info), EMPTY);
    next := ring.Append(next, TsoOpt(1, info), EMPTY);
  }

  /** The elements of a segmented packet, up to the first that cannot be mapped. */
  method HwTsoElems(ring: DescRing, a: Adapter, x: Xmit, ioAddrs: seq<nat>, id: nat) returns (i: nat, left: nat)
    requires ring.Valid() && ring.IsNext(id) && Buildable(ring, a, x, ioAddrs, ring.cells) && UsesTso(a, x.pkt)
    modifies ring`nPendDesc, ring`view, ring`cells, ring`live, ring.txMap, ring.pendDesc
    ensures ring.Valid() && i <= |ioAddrs|
    ensures Progress(ring.cells, ring.live, old(ring.cells), old(ring.live), a, x, ioAddrs, i, left)
    ensures i < |ioAddrs| && left > 0 ==> ioAddrs[i] == 0
  {
    hide DescRing.Valid, Made, BodyCells, NextCells, Remaining, UsedElems, Flatten, At, Progress, DmaCells;
    ghost var start, live := ring.cells, ring.live;
    ProgressStart(start, live, a, x, ioAddrs);
    i, left := 0, x.pkt.frameLen;
    var next := id;
    while i < |x.pkt.elems| && left > 0 && ioAddrs[i] != 0
      invariant ring.Valid() && ring.IsNext(next)
      invariant i <= |x.pkt.elems|
      invariant Progress(ring.cells, ring.live, start, live, a, x, ioAddrs, i, left)
    {
      ProgressStep(ring.cells, ring.live, start, live, a, x, ioAddrs, i, left);
      left, next := HwTsoElem(ring, a, x, ioAddrs, i, left, next);
      i := i + 1;
    }
  }

  /** Descriptors of a segmented packet: the segmentation option, the headers, then everything else. */
  method HwTso(ring: DescRing, a: Adapter, x: Xmit, ioAddrs: seq<nat>, id: nat) returns (ok: bool)
    requires ring.Valid() && ring.IsNext(id) && UsesTso(a, x.pkt)
    requires Buildable(ring, a, x, ioAddrs, ring.cells + TsoCells(x.info))
    modifies ring`nPendDesc, ring`view, ring`cells, ring`live, ring.txMap, ring.pendDesc
    ensures ring.Valid()
    ensures ok <==> Mapped(x, ioAddrs)
    ensures ok ==> ring.cells == old(ring.cells) + TsoCells(x.info) + DmaCells(a, x, ioAddrs)
    ensures ok ==> ring.live == old(ring.live) + ioAddrs[..|Used(x)|]
    ensures !ok ==> ring.cells == old(ring.cells) && ring.live == old(ring.live)
  {
    hide DescRing.Valid, Made, BodyCells, NextCells, Remaining, UsedElems, Flatten, At, Progress, DmaCells;
    ghost var before, live := ring.cells, ring.live;
    var startCount := ring.nPendDesc;
    ring.PendingCount();
    var next := TsoOptDesc(ring, x.info, id);
    ghost var start := ring.cells;
    var i, left := HwTsoElems(ring, a, x, ioAddrs, next);
    ProgressEnd(ring.cells, ring.live, start, live, a, x, ioAddrs, i, left);
    ok := !(i < |x.pkt.elems| && left > 0);
    if !ok {
      GiveUp(ring, a, x, ioAddrs, id, startCount, false, i, left, before, TsoCells(x.info), live);
    }
  }

  /** An element that fits a descriptor gives one cell. */
  lemma NextCellsOfOne(a: Adapter, x: Xmit, ioAddrs: seq<nat>, i: nat, left: nat)
    requires a.descMax > 0 && !UsesTso(a, x.pkt) && x.orig == 0
    requires i < |x.pkt.elems| && i < |ioAddrs| && 0 < Take(x, i, left) <= a.descMax
    ensures var n := Take(x, i, left);
      var eop := i == |x.pkt.elems| - 1 || left == n;
      NextCells(a, x, ioAddrs, i, left)
      == [Cell(Dma(ioAddrs[i], x.pkt.elems[i][..n], eop), TxMapping(0, if eop then x.pkt.handle else 0, ioAddrs[i], n))]
  {
    ElemOfOne(x.pkt.elems[i][..Take(x, i, left)], ioAddrs[i], a.descMax);
  }

  /** One descriptor for a whole element. The slot is filled in place: what it says of an original is left as it is. */
  method SingleDesc(ring: DescRing, data: Bytes, ioAddr: nat, eop: bool, xmit: nat, id: nat) returns (next: nat)
    requires ring.Valid() && ring.IsNext(id) && ring.Used() < ring.n
    modifies ring`nPendDesc, ring`view, ring`cells, ring.txMap, ring.pendDesc
    ensures ring.Valid() && ring.IsNext(next)
    ensures ring.cells
         == old(ring.cells) + [Cell(Dma(ioAddr, data, eop), TxMapping(0, if eop then xmit else 0, ioAddr, |data|))]
  {
    var slot := ring.Peek(id);
    slot := slot.(ioAddr := ioAddr, length := |data|, xmit := 0);
    if eop {
      slot := slot.(xmit := xmit);
    }
    next := ring.Append(id, Dma(ioAddr, data, eop), slot);
  }

  /** One mapped element of a packet that is not segmented. */
  method NonTsoElem(ring: DescRing, a: Adapter, x: Xmit, ioAddrs: seq<nat>, i: nat, left: nat, id: nat)
    returns (rest: nat, next: nat)
    requires ring.Valid() && ring.IsNext(id) && ValidAdapter(a) && !UsesTso(a, x.pkt) && x.orig == 0
    requires 0 < left && i < |x.pkt.elems| == |ioAddrs| && 0 < |x.pkt.elems[i]| <= a.descMax
    requires ring.Used() + |NextCells(a, x, ioAddrs, i, left)| <= ring.n
    modifies ring`nPendDesc, ring`view, ring`cells, ring`live, ring.txMap, ring.pendDesc
    ensures ring.Valid() && ring.IsNext(next) && rest == left - Take(x, i, left)
    ensures ring.cells == old(ring.cells) + NextCells(a, x, ioAddrs, i, left)
    ensures ring.live == old(ring.live) + [ioAddrs[i]]
  {
    NextCellsOfOne(a, x, ioAddrs, i, left);
    var n := if left < |x.pkt.elems[i]| then left else |x.pkt.elems[i]|;
    rest := left - n;
    ring.live := ring.live + [ioAddrs[i]];
    next := SingleDesc(ring, x.pkt.elems[i][..n], ioAddrs[i], i == |x.pkt.elems| - 1 || rest == 0, x.pkt.handle, id);
  }

  /** Every element that is used fits one descriptor; the driver looks at the whole element, not at the part used. */
  predicate AllFit(a: Adapter, x: Xmit) {
    |Used(x)| <= |x.pkt.elems| && forall k :: 0 <= k < |Used(x)| ==> |x.pkt.elems[k]| <= a.descMax
  }

  /** The elements of any other packet, up to the first that is too long or cannot be mapped. */
  method NonTsoElems(ring: DescRing, a: Adapter, x: Xmit, ioAddrs: seq<nat>, id: nat) returns (i: nat, left: nat)
    requires ring.Valid() && ring.IsNext(id) && Buildable(ring, a, x, ioAddrs, ring.cells)
    requires !UsesTso(a, x.pkt) && x.orig == 0
    modifies ring`nPendDesc, ring`view, ring`cells, ring`live, ring.txMap, ring.pendDesc
    ensures ring.Valid() && i <= |ioAddrs|
    ensures Progress(ring.cells, ring.live, old(ring.cells), old(ring.live), a, x, ioAddrs, i, left)
    ensures forall k :: 0 <= k < i ==> |x.pkt.elems[k]| <= a.descMax
    ensures i < |ioAddrs| && left > 0 ==> ioAddrs[i] == 0 || |x.pkt.elems[i]| > a.descMax
  {
    hide DescRing.Valid, Made, BodyCells, NextCells, Remaining, UsedElems, Flatten, At, Progress, DmaCells;
    ghost var start, live := ring.cells, ring.live;
    ProgressStart(start, live, a, x, ioAddrs);
    i, left := 0, x.pkt.frameLen;
    var next := id;
    while i < |x.pkt.elems| && left > 0 && |x.pkt.elems[i]| <= a.descMax && ioAddrs[i] != 0
      invariant ring.Valid() && ring.IsNext(next)
      invariant i <= |x.pkt.elems|
      invariant Progress(ring.cells, ring.live, start, live, a, x, ioAddrs, i, left)
      invariant forall k :: 0 <= k < i ==> |x.pkt.elems[k]| <= a.descMax
    {
      ProgressStep(ring.cells, ring.live, start, live, a, x, ioAddrs, i, left);
      left, next := NonTsoElem(ring, a, x, ioAddrs, i, left, next);
      i := i + 1;
    }
  }

  /** Descriptors of any other packet: one for each element. */
  method NonTso(ring: DescRing, a: Adapter, x: Xmit, ioAddrs: seq<nat>, id: nat) returns (ok: bool)
    requires ring.Valid() && ring.IsNext(id) && Buildable(ring, a, x, ioAddrs, ring.cells)
    requires !UsesTso(a, x.pkt) && x.orig == 0
    modifies ring`nPendDesc, ring`view, ring`cells, ring`live, ring.txMap, ring.pendDesc
    ensures ring.Valid()
    ensures ok <==> Mapped(x, ioAddrs) && AllFit(a, x)
    ensures ok ==> ring.cells == old(ring.cells) + DmaCells(a, x, ioAddrs)
    ensures ok ==> ring.live == old(ring.live) + ioAddrs[..|Used(x)|]
    ensures !ok ==> ring.cells == old(ring.cells) && ring.live == old(ring.live)
  {
    hide DescRing.Valid, Made, BodyCells, NextCells, Remaining, UsedElems, Flatten, At, Progress, DmaCells;
    ghost var start, live := ring.cells, ring.live;
    var startCount := ring.nPendDesc;
    ring.PendingCount();
    var i, left := NonTsoElems(ring, a, x, ioAddrs, id);
    ProgressEnd(ring.cells, ring.live, start, live, a, x, ioAddrs, i, left);
    ok := !(i < |x.pkt.elems| && left > 0);
    if !ok {
      AppendNothing(start);
      GiveUp(ring, a, x, ioAddrs, id, startCount, true, i, left, start, [], live);
    }
  }
}
