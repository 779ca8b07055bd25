/**
 The transmit engine as an interpreter of descriptors, and the meaning of the
 streams the driver gives it.

 VLAN and checksum options stay in force until they are replaced; a
 segmentation option applies to the next packet only. The engine refuses a
 descriptor that is empty or too long, a segmented packet of more than 24
 descriptors, and options in the middle of a packet.
 */
module TxHardware {
  import opened Seqs
  import opened TxSizes
  import opened TxFix
  import opened TxPacket
  import opened TxDescriptors

  /** What leaves the engine for one packet. */
  datatype Frame = Frame(options: Sticky, body: FrameBody)

  datatype FrameBody =
    | Plain(data: Bytes)
    | Segmented(info: TsoInfo, header: Bytes, payload: Bytes)

  datatype TsoState = NoTso | HalfTso(info: TsoInfo) | Armed(info: TsoInfo)

  datatype Engine = Engine(options: Sticky, tso: TsoState, pieces: seq<Bytes>, sent: seq<Frame>, ok: bool)

  const RESET: Engine := Engine(FRESH, NoTso, [], [], true)

  predicate BetweenPackets(e: Engine) {
    e.ok && e.pieces == [] && e.tso.NoTso?
  }

  function Assemble(tso: TsoState, pieces: seq<Bytes>): FrameBody
    requires pieces != []
  {
    match tso
    case Armed(info) => Segmented(info, pieces[0], Flatten(pieces[1..]))
    case _ => Plain(Flatten(pieces))
  }

  function Refuse(e: Engine): Engine { e.(ok := false) }

  function Execute(e: Engine, d: Desc, max: nat): Engine {
    if !e.ok then e
    else
      match d
      case VlanOpt(tci) =>
        if BetweenPackets(e) then e.(options := e.options.(tci := tci)) else Refuse(e)
      case CsumOpt(outer, inner) =>
        if BetweenPackets(e) then e.(options := e.options.(outer := outer, inner := inner)) else Refuse(e)
      case TsoOpt(part, info) =>
        if part == 0 && BetweenPackets(e) then e.(tso := HalfTso(info))
        else if part == 1 && e.tso == HalfTso(info) && e.pieces == [] then e.(tso := Armed(info))
        else Refuse(e)
      case Dma(_, data, eop) =>
        var pieces := e.pieces + [data];
        if |data| == 0 || |data| > max || e.tso.HalfTso? || (e.tso.Armed? && |pieces| > TSO_DMA_DESC_MAX) then
          Refuse(e)
        else if eop then
          Engine(e.options, NoTso, [], e.sent + [Frame(e.options, Assemble(e.tso, pieces))], true)
        else e.(pieces := pieces)
  }

  function Run(e: Engine, ds: seq<Desc>, max: nat): Engine {
    if ds == [] then e else Execute(Run(e, ds[..|ds| - 1], max), ds[|ds| - 1], max)
  }

  lemma {:induction false} RunAppend(e: Engine, a: seq<Desc>, b: seq<Desc>, max: nat)
    ensures Run(e, a + b, max) == Run(Run(e, a, max), b, max)
  {
    if b == [] {
      assert a + b == a;
    } else {
      var n := |b| - 1;
      InitOfAppend(a, b);
      RunAppend(e, a, b[..n], max);
    }
  }

  function Descs(cells: seq<Cell>): (ds: seq<Desc>)
    ensures |ds| == |cells|
  {
    seq(|cells|, i requires 0 <= i < |cells| => cells[i].desc)
  }

  /** A packet ready to be built: the copy sent (or the packet itself), the original behind a copy, the header split. */
  datatype Xmit = Xmit(pkt: Packet, orig: nat, head: nat, info: TsoInfo)

  /** The headers lie in the first element, the frame and one descriptor. */
  predicate Formed(a: Adapter, x: Xmit) {
    && ValidAdapter(a) && ValidPacket(x.pkt)
    && x.head <= a.descMax && x.head <= |x.pkt.elems[0]| && x.head <= x.pkt.frameLen
  }

  /** A segmented packet is split after its headers, even if the driver has found none. */
  function SplitOf(a: Adapter, x: Xmit): Split {
    if UsesTso(a, x.pkt) then After(x.head) else Whole
  }

  function Used(x: Xmit): seq<Bytes> {
    UsedElems(x.pkt.elems, x.pkt.frameLen)
  }

  /** The packet obeys the rules its descriptors must obey. */
  predicate Ready(a: Adapter, x: Xmit) {
    && Formed(a, x)
    && (if UsesTso(a, x.pkt) then
          && 0 < x.head
          && SplitCount(Lengths(x.pkt.elems), x.head, a.descMax) <= TSO_DMA_DESC_MAX
        else
          && x.head == 0
          && (forall i :: 0 <= i < |Used(x)| ==> |Used(x)[i]| <= a.descMax))
  }

  lemma UsedIsShort(a: Adapter, x: Xmit)
    requires Formed(a, x)
    ensures Used(x) != [] && SplitFits(SplitOf(a, x), |Used(x)[0]|, a.descMax) && |Used(x)| <= |x.pkt.elems|
    ensures forall i :: 0 <= i < |Used(x)| ==> |Used(x)[i]| > 0
  {
    UsedElemsAreShort(x.pkt.elems, x.pkt.frameLen);
  }

  /** Addresses a successful mapping returns: one for each used element, none null. */
  predicate Mapped(x: Xmit, ioAddrs: seq<nat>) {
    |ioAddrs| >= |Used(x)| && forall i :: 0 <= i < |Used(x)| ==> ioAddrs[i] != 0
  }

  function TsoPrefix(a: Adapter, x: Xmit): seq<Cell> {
    if UsesTso(a, x.pkt) then TsoCells(x.info) else []
  }

  function DmaCells(a: Adapter, x: Xmit, ioAddrs: seq<nat>): seq<Cell>
    requires Formed(a, x) && |ioAddrs| >= |Used(x)|
  {
    UsedIsShort(a, x);
    var body := BodyCells(Used(x), ioAddrs, SplitOf(a, x), a.descMax);
    BodyIsBody(Used(x), ioAddrs, SplitOf(a, x), a.descMax);
    BodyIsTiled(Used(x), ioAddrs, SplitOf(a, x), a.descMax);
    Close(body, x.pkt.handle, x.orig)
  }

  /** Everything posted for one packet. */
  function PacketCells(a: Adapter, st: Sticky, x: Xmit, ioAddrs: seq<nat>): seq<Cell>
    requires Formed(a, x) && Mapped(x, ioAddrs)
  {
    OptionCells(st, Wanted(a, x.pkt)) + TsoPrefix(a, x) + DmaCells(a, x, ioAddrs)
  }

  /** What the packet asks for, said without reference to descriptors or to earlier packets. */
  function Intended(a: Adapter, x: Xmit): Frame
    requires Ready(a, x)
  {
    var bytes := FrameBytes(x.pkt);
    Frame(Wanted(a, x.pkt),
          if UsesTso(a, x.pkt) then Segmented(x.info, bytes[..x.head], bytes[x.head..]) else Plain(bytes))
  }

  lemma DescsAppend(a: seq<Cell>, b: seq<Cell>)
    ensures Descs(a + b) == Descs(a) + Descs(b)
  {
  }

  lemma DescsOneMore(cells: seq<Cell>, c: Cell)
    ensures Descs(cells + [c]) == Descs(cells) + [c.desc]
  {
  }

  lemma DropDescs(keep: seq<Cell>, tail: seq<Cell>)
    ensures Descs(keep + tail)[..|keep|] == Descs(keep)
  {
  }

  lemma RunOne(e: Engine, d: Desc, max: nat)
    ensures Run(e, [d], max) == Execute(e, d, max)
  {
  }

  lemma RunNone(e: Engine, max: nat)
    ensures Run(e, [], max) == e
  {
  }

  /** After the options, the engine is in the wanted state whether they were sent or left out. */
  lemma OptionsTakeEffect(e: Engine, w: Sticky, max: nat)
    requires BetweenPackets(e)
    ensures Run(e, Descs(OptionCells(e.options, w)), max) == e.(options := w)
  {
    var v := VlanCells(e.options, w.tci);
    var c := CsumCells(e.options, w.outer, w.inner);
    var mid := e.(options := e.options.(tci := w.tci));
    assert Run(e, Descs(v), max) == mid by {
      if w.tci == e.options.tci { assert Descs(v) == []; } else {
        assert Descs(v) == [VlanOpt(w.tci)];
        RunOne(e, VlanOpt(w.tci), max);
      }
    }
    assert Run(mid, Descs(c), max) == e.(options := w) by {
      if c == [] { assert Descs(c) == []; } else {
        assert Descs(c) == [CsumOpt(w.outer, w.inner)];
        RunOne(mid, CsumOpt(w.outer, w.inner), max);
      }
    }
    DescsAppend(v, c);
    RunAppend(e, Descs(v), Descs(c), max);
  }

  lemma TsoTakesEffect(e: Engine, info: TsoInfo, max: nat)
    requires BetweenPackets(e)
    ensures Run(e, Descs(TsoCells(info)), max) == e.(tso := Armed(info))
  {
    var one, two := TsoOpt(0, info), TsoOpt(1, info);
    assert Descs(TsoCells(info)) == [one] + [two];
    RunAppend(e, [one], [two], max);
    RunOne(e, one, max);
    RunOne(e.(tso := HalfTso(info)), two, max);
  }

  /** The engine collects the pieces of a packet until its end. */
  lemma {:induction false} PiecesAreCollected(e: Engine, cells: seq<Cell>, max: nat)
    requires e.ok && e.pieces == [] && !e.tso.HalfTso?
    requires IsBody(cells, max) && NoneEmpty(cells)
    requires e.tso.Armed? ==> |cells| <= TSO_DMA_DESC_MAX
    ensures Run(e, Descs(cells), max) == e.(pieces := Pieces(cells))
  {
    if cells == [] {
      assert Descs(cells) == [];
    } else {
      var n := |cells| - 1;
      PiecesAreCollected(e, cells[..n], max);
      assert Descs(cells)[..n] == Descs(cells[..n]);
      assert Pieces(cells) == Pieces(cells[..n]) + [cells[n].desc.data];
    }
  }

  /** A closed body is sent as one frame. */
  lemma ClosedBodyIsSent(e: Engine, body: seq<Cell>, xmit: nat, orig: nat, max: nat)
    requires e.ok && e.pieces == [] && !e.tso.HalfTso?
    requires IsBody(body, max) && NoneEmpty(body) && body != []
    requires e.tso.Armed? ==> |body| <= TSO_DMA_DESC_MAX
    ensures Run(e, Descs(Close(body, xmit, orig)), max)
         == Engine(e.options, NoTso, [], e.sent + [Frame(e.options, Assemble(e.tso, Pieces(body)))], true)
  {
    hide Flatten, Run;
    var n := |body| - 1;
    var front, last := body[..n], Dma(body[n].desc.ioAddr, body[n].desc.data, true);
    PiecesAreCollected(e, front, max);
    assert Descs(Close(body, xmit, orig)) == Descs(front) + [last];
    RunAppend(e, Descs(front), [last], max);
    RunOne(e.(pieces := Pieces(front)), last, max);
    assert Pieces(body) == Pieces(front) + [body[n].desc.data];
  }

  /** Pieces of the same bytes, of which the first is `head` bytes of the first element. */
  lemma FirstPiece(ps: seq<Bytes>, used: seq<Bytes>, head: nat)
    requires ps != [] && used != [] && head <= |used[0]| && Flatten(ps) == Flatten(used) && ps[0] == used[0][..head]
    ensures head <= |Flatten(used)| && ps[0] == Flatten(used)[..head] && Flatten(ps[1..]) == Flatten(used)[head..]
  {
    CutFirst(ps);
    FlattenAppend([ps[0]], ps[1..]);
    FlattenOne(ps[0]);
    CutFirst(used);
    FlattenAppend([used[0]], used[1..]);
    FlattenOne(used[0]);
  }

  /** The frame assembled from a body is the intended one. */
  lemma BodyMeaning(a: Adapter, x: Xmit, ioAddrs: seq<nat>)
    requires Ready(a, x) && Mapped(x, ioAddrs)
    ensures Used(x) != [] && SplitFits(SplitOf(a, x), |Used(x)[0]|, a.descMax)
    ensures var body := BodyCells(Used(x), ioAddrs, SplitOf(a, x), a.descMax);
      && IsBody(body, a.descMax) && NoneEmpty(body) && body != []
      && (UsesTso(a, x.pkt) ==> |body| <= TSO_DMA_DESC_MAX)
      && Assemble(if UsesTso(a, x.pkt) then Armed(x.info) else NoTso, Pieces(body)) == Intended(a, x).body
  {
    hide Flatten, BodyCells, SumNeeded, UsedElems;
    var used, split := Used(x), SplitOf(a, x);
    UsedIsShort(a, x);
    BodyIsBody(used, ioAddrs, split, a.descMax);
    BodyIsTiled(used, ioAddrs, split, a.descMax);
    BodyHasCount(used, ioAddrs, split, a.descMax);
    BodyWithinLengths(x.pkt.elems, x.pkt.frameLen, split, a.descMax);
    UsedElemsAreFrame(x.pkt.elems, x.pkt.frameLen);
    if UsesTso(a, x.pkt) {
      FirstPiece(Pieces(BodyCells(used, ioAddrs, split, a.descMax)), used, x.head);
    }
  }

  /**
   One packet: starting between packets with the sticky options the driver
   believes in force, the engine sends exactly the intended frame.
   */
  lemma PacketMeaning(a: Adapter, e: Engine, x: Xmit, ioAddrs: seq<nat>)
    requires BetweenPackets(e) && Ready(a, x) && Mapped(x, ioAddrs)
    ensures Run(e, Descs(PacketCells(a, e.options, x, ioAddrs)), a.descMax)
         == Engine(Wanted(a, x.pkt), NoTso, [], e.sent + [Intended(a, x)], true)
  {
    var w := Wanted(a, x.pkt);
    var o, t, d := OptionCells(e.options, w), TsoPrefix(a, x), DmaCells(a, x, ioAddrs);
    DescsAppend(o + t, d);
    DescsAppend(o, t);
    RunAppend(e, Descs(o + t), Descs(d), a.descMax);
    RunAppend(e, Descs(o), Descs(t), a.descMax);
    OptionsTakeEffect(e, w, a.descMax);
    var e1 := e.(options := w);
    var e2 := if UsesTso(a, x.pkt) then e1.(tso := Armed(x.info)) else e1;
    assert Run(e1, Descs(t), a.descMax) == e2 by {
      if UsesTso(a, x.pkt) { TsoTakesEffect(e1, x.info, a.descMax); } else { assert Descs(t) == []; }
    }
    BodyMeaning(a, x, ioAddrs);
    ClosedBodyIsSent(e2, BodyCells(Used(x), ioAddrs, SplitOf(a, x), a.descMax), x.pkt.handle, x.orig, a.descMax);
  }

  /** Once the engine has refused a descriptor, it refuses everything. */
  lemma {:induction false} RefusedForGood(e: Engine, ds: seq<Desc>, max: nat)
    requires !e.ok
    ensures !Run(e, ds, max).ok
  {
    if ds != [] {
      RefusedForGood(e, ds[..|ds| - 1], max);
    }
  }

  lemma EmptyFirst(a: Adapter, x: Xmit, ioAddrs: seq<nat>)
    requires Formed(a, x) && Mapped(x, ioAddrs) && UsesTso(a, x.pkt) && x.head == 0
    ensures DmaCells(a, x, ioAddrs) != [] && DmaCells(a, x, ioAddrs)[0].desc.Dma?
    ensures DmaCells(a, x, ioAddrs)[0].desc.data == []
  {
    hide Flatten, BodyCells, UsedElems;
    UsedIsShort(a, x);
    var body := BodyCells(Used(x), ioAddrs, SplitOf(a, x), a.descMax);
    BodyIsBody(Used(x), ioAddrs, SplitOf(a, x), a.descMax);
    BodyIsTiled(Used(x), ioAddrs, SplitOf(a, x), a.descMax);
    CloseKeeps(body, x.pkt.handle, x.orig, a.descMax);
    assert Pieces(Close(body, x.pkt.handle, x.orig))[0] == Pieces(body)[0] == [];
  }

  /** A segmented packet without headers: its first descriptor is empty, and the engine refuses it. */
  lemma EmptyHeaderIsRefused(a: Adapter, e: Engine, x: Xmit, ioAddrs: seq<nat>)
    requires Formed(a, x) && Mapped(x, ioAddrs) && UsesTso(a, x.pkt) && x.head == 0
    ensures !Run(e, Descs(PacketCells(a, e.options, x, ioAddrs)), a.descMax).ok
  {
    hide Run, Flatten, BodyCells, OptionCells, UsedElems;
    var front, d := OptionCells(e.options, Wanted(a, x.pkt)) + TsoPrefix(a, x), DmaCells(a, x, ioAddrs);
    EmptyFirst(a, x, ioAddrs);
    var ds := Descs(d);
    var mid := Run(e, Descs(front), a.descMax);
    DescsAppend(front, d);
    RunAppend(e, Descs(front), ds, a.descMax);
    CutFirst(ds);
    RunAppend(mid, [ds[0]], ds[1..], a.descMax);
    RunOne(mid, ds[0], a.descMax);
    RefusedForGood(Execute(mid, ds[0], a.descMax), ds[1..], a.descMax);
  }

  /** A packet with the addresses its elements were mapped to. */
  datatype Send = Send(x: Xmit, ioAddrs: seq<nat>)

  predicate ReadySend(a: Adapter, s: Send) {
    Ready(a, s.x) && Mapped(s.x, s.ioAddrs)
  }

  predicate AllReady(a: Adapter, sends: seq<Send>) {
    forall i {:trigger sends[i]} :: 0 <= i < |sends| ==> ReadySend(a, sends[i])
  }

  /** The option state after a list of packets. */
  function StickyAfter(a: Adapter, st: Sticky, sends: seq<Send>): Sticky {
    if sends == [] then st else Wanted(a, sends[|sends| - 1].x.pkt)
  }

  /** The whole stream for a list of packets, options left out wherever they are in force already. */
  function Stream(a: Adapter, st: Sticky, sends: seq<Send>): seq<Cell>
    requires AllReady(a, sends)
  {
    if sends == [] then []
    else
      var n := |sends| - 1;
      Stream(a, st, sends[..n])
      + PacketCells(a, StickyAfter(a, st, sends[..n]), sends[n].x, sends[n].ioAddrs)
  }

  /** What is posted for one packet when every option is sent. */
  function FullPacket(a: Adapter, s: Send): seq<Cell>
    requires ReadySend(a, s)
  {
    var w := Wanted(a, s.x.pkt);
    [Cell(VlanOpt(w.tci), EMPTY), Cell(CsumOpt(w.outer, w.inner), EMPTY)]
    + PacketCells(a, w, s.x, s.ioAddrs)
  }

  /** The stream that sends every option with every packet. */
  function FullStream(a: Adapter, sends: seq<Send>): seq<Cell>
    requires AllReady(a, sends)
  {
    if sends == [] then []
    else FullStream(a, sends[..|sends| - 1]) + FullPacket(a, sends[|sends| - 1])
  }

  function IntendedAll(a: Adapter, sends: seq<Send>): (fs: seq<Frame>)
    requires AllReady(a, sends)
    ensures |fs| == |sends|
  {
    seq(|sends|, i requires 0 <= i < |sends| => Intended(a, sends[i].x))
  }

  lemma IntendedExtends(a: Adapter, before: seq<Frame>, sends: seq<Send>)
    requires sends != [] && AllReady(a, sends)
    ensures var n := |sends| - 1;
      (before + IntendedAll(a, sends[..n])) + [Intended(a, sends[n].x)] == before + IntendedAll(a, sends)
  {
  }

  /** Two runs in a row. */
  lemma RunInTwo(e: Engine, a: seq<Desc>, mid: Engine, b: seq<Desc>, end: Engine, max: nat)
    requires Run(e, a, max) == mid && Run(mid, b, max) == end
    ensures Run(e, a + b, max) == end
  {
    RunAppend(e, a, b, max);
  }

  /**
   For every list of packets the engine sends exactly the intended frames, in
   order, each with its own tag, checksum flags and bytes, and refuses nothing.
   */
  lemma {:induction false} StreamMeaning(a: Adapter, e: Engine, sends: seq<Send>)
    requires BetweenPackets(e)
    requires AllReady(a, sends)
    ensures Run(e, Descs(Stream(a, e.options, sends)), a.descMax)
         == Engine(StickyAfter(a, e.options, sends), NoTso, [], e.sent + IntendedAll(a, sends), true)
  {
    if sends == [] {
      assert Descs(Stream(a, e.options, sends)) == [];
    } else {
      var n := |sends| - 1;
      var s := sends[n];
      var st := StickyAfter(a, e.options, sends[..n]);
      var front, last := Stream(a, e.options, sends[..n]), PacketCells(a, st, s.x, s.ioAddrs);
      var mid := Engine(st, NoTso, [], e.sent + IntendedAll(a, sends[..n]), true);
      var end := Engine(Wanted(a, s.x.pkt), NoTso, [], mid.sent + [Intended(a, s.x)], true);
      assert Run(e, Descs(front), a.descMax) == mid by { StreamMeaning(a, e, sends[..n]); }
      assert Run(mid, Descs(last), a.descMax) == end by { PacketMeaning(a, mid, s.x, s.ioAddrs); }
      assert Descs(Stream(a, e.options, sends)) == Descs(front) + Descs(last) by { DescsAppend(front, last); }
      RunInTwo(e, Descs(front), mid, Descs(last), end, a.descMax);
      IntendedExtends(a, e.sent, sends);
    }
  }

  lemma FullOptionsTakeEffect(e: Engine, w: Sticky, max: nat)
    requires BetweenPackets(e)
    ensures Run(e, [VlanOpt(w.tci)] + [CsumOpt(w.outer, w.inner)], max) == e.(options := w)
  {
    RunAppend(e, [VlanOpt(w.tci)], [CsumOpt(w.outer, w.inner)], max);
    RunOne(e, VlanOpt(w.tci), max);
    RunOne(e.(options := e.options.(tci := w.tci)), CsumOpt(w.outer, w.inner), max);
  }

  lemma FullPacketMeaning(a: Adapter, e: Engine, s: Send)
    requires BetweenPackets(e) && ReadySend(a, s)
    ensures Run(e, Descs(FullPacket(a, s)), a.descMax)
         == Engine(Wanted(a, s.x.pkt), NoTso, [], e.sent + [Intended(a, s.x)], true)
  {
    var w := Wanted(a, s.x.pkt);
    var o := [Cell(VlanOpt(w.tci), EMPTY), Cell(CsumOpt(w.outer, w.inner), EMPTY)];
    var own := PacketCells(a, w, s.x, s.ioAddrs);
    assert Descs(o) == [VlanOpt(w.tci)] + [CsumOpt(w.outer, w.inner)];
    assert Descs(FullPacket(a, s)) == Descs(o) + Descs(own) by { DescsAppend(o, own); }
    var mid := e.(options := w);
    var end := Engine(w, NoTso, [], e.sent + [Intended(a, s.x)], true);
    assert Run(e, Descs(o), a.descMax) == mid by { FullOptionsTakeEffect(e, w, a.descMax); }
    assert Run(mid, Descs(own), a.descMax) == end by { PacketMeaning(a, mid, s.x, s.ioAddrs); }
    RunInTwo(e, Descs(o), mid, Descs(own), end, a.descMax);
  }

  lemma {:induction false} FullStreamMeaning(a: Adapter, e: Engine, sends: seq<Send>)
    requires BetweenPackets(e)
    requires AllReady(a, sends)
    ensures Run(e, Descs(FullStream(a, sends)), a.descMax)
         == Engine(StickyAfter(a, e.options, sends), NoTso, [], e.sent + IntendedAll(a, sends), true)
  {
    if sends == [] {
      assert Descs(FullStream(a, sends)) == [];
    } else {
      var n := |sends| - 1;
      var s := sends[n];
      var front, last := FullStream(a, sends[..n]), FullPacket(a, s);
      var mid := Engine(StickyAfter(a, e.options, sends[..n]), NoTso, [], e.sent + IntendedAll(a, sends[..n]), true);
      var end := Engine(Wanted(a, s.x.pkt), NoTso, [], mid.sent + [Intended(a, s.x)], true);
      assert Run(e, Descs(front), a.descMax) == mid by { FullStreamMeaning(a, e, sends[..n]); }
      assert Run(mid, Descs(last), a.descMax) == end by { FullPacketMeaning(a, mid, s); }
      assert Descs(FullStream(a, sends)) == Descs(front) + Descs(last) by { DescsAppend(front, last); }
      RunInTwo(e, Descs(front), mid, Descs(last), end, a.descMax);
      IntendedExtends(a, e.sent, sends);
    }
  }

  /** Leaving out the options that are already in force does not change what is sent. */
  lemma DroppingOptionsIsInvisible(a: Adapter, e: Engine, sends: seq<Send>)
    requires BetweenPackets(e)
    requires AllReady(a, sends)
    ensures Run(e, Descs(Stream(a, e.options, sends)), a.descMax) == Run(e, Descs(FullStream(a, sends)), a.descMax)
  {
    StreamMeaning(a, e, sends);
    FullStreamMeaning(a, e, sends);
  }

  /** A packet that asks for a tag is sent tagged, unless its id and its priority are both zero. */
  lemma TaggedUnlessZero(a: Adapter, x: Xmit)
    requires Ready(a, x) && x.pkt.vlanPrio < 8
    ensures Intended(a, x).options.tci != 0 <==>
            x.pkt.mustVlanTag && !(x.pkt.vlanId & 0x0fff == 0 && x.pkt.vlanPrio == 0)
  {
  }
}
