/** The transmit queue: reservation, building, posting, completion and flush. */
module TxQueue {
  import opened Seqs
  import opened Words
  import opened TxSizes
  import opened TxFix
  import opened TxPacket
  import opened TxDescriptors
  import opened TxFlow
  import opened TxHardware
  import opened TxRing
  import opened TxBuild
  import opened TxPrepare

  /** What a packet asks for, in terms of the packet that was handed over. */
  function Asked(a: Adapter, p: Packet): Frame
    requires Sendable(a, p)
  {
    var bytes := FrameBytes(p);
    Frame(Wanted(a, p),
          if UsesTso(a, p) then Segmented(p.headers.info, bytes[..p.headers.headerLen], bytes[p.headers.headerLen..])
          else Plain(bytes))
  }

  /** Packets that can all be sent as they ask to be. */
  predicate AllSendable(a: Adapter, ps: seq<Packet>) {
    forall i {:trigger ps[i]} :: 0 <= i < |ps| ==> Sendable(a, ps[i])
  }

  function AllAsked(a: Adapter, ps: seq<Packet>): seq<Frame>
    requires AllSendable(a, ps)
  {
    if ps == [] then [] else AllAsked(a, ps[..|ps| - 1]) + [Asked(a, ps[|ps| - 1])]
  }

  lemma AllAskedOneMore(a: Adapter, ps: seq<Packet>, p: Packet)
    requires AllSendable(a, ps) && Sendable(a, p)
    ensures AllSendable(a, ps + [p]) && AllAsked(a, ps + [p]) == AllAsked(a, ps) + [Asked(a, p)]
  {
    assert (ps + [p])[..|ps + [p]| - 1] == ps;
  }

  /** The prepared packet asks for what the packet handed over asks for. */
  lemma PreparedKeepsMeaning(a: Adapter, p: Packet, x: Xmit)
    requires Sendable(a, p) && ValidAdapter(a) && Prepared(a, p, x) && Ready(a, x)
    ensures Intended(a, x) == Asked(a, p)
  {
  }

  /**
   What the engine makes of the descriptors posted is what the accepted packets
   ask for, as long as none of them was accepted without headers; after such
   a one the engine has refused.
   */
  ghost predicate History(a: Adapter, accepted: seq<Packet>, posted: seq<Desc>, st: Sticky) {
    && (forall i {:trigger accepted[i]} :: 0 <= i < |accepted| ==> Takeable(a, accepted[i]))
    && if AllSendable(a, accepted) then
         Run(RESET, posted, a.descMax) == Engine(st, NoTso, [], AllAsked(a, accepted), true)
       else
         !Run(RESET, posted, a.descMax).ok
  }

  /** The elements of a packet that is not segmented fit one descriptor each. */
  predicate FitsWhole(a: Adapter, x: Xmit) {
    UsesTso(a, x.pkt) || AllFit(a, x)
  }

  /**
   The engine sends what an accepted packet asks for exactly when the packet is
   not to be segmented or its headers were found; otherwise it refuses.
   */
  lemma SentIffHeadersFound(a: Adapter, e: Engine, p: Packet, x: Xmit, ioAddrs: seq<nat>)
    requires BetweenPackets(e) && ValidAdapter(a) && Takeable(a, p) && Prepared(a, p, x)
    requires Mapped(x, ioAddrs) && FitsWhole(a, x)
    ensures var r := Run(e, Descs(PacketCells(a, e.options, x, ioAddrs)), a.descMax);
      && (r.ok <==> !UsesTso(a, p) || p.headers.Tcp?)
      && (r.ok ==> Sendable(a, p) && r == Engine(Wanted(a, p), NoTso, [], e.sent + [Asked(a, p)], true))
  {
    hide Run, PacketCells, Asked, Wanted, Intended;
    UsedIsShort(a, x);
    if UsesTso(a, p) && !p.headers.Tcp? {
      EmptyHeaderIsRefused(a, e, x, ioAddrs);
    } else {
      PreparedIsReady(a, p, x);
      PacketMeaning(a, e, x, ioAddrs);
      PreparedKeepsMeaning(a, p, x);
    }
  }

  lemma SendableIff(a: Adapter, p: Packet)
    requires Takeable(a, p)
    ensures Sendable(a, p) <==> !UsesTso(a, p) || p.headers.Tcp?
  {
  }

  lemma SendableOneMore(a: Adapter, ps: seq<Packet>, p: Packet)
    ensures AllSendable(a, ps + [p]) <==> AllSendable(a, ps) && Sendable(a, p)
  {
    var qs := ps + [p];
    assert qs[|ps|] == p && forall i {:trigger ps[i]} :: 0 <= i < |ps| ==> ps[i] == qs[i];
  }

  /** One packet more, whatever its headers. */
  lemma OneMoreSent(a: Adapter, posted: seq<Desc>, st: Sticky, accepted: seq<Packet>, p: Packet, x: Xmit,
                    ioAddrs: seq<nat>)
    requires ValidAdapter(a) && History(a, accepted, posted, st)
    requires Takeable(a, p) && Prepared(a, p, x) && Mapped(x, ioAddrs) && FitsWhole(a, x)
    ensures History(a, accepted + [p], posted + Descs(PacketCells(a, st, x, ioAddrs)), Wanted(a, p))
  {
    hide Run, PacketCells, Asked, Wanted, Formed, SplitCount, HeadlessCount, SumNeeded, AllAsked, Takeable, Sendable;
    var ds := Descs(PacketCells(a, st, x, ioAddrs));
    RunAppend(RESET, posted, ds, a.descMax);
    SendableOneMore(a, accepted, p);
    if AllSendable(a, accepted) {
      var e := Engine(st, NoTso, [], AllAsked(a, accepted), true);
      SentIffHeadersFound(a, e, p, x, ioAddrs);
      SendableIff(a, p);
      if Sendable(a, p) {
        AllAskedOneMore(a, accepted, p);
      }
    } else {
      RefusedForGood(Run(RESET, posted, a.descMax), ds, a.descMax);
    }
  }

  /** The packet addresses a packet's slots own: the one sent, and the original behind a copy. */
  function Owned(x: Xmit): seq<nat> {
    [x.pkt.handle] + (if x.orig != 0 then [x.orig] else [])
  }

  lemma NothingOwned(o: seq<Cell>)
    requires forall k :: 0 <= k < |o| ==> o[k].slot == EMPTY
    ensures Handles(Slots(o)) == [] && IoAddrs(Slots(o)) == []
  {
    NoHandles(Slots(o));
    RecordedNone(o);
    RecordedIsIoAddrs(o);
  }

  lemma DmaOwned(a: Adapter, x: Xmit, ioAddrs: seq<nat>)
    requires Formed(a, x) && Mapped(x, ioAddrs)
    ensures Handles(Slots(DmaCells(a, x, ioAddrs))) == Owned(x)
    ensures IoAddrs(Slots(DmaCells(a, x, ioAddrs))) == ioAddrs[..|Used(x)|]
  {
    hide BodyCells, UsedElems, Flatten, Handles, IoAddrs, Recorded, Slots;
    UsedIsShort(a, x);
    var body := BodyCells(Used(x), ioAddrs, SplitOf(a, x), a.descMax);
    BodyIsBody(Used(x), ioAddrs, SplitOf(a, x), a.descMax);
    BodyIsTiled(Used(x), ioAddrs, SplitOf(a, x), a.descMax);
    BodyRecorded(Used(x), ioAddrs, SplitOf(a, x), a.descMax);
    CloseKeeps(body, x.pkt.handle, x.orig, a.descMax);
    RecordedIsIoAddrs(DmaCells(a, x, ioAddrs));
    HandlesOfClosed(body, x.pkt.handle, x.orig, a.descMax);
  }

  lemma SlotsOfTwo(a: seq<Cell>, b: seq<Cell>)
    ensures Slots(a + b) == Slots(a) + Slots(b)
  {
  }

  /** What the slots of a packet own: the packet once, and each mapping once. */
  lemma PacketOwned(a: Adapter, st: Sticky, x: Xmit, ioAddrs: seq<nat>)
    requires Formed(a, x) && Mapped(x, ioAddrs)
    ensures Handles(Slots(PacketCells(a, st, x, ioAddrs))) == Owned(x)
    ensures IoAddrs(Slots(PacketCells(a, st, x, ioAddrs))) == ioAddrs[..|Used(x)|]
  {
    hide DmaCells, Handles, IoAddrs, Slots, Owned, UsedElems;
    var o := OptionCells(st, Wanted(a, x.pkt)) + TsoPrefix(a, x);
    var d := DmaCells(a, x, ioAddrs);
    NothingOwned(o);
    DmaOwned(a, x, ioAddrs);
    SlotsOfTwo(o, d);
    SlotsAppend(Slots(o), Slots(d));
    AppendNothing(Owned(x));
    AppendNothing(ioAddrs[..|Used(x)|]);
  }

  /** Everything that posting a prepared and mapped packet means. */
  lemma PacketAccepted(a: Adapter, accepted: seq<Packet>, posted: seq<Desc>, st: Sticky, p: Packet, x: Xmit,
                       ioAddrs: seq<nat>)
    requires ValidAdapter(a) && History(a, accepted, posted, st) && Takeable(a, p) && Prepared(a, p, x)
    requires Mapped(x, ioAddrs) && FitsWhole(a, x)
    ensures var cells := OptionCells(st, Wanted(a, x.pkt)) + TsoPrefix(a, x) + DmaCells(a, x, ioAddrs);
      && Handles(Slots(cells)) == Owned(x) && IoAddrs(Slots(cells)) == ioAddrs[..|Used(x)|]
      && History(a, accepted + [p], posted + Descs(cells), Wanted(a, p))
  {
    hide History, Handles, IoAddrs, Slots, DmaCells, OptionCells, UsedElems;
    OneMoreSent(a, posted, st, accepted, p, x, ioAddrs);
    PacketOwned(a, st, x, ioAddrs);
  }

  /** The room reserved is enough to build a prepared packet. */
  lemma ReservationSuffices(ring: DescRing, limit: nat, a: Adapter, p: Packet, st: Sticky, x: Xmit, ioAddrs: seq<nat>)
    requires ValidAdapter(a) && Takeable(a, p) && Prepared(a, p, x) && |x.pkt.elems| == |ioAddrs|
    requires |ring.window| + DescEstimate(a, p) <= limit <= ring.n
    ensures Wanted(a, x.pkt) == Wanted(a, p) && UsesTso(a, x.pkt) == UsesTso(a, p) && |Used(x)| <= |x.pkt.elems|
    ensures Buildable(ring, a, x, ioAddrs, OptionCells(st, Wanted(a, x.pkt)) + TsoPrefix(a, x))
    ensures !UsesTso(a, x.pkt) ==> x.head == 0 && x.orig == 0
    ensures |OptionCells(st, Wanted(a, x.pkt)) + TsoPrefix(a, x) + DmaCells(a, x, ioAddrs)| <= DescEstimate(a, p)
  {
    hide BodyCells, UsedElems, OptionCells, DescEstimate, HeadlessCount, SplitCount, Flatten;
    UsedIsShort(a, x);
    FitsEstimate(a, p, st, x, ioAddrs);
    BodyIsBody(Used(x), ioAddrs, SplitOf(a, x), a.descMax);
    BodyIsTiled(Used(x), ioAddrs, SplitOf(a, x), a.descMax);
  }

  predicate Ends(d: Desc) {
    d.Dma? && d.eop
  }

  /** Only the last descriptor of a packet ends it, and its slot owns the packet. */
  lemma OnlyLastEnds(a: Adapter, st: Sticky, x: Xmit, ioAddrs: seq<nat>)
    requires Formed(a, x) && Mapped(x, ioAddrs)
    ensures var c := PacketCells(a, st, x, ioAddrs);
      && c != [] && c[|c| - 1].slot.xmit == x.pkt.handle
      && forall i :: 0 <= i < |c| ==> (Ends(c[i].desc) <==> i == |c| - 1)
  {
    hide BodyCells, UsedElems, Flatten, Recorded, Pieces;
    UsedIsShort(a, x);
    var body := BodyCells(Used(x), ioAddrs, SplitOf(a, x), a.descMax);
    BodyIsBody(Used(x), ioAddrs, SplitOf(a, x), a.descMax);
    BodyIsTiled(Used(x), ioAddrs, SplitOf(a, x), a.descMax);
    CloseKeeps(body, x.pkt.handle, x.orig, a.descMax);
  }

  lemma OptionsDoNotEnd(st: Sticky, w: Sticky)
    ensures forall i :: 0 <= i < |OptionCells(st, w)| ==> !Ends(OptionCells(st, w)[i].desc)
  {
  }

  /** Options by themselves only bring the hardware into the state they say. */
  lemma OptionsLeft(a: Adapter, accepted: seq<Packet>, posted: seq<Desc>, st: Sticky, w: Sticky)
    requires History(a, accepted, posted, st)
    ensures History(a, accepted, posted + Descs(OptionCells(st, w)), w)
  {
    hide Run, OptionCells, AllAsked, Takeable, Sendable;
    var ds := Descs(OptionCells(st, w));
    RunAppend(RESET, posted, ds, a.descMax);
    if AllSendable(a, accepted) {
      OptionsTakeEffect(Run(RESET, posted, a.descMax), w, a.descMax);
    } else {
      RefusedForGood(Run(RESET, posted, a.descMax), ds, a.descMax);
    }
  }

  /**
   A send after one whose mapping failed, for packet `p`: the options left
   queued go out before the packet, and the hardware still sends what is
   asked for. But slots are filled from the first one posted, as if
   nothing had been left: the slot that owns the packet is that of the
   descriptor that ends it exactly when no option was left.
   */
  lemma SendAfterFailure(a: Adapter, accepted: seq<Packet>, posted: seq<Desc>, st: Sticky, p: Packet, q: Packet,
                         x: Xmit, ioAddrs: seq<nat>)
    requires ValidAdapter(a) && History(a, accepted, posted, st) && Takeable(a, q) && Prepared(a, q, x)
    requires Mapped(x, ioAddrs) && FitsWhole(a, x)
    ensures var left, cells := OptionCells(st, Wanted(a, p)), PacketCells(a, Wanted(a, p), x, ioAddrs);
      var batch, n := Descs(left) + Descs(cells), |cells| - 1;
      && History(a, accepted + [q], posted + batch, Wanted(a, q))
      && n >= 0 && Slots(cells)[n].xmit == x.pkt.handle
      && (Ends(batch[n]) <==> left == [])
  {
    hide History, PacketCells, Wanted, Formed, SplitCount, HeadlessCount, SumNeeded, Takeable, OptionCells, UsedElems;
    var left, cells := OptionCells(st, Wanted(a, p)), PacketCells(a, Wanted(a, p), x, ioAddrs);
    OptionsLeft(a, accepted, posted, st, Wanted(a, p));
    OneMoreSent(a, posted + Descs(left), Wanted(a, p), accepted, q, x, ioAddrs);
    Regroup(posted, Descs(left), Descs(cells));
    OnlyLastEnds(a, Wanted(a, p), x, ioAddrs);
    OptionsDoNotEnd(st, Wanted(a, p));
    var n := |cells| - 1;
    if left != [] && n >= |left| {
      assert (Descs(left) + Descs(cells))[n] == cells[n - |left|].desc;
    }
  }

  /** The packet built for `p` can be mapped, and its elements fit the descriptors they are given. */
  predicate Mappable(a: Adapter, p: Packet, copyHandle: nat, ioAddrs: seq<nat>)
    requires ValidAdapter(a) && ValidPacket(p)
  {
    var x := Transmitted(a, p, copyHandle);
    Mapped(x, ioAddrs) && FitsWhole(a, x)
  }

  /** A packet is built from a copy exactly when it needs one; then the copy has the address given for it. */
  lemma CopyIffNeeded(a: Adapter, p: Packet, copyHandle: nat)
    requires ValidAdapter(a) && ValidPacket(p) && Verdict(a, p, copyHandle) == Ok
    ensures var x := Transmitted(a, p, copyHandle);
      && (x.orig != 0 <==> NeedsCopy(a, p)) && (NeedsCopy(a, p) ==> x.pkt.handle == copyHandle)
  {
    hide RepairLen;
  }

  lemma PreparedIsUsed(a: Adapter, p: Packet, x: Xmit)
    requires ValidAdapter(a) && ValidPacket(p) && Prepared(a, p, x)
    ensures |Used(x)| <= |x.pkt.elems| && UsesTso(a, x.pkt) == UsesTso(a, p)
  {
    UsedIsShort(a, x);
  }

  lemma MappedSlice(x: Xmit, ioAddrs: seq<nat>, n: nat)
    requires |Used(x)| <= n <= |ioAddrs|
    ensures Mapped(x, ioAddrs[..n]) <==> Mapped(x, ioAddrs)
  {
    hide Used;
    var io := ioAddrs[..n];
    assert forall k :: 0 <= k < n ==> io[k] == ioAddrs[k];
  }

  /** What a window owns, its oldest slot first. */
  lemma OldestFirst(w: seq<TxMapping>)
    requires w != []
    ensures Handles(w) == HandlesOf(w[0]) + Handles(w[1..])
    ensures IoAddrs(w) == IoAddrsOf(w[0]) + IoAddrs(w[1..])
  {
    CutFirst(w);
    SlotsAppend([w[0]], w[1..]);
    SlotsOne(w[0]);
  }

  lemma NothingInFlight(w: seq<TxMapping>)
    ensures w == [] ==> Handles(w) == [] && IoAddrs(w) == []
  {
  }

  lemma HandlesNone(w: seq<TxMapping>)
    ensures Handles(w[..0]) == [] && w[0..] == w
  {
  }

  lemma HandlesOneMore(w: seq<TxMapping>, j: nat, k: nat)
    requires j <= k < |w|
    ensures Handles(w[j..k + 1]) == Handles(w[j..k]) + HandlesOf(w[k])
  {
    assert w[j..k + 1][..k - j] == w[j..k] && w[j..k + 1][k - j] == w[k];
  }

  /** Completions gathered before they are processed (SFVMK_TX_BATCH). */
  const TX_BATCH: nat := 64

  datatype QueueState = Initialized | Started | Stopping

  class Txq {
    const adapter: Adapter
    const numDesc: nat
    const limit: nat
    const ring: DescRing
    var state: QueueState
    var stopped: bool
    var added: u32
    var pending: u32
    var completed: u32
    var reaped: u32
    var hwVlanTci: bv16
    var isCso: bool
    var isEncapCso: bool

    // Counters as if they never wrapped; the others are `ring.base` and `Added()`.
    ghost var gPending: nat
    ghost var gReaped: nat
    // The life of the queue: packets accepted, descriptors posted, packet
    // addresses taken over and given back, copies made and then forgotten.
    ghost var accepted: seq<Packet>
    ghost var posted: seq<Desc>
    ghost var owned: seq<nat>
    ghost var released: seq<nat>
    ghost var leaked: seq<nat>

    ghost function Sticky(): Sticky
      reads this`hwVlanTci, this`isCso, this`isEncapCso
    {
      TxDescriptors.Sticky.Sticky(hwVlanTci, isCso, isEncapCso)
    }

    ghost function Added(): nat
      reads ring`base, ring`window
    {
      ring.base + |ring.window|
    }

    /** Where the queue is between stopping and restarting. */
    ghost function Flow(): Flow
      reads this`stopped, this`gPending, ring`base, ring`window
      requires ring.base <= gPending
    {
      TxFlow.Flow.Flow(|ring.window|, gPending - ring.base, stopped)
    }

    ghost predicate Sized() {
      && ValidAdapter(adapter)
      && ring.n == numDesc && IsPow2(numDesc) && numDesc <= TWO32 && 0 < limit < numDesc
    }

    ghost predicate Counters()
      reads this`added, this`pending, this`completed, this`reaped, this`gPending, this`gReaped
      reads ring`base, ring`window
    {
      && gReaped <= ring.base <= gPending <= Added() <= gReaped + limit
      && added == Wrap(Added()) && pending == Wrap(gPending)
      && completed == Wrap(ring.base) && reaped == Wrap(gReaped)
    }

    /**
     Every packet taken over is in flight or was given back, in the order in
     which it was taken over, and the live mappings are those of the window.
     */
    ghost predicate Owns()
      reads this`owned, this`released, ring`window, ring`live
    {
      && owned == released + Handles(ring.window)
      && ring.live == IoAddrs(ring.window)
    }

    ghost predicate Faithful()
      reads this`accepted, this`posted, this`hwVlanTci, this`isCso, this`isEncapCso
    {
      History(adapter, accepted, posted, Sticky())
    }

    /** What completions rely on and keep. */
    ghost predicate Live()
      reads this, ring, ring.txMap, ring.pendDesc
    {
      Sized() && ring.Valid() && Counters() && Owns()
    }

    /** Between calls: nothing is left half built, and the hardware does what was asked for. */
    ghost predicate Valid()
      reads this, ring, ring.txMap, ring.pendDesc
    {
      Live() && ring.cells == [] && Faithful()
    }

    /** A queue as it is after a start: the hardware begins at slot `descIndex`. */
    constructor (a: Adapter, numDesc: nat, limit: nat, descIndex: nat)
      requires ValidAdapter(a) && IsPow2(numDesc) && numDesc <= TWO32
      requires 0 < limit < numDesc && descIndex < numDesc
      ensures Valid() && state == Started && !stopped
      ensures adapter == a && this.numDesc == numDesc && this.limit == limit
      ensures accepted == [] && owned == [] && released == [] && leaked == []
      ensures ring.base == descIndex && ring.window == []
      ensures fresh(ring) && fresh(ring.txMap) && fresh(ring.pendDesc)
    {
      adapter, this.numDesc, this.limit := a, numDesc, limit;
      ring := new DescRing(numDesc, descIndex);
      state, stopped := Started, false;
      added, pending, completed, reaped := descIndex, descIndex, descIndex, descIndex;
      hwVlanTci, isCso, isEncapCso := 0, true, false;
      gPending, gReaped := descIndex, descIndex;
      accepted, posted, owned, released, leaked := [], [], [], [], [];
      new;
      RunNone(RESET, adapter.descMax);
    }

    /** VLAN handling: an option descriptor only when the tag differs from the one in force. */
    method MaybeInsertTag(p: Packet, id: nat) returns (next: nat)
      requires ring.Valid() && ring.IsNext(id)
      requires ring.Used() + |VlanCells(Sticky(), Tci(p))| <= ring.n
      modifies this`hwVlanTci, ring`nPendDesc, ring`view, ring`cells, ring.txMap, ring.pendDesc
      ensures ring.Valid() && ring.IsNext(next)
      ensures ring.cells == old(ring.cells) + VlanCells(old(Sticky()), Tci(p))
      ensures hwVlanTci == Tci(p)
    {
      next := id;
      if p.mustVlanTag {
        var thisTag := Tci(p);
        if thisTag != hwVlanTci {
          next := ring.Append(id, VlanOpt(thisTag), EMPTY);
          hwVlanTci := thisTag;
        }
      } else if hwVlanTci != 0 {
        next := ring.Append(id, VlanOpt(0), EMPTY);
        hwVlanTci := 0;
      }
    }

    /** Checksum handling: an option descriptor only when either flag changes. */
    method MaybeSetCsum(p: Packet, id: nat) returns (next: nat)
      requires ring.Valid() && ring.IsNext(id)
      requires ring.Used() + |CsumCells(Sticky(), WantsOuterCsum(adapter, p), WantsInnerCsum(adapter, p))| <= ring.n
      modifies this`isCso, this`isEncapCso, ring`nPendDesc, ring`view, ring`cells, ring.txMap, ring.pendDesc
      ensures ring.Valid() && ring.IsNext(next)
      ensures ring.cells
           == old(ring.cells) + CsumCells(old(Sticky()), WantsOuterCsum(adapter, p), WantsInnerCsum(adapter, p))
      ensures isCso == WantsOuterCsum(adapter, p) && isEncapCso == WantsInnerCsum(adapter, p)
    {
      next := id;
      var cso, encap := WantsOuterCsum(adapter, p), WantsInnerCsum(adapter, p);
      if isCso != cso || isEncapCso != encap {
        next := ring.Append(id, CsumOpt(cso, encap), EMPTY);
        isCso, isEncapCso := cso, encap;
      }
    }

    /** Both kinds of option descriptors. */
    method SetOptions(p: Packet, id: nat) returns (next: nat)
      requires ring.Valid() && ring.IsNext(id)
      requires ring.Used() + |OptionCells(Sticky(), Wanted(adapter, p))| <= ring.n
      modifies this`hwVlanTci, this`isCso, this`isEncapCso
      modifies ring`nPendDesc, ring`view, ring`cells, ring.txMap, ring.pendDesc
      ensures ring.Valid() && ring.IsNext(next)
      ensures ring.cells == old(ring.cells) + OptionCells(old(Sticky()), Wanted(adapter, p))
      ensures Sticky() == Wanted(adapter, p)
    {
      ghost var w := Wanted(adapter, p);
      Regroup(ring.cells, VlanCells(Sticky(), w.tci), CsumCells(Sticky(), w.outer, w.inner));
      next := MaybeInsertTag(p, id);
      next := MaybeSetCsum(p, next);
    }

    /** Builds everything for one packet, starting at the slot of `added`. */
    method Build(x: Xmit, ioAddrs: seq<nat>) returns (ok: bool)
      requires Sized() && ring.Valid() && ring.cells == [] && added == Wrap(Added())
      requires Buildable(ring, adapter, x, ioAddrs,
                         OptionCells(Sticky(), Wanted(adapter, x.pkt)) + TsoPrefix(adapter, x))
      requires !UsesTso(adapter, x.pkt) ==> x.head == 0 && x.orig == 0
      modifies this`hwVlanTci, this`isCso, this`isEncapCso
      modifies ring`nPendDesc, ring`view, ring`cells, ring`live, ring.txMap, ring.pendDesc
      ensures ring.Valid() && Sticky() == Wanted(adapter, x.pkt)
      ensures ok <==> Mapped(x, ioAddrs) && (UsesTso(adapter, x.pkt) || AllFit(adapter, x))
      ensures ok ==>
                && ring.cells == OptionCells(old(Sticky()), Wanted(adapter, x.pkt)) + TsoPrefix(adapter, x)
                                 + DmaCells(adapter, x, ioAddrs)
                && ring.live == old(ring.live) + ioAddrs[..|Used(x)|]
      ensures !ok ==>
                && ring.cells == OptionCells(old(Sticky()), Wanted(adapter, x.pkt))
                && ring.live == old(ring.live)
    {
      hide DescRing.Valid;
      AppendNothing(OptionCells(Sticky(), Wanted(adapter, x.pkt)));
      var id := SlotOf(added, numDesc, Added());
      id := SetOptions(x.pkt, id);
      if UsesTso(adapter, x.pkt) {
        ok := HwTso(ring, adapter, x, ioAddrs, id);
      } else {
        ok := NonTso(ring, adapter, x, ioAddrs, id);
      }
    }

    /** Hands what was built to the firmware. */
    method ListPost()
      requires ring.Valid() && added == Wrap(Added())
      modifies this`added, this`posted, ring`nPendDesc, ring`window, ring`cells
      ensures ring.Valid() && ring.cells == [] && added == Wrap(Added())
      ensures ring.window == old(ring.window) + Slots(old(ring.cells))
      ensures posted == old(posted) + Descs(old(ring.cells))
    {
      WrapOfSum(Added(), |ring.cells|);
      var ds := ring.Post();
      added := Add32(added, |ds|);
      posted := posted + ds;
    }

    /**
     After a mapping failed: everything is as between calls, but for the
     options: the hardware still has `st`, and what is queued to change that
     has not been posted.
     */
    ghost predicate Recoverable(st: Sticky)
      reads this, ring, ring.txMap, ring.pendDesc
    {
      Live() && History(adapter, accepted, posted, st)
    }

    /**
     The state after a failed mapping is as any state between calls exactly
     when no option had to be changed for the packet.
     */
    lemma UsableAfterFailure(p: Packet, st: Sticky)
      requires Recoverable(st) && Sticky() == Wanted(adapter, p)
      requires ring.cells == OptionCells(st, Wanted(adapter, p))
      ensures Valid() <==> st == Wanted(adapter, p)
    {
    }

    /** Posts what was built for a packet, which then is accepted; its slots own `own`. */
    method Commit(p: Packet, ghost own: seq<nat>)
      requires Sized() && ring.Valid() && Counters() && Added() + |ring.cells| <= gReaped + limit
      requires owned == released + Handles(ring.window) && Handles(Slots(ring.cells)) == own
      requires ring.live == IoAddrs(ring.window) + IoAddrs(Slots(ring.cells))
      requires History(adapter, accepted + [p], posted + Descs(ring.cells), Sticky())
      modifies this`added, this`posted, this`accepted, this`owned, ring`nPendDesc, ring`window, ring`cells
      ensures Valid() && accepted == old(accepted) + [p] && owned == old(owned) + own
      ensures |ring.window| == |old(ring.window)| + |old(ring.cells)|
    {
      hide DescRing.Valid, Handles, IoAddrs, AllAsked;
      SlotsAppend(ring.window, Slots(ring.cells));
      Regroup(released, Handles(ring.window), own);
      ListPost();
      accepted, owned := accepted + [p], owned + own;
    }

    /** Fills descriptors and slots for a prepared packet and posts them. */
    method Populate(p: Packet, x: Xmit, ioAddrs: seq<nat>) returns (ok: bool)
      requires Valid() && Takeable(adapter, p) && Prepared(adapter, p, x) && |x.pkt.elems| == |ioAddrs|
      requires gReaped == ring.base && |ring.window| + DescEstimate(adapter, p) <= limit
      modifies this`added, this`hwVlanTci, this`isCso, this`isEncapCso, this`posted, this`accepted, this`owned
      modifies ring`nPendDesc, ring`view, ring`cells, ring`live, ring`window, ring.txMap, ring.pendDesc
      ensures ok <==> Mapped(x, ioAddrs) && FitsWhole(adapter, x)
      ensures ok ==> Valid() && accepted == old(accepted) + [p] && owned == old(owned) + Owned(x)
      ensures |old(ring.window)| <= |ring.window| <= |old(ring.window)| + DescEstimate(adapter, p)
      ensures !ok ==> ring.cells == OptionCells(old(Sticky()), Wanted(adapter, p)) && Sticky() == Wanted(adapter, p)
      ensures !ok ==> Recoverable(old(Sticky()))
      ensures !ok ==> accepted == old(accepted) && owned == old(owned) && posted == old(posted)
    {
      hide DescRing.Valid, History, Prepared, Takeable, Handles, IoAddrs, DescEstimate, DmaCells, Used, OptionCells;
      ghost var st := Sticky();
      ReservationSuffices(ring, limit, adapter, p, st, x, ioAddrs);
      ok := Build(x, ioAddrs);
      if ok {
        PacketAccepted(adapter, accepted, posted, st, p, x, ioAddrs);
        Commit(p, Owned(x));
      }
    }

    /** The queue has no room for what a packet may need. */
    ghost predicate Full(p: Packet)
      reads ring`window
      requires ValidAdapter(adapter)
    {
      |ring.window| + DescEstimate(adapter, p) > limit
    }

    /** Checks that there is room for a packet, and stops the queue if there is not. */
    method Reserve(p: Packet) returns (room: bool)
      requires Valid() && ValidPacket(p)
      modifies this`stopped, this`reaped, this`gReaped
      ensures Valid() && gReaped == ring.base
      ensures room <==> !Full(p)
      ensures forall ioAddrs: seq<nat> :: |ioAddrs| >= |p.elems| ==>
                (room <==> |ring.window| + Room(adapter, p, ioAddrs) <= limit)
      ensures stopped == (old(stopped) || !room)
    {
      hide DescRing.Valid, History, Owns, DescEstimate, Room;
      DistanceOfWrapped(ring.base, Added());
      forall ioAddrs: seq<nat> | |ioAddrs| >= |p.elems|
        ensures Room(adapter, p, ioAddrs) == DescEstimate(adapter, p)
      {
        ReservationIsTight(adapter, p, ioAddrs);
      }
      reaped, gReaped := completed, ring.base;
      room := Sub32(added, reaped) + DescEstimate(adapter, p) <= limit;
      if !room {
        stopped := true;
      }
    }

    /** Prepares and builds a packet for which there is room. */
    method Dispatch(p: Packet, copyHandle: nat, ioAddrs: seq<nat>) returns (status: Status)
      requires Valid() && ValidPacket(p) && |ioAddrs| >= |p.elems|
      requires Verdict(adapter, p, copyHandle) == Ok ==> Acceptable(adapter, p)
      requires gReaped == ring.base && |ring.window| + DescEstimate(adapter, p) <= limit
      modifies this`added, this`hwVlanTci, this`isCso, this`isEncapCso
      modifies this`posted, this`accepted, this`owned, this`leaked
      modifies ring`nPendDesc, ring`view, ring`cells, ring`live, ring`window, ring.txMap, ring.pendDesc
      ensures status == if Verdict(adapter, p, copyHandle) != Ok then Verdict(adapter, p, copyHandle)
                        else if Mappable(adapter, p, copyHandle, ioAddrs) then Ok else MapFailed
      ensures accepted == old(accepted) + if status == Ok then [p] else []
      ensures owned == old(owned) + if status == Ok then Owned(Transmitted(adapter, p, copyHandle)) else []
      ensures leaked == old(leaked) + if status == MapFailed && NeedsCopy(adapter, p) then [copyHandle] else []
      ensures status != Ok ==> posted == old(posted)
      ensures status != MapFailed ==> Valid()
      ensures status in {ParseFailed, CopyFailed} ==> Sticky() == old(Sticky())
      ensures status == MapFailed ==>
                && Recoverable(old(Sticky()))
                && ring.cells == OptionCells(old(Sticky()), Wanted(adapter, p)) && Sticky() == Wanted(adapter, p)
      ensures |old(ring.window)| <= |ring.window| <= |old(ring.window)| + DescEstimate(adapter, p)
    {
      hide DescRing.Valid, History, Owns, Verdict, Prepared, Takeable, DescEstimate, OptionCells, Transmitted,
           Mapped, FitsWhole, Counters, Wanted, NeedsCopy, Used, Acceptable, Owned;
      AppendNothing(accepted);
      AppendNothing(owned);
      AppendNothing(leaked);
      var x, est;
      status, x, est := Prepare(adapter, p, copyHandle);
      if status == Ok {
        CopyIffNeeded(adapter, p, copyHandle);
        PreparedIsUsed(adapter, p, x);
        MappedSlice(x, ioAddrs, |x.pkt.elems|);
        var ok := Populate(p, x, ioAddrs[..|x.pkt.elems|]);
        if !ok {
          status := MapFailed;
          if x.orig != 0 {
            leaked := leaked + [x.pkt.handle];
          }
        }
      }
    }

    /**
     Sends one packet. `copyHandle` is the address of the copy made if the
     packet needs repair, zero if it cannot be made; `ioAddrs` are the
     addresses the elements are mapped to, zero where mapping fails.
     */
    method TransmitPkt(p: Packet, copyHandle: nat, ioAddrs: seq<nat>) returns (status: Status)
      requires Valid() && ValidPacket(p) && |ioAddrs| >= |p.elems|
      requires !Full(p) && Verdict(adapter, p, copyHandle) == Ok ==> Acceptable(adapter, p)
      modifies this`stopped, this`reaped, this`gReaped
      modifies this`added, this`hwVlanTci, this`isCso, this`isEncapCso
      modifies this`posted, this`accepted, this`owned, this`leaked
      modifies ring`nPendDesc, ring`view, ring`cells, ring`live, ring`window, ring.txMap, ring.pendDesc
      ensures status == if old(Full(p)) then Busy
                        else if Verdict(adapter, p, copyHandle) != Ok then Verdict(adapter, p, copyHandle)
                        else if Mappable(adapter, p, copyHandle, ioAddrs) then Ok else MapFailed
      ensures status == Busy <==> |old(ring.window)| + Room(adapter, p, ioAddrs) > limit
      ensures stopped == (old(stopped) || status == Busy)
      ensures accepted == old(accepted) + if status == Ok then [p] else []
      ensures owned == old(owned) + if status == Ok then Owned(Transmitted(adapter, p, copyHandle)) else []
      ensures leaked == old(leaked) + if status == MapFailed && NeedsCopy(adapter, p) then [copyHandle] else []
      ensures status != Ok ==> posted == old(posted)
      ensures status != MapFailed ==> Valid()
      ensures status in {Busy, ParseFailed, CopyFailed} ==> Sticky() == old(Sticky())
      ensures status == MapFailed ==>
                && Recoverable(old(Sticky()))
                && ring.cells == OptionCells(old(Sticky()), Wanted(adapter, p)) && Sticky() == Wanted(adapter, p)
      ensures !old(stopped) ==> Sent(limit, DescEstimate(adapter, p), old(Flow()), Flow())
    {
      hide DescRing.Valid, History, Owns, Verdict, DescEstimate, OptionCells, Transmitted, Mappable, Acceptable, Room,
           Counters, Wanted, NeedsCopy, Owned;
      AppendNothing(accepted);
      AppendNothing(owned);
      AppendNothing(leaked);
      var room := Reserve(p);
      status := Busy;
      if room {
        status := Dispatch(p, copyHandle, ioAddrs);
      }
    }

    /** The loop of the completion: the oldest slots are still to be processed. */
    ghost predicate Completing(c: u32)
      reads this`owned, this`released, this`gPending
      reads ring, ring.txMap, ring.pendDesc
    {
      && Sized() && ring.Valid() && Owns()
      && c == Wrap(ring.base) && ring.base <= gPending <= Added()
    }

    /** Gives back the packets a slot owns. */
    method Release(m: TxMapping)
      modifies this`released
      ensures released == old(released) + HandlesOf(m)
    {
      if m.xmit != 0 {
        released := released + [m.xmit];
      }
      if m.orig != 0 {
        released := released + [m.orig];
      }
    }

    /** Processes the oldest slot: its mapping is undone, its packets are given back. */
    method CompleteOne(c: u32) returns (next: u32)
      requires Completing(c) && ring.base < gPending
      modifies this`released, ring`base, ring`view, ring`window, ring`live, ring.txMap
      ensures Completing(next) && ring.base == old(ring.base) + 1
      ensures ring.window == old(ring.window)[1..]
      ensures released == old(released) + HandlesOf(old(ring.window)[0])
    {
      hide DescRing.Valid;
      OldestFirst(ring.window);
      WrapOfSum(ring.base, 1);
      var id := SlotOf(c, numDesc, ring.base);
      var m := ring.Retire(id);
      ghost var before := released;
      Halves(IoAddrsOf(m), IoAddrs(ring.window));
      AppendNothing(IoAddrs(ring.window));
      if m.ioAddr != 0 {
        ring.live := ring.live[1..];
      }
      assert ring.live == IoAddrs(ring.window);
      Release(m);
      Regroup(before, HandlesOf(m), Handles(ring.window));
      next := Add32(c, 1);
    }

    /** Processes every slot up to `pending`. Each is visited once, although the counters wrap. */
    method CompleteSlots() returns (c: u32)
      requires Live()
      modifies this`released, ring`base, ring`view, ring`window, ring`live, ring.txMap
      ensures Completing(c) && ring.base == gPending && c == pending
      ensures var k := gPending - old(ring.base);
        && k <= |old(ring.window)|
        && ring.window == old(ring.window)[k..]
        && released == old(released) + Handles(old(ring.window)[..k])
    {
      hide DescRing.Valid, History;
      ghost var base0, w0, r0 := ring.base, ring.window, released;
      ghost var k := 0;
      c := completed;
      AppendNothing(r0);
      while c != pending
        invariant Completing(c) && ring.base == base0 + k && k <= |w0|
        invariant ring.window == w0[k..] && released == r0 + Handles(w0[..k])
        decreases gPending - ring.base
      {
        CutAt(w0, k);
        Regroup(r0, Handles(w0[..k]), HandlesOf(w0[k]));
        DistanceOfWrapped(ring.base, gPending);
        c := CompleteOne(c);
        k := k + 1;
      }
      DistanceOfWrapped(ring.base, gPending);
    }

    /** Lets the VMkernel send again, if the queue is started. */
    method Unblock()
      requires Live()
      modifies this`reaped, this`gReaped, this`stopped
      ensures Live() && stopped == (old(stopped) && state != Started)
      ensures state == Started ==> reaped == completed && gReaped == ring.base
    {
      hide DescRing.Valid, History;
      if state == Started {
        reaped, gReaped := completed, ring.base;
        stopped := false;
      }
    }

    /** The queue restarts when no more than a quarter of the limit is in flight. */
    const unblockLevel: nat := limit / 4

    /**
     Completes everything reported: the slots leave the window oldest first,
     their packets are given back, and a stopped queue may restart.
     */
    method Complete()
      requires Live()
      modifies this`completed, this`reaped, this`gReaped, this`stopped, this`released
      modifies ring`base, ring`view, ring`window, ring`live, ring.txMap
      ensures Live() && (old(Valid()) ==> Valid()) && ring.base == gPending
      ensures var k := gPending - old(ring.base);
        && k <= |old(ring.window)|
        && ring.window == old(ring.window)[k..]
        && released == old(released) + Handles(old(ring.window)[..k])
      ensures stopped == (old(stopped) && !(state == Started && 4 * |ring.window| <= limit))
      ensures state == Started ==> Completed(limit, old(Flow()), Flow())
    {
      hide DescRing.Valid, History, Handles, IoAddrs;
      var c := CompleteSlots();
      completed := c;
      DistanceOfWrapped(ring.base, Added());
      if state == Started && stopped {
        var level := Sub32(added, completed);
        if level <= unblockLevel {
          Unblock();
        }
      }
    }

    /** Moves `pending` over one slot, counting the packets the slot owns. */
    method CountOne(ghost j: nat) returns (k: nat)
      requires Sized() && Counters() && ring.Valid() && j == gPending - ring.base < |ring.window|
      modifies this`pending, this`gPending
      ensures Counters() && gPending == old(gPending) + 1
      ensures k == |HandlesOf(ring.window[j])|
    {
      hide DescRing.Valid;
      var slot := SlotOf(pending, numDesc, gPending);
      k := ring.CountPackets(slot, j);
      WrapOfSum(gPending, 1);
      pending, gPending := Add32(pending, 1), gPending + 1;
    }

    /**
     A completion event. It carries the slot `id` of the last descriptor done;
     `g` is that descriptor's counter, and the event is in order when it names
     a descriptor posted and not reported before, or repeats the last report.
     */
    method Report(id: nat, ghost g: nat) returns (txDone: nat)
      requires Live() && id == RingSlot(g, numDesc) && gPending - 1 <= g < Added()
      modifies this`pending, this`gPending
      ensures Live() && gPending == g + 1 && Reported(old(Flow()), Flow())
      ensures var j := old(gPending) - ring.base;
        txDone == |Handles(ring.window[j..g + 1 - ring.base])|
    {
      hide DescRing.Valid, History, Owns, IoAddrs, IsPow2, Handles, HandlesOf;
      DeltaCountsCompletions(gPending, g, numDesc);
      var delta := Delta(pending, id, numDesc);
      txDone := 0;
      ghost var j0, j := gPending - ring.base, gPending - ring.base;
      assert ring.window[j0..j] == ring.window[..0];
      HandlesNone(ring.window);
      while delta > 0
        invariant 0 <= delta == g + 1 - gPending && j == gPending - ring.base
        invariant Sized() && Counters()
        invariant j0 <= j <= |ring.window| && txDone == |Handles(ring.window[j0..j])|
      {
        var k := CountOne(j);
        HandlesOneMore(ring.window, j0, j);
        txDone := txDone + k;
        delta, j := delta - 1, j + 1;
      }
    }

    /**
     A completion event: it counts the packets done, and when a batch has
     gathered everything reported is completed. A queue that is not started
     ignores it.
     */
    method EvTx(id: nat, ghost g: nat) returns (txDone: nat)
      requires Live() && id == RingSlot(g, numDesc) && gPending - 1 <= g < Added()
      modifies this`pending, this`gPending
      modifies this`completed, this`reaped, this`gReaped, this`stopped, this`released
      modifies ring`base, ring`view, ring`window, ring`live, ring.txMap
      ensures Live() && (old(Valid()) ==> Valid())
      ensures gPending == if state == Started then g + 1 else old(gPending)
      ensures ring.base == if state == Started && g + 1 - old(ring.base) >= TX_BATCH then g + 1 else old(ring.base)
      ensures var k := ring.base - old(ring.base);
        && 0 <= k <= |old(ring.window)| && ring.window == old(ring.window)[k..]
        && released == old(released) + Handles(old(ring.window)[..k])
      ensures txDone == if state == Started
                        then |Handles(old(ring.window)[old(gPending) - old(ring.base)..g + 1 - old(ring.base)])| else 0
    {
      hide DescRing.Valid, History, Owns, Handles, IoAddrs;
      txDone := 0;
      AppendNothing(released);
      HandlesNone(ring.window);
      if state == Started {
        txDone := Report(id, g);
        DistanceOfWrapped(ring.base, gPending);
        if Sub32(pending, completed) >= TX_BATCH {
          Complete();
        }
      }
    }

    /**
     The end of a queue that is being stopped: whatever is still in flight
     counts as done. Every packet taken over has then been given back once, in
     order, and no mapping is left.
     */
    method FlushAndReset()
      requires Live() && state == Stopping
      modifies this`state, this`pending, this`gPending, this`added
      modifies this`completed, this`reaped, this`gReaped, this`stopped, this`released
      modifies ring`base, ring`view, ring`window, ring`live, ring.txMap
      ensures state == Initialized && ring.window == [] && ring.live == []
      ensures released == owned
      ensures added == pending == completed == reaped == 0
    {
      hide DescRing.Valid, History, Handles, IoAddrs, AllAsked, IsPow2;
      pending, gPending := added, Added();
      Complete();
      NothingInFlight(ring.window);
      AppendNothing(released);
      added, pending, completed, reaped := 0, 0, 0, 0;
      state := Initialized;
    }
  }
}
