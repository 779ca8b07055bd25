/** The memory of a receive queue, and what becomes of a received packet. */
module RxRing {
  import opened Seqs
  import opened Words
  import opened Rings

  const MIN_PKT_SIZE: int := 60

  /** The flags of a completion event that the driver looks at. */
  datatype Flags = Flags(discard: bool, prefixLen: bool, ipv4: bool, ipv6: bool, cksumIp: bool, cksumTcpUdp: bool)

  const UNREPORTED: Flags := Flags(true, false, false, false, false, false)

  /** A receive descriptor as the driver keeps it. A zero packet is a null pointer. */
  datatype RxDesc = RxDesc(flags: Flags, size: int, pkt: nat, ioAddr: nat)

  const NO_DESC: RxDesc := RxDesc(UNREPORTED, 0, 0, 0)

  datatype RxConfig = RxConfig(bufferSize: nat, prefixSize: nat, maxFrame: int, csumEnabled: bool)

  /** What calls about one packet return: the length in its prefix (if it can be read), and whether others succeed. */
  datatype PktInfo = PktInfo(lengthOk: bool, length: nat, headroomOk: bool, mapped: bool, writable: bool)

  datatype Outcome = Discarded | Delivered(size: int, flags: Flags)

  /** Checksum flags are dropped when validation is disabled. */
  function Checked(f: Flags, cfg: RxConfig): Flags {
    if cfg.csumEnabled then f
    else if f.ipv4 then f.(cksumIp := false, cksumTcpUdp := false)
    else if f.ipv6 then f.(cksumTcpUdp := false)
    else f
  }

  /** Whether a packet is passed up, and how. */
  function Judge(d: RxDesc, info: PktInfo, cfg: RxConfig): (o: Outcome)
    ensures o.Delivered? ==>
              && !d.flags.discard && MIN_PKT_SIZE <= o.size <= cfg.maxFrame && !(o.flags.ipv4 && o.flags.ipv6)
              && (o.flags.cksumIp ==> d.flags.cksumIp) && (o.flags.cksumTcpUdp ==> d.flags.cksumTcpUdp)
              && (!cfg.csumEnabled && (o.flags.ipv4 || o.flags.ipv6) ==> !o.flags.cksumTcpUdp)
  {
    if d.flags.discard || (d.flags.prefixLen && !info.lengthOk) || !info.headroomOk then Discarded
    else
      var full := if d.flags.prefixLen then info.length + cfg.prefixSize else d.size;
      var net := full - cfg.prefixSize;
      if net < MIN_PKT_SIZE && !(info.mapped && info.writable) then Discarded
      else
        var size := if net < MIN_PKT_SIZE then MIN_PKT_SIZE else net;
        if size > cfg.maxFrame || (d.flags.ipv4 && d.flags.ipv6) then Discarded
        else Delivered(size, Checked(d.flags, cfg))
  }

  /** The event, or the prefix if the event says so, reports a packet of `n` bytes, apart from the prefix. */
  predicate Reports(d: RxDesc, info: PktInfo, cfg: RxConfig, n: int) {
    if d.flags.prefixLen then info.lengthOk && info.length == n else d.size == n + cfg.prefixSize
  }

  /** Whichever way the length of a packet is reported, just that many bytes are passed up, padded if they are few. */
  lemma DeliveredAsReported(d: RxDesc, info: PktInfo, cfg: RxConfig, n: int)
    requires Reports(d, info, cfg, n)
    ensures var o := Judge(d, info, cfg);
      && (o.Delivered? <==>
            && !d.flags.discard && info.headroomOk && !(d.flags.ipv4 && d.flags.ipv6)
            && (if n < MIN_PKT_SIZE then info.mapped && info.writable && MIN_PKT_SIZE <= cfg.maxFrame
                else n <= cfg.maxFrame))
      && (o.Delivered? && n >= MIN_PKT_SIZE ==> o.size == n)
      && (o.Delivered? && n < MIN_PKT_SIZE ==> o.size == MIN_PKT_SIZE)
      && (o.Delivered? && cfg.csumEnabled ==> o.flags == d.flags)
      && (o.Delivered? && !cfg.csumEnabled ==>
            && o.flags.cksumIp == (d.flags.cksumIp && !d.flags.ipv4)
            && o.flags.cksumTcpUdp == (d.flags.cksumTcpUdp && !d.flags.ipv4 && !d.flags.ipv6)
            && o.flags.(cksumIp := d.flags.cksumIp, cksumTcpUdp := d.flags.cksumTcpUdp) == d.flags)
  {
  }

  /** A packet is discarded without a report exactly when its length is in a prefix that cannot be read. */
  lemma UnreadableIsDiscarded(d: RxDesc, info: PktInfo, cfg: RxConfig)
    ensures (forall n :: !Reports(d, info, cfg, n)) <==> d.flags.prefixLen && !info.lengthOk
    ensures d.flags.prefixLen && !info.lengthOk ==> Judge(d, info, cfg) == Discarded
  {
    assert Reports(d, info, cfg, info.length) || Reports(d, info, cfg, d.size - cfg.prefixSize)
        || (d.flags.prefixLen && !info.lengthOk);
  }

  function Pkts(w: seq<RxDesc>): (ps: seq<nat>)
    ensures |ps| == |w|
  {
    if w == [] then [] else Pkts(w[..|w| - 1]) + [w[|w| - 1].pkt]
  }

  lemma {:induction false} PktsAppend(a: seq<RxDesc>, b: seq<RxDesc>)
    ensures Pkts(a + b) == Pkts(a) + Pkts(b)
  {
    if b == [] {
      AppendNothing(a);
      AppendNothing(Pkts(a));
    } else {
      var n := |b| - 1;
      InitOfAppend(a, b);
      PktsAppend(a, b[..n]);
      Regroup(Pkts(a), Pkts(b[..n]), [b[n].pkt]);
    }
  }

  lemma PktsOne(d: RxDesc)
    ensures Pkts([d]) == [d.pkt]
  {
  }

  lemma {:induction false} PktsUpdate(w: seq<RxDesc>, j: nat, d: RxDesc)
    requires j < |w| && d.pkt == w[j].pkt
    ensures Pkts(w[j := d]) == Pkts(w)
  {
    var n := |w| - 1;
    if j == n {
      assert w[j := d][..n] == w[..n];
    } else {
      assert w[j := d][..n] == w[..n][j := d];
      PktsUpdate(w[..n], j, d);
    }
  }

  /** The view `v` holds the window `w`; every slot of the window holds a packet, and no other slot does. */
  predicate Holds(v: seq<RxDesc>, w: seq<RxDesc>) {
    && |w| <= |v| && v[..|w|] == w
    && (forall k :: 0 <= k < |w| ==> w[k].pkt != 0)
    && (forall k :: |w| <= k < |v| ==> v[k].pkt == 0)
  }

  lemma HoldsOneMore(v: seq<RxDesc>, w: seq<RxDesc>, d: RxDesc)
    requires Holds(v, w) && |w| < |v| && d.pkt != 0
    ensures Holds(v[|w| := d], w + [d])
  {
  }

  lemma HoldsUpdate(v: seq<RxDesc>, w: seq<RxDesc>, j: nat, d: RxDesc)
    requires Holds(v, w) && j < |w| && d.pkt != 0
    ensures Holds(v[j := d], w[j := d])
  {
  }

  lemma HoldsOldest(v: seq<RxDesc>, w: seq<RxDesc>)
    requires Holds(v, w) && w != []
    ensures v != [] && v[0] == w[0]
  {
    assert v[..|w|][0] == w[0];
  }

  /** The slot `e` after its packet has left: without the packet, and marked for discard if it was passed up. */
  predicate Emptied(e: RxDesc, d: RxDesc, delivered: bool) {
    e.pkt == 0 && e.flags == if delivered then UNREPORTED else d.flags
  }

  lemma HoldsRetired(v: seq<RxDesc>, w: seq<RxDesc>, d: RxDesc)
    requires Holds(v, w) && w != [] && d.pkt == 0
    ensures Holds(v[1..] + [d], w[1..])
  {
  }

  class RxMem {
    const n: nat
    const queue: array<RxDesc>
    ghost var base: nat
    ghost var view: seq<RxDesc>
    ghost var window: seq<RxDesc>

    ghost predicate Backed()
      reads this`base, this`view, queue
    {
      queue.Length == n && |view| == n > 0 && view == Rotated(queue[..], base)
    }

    ghost predicate Valid()
      reads this`base, this`view, this`window, queue
    {
      IsPow2(n) && Backed() && Holds(view, window)
    }

    constructor (n: nat)
      requires IsPow2(n)
      ensures Valid() && this.n == n && base == 0 && window == [] && fresh(queue)
    {
      this.n := n;
      queue := new RxDesc[n](_ => NO_DESC);
      base, window := 0, [];
      new;
      view := Rotated(queue[..], 0);
      forall k | 0 <= k < n
        ensures view[k] == NO_DESC
      {
        RotatedAt(queue[..], 0, k);
      }
    }

    method PutSlot(id: nat, d: RxDesc, ghost j: nat)
      requires Backed() && j < n && id == RingSlot(base + j, n)
      modifies this`view, queue
      ensures Backed() && view == old(view)[j := d] && id < n && queue[..] == old(queue[..])[id := d]
    {
      RotatedUpdate(queue[..], base, j, d);
      ghost var s := queue[..];
      queue[id] := d;
      assert queue[..] == s[id := d];
      view := view[j := d];
    }

    /** A new buffer at the end of the window. */
    method Add(id: nat, d: RxDesc)
      requires Valid() && |window| < n && id == RingSlot(base + |window|, n) && d.pkt != 0
      modifies this`view, this`window, queue
      ensures Valid() && window == old(window) + [d]
    {
      HoldsOneMore(view, window, d);
      PutSlot(id, d, |window|);
      window := window + [d];
    }

    /** Records what the event says about the packet in slot `j` of the window. */
    method Record(id: nat, size: int, flags: Flags, ghost j: nat)
      requires Valid() && j < |window| && id == RingSlot(base + j, n)
      modifies this`view, this`window, queue
      ensures Valid() && window == old(window)[j := old(window)[j].(size := size, flags := flags)]
    {
      RotatedAt(queue[..], base, j);
      assert view[j] == window[j];
      var d := queue[id].(size := size, flags := flags);
      HoldsUpdate(view, window, j, d);
      PutSlot(id, d, j);
      window := window[j := d];
    }

    /** Reads the oldest slot of the window. */
    method Oldest(id: nat) returns (d: RxDesc)
      requires Valid() && window != [] && id == RingSlot(base, n)
      ensures d == window[0]
    {
      RotatedAt(queue[..], base, 0);
      assert view[0] == window[0];
      d := queue[id];
    }

    /** The oldest slot leaves the window: its packet is cleared, and its flags too if the packet was delivered. */
    method Retire(id: nat, delivered: bool)
      requires Valid() && window != [] && id == RingSlot(base, n)
      modifies this`base, this`view, this`window, queue
      ensures Valid() && base == old(base) + 1 && window == old(window)[1..]
      ensures id < n == queue.Length && Emptied(queue[id], old(window)[0], delivered)
      ensures forall k :: 0 <= k < n && k != id ==> queue[k] == old(queue[k])
    {
      hide Holds, Rotated, IsPow2;
      RotatedAt(queue[..], base, 0);
      HoldsOldest(view, window);
      var d := queue[id].(pkt := 0);
      if delivered {
        d := d.(flags := UNREPORTED);
      }
      HoldsRetired(view, window, d);
      ghost var after := view[1..] + [d];
      PutSlot(id, d, 0);
      RotatedNext(queue[..], base);
      assert after == view[1..] + [view[0]];
      base, view, window := base + 1, after, window[1..];
    }
  }
}
