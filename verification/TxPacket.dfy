/** Packets handed to the transmit path, and what the driver decides about each of them. */
module TxPacket {
  import opened Seqs
  import opened TxSizes
  import opened TxFix

  type Bytes = seq<int>

  /** Fields of the segmentation option that the driver takes from the packet headers. */
  datatype TsoInfo = TsoInfo(packetId: nat, outerPacketId: nat, seqNum: nat, mss: nat)

  /**
   What parsing the headers of a packet gives. `Unexpected` is a header whose
   type is not the one the driver looks for at that place; the parser then
   leaves the transmit info unfilled but still reports success.
   */
  datatype Headers =
    | Unreadable
    | Unexpected
    | Tcp(headerLen: nat, info: TsoInfo, synOrUrg: bool)

  /** A packet: its address, its scatter-gather elements and the attributes the driver reads. */
  datatype Packet = Packet(
    handle: nat,
    elems: seq<Bytes>,
    frameLen: nat,
    mustVlanTag: bool,
    vlanId: bv16,
    vlanPrio: bv16,
    largeTcp: bool,
    mustCsum: bool,
    innerOffload: bool,
    mustOuterCsum: bool,
    innerLargeTcp: bool,
    mustInnerCsum: bool,
    headers: Headers)

  /** Properties of the adapter that the transmit path depends on. */
  datatype Adapter = Adapter(descMax: nat, tcpOffsetLimit: nat, tunnel: bool)

  predicate ValidAdapter(a: Adapter) {
    0 < a.tcpOffsetLimit <= a.descMax
  }

  function Flatten(pieces: seq<Bytes>): Bytes {
    if pieces == [] then [] else Flatten(pieces[..|pieces| - 1]) + pieces[|pieces| - 1]
  }

  lemma {:induction false} FlattenAppend(a: seq<Bytes>, b: seq<Bytes>)
    ensures Flatten(a + b) == Flatten(a) + Flatten(b)
  {
    if b == [] {
      assert a + b == a;
    } else {
      var n := |b| - 1;
      InitOfAppend(a, b);
      FlattenAppend(a, b[..n]);
      Regroup(Flatten(a), Flatten(b[..n]), b[n]);
    }
  }

  lemma FlattenNone()
    ensures Flatten([]) == []
  {
  }

  lemma FlattenOne(b: Bytes)
    ensures Flatten([b]) == b
  {
  }

  function Lengths(elems: seq<Bytes>): (lens: seq<nat>)
    ensures |lens| == |elems|
  {
    seq(|elems|, i requires 0 <= i < |elems| => |elems[i]|)
  }

  /**
   The VLAN tag control information the driver sends a packet with: 12 bits of
   VLAN id and the priority above them, and zero when no tag is asked for.
   */
  function Tci(p: Packet): bv16 {
    if p.mustVlanTag then (p.vlanId & 0x0fff) | (p.vlanPrio << 13) else 0
  }

  /** Both fields can be read back from the tag, for an id and a priority in range. */
  lemma TciCarriesBothFields(p: Packet)
    requires p.mustVlanTag
    ensures Tci(p) & 0x0fff == p.vlanId & 0x0fff
    ensures p.vlanPrio < 8 ==> Tci(p) >> 13 == p.vlanPrio
    ensures p.vlanPrio < 8 ==> (Tci(p) == 0 <==> p.vlanId & 0x0fff == 0 && p.vlanPrio == 0)
  {
  }

  predicate UsesTso(a: Adapter, p: Packet) {
    p.largeTcp || (a.tunnel && p.innerLargeTcp)
  }

  predicate WantsOuterCsum(a: Adapter, p: Packet) {
    if p.innerOffload && a.tunnel then p.largeTcp || p.mustOuterCsum
    else p.largeTcp || p.mustCsum
  }

  predicate WantsInnerCsum(a: Adapter, p: Packet) {
    p.innerOffload && a.tunnel && (p.innerLargeTcp || p.mustInnerCsum)
  }

  /** What the VMkernel packet interface guarantees of any packet. */
  predicate ValidPacket(p: Packet) {
    && p.handle != 0
    && p.elems != []
    && (forall i :: 0 <= i < |p.elems| ==> |p.elems[i]| > 0)
    && 0 < p.frameLen <= |Flatten(p.elems)|
    && (p.headers.Tcp? ==> 0 < p.headers.headerLen)
  }

  /** The bytes that are to be sent. */
  function FrameBytes(p: Packet): Bytes
    requires ValidPacket(p)
  {
    Flatten(p.elems)[..p.frameLen]
  }

  /** Estimate of the descriptors for a packet, reserved before anything is built. */
  function DescEstimate(a: Adapter, p: Packet): nat
    requires ValidAdapter(a)
  {
    var dma := SumNeeded(Lengths(p.elems), a.descMax);
    var body :=
      if UsesTso(a, p) then
        (if dma + 1 > TSO_DMA_DESC_MAX then TSO_DMA_DESC_MAX else dma + 1) + FATSOV2_OPT_NDESCS
      else dma;
    body + 2
  }

  /** The driver knows which headers to look for: not for an inner segmentation without inner offload. */
  predicate HasHeaderList(a: Adapter, p: Packet) {
    p.largeTcp || (a.tunnel && p.innerLargeTcp && p.innerOffload)
  }

  /** Header parsing succeeds with the transmit info filled in. */
  predicate Parses(a: Adapter, p: Packet) {
    HasHeaderList(a, p) && p.headers.Tcp? && p.headers.headerLen <= a.tcpOffsetLimit && !p.headers.synOrUrg
  }

  /** Header parsing ends at a header of another type, and with success. */
  predicate Misleads(a: Adapter, p: Packet) {
    HasHeaderList(a, p) && p.headers.Unexpected?
  }

  lemma {:induction false} SumOfLengths(elems: seq<Bytes>)
    ensures Sum(Lengths(elems)) == |Flatten(elems)|
  {
    if elems != [] {
      var n := |elems| - 1;
      assert Lengths(elems)[..n] == Lengths(elems[..n]);
      SumOfLengths(elems[..n]);
    }
  }

  lemma {:induction false} NeededOfSmall(elems: seq<Bytes>, max: nat)
    requires max > 0
    requires forall i :: 0 <= i < |elems| ==> 0 < |elems[i]| <= max
    ensures SumNeeded(Lengths(elems), max) == |elems|
  {
    if elems != [] {
      var n := |elems| - 1;
      assert Lengths(elems)[..n] == Lengths(elems[..n]);
      NeededOfSmall(elems[..n], max);
      NeededSmall(|elems[n]|, max);
    }
  }

  /** The driver's repair: the first `k` elements copied into one, the rest shared. */
  function CopyPrefix(p: Packet, handle: nat, k: nat): Packet
    requires 1 <= k <= |p.elems|
  {
    p.(handle := handle, elems := [Flatten(p.elems[..k])] + p.elems[k..])
  }

  /** A partial copy carries the same frame, in element lengths as the merging loop reckons them. */
  lemma CopyPrefixKeepsFrame(p: Packet, handle: nat, k: nat)
    requires ValidPacket(p) && handle != 0 && 1 <= k <= |p.elems|
    ensures var c := CopyPrefix(p, handle, k);
      && ValidPacket(c)
      && FrameBytes(c) == FrameBytes(p)
      && Lengths(c.elems) == Merged(Lengths(p.elems), k)
  {
    hide Flatten, Sum;
    var c := CopyPrefix(p, handle, k);
    var first := Flatten(p.elems[..k]);
    assert p.elems == p.elems[..k] + p.elems[k..];
    FlattenAppend(p.elems[..k], p.elems[k..]);
    FlattenAppend([first], p.elems[k..]);
    FlattenOne(first);
    assert p.elems[..k] == [p.elems[0]] + p.elems[1..k];
    FlattenAppend([p.elems[0]], p.elems[1..k]);
    FlattenOne(p.elems[0]);
    SumOfLengths(p.elems[..k]);
    assert Lengths(p.elems)[..k] == Lengths(p.elems[..k]);
    assert Lengths(c.elems) == Merged(Lengths(p.elems), k);
  }
}
