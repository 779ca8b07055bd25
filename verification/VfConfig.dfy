/** Configuration of virtual functions by the hypervisor, and the pending request it answers. */
module VfConfig {
  import opened VfBits

  const MAX_VLANS: nat := 4096
  const UNSPEC: nat := 0xffff

  datatype RxMode = Unicast | Multicast | Broadcast | AllMulti | Promisc

  /** Privileges of the firmware that requests ask for. */
  datatype Privilege = Rx(mode: RxMode) | UnrestrictedVlan | Other

  datatype Status = Ok | BadParam | AccessDenied | NoPermission

  /** An answer sent to the firmware. */
  datatype Answer = Answer(authorized: bool, mask: set<Privilege>)

  /** The configuration changes a pending request still waits for (`cfgChanged`). */
  datatype Changed = Changed(vlanAdd: bool, rxMode: bool, other: bool)

  const NOTHING: Changed := Changed(false, false, false)

  /** Privileges that go with a receive mode; `allMultiGrantsMulti` is the workaround for older hypervisors. */
  function PrivMask(rxMode: set<RxMode>, allMultiGrantsMulti: bool): set<Privilege> {
    (set m | m in rxMode :: Rx(m)) + (if allMultiGrantsMulti && AllMulti in rxMode then {Rx(Multicast)} else {})
  }

  /** What a filter operation matches of the destination. */
  datatype Destination =
    | Any
    | Ipv4(addr: bv32)
    | Ipv6(first: byte)
    | OtherEtherType
    | Mac(first: byte, allOnes: bool)
    | UnknownMulticast
    | UnknownUnicast
    | Mixture

  /** The receive mode that a destination needs; none if the match is not understood. */
  function ModeFor(d: Destination): set<RxMode> {
    match d
    case Any => {Unicast}
    case Ipv4(addr) =>
      if addr == 0xffff_ffff then {Broadcast} else if addr & 0xf000_0000 == 0xe000_0000 then {Multicast} else {Unicast}
    case Ipv6(first) => if first == 0xff then {Multicast} else {Unicast}
    case Mac(first, allOnes) => if allOnes then {Broadcast} else if first % 2 == 1 then {Multicast} else {Unicast}
    case UnknownMulticast => {AllMulti}
    case UnknownUnicast => {Promisc}
    case _ => {}
  }

  lemma TopBits(addr: bv32)
    ensures addr & 0xf000_0000 == 0xe000_0000 <==> 3758096384 <= addr < 4026531840
  {
  }

  /** IPv4 multicast addresses are those from 224.0.0.0 to 239.255.255.255, and the last address is broadcast. */
  lemma ModeForMeans(d: Destination)
    ensures d.Ipv4? ==> ModeFor(d) == if d.addr == 4294967295 then {Broadcast}
                                      else if 3758096384 <= d.addr < 4026531840 then {Multicast} else {Unicast}
    ensures d.Ipv6? ==> (Multicast in ModeFor(d) <==> d.first == 255) && (Unicast in ModeFor(d) <==> d.first != 255)
    ensures d.Mac? ==> (Broadcast in ModeFor(d) <==> d.allOnes)
    ensures d.Mac? && !d.allOnes ==> ModeFor(d) == if d.first % 2 == 0 then {Unicast} else {Multicast}
    ensures ModeFor(Any) == {Unicast} && ModeFor(UnknownMulticast) == {AllMulti} && ModeFor(UnknownUnicast) == {Promisc}
    ensures |ModeFor(d)| == if d.OtherEtherType? || d.Mixture? then 0 else 1
  {
    if d.Ipv4? {
      TopBits(d.addr);
    }
  }

  /** A privilege goes with every mode, and multicast with all-multicast too where that is worked around. */
  lemma PrivMaskMeans(modes: set<RxMode>, workaround: bool, p: Privilege)
    ensures p in PrivMask(modes, workaround) <==>
              p.Rx? && (p.mode in modes || (workaround && p.mode == Multicast && AllMulti in modes))
  {
  }

  function RxPart(p: set<Privilege>): set<Privilege> {
    set x | x in p && x.Rx?
  }

  /** The bitmap holds VLAN `vid`. */
  predicate Has(bits: seq<byte>, vid: nat) {
    vid / 8 < |bits| && Bit(bits[vid / 8], vid % 8)
  }

  predicate Zeroed(bits: seq<byte>) {
    forall k :: 0 <= k < |bits| ==> bits[k] == 0
  }

  /** The least VLAN id in the bitmap. */
  predicate IsFirst(bits: seq<byte>, vid: nat) {
    Has(bits, vid) && forall v :: 0 <= v < vid ==> !Has(bits, v)
  }

  lemma ZeroedHasNone(bits: seq<byte>, v: nat)
    requires Zeroed(bits)
    ensures !Has(bits, v)
  {
    if v / 8 < |bits| {
      NoBits(bits[v / 8], v % 8);
    }
  }

  /** What remains of a pending request after the hypervisor has dealt with VLAN ranges, and the answer sent. */
  function AfterVlans(c: Changed, vid: nat, allowed: set<nat>, rx: set<Privilege>): (Changed, seq<Answer>) {
    if !c.vlanAdd || vid !in allowed || c.rxMode || c.other then (NOTHING, [])
    else (NOTHING, [Answer(true, rx + {UnrestrictedVlan})])
  }

  /** The same for a change of receive mode; `ok` tells whether the answer could be delivered. */
  function AfterRxMode(c: Changed, rx: set<Privilege>, reqd: set<Privilege>, ok: bool): (Changed, seq<Answer>) {
    if !c.rxMode then (c, [])
    else
      var rest := c.(rxMode := false);
      var authorize := RxPart(reqd) <= rx;
      if rest.other then (rest, [])
      else if authorize && rest.vlanAdd then (rest, [])
      else
        (if ok then NOTHING else rest,
         [if authorize then Answer(true, rx + (reqd - RxPart(reqd))) else Answer(false, rx)])
  }

  /** How sending an answer ends, or dealing with a change: done, met a shutdown, or failed. */
  datatype Ending = Done | ShutDown | Failed

  /** How dealing with a change of receive mode ends, when sending an answer, if one is sent, ends in `sent`. */
  function RxEnding(c: Changed, rx: set<Privilege>, reqd: set<Privilege>, sent: Ending): Ending {
    if !c.rxMode then Done
    else if c.other then Failed
    else if AfterRxMode(c, rx, reqd, sent.Done?).1 == [] then Done
    else sent
  }

  /** It fails over a change that is neither; otherwise it ends as sending the answer does, if one is sent. */
  lemma RxEndingMeans(c: Changed, rx: set<Privilege>, reqd: set<Privilege>, sent: Ending)
    ensures var ending, r := RxEnding(c, rx, reqd, sent), AfterRxMode(c, rx, reqd, sent.Done?);
      && (r.1 != [] ==> ending == sent)
      && (r.1 == [] ==> ending == if c.rxMode && c.other then Failed else Done)
      && (r.1 != [] <==> c.rxMode && !c.other && (c.vlanAdd ==> !(RxPart(reqd) <= rx)))
      && (r.1 == [] && c.rxMode ==> r.0 == c.(rxMode := false))
  {
  }

  /** The VLAN ids of a range; none if it is empty. */
  function Range(first: nat, last: int): (r: set<nat>)
    ensures forall i: nat :: i in r <==> first <= i <= last
    decreases last - first
  {
    if last < first then {} else Range(first, last - 1) + {last}
  }

  /** The permission of a VLAN in use changes, other than by allowing the one that a request waits for. */
  ghost predicate MustReset(add: bool, range: set<nat>, allowed: set<nat>, active: set<nat>, pending: nat) {
    exists i {:trigger i in active} ::
      i in range && i in active && ((add && i !in allowed && i != pending) || (!add && i in allowed))
  }

  function Appended(before: seq<Answer>, r: (Changed, seq<Answer>)): (Changed, seq<Answer>) {
    (r.0, before + r.1)
  }

  class Vf {
    const allMultiGrantsMulti: bool
    const asksForAllMulti: bool
    const guestVlans: array<byte>
    var allowed: set<nat>
    var active: set<nat>
    var rxMode: set<RxMode>
    var changed: Changed
    var reqd: set<Privilege>
    // Answers sent for the pending request, and resets asked for.
    ghost var answers: seq<Answer>
    ghost var resets: nat

    ghost predicate Valid()
      reads this`allowed, this`active
    {
      && guestVlans.Length == MAX_VLANS / 8
      && (forall v :: v in allowed ==> v < MAX_VLANS)
      && (forall v :: v in active ==> v < MAX_VLANS)
    }

    ghost function Mask(): set<Privilege>
      reads this`rxMode
    {
      PrivMask(rxMode, allMultiGrantsMulti)
    }

    constructor (workaround: bool, replaceMulti: bool)
      ensures Valid() && allowed == {} && active == {} && changed == NOTHING && Zeroed(guestVlans[..])
      ensures answers == [] && resets == 0 && fresh(guestVlans)
    {
      allMultiGrantsMulti, asksForAllMulti := workaround, replaceMulti;
      guestVlans := new byte[MAX_VLANS / 8](_ => 0);
      allowed, active, rxMode, changed, reqd := {}, {}, {}, NOTHING, {};
      answers, resets := [], 0;
    }

    /** A new request from the firmware: whatever was pending is forgotten. */
    method Begin()
      requires Valid()
      modifies this`changed, this`reqd, this`answers, guestVlans
      ensures changed == NOTHING && reqd == {} && answers == [] && Zeroed(guestVlans[..])
    {
      for i := 0 to guestVlans.Length
        invariant forall k :: 0 <= k < i ==> guestVlans[k] == 0
      {
        guestVlans[i] := 0;
      }
      changed, reqd, answers := NOTHING, {}, [];
    }

    method SetVid(vid: nat)
      requires vid / 8 < guestVlans.Length
      modifies guestVlans
      ensures forall v: nat :: Has(guestVlans[..], v) <==> old(Has(guestVlans[..], v)) || v == vid
    {
      var m: nat := guestVlans[vid / 8];
      SetBitFits(m, vid % 8, 8);
      assert Pow2(8) == 256;
      guestVlans[vid / 8] := SetBit(m, vid % 8);
      forall v: nat
        ensures Has(guestVlans[..], v) <==> old(Has(guestVlans[..], v)) || v == vid
      {
        SetBitSets(m, vid % 8, v % 8);
      }
    }

    /** The VLAN part of a filter operation. */
    method RequestVlan(vid: nat) returns (status: Status)
      requires Valid()
      modifies this`active, this`changed, this`reqd, guestVlans
      ensures Valid()
      ensures status == if vid >= MAX_VLANS then BadParam
                        else if vid !in allowed && vid in old(active) then AccessDenied else Ok
      ensures status != Ok ==> active == old(active) && changed == old(changed) && reqd == old(reqd)
      ensures status == Ok ==> active == old(active) + {vid} && reqd == old(reqd) + {UnrestrictedVlan}
      ensures status == Ok ==> changed == if vid in allowed then old(changed) else old(changed).(vlanAdd := true)
      ensures forall v: nat :: Has(guestVlans[..], v) <==>
                old(Has(guestVlans[..], v)) || (status == Ok && vid !in allowed && v == vid)
    {
      if vid >= MAX_VLANS {
        return BadParam;
      }
      if vid !in allowed {
        if vid in active {
          return AccessDenied;
        }
        SetVid(vid);
        changed := changed.(vlanAdd := true);
      }
      active := active + {vid};
      reqd := reqd + {UnrestrictedVlan};
      status := Ok;
    }

    /** The modes asked for, after the workarounds for hypervisors that grant all-multicast instead of multicast. */
    ghost function Asked(d: Destination): set<RxMode> {
      var m := ModeFor(d);
      if allMultiGrantsMulti && Multicast in m then (if asksForAllMulti then m - {Multicast} else m) + {AllMulti} else m
    }

    /** For the older hypervisors all-multicast is asked for with multicast, or instead of it. */
    lemma AskedMeans(d: Destination)
      ensures !allMultiGrantsMulti || Multicast !in ModeFor(d) ==> Asked(d) == ModeFor(d)
      ensures allMultiGrantsMulti && Multicast in ModeFor(d) ==>
                AllMulti in Asked(d) && (Multicast in Asked(d) <==> !asksForAllMulti)
    {
    }

    /** The receive mode part of a filter operation. */
    method RequestRxMode(d: Destination) returns (status: Status)
      modifies this`changed, this`reqd
      ensures status == if d.OtherEtherType? then NoPermission else if d.Mixture? then AccessDenied else Ok
      ensures status != Ok ==> changed == old(changed) && reqd == old(reqd)
      ensures status == Ok ==> RxPart(reqd) == RxPart(old(reqd)) + PrivMask(Asked(d), allMultiGrantsMulti)
      ensures status == Ok ==> changed == if Asked(d) <= rxMode then old(changed) else old(changed).(rxMode := true)
      // Whoever grants the modes asked for covers what is required of them; with nothing pending they are granted.
      ensures status == Ok ==> forall m: set<RxMode> :: Asked(d) <= m ==>
                RxPart(reqd) <= RxPart(old(reqd)) + PrivMask(m, allMultiGrantsMulti)
      ensures status == Ok && !changed.rxMode && RxPart(old(reqd)) <= Mask() ==> RxPart(reqd) <= Mask()
    {
      if d.OtherEtherType? {
        return NoPermission;
      }
      if d.Mixture? {
        return AccessDenied;
      }
      var modes := ModeFor(d);
      if allMultiGrantsMulti && Multicast in modes {
        modes := modes + {AllMulti};
        if asksForAllMulti {
          modes := modes - {Multicast};
        }
      }
      assert modes == Asked(d);
      reqd := reqd + PrivMask(modes, allMultiGrantsMulti);
      if !(modes <= rxMode) {
        changed := changed.(rxMode := true);
      }
      status := Ok;
    }

    /** A filter operation: first the VLAN it matches, if any, then the destination. */
    method FilterOp(vlan: int, d: Destination) returns (status: Status)
      requires Valid() && vlan >= -1
      modifies this`active, this`changed, this`reqd, guestVlans
      ensures Valid()
      ensures status == Ok <==> (vlan == -1 || (vlan < MAX_VLANS && (vlan in allowed || vlan !in old(active))))
                                && !d.OtherEtherType? && !d.Mixture?
      // The VLAN part comes first, and what it does is not taken back when the other part is refused.
      ensures var vlanOk := vlan == -1 || (vlan < MAX_VLANS && (vlan in allowed || vlan !in old(active)));
        && (!vlanOk ==> status == if vlan >= MAX_VLANS then BadParam else AccessDenied)
        && (vlanOk && status != Ok ==> status == if d.OtherEtherType? then NoPermission else AccessDenied)
        && active == (if vlanOk && vlan != -1 then old(active) + {vlan} else old(active))
        && changed.vlanAdd == (old(changed).vlanAdd || (vlanOk && vlan != -1 && vlan !in allowed))
        && (status != Ok ==> changed.rxMode == old(changed).rxMode && changed.other == old(changed).other)
      ensures status == Ok ==>
                && changed.vlanAdd == (old(changed).vlanAdd || (vlan != -1 && vlan !in allowed))
                && changed.rxMode == (old(changed).rxMode || !(Asked(d) <= rxMode))
                && changed.other == old(changed).other
      ensures status == Ok && vlan != -1 && vlan !in allowed ==> Has(guestVlans[..], vlan)
    {
      if vlan >= 0 {
        status := RequestVlan(vlan);
        if status != Ok {
          return;
        }
      }
      status := RequestRxMode(d);
    }

    /** The VLAN id the pending request waits for. */
    method PendingVid() returns (vid: nat)
      requires Valid()
      ensures !changed.vlanAdd ==> vid == UNSPEC
      ensures changed.vlanAdd && vid != UNSPEC ==> vid < MAX_VLANS && IsFirst(guestVlans[..], vid)
      ensures changed.vlanAdd && vid == UNSPEC ==> forall v: nat :: !Has(guestVlans[..], v)
    {
      vid := UNSPEC;
      if !changed.vlanAdd {
        return;
      }
      for i := 0 to guestVlans.Length
        invariant forall v: nat :: v < 8 * i ==> !Has(guestVlans[..], v)
      {
        var bit := FirstBitSet(guestVlans[i]);
        if bit > 0 {
          vid := 8 * i + bit - 1;
          assert vid / 8 == i && vid % 8 == bit - 1;
          forall v: nat | v < vid
            ensures !Has(guestVlans[..], v)
          {
            assert v >= 8 * i ==> v / 8 == i && v % 8 < bit - 1;
          }
          return;
        }
        forall v: nat | v < 8 * (i + 1)
          ensures !Has(guestVlans[..], v)
        {
          if v >= 8 * i {
            assert v / 8 == i;
            NoBits(guestVlans[i], v % 8);
          }
        }
      }
    }

    /** Adds a range to the allowed set; tells whether an active VLAN other than `ppr` became allowed. */
    method AllowRange(first: nat, last: nat, ppr: nat) returns (changeActive: bool)
      requires Valid() && last < MAX_VLANS
      modifies this`allowed
      ensures Valid() && allowed == old(allowed) + Range(first, last)
      ensures changeActive <==> MustReset(true, Range(first, last), old(allowed), active, ppr)
    {
      changeActive := false;
      var i := first;
      while i <= last
        invariant first <= i && (i <= last + 1 || i == first)
        invariant allowed == old(allowed) + Range(first, i - 1)
        invariant changeActive <==> MustReset(true, Range(first, i - 1), old(allowed), active, ppr)
        decreases last + 1 - i
      {
        if i !in allowed {
          allowed := allowed + {i};
          if i != ppr && i in active {
            changeActive := true;
          }
        }
        i := i + 1;
      }
    }

    /** Removes a range from the allowed set; tells whether an active VLAN ceased to be allowed. */
    method DisallowRange(first: nat, last: nat) returns (changeActive: bool)
      requires Valid() && last < MAX_VLANS
      modifies this`allowed
      ensures Valid() && allowed == old(allowed) - Range(first, last)
      ensures changeActive <==> MustReset(false, Range(first, last), old(allowed), active, UNSPEC)
    {
      changeActive := false;
      var i := first;
      while i <= last
        invariant first <= i && (i <= last + 1 || i == first)
        invariant allowed == old(allowed) - Range(first, i - 1)
        invariant changeActive <==> MustReset(false, Range(first, i - 1), old(allowed), active, UNSPEC)
        decreases last + 1 - i
      {
        if i in allowed {
          allowed := allowed - {i};
          if i in active {
            changeActive := true;
          }
        }
        i := i + 1;
      }
    }

    /** `vid` is what the bitmap says the pending request waits for. */
    ghost predicate IsPending(c: Changed, vid: nat)
      reads guestVlans
    {
      if !c.vlanAdd then vid == UNSPEC
      else IsFirst(guestVlans[..], vid) || (vid == UNSPEC && forall v: nat :: !Has(guestVlans[..], v))
    }

    /** Answers the pending request if the range settles it; what else it waited for is forgotten. */
    method RespondVlanRange()
      requires Valid()
      modifies this`changed, this`answers
      ensures exists vid: nat :: IsPending(old(changed), vid)
                && (changed, answers) == Appended(old(answers), AfterVlans(old(changed), vid, allowed, Mask()))
    {
      var vid := PendingVid();
      assert IsPending(old(changed), vid);
      if vid != UNSPEC && vid in allowed {
        changed := changed.(vlanAdd := false);
        if changed == NOTHING {
          answers := answers + [Answer(true, PrivMask(rxMode, allMultiGrantsMulti) + {UnrestrictedVlan})];
        }
      }
      changed := NOTHING;
      assert old(answers) + [] == old(answers);
      assert IsPending(old(changed), vid)
        && (changed, answers) == Appended(old(answers), AfterVlans(old(changed), vid, allowed, Mask()));
    }

    /** The reset of the datapath; `ok` tells whether the firmware did it. */
    method ResetVf(ok: bool)
      requires Valid()
      modifies this`active, this`resets
      ensures Valid() && resets == old(resets) + 1 && active == if ok then {} else old(active)
    {
      resets := resets + 1;
      if ok {
        active := {};
      }
    }

    /** The hypervisor allows or forbids a range of VLANs. */
    method SetVlanRange(add: bool, first: nat, last: nat, resetOk: bool)
      requires Valid() && last < MAX_VLANS
      modifies this`allowed, this`active, this`resets, this`changed, this`answers
      ensures Valid()
      ensures allowed == if add then old(allowed) + Range(first, last) else old(allowed) - Range(first, last)
      ensures exists vid: nat :: IsPending(old(changed), vid)
                && (changed, answers) == Appended(old(answers), AfterVlans(old(changed), vid, allowed, Mask()))
                && resets == old(resets)
                             + (if MustReset(add, Range(first, last), old(allowed), old(active), vid) then 1 else 0)
                && active == if resets > old(resets) && resetOk then {} else old(active)
      // A reset is asked for exactly when the permission of an active VLAN changed, other than by granting the request.
      ensures exists vid: nat :: IsPending(old(changed), vid) &&
                (resets > old(resets) <==>
                   exists v {:trigger v in old(active)} ::
                     v in old(active) && (v in allowed) != (v in old(allowed)) && (add ==> v != vid))
      // With a reset that works, the only active VLAN whose permission changed is the pending one.
      ensures resetOk ==> exists vid: nat :: (IsPending(old(changed), vid)
                && forall v :: v in active && (v in allowed) != (v in old(allowed)) ==> v == vid)
    {
      var ppr := PendingVid();
      assert IsPending(changed, ppr);
      var changeActive;
      if add {
        changeActive := AllowRange(first, last, ppr);
      } else {
        changeActive := DisallowRange(first, last);
      }
      RespondVlanRange();
      if changeActive {
        ResetVf(resetOk);
      }
      assert IsPending(old(changed), ppr);
      assert MustReset(add, Range(first, last), old(allowed), old(active), ppr) == changeActive;
      if resetOk && !changeActive {
        forall v | v in active && (v in allowed) != (v in old(allowed))
          ensures v == ppr
        {
          assert v in Range(first, last);
        }
      }
    }

    /** Answers the pending request if the receive mode settles it. */
    method RespondRxMode(sent: Ending) returns (ending: Ending)
      requires Valid()
      modifies this`changed, this`answers
      ensures (changed, answers) == Appended(old(answers), AfterRxMode(old(changed), Mask(), reqd, sent.Done?))
      ensures ending == RxEnding(old(changed), Mask(), reqd, sent)
    {
      assert old(answers) + [] == old(answers);
      if !changed.rxMode {
        return Done;
      }
      changed := changed.(rxMode := false);
      if changed.other {
        return Failed;
      }
      var mask := PrivMask(rxMode, allMultiGrantsMulti);
      var authorize := RxPart(reqd) <= mask;
      if authorize {
        if changed != NOTHING {
          return Done;
        }
        mask := mask + (reqd - RxPart(reqd));
      }
      answers := answers + [Answer(authorize, mask)];
      if sent != Done {
        return sent;
      }
      changed := NOTHING;
      ending := Done;
    }

    /** The hypervisor sets the receive mode. A shutdown calls for no reset, even if a mode is revoked. */
    method SetRxMode(mode: set<RxMode>, sent: Ending, resetOk: bool)
      requires Valid()
      modifies this`rxMode, this`active, this`resets, this`changed, this`answers
      ensures Valid() && rxMode == mode
      ensures (changed, answers) == Appended(old(answers), AfterRxMode(old(changed), Mask(), reqd, sent.Done?))
      ensures var ending := RxEnding(old(changed), Mask(), reqd, sent);
        resets == old(resets) + (if ending.Failed? || (ending.Done? && !(old(rxMode) <= mode)) then 1 else 0)
      ensures active == if resets > old(resets) && resetOk then {} else old(active)
    {
      var revoked := rxMode - mode;
      rxMode := mode;
      var ending := RespondRxMode(sent);
      assert old(rxMode) <= mode ==> revoked == {};
      assert !(old(rxMode) <= mode) ==> exists m :: m in old(rxMode) && m in revoked;
      if ending == ShutDown {
      } else if ending == Failed {
        ResetVf(resetOk);
      } else if revoked != {} {
        ResetVf(resetOk);
      }
    }
  }

  /** Only one VLAN id is the least in a bitmap. */
  lemma FirstIsUnique(bits: seq<byte>, vid: nat, v: nat)
    requires IsFirst(bits, vid) && Has(bits, v) && forall u: nat :: Has(bits, u) ==> u == v
    ensures vid == v
  {
  }

  /** An answer to VLAN changes always authorises, and gives the receive modes that the function has and no others. */
  lemma VlanAnswers(c: Changed, vid: nat, allowed: set<nat>, modes: set<RxMode>, workaround: bool)
    ensures var r := AfterVlans(c, vid, allowed, PrivMask(modes, workaround));
      && r.0 == NOTHING
      && (r.1 != [] <==> vid in allowed && c == Changed(true, false, false))
      && forall a :: a in r.1 ==>
           r.1 == [a] && a.authorized && UnrestrictedVlan in a.mask && RxPart(a.mask) == PrivMask(modes, workaround)
  {
  }

  /** A request for a VLAN leaves a bitmap that decodes to that VLAN, for every id. */
  method RequestAndDecode(vf: Vf, vid: nat) returns (got: nat)
    requires vf.Valid() && Zeroed(vf.guestVlans[..]) && vid < MAX_VLANS && vid !in vf.allowed && vid !in vf.active
    modifies vf`active, vf`changed, vf`reqd, vf.guestVlans
    ensures got == vid
  {
    hide Has, Zeroed;
    ghost var before := vf.guestVlans[..];
    assert forall v: nat :: !Has(before, v) by {
      forall v: nat
        ensures !Has(before, v)
      {
        ZeroedHasNone(before, v);
      }
    }
    var _ := vf.RequestVlan(vid);
    ghost var bits := vf.guestVlans[..];
    assert Has(bits, vid) && forall u: nat :: Has(bits, u) ==> u == vid;
    got := vf.PendingVid();
    assert vf.guestVlans[..] == bits;
    assert got != UNSPEC && IsFirst(bits, got);
    FirstIsUnique(bits, got, vid);
  }

  /** Granting the modes that a request waits for answers it once, and the answer authorises it. */
  method AskThenGrant(vf: Vf, d: Destination, mode: set<RxMode>, resetOk: bool)
    requires vf.Valid() && vf.changed == NOTHING && vf.reqd == {} && vf.answers == []
    requires !d.OtherEtherType? && !d.Mixture? && !(vf.Asked(d) <= vf.rxMode) && vf.Asked(d) <= mode
    modifies vf`rxMode, vf`active, vf`resets, vf`changed, vf`reqd, vf`answers
    ensures vf.changed == NOTHING && |vf.answers| == 1 && vf.answers[0].authorized
    ensures RxPart(vf.reqd) <= vf.answers[0].mask
  {
    var status := vf.RequestRxMode(d);
    vf.SetRxMode(mode, Done, resetOk);
  }

  /** Allowing the VLAN that a request waits for answers it once, and the answer authorises it. */
  method AskThenAllow(vf: Vf, vid: nat, first: nat, last: nat, resetOk: bool)
    requires vf.Valid() && vf.changed == NOTHING && vf.reqd == {} && vf.answers == [] && Zeroed(vf.guestVlans[..])
    requires vid !in vf.allowed && vid !in vf.active && first <= vid <= last < MAX_VLANS
    modifies vf`allowed, vf`active, vf`resets, vf`changed, vf`reqd, vf`answers, vf.guestVlans
    ensures vf.changed == NOTHING && |vf.answers| == 1 && vf.answers[0].authorized
    ensures vf.reqd <= vf.answers[0].mask && RxPart(vf.answers[0].mask) == vf.Mask()
  {
    ghost var before := vf.guestVlans[..];
    forall v: nat
      ensures !Has(before, v)
    {
      ZeroedHasNone(before, v);
    }
    var status := vf.RequestVlan(vid);
    assert IsFirst(vf.guestVlans[..], vid);
    forall v: nat | vf.IsPending(vf.changed, v)
      ensures v == vid
    {
      if v != UNSPEC {
        FirstIsUnique(vf.guestVlans[..], v, vid);
      }
    }
    vf.SetVlanRange(true, first, last, resetOk);
    VlanAnswers(Changed(true, false, false), vid, vf.allowed, vf.rxMode, vf.allMultiGrantsMulti);
  }

  /** A request for a VLAN that is not allowed and for a mode that is not granted leaves both pending. */
  method AskForBoth(vf: Vf, vid: nat, d: Destination)
    requires vf.Valid() && vid < MAX_VLANS && vid !in vf.allowed && vid !in vf.active
    requires !d.OtherEtherType? && !d.Mixture? && !(vf.Asked(d) <= vf.rxMode)
    modifies vf`active, vf`changed, vf`reqd, vf`answers, vf.guestVlans
    ensures vf.changed == Changed(true, true, false)
  {
    vf.Begin();
    var _ := vf.FilterOp(vid, d);
  }

  /** A callback of the hypervisor, as far as the pending request is concerned. */
  datatype Callback =
    | VlanCallback(vid: nat, allowed: set<nat>, rx: set<Privilege>)
    | RxCallback(rx: set<Privilege>, reqd: set<Privilege>, ok: bool)

  function After(c: Changed, cb: Callback): (Changed, seq<Answer>) {
    match cb
    case VlanCallback(vid, allowed, rx) => AfterVlans(c, vid, allowed, rx)
    case RxCallback(rx, reqd, ok) => AfterRxMode(c, rx, reqd, ok)
  }

  /** The answers that a list of callbacks gives to a pending request. */
  function Answers(c: Changed, cbs: seq<Callback>): seq<Answer>
    decreases cbs
  {
    if cbs == [] then [] else After(c, cbs[0]).1 + Answers(After(c, cbs[0]).0, cbs[1..])
  }

  lemma {:induction false} SettledStaysSettled(cbs: seq<Callback>)
    ensures Answers(NOTHING, cbs) == []
  {
    if cbs != [] {
      SettledStaysSettled(cbs[1..]);
    }
  }

  /** However the callbacks come, a pending request is answered at most once, when answers are delivered. */
  lemma {:induction false} AnsweredAtMostOnce(c: Changed, cbs: seq<Callback>)
    requires forall k :: 0 <= k < |cbs| && cbs[k].RxCallback? ==> cbs[k].ok
    ensures |Answers(c, cbs)| <= 1
    decreases cbs
  {
    if cbs != [] {
      if After(c, cbs[0]).1 != [] {
        SettledStaysSettled(cbs[1..]);
      } else {
        AnsweredAtMostOnce(After(c, cbs[0]).0, cbs[1..]);
      }
    }
  }

  /** The first VLAN callback there is allows the VLAN it finds pending. */
  predicate VlanGrants(cbs: seq<Callback>)
    decreases cbs
  {
    cbs != [] && if cbs[0].VlanCallback? then cbs[0].vid in cbs[0].allowed else VlanGrants(cbs[1..])
  }

  lemma {:induction false} VlanOnlyAnswered(cbs: seq<Callback>)
    ensures Answers(Changed(true, false, false), cbs) != [] <==> VlanGrants(cbs)
  {
    if cbs != [] {
      if cbs[0].VlanCallback? {
        SettledStaysSettled(cbs[1..]);
      } else {
        VlanOnlyAnswered(cbs[1..]);
      }
    }
  }

  lemma {:induction false} OtherIsNeverAnswered(c: Changed, cbs: seq<Callback>)
    requires c.other || c == NOTHING
    ensures Answers(c, cbs) == []
    decreases cbs
  {
    if cbs != [] {
      OtherIsNeverAnswered(After(c, cbs[0]).0, cbs[1..]);
    }
  }

  /**
   Exactly when callbacks answer a pending request. One that waits for a mode
   is answered only if the mode comes first: a VLAN callback forgets it. One
   that waits for a VLAN, or still does when the mode was granted, is answered
   only if the first VLAN callback allows that VLAN. Others never are.
   */
  lemma AnsweredIff(c: Changed, cbs: seq<Callback>)
    ensures Answers(c, cbs) != [] <==>
            && !c.other && cbs != []
            && if c.rxMode then
                 cbs[0].RxCallback? && (!(RxPart(cbs[0].reqd) <= cbs[0].rx) || !c.vlanAdd || VlanGrants(cbs[1..]))
               else
                 c.vlanAdd && VlanGrants(cbs)
  {
    if c.other || !(c.rxMode || c.vlanAdd) {
      OtherIsNeverAnswered(c, cbs);
    } else if !c.rxMode {
      VlanOnlyAnswered(cbs);
    } else if cbs != [] {
      SettledStaysSettled(cbs[1..]);
      VlanOnlyAnswered(cbs[1..]);
    }
  }

  /** An answer about the receive mode authorises exactly when it grants every privilege that was asked for. */
  lemma AuthorisedIffCovered(c: Changed, modes: set<RxMode>, workaround: bool, reqd: set<Privilege>, ok: bool)
    ensures var rx := PrivMask(modes, workaround);
      forall a :: a in AfterRxMode(c, rx, reqd, ok).1 ==>
        && (a.authorized <==> reqd <= a.mask)
        && RxPart(a.mask) == rx
  {
    var rx := PrivMask(modes, workaround);
    assert RxPart(rx) == rx;
    assert RxPart(rx + (reqd - RxPart(reqd))) == rx;
  }

  /** A request's handle and index, packed into the 64-bit value that callbacks carry. */
  function Pack(handle: bv64, index: bv64): bv64 {
    (handle << 32) | ((index & 0xffff) << 16)
  }

  /** Unpacking gives handle and index back exactly when the index fits 16 bits. */
  lemma PackRoundTrip(handle: bv64, index: bv64)
    requires handle <= 0xffff_ffff
    ensures (Pack(handle, index) >> 32) & 0xffff_ffff == handle
    ensures (Pack(handle, index) >> 16) & 0xffff == index <==> index <= 0xffff
  {
  }
}
