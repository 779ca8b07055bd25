/** The receive queue: refill, completion events, delivery, delayed refill and flush. */
module RxQueue {
  import opened Seqs
  import opened Words
  import opened RxRing
  import opened RxFlow

  /** Buffers posted to the hardware at a time (SFVMK_REFILL_BATCH). */
  const REFILL_BATCH: nat := 64

  /** Completions gathered before they are processed (SFVMK_RX_BATCH). */
  const RX_BATCH: nat := 128

  datatype QueueState = Initialized | Started | Stopping

  /** What comes of an attempt to get a buffer: none, one that cannot be used, or one that is mapped. */
  datatype Alloc = NoBuffer | Unusable(pkt: nat) | Good(pkt: nat, ioAddr: nat)

  predicate ValidAlloc(a: Alloc) {
    !a.NoBuffer? ==> a.pkt != 0
  }

  /** The buffers that a refill with room for `room` gets: as many as come without failure. */
  function Got(allocs: seq<Alloc>, room: nat): (k: nat)
    ensures k <= room && k <= |allocs|
    ensures forall j :: 0 <= j < k ==> allocs[j].Good?
    ensures k < room && k < |allocs| ==> !allocs[k].Good?
    decreases room
  {
    if room == 0 || allocs == [] || !allocs[0].Good? then 0
    else
      var k := Got(allocs[1..], room - 1);
      assert forall j :: 0 <= j < 1 + k ==> allocs[j].Good? by {
        assert forall j :: 0 < j < 1 + k ==> allocs[j] == allocs[1..][j - 1];
      }
      1 + k
  }

  /** The buffer that ended a refill, if there was one. */
  function Bounced(allocs: seq<Alloc>, room: nat): seq<nat> {
    var k := Got(allocs, room);
    if k < room && k < |allocs| && allocs[k].Unusable? then [allocs[k].pkt] else []
  }

  function PktsOf(allocs: seq<Alloc>): (ps: seq<nat>)
    requires forall j :: 0 <= j < |allocs| ==> allocs[j].Good?
  {
    if allocs == [] then [] else PktsOf(allocs[..|allocs| - 1]) + [allocs[|allocs| - 1].pkt]
  }

  lemma PktsOfOneMore(allocs: seq<Alloc>, k: nat)
    requires k < |allocs| && forall j :: 0 <= j <= k ==> allocs[j].Good?
    ensures PktsOf(allocs[..k + 1]) == PktsOf(allocs[..k]) + [allocs[k].pkt]
  {
    CutAt(allocs, k);
  }

  /** Where the refill loop stops is where the buffers stop coming. */
  lemma StopsAtGot(allocs: seq<Alloc>, room: nat, p: nat)
    requires p <= room && p <= |allocs| && forall j :: 0 <= j < p ==> allocs[j].Good?
    requires p == room || p == |allocs| || !allocs[p].Good?
    ensures p == Got(allocs, room)
  {
  }

  /** The packets of buffers that could be had, usable or not. */
  function PktsHad(allocs: seq<Alloc>): seq<nat> {
    if allocs == [] then []
    else
      var n := |allocs| - 1;
      PktsHad(allocs[..n]) + if allocs[n].NoBuffer? then [] else [allocs[n].pkt]
  }

  lemma {:induction false} GoodWereHad(allocs: seq<Alloc>)
    requires forall j :: 0 <= j < |allocs| ==> allocs[j].Good?
    ensures PktsHad(allocs) == PktsOf(allocs)
  {
    if allocs != [] {
      GoodWereHad(allocs[..|allocs| - 1]);
    }
  }

  /** Every buffer that a refill gets goes into the ring or is given back; it stops at the first that is not good. */
  lemma NoBufferIsLost(allocs: seq<Alloc>, room: nat)
    ensures var k := Got(allocs, room);
      var tried := if k < room && k < |allocs| then k + 1 else k;
      && PktsOf(allocs[..k]) + Bounced(allocs, room) == PktsHad(allocs[..tried])
      && |Bounced(allocs, room)| <= 1
  {
    var k := Got(allocs, room);
    GoodWereHad(allocs[..k]);
    AppendNothing(PktsOf(allocs[..k]));
    if k < room && k < |allocs| {
      CutAt(allocs, k);
      assert allocs[..k + 1][..k] == allocs[..k];
    }
  }

  /** A packet that has left the ring, and what became of it. */
  datatype Gone = Gone(pkt: nat, outcome: Outcome)

  function GonePkts(g: seq<Gone>): seq<nat> {
    if g == [] then [] else GonePkts(g[..|g| - 1]) + [g[|g| - 1].pkt]
  }

  /** What becomes of the packets in slots `w`, judged one by one. */
  function Judged(w: seq<RxDesc>, infos: seq<PktInfo>, cfg: RxConfig): (g: seq<Gone>)
    requires |w| <= |infos|
    ensures |g| == |w|
  {
    if w == [] then []
    else
      var n := |w| - 1;
      Judged(w[..n], infos, cfg) + [Gone(w[n].pkt, Judge(w[n], infos[n], cfg))]
  }

  lemma JudgedOneMore(w: seq<RxDesc>, infos: seq<PktInfo>, cfg: RxConfig, k: nat)
    requires k < |w| && k < |infos|
    ensures Judged(w[..k + 1], infos, cfg) == Judged(w[..k], infos, cfg) + [Gone(w[k].pkt, Judge(w[k], infos[k], cfg))]
  {
    CutAt(w, k);
  }

  lemma GoneOneMore(g: seq<Gone>, x: Gone)
    ensures GonePkts(g + [x]) == GonePkts(g) + [x.pkt]
  {
  }

  lemma OldestPkt(w: seq<RxDesc>)
    requires w != []
    ensures Pkts(w) == [w[0].pkt] + Pkts(w[1..])
  {
    CutFirst(w);
    PktsAppend([w[0]], w[1..]);
    PktsOne(w[0]);
  }

  lemma {:induction false} JudgedAt(w: seq<RxDesc>, infos: seq<PktInfo>, cfg: RxConfig, j: nat)
    requires j < |w| <= |infos|
    ensures Judged(w, infos, cfg)[j] == Gone(w[j].pkt, Judge(w[j], infos[j], cfg))
  {
    if j < |w| - 1 {
      JudgedAt(w[..|w| - 1], infos, cfg, j);
    }
  }

  /** The size of an event is kept in 16 bits. */
  function Cut16(size: nat): (r: nat)
    ensures r < 0x1_0000 && (size < 0x1_0000 ==> r == size)
  {
    size % 0x1_0000
  }

  /** The slots `i` to `j` with what an event says of them. */
  function Noted(w: seq<RxDesc>, i: int, j: int, size: int, flags: Flags): (r: seq<RxDesc>)
    ensures |r| == |w|
    ensures forall k :: 0 <= k < |w| ==> r[k] == if i <= k < j then w[k].(size := size, flags := flags) else w[k]
  {
    seq(|w|, k requires 0 <= k < |w| => if i <= k < j then w[k].(size := size, flags := flags) else w[k])
  }

  class Rxq {
    const cfg: RxConfig
    const numDesc: nat
    const limit: nat
    const refillThreshold: nat
    const mem: RxMem
    var state: QueueState
    var added: u32
    var pushed: u32
    var pending: u32
    var completed: u32
    var exception: bool
    // Refills asked of the helper, and events by which it passed them on.
    var requests: nat
    var events: nat

    // Counters as if they never wrapped; the others are `mem.base` and `Added()`.
    ghost var gPushed: nat
    ghost var gPending: nat
    // The life of the queue: packets that entered the ring, that were given
    // back before entering it, and that left it.
    ghost var entered: seq<nat>
    ghost var bounced: seq<nat>
    ghost var gone: seq<Gone>

    ghost function Added(): nat
      reads mem`base, mem`window
    {
      mem.base + |mem.window|
    }

    ghost predicate Sized() {
      && mem.n == numDesc && IsPow2(numDesc) && numDesc <= TWO32 && 2 <= limit < numDesc
      && refillThreshold == limit * 9 / 10
    }

    ghost predicate Counters()
      reads this`added, this`pushed, this`pending, this`completed, this`gPushed, this`gPending, mem`base, mem`window
    {
      && mem.base <= gPending <= gPushed <= Added() <= mem.base + limit
      && Added() - gPushed < refillThreshold
      && added == Wrap(Added()) && pushed == Wrap(gPushed)
      && pending == Wrap(gPending) && completed == Wrap(mem.base)
    }

    /** Every packet that entered the ring is in the window or has left it, in order and once. */
    ghost predicate Conserved()
      reads this`entered, this`gone, mem`window
    {
      entered == GonePkts(gone) + Pkts(mem.window)
    }

    /** Slots that no event has reported are marked to be discarded. */
    ghost predicate Marked()
      reads this`gPending, mem`base, mem`window
      requires mem.base <= gPending
    {
      forall j :: gPending - mem.base <= j < |mem.window| ==> mem.window[j].flags.discard
    }

    ghost predicate Valid()
      reads this, mem, mem.queue
    {
      Sized() && mem.Valid() && Counters() && Conserved() && Marked()
    }

    /** How well the queue is supplied. */
    ghost function Flow(): Flow
      reads this`gPushed, this`gPending, this`requests, this`events, mem`base
      requires mem.base <= gPushed && mem.base <= gPending
    {
      RxFlow.Flow.Flow(gPushed - mem.base, gPending - mem.base, requests, events)
    }

    /** A start: the ring is empty, and filled as far as buffers can be had. */
    constructor (cfg: RxConfig, numDesc: nat, limit: nat, allocs: seq<Alloc>, unpushed: nat, submitOk: bool)
      requires IsPow2(numDesc) && numDesc <= TWO32 && 2 <= limit < numDesc
      requires unpushed < limit * 9 / 10 && forall j :: 0 <= j < |allocs| ==> ValidAlloc(allocs[j])
      ensures Valid() && state == Started && !exception && mem.base == gPending == 0
      ensures this.cfg == cfg && this.numDesc == numDesc && this.limit == limit
      ensures |mem.window| == Got(allocs, limit) && entered == PktsOf(allocs[..Got(allocs, limit)])
      ensures bounced == Bounced(allocs, limit) && gone == []
      ensures Filled(RxFlow.Flow.Flow(0, 0, 0, 0), Flow(), submitOk)
      ensures fresh(mem) && fresh(mem.queue)
    {
      hide RxMem.Valid, IsPow2, Got, PktsOf, Bounced, Judge;
      this.cfg, this.numDesc, this.limit, refillThreshold := cfg, numDesc, limit, limit * 9 / 10;
      mem := new RxMem(numDesc);
      state, added, pushed, pending, completed := Started, 0, 0, 0, 0;
      exception, requests, events := false, 0, 0;
      gPushed, gPending, entered, bounced, gone := 0, 0, [], [], [];
      new;
      AppendNothing(PktsOf(allocs[..Got(allocs, limit)]));
      AppendNothing(Bounced(allocs, limit));
      Fill(allocs, unpushed, submitOk);
    }

    ghost predicate Marked0()
      reads this`gPending, mem`base, mem`window
    {
      mem.base <= gPending && Marked()
    }

    /** Takes one buffer into the ring; it is posted to the hardware with the batch it belongs to. */
    method AddBuffer(pkt: nat, ioAddr: nat, batch: nat)
      requires Sized() && mem.Valid() && Conserved() && Marked0() && |mem.window| < limit && pkt != 0
      requires mem.base <= gPending <= Added() && batch <= |mem.window| && added == Wrap(Added() - batch)
      modifies this`entered, mem`view, mem`window, mem.queue
      ensures mem.Valid() && Conserved() && Marked0()
      ensures mem.window == old(mem.window) + [RxDesc(UNREPORTED, cfg.bufferSize, pkt, ioAddr)]
      ensures entered == old(entered) + [pkt]
    {
      hide RxMem.Valid;
      var first := SlotOf(added, numDesc, Added() - batch);
      var id := SlotAfter(first, batch, numDesc, Added() - batch);
      var d := RxDesc(UNREPORTED, cfg.bufferSize, pkt, ioAddr);
      PktsAppend(mem.window, [d]);
      PktsOne(d);
      Regroup(GonePkts(gone), Pkts(mem.window), [pkt]);
      mem.Add(id, d);
      entered := entered + [pkt];
    }

    /** The refill loop: buffers go to the hardware in batches, `added` moves with each batch. */
    method FillSlots(allocs: seq<Alloc>, room: nat) returns (posted: nat)
      requires Sized() && mem.Valid() && Conserved() && Marked0() && added == Wrap(Added())
      requires mem.base <= gPending <= Added() && |mem.window| + room <= limit
      requires forall j :: 0 <= j < |allocs| ==> ValidAlloc(allocs[j])
      modifies this`added, this`entered, mem`view, mem`window, mem.queue
      ensures mem.Valid() && Conserved() && Marked0() && added == Wrap(Added())
      ensures posted == Got(allocs, room) && |mem.window| == |old(mem.window)| + posted
      ensures entered == old(entered) + PktsOf(allocs[..posted])
    {
      hide RxMem.Valid, Conserved;
      posted := 0;
      var batch := 0;
      AppendNothing(entered);
      while posted < room && posted < |allocs| && allocs[posted].Good?
        invariant posted <= room && posted <= |allocs| && batch <= posted
        invariant forall j :: 0 <= j < posted ==> allocs[j].Good?
        invariant mem.Valid() && Conserved() && Marked0() && added == Wrap(Added() - batch)
        invariant |mem.window| == |old(mem.window)| + posted
        invariant entered == old(entered) + PktsOf(allocs[..posted])
      {
        PktsOfOneMore(allocs, posted);
        Regroup(old(entered), PktsOf(allocs[..posted]), [allocs[posted].pkt]);
        AddBuffer(allocs[posted].pkt, allocs[posted].ioAddr, batch);
        batch := batch + 1;
        if batch == REFILL_BATCH {
          WrapOfSum(Added() - batch, batch);
          added := Add32(added, batch);
          batch := 0;
        }
        posted := posted + 1;
      }
      if batch != 0 {
        WrapOfSum(Added() - batch, batch);
        added := Add32(added, batch);
      }
      StopsAtGot(allocs, room, posted);
    }

    /** How many buffers the ring takes. */
    method Room() returns (room: nat)
      requires Sized() && Counters()
      ensures room == limit - |mem.window|
    {
      DistanceOfWrapped(mem.base, Added());
      room := limit - Sub32(added, completed);
    }

    /** Asks the helper for a refill if the hardware has no buffer; `ok` tells whether the request can be submitted. */
    method ScheduleRefill(ok: bool)
      requires Sized() && Counters()
      modifies this`requests
      ensures requests == old(requests) + if gPushed == mem.base && ok then 1 else 0
    {
      DistanceOfWrapped(mem.base, gPushed);
      if pushed == completed && ok {
        requests := requests + 1;
      }
    }

    /** A buffer that cannot be used ends the refill; it is given back at once. */
    method GiveBack(allocs: seq<Alloc>, posted: nat, room: nat)
      requires posted == Got(allocs, room)
      modifies this`bounced
      ensures bounced == old(bounced) + Bounced(allocs, room)
    {
      if posted < room && posted < |allocs| && allocs[posted].Unusable? {
        bounced := bounced + [allocs[posted].pkt];
      } else {
        AppendNothing(bounced);
      }
    }

    /** Pushes what was posted, all but the last `unpushed`; nothing already pushed is taken back. */
    method Push(unpushed: nat)
      requires gPushed <= Added() < gPushed + TWO32 && added == Wrap(Added()) && pushed == Wrap(gPushed)
      modifies this`pushed, this`gPushed
      ensures old(gPushed) <= gPushed <= Added() && pushed == Wrap(gPushed)
      ensures Added() - gPushed <= unpushed
    {
      DistanceOfWrapped(gPushed, Added());
      if Sub32(added, pushed) > unpushed {
        WrapOfSum(gPushed, Sub32(added, pushed) - unpushed);
        pushed := Add32(pushed, Sub32(added, pushed) - unpushed);
        gPushed := Added() - unpushed;
      }
    }

    /** A refill of a started queue. */
    method Refill(allocs: seq<Alloc>, unpushed: nat, submitOk: bool)
      requires Valid() && unpushed < refillThreshold
      requires forall j :: 0 <= j < |allocs| ==> ValidAlloc(allocs[j])
      modifies this`added, this`pushed, this`gPushed, this`requests, this`entered, this`bounced
      modifies mem`view, mem`window, mem.queue
      ensures Valid() && old(gPushed) <= gPushed
      ensures var room := limit - |old(mem.window)|;
        var k := Got(allocs, room);
        && |mem.window| == |old(mem.window)| + k
        && entered == old(entered) + PktsOf(allocs[..k])
        && bounced == old(bounced) + Bounced(allocs, room)
      ensures requests == old(requests) + if gPushed == mem.base && submitOk then 1 else 0
    {
      hide RxMem.Valid, Conserved, Got, PktsOf, Bounced, IsPow2, Judge;
      var room := Room();
      var posted := FillSlots(allocs, room);
      GiveBack(allocs, posted, room);
      Push(unpushed);
      ScheduleRefill(submitOk);
    }

    /**
     Fills the ring up to the limit, as far as buffers can be had. The hardware
     may be left with up to `unpushed` buffers not pushed yet.
     */
    method Fill(allocs: seq<Alloc>, unpushed: nat, submitOk: bool)
      requires Valid() && unpushed < refillThreshold
      requires forall j :: 0 <= j < |allocs| ==> ValidAlloc(allocs[j])
      modifies this`added, this`pushed, this`gPushed, this`requests, this`entered, this`bounced
      modifies mem`view, mem`window, mem.queue
      ensures Valid() && old(gPushed) <= gPushed && old(Added()) <= Added()
      ensures state == Started ==>
                var room := limit - |old(mem.window)|;
                var k := Got(allocs, room);
                && |mem.window| == |old(mem.window)| + k
                && entered == old(entered) + PktsOf(allocs[..k])
                && bounced == old(bounced) + Bounced(allocs, room)
      ensures state != Started ==> mem.window == old(mem.window) && entered == old(entered) && bounced == old(bounced)
      ensures state == Started ==> Filled(old(Flow()), Flow(), submitOk)
      ensures state != Started ==> gPushed == old(gPushed) && requests == old(requests)
    {
      hide RxMem.Valid, Conserved, Marked, Got, PktsOf, Bounced, IsPow2, Judge;
      if state == Started {
        Refill(allocs, unpushed, submitOk);
      }
    }

    /** The completion loop: slots up to `pending` are still to be processed. */
    ghost predicate Completing(c: u32)
      reads this`entered, this`gone, this`gPending, mem`base, mem`view, mem`window, mem.queue
    {
      && Sized() && mem.Valid() && Conserved()
      && mem.base <= gPending <= Added() && c == Wrap(mem.base)
    }

    /** Processes the oldest slot: its packet is delivered or released. */
    method CompleteOne(c: u32, info: PktInfo) returns (next: u32)
      requires Completing(c) && mem.base < gPending
      modifies this`gone, mem`base, mem`view, mem`window, mem.queue
      ensures Completing(next) && mem.base == old(mem.base) + 1 && mem.window == old(mem.window)[1..]
      ensures var d, slot := old(mem.window)[0], RingSlot(old(mem.base), numDesc);
        && gone == old(gone) + [Gone(d.pkt, Judge(d, info, cfg))]
        && slot < mem.queue.Length && Emptied(mem.queue[slot], d, Judge(d, info, cfg).Delivered?)
      ensures forall k :: 0 <= k < mem.queue.Length && k != RingSlot(old(mem.base), numDesc) ==>
                mem.queue[k] == old(mem.queue[k])
    {
      hide RxMem.Valid;
      OldestPkt(mem.window);
      WrapOfSum(mem.base, 1);
      var id := SlotOf(c, numDesc, mem.base);
      var d := mem.Oldest(id);
      var outcome := Judge(d, info, cfg);
      mem.Retire(id, outcome.Delivered?);
      GoneOneMore(gone, Gone(d.pkt, outcome));
      Regroup(GonePkts(gone), [d.pkt], Pkts(mem.window));
      gone := gone + [Gone(d.pkt, outcome)];
      next := Add32(c, 1);
    }

    method CompleteSlots(infos: seq<PktInfo>) returns (c: u32)
      requires Completing(completed) && pending == Wrap(gPending) && Added() <= mem.base + limit
      requires |infos| >= gPending - mem.base
      modifies this`gone, mem`base, mem`view, mem`window, mem.queue
      ensures Completing(c) && mem.base == gPending && c == pending
      ensures var k := gPending - old(mem.base);
        && k <= |old(mem.window)|
        && mem.window == old(mem.window)[k..]
        && gone == old(gone) + Judged(old(mem.window)[..k], infos, cfg)
    {
      hide RxMem.Valid, Conserved, Judge;
      ghost var base0, w0, g0 := mem.base, mem.window, gone;
      var k := 0;
      c := completed;
      AppendNothing(g0);
      while c != pending
        invariant Completing(c) && mem.base == base0 + k && k <= |w0|
        invariant mem.window == w0[k..] && gone == g0 + Judged(w0[..k], infos, cfg)
        decreases gPending - mem.base
      {
        CutAt(w0, k);
        JudgedOneMore(w0, infos, cfg, k);
        Regroup(g0, Judged(w0[..k], infos, cfg), [Gone(w0[k].pkt, Judge(w0[k], infos[k], cfg))]);
        DistanceOfWrapped(mem.base, gPending);
        c := CompleteOne(c, infos[k]);
        k := k + 1;
      }
      DistanceOfWrapped(mem.base, gPending);
    }

    /**
     Processes everything reported: each packet is delivered or released, as
     judged by what its event and its contents say; then the ring is filled
     again if it has run low.
     */
    method Complete(infos: seq<PktInfo>, allocs: seq<Alloc>, unpushed: nat, submitOk: bool)
      requires Valid() && |infos| >= gPending - mem.base && unpushed < refillThreshold
      requires forall j :: 0 <= j < |allocs| ==> ValidAlloc(allocs[j])
      modifies this`completed, this`gone
      modifies this`added, this`pushed, this`gPushed, this`requests, this`entered, this`bounced
      modifies mem`base, mem`view, mem`window, mem.queue
      ensures Valid() && mem.base == gPending && Added() >= old(Added())
      ensures gone == old(gone) + Judged(old(mem.window)[..gPending - old(mem.base)], infos, cfg)
      ensures var left := |old(mem.window)| - (gPending - old(mem.base));
        if state == Started && left < refillThreshold then
          var k := Got(allocs, limit - left);
          && |mem.window| == left + k
          && entered == old(entered) + PktsOf(allocs[..k])
          && bounced == old(bounced) + Bounced(allocs, limit - left)
        else
          |mem.window| == left && entered == old(entered) && bounced == old(bounced)
      ensures state == Started ==> Completed(old(Flow()), Flow(), submitOk)
    {
      hide RxMem.Valid, Judge, Judged, Conserved, Got, PktsOf, Bounced;
      var c := CompleteSlots(infos);
      completed := c;
      DistanceOfWrapped(mem.base, Added());
      var level := Sub32(added, completed);
      if level < refillThreshold {
        Fill(allocs, unpushed, submitOk);
      }
    }

    /** Moves `pending` past the buffer that an event names. */
    method Advance(id: nat, ghost g: nat) returns (slot: nat, delta: nat)
      requires Sized() && Counters() && Marked() && id == RingSlot(g, numDesc) && gPending - 1 <= g < gPushed
      modifies this`pending, this`gPending
      ensures Counters() && Marked() && gPending == g + 1
      ensures slot == RingSlot(old(gPending), numDesc) && delta == g + 1 - old(gPending)
    {
      DeltaCountsCompletions(gPending, g, numDesc);
      delta := Delta(pending, id, numDesc);
      slot := SlotOf(pending, numDesc, gPending);
      WrapOfSum(gPending, delta);
      pending, gPending := Add32(pending, delta), gPending + delta;
    }

    /**
     Writes size and flags into the slots from `first`, that of counter `p`, to
     `stop`, `delta` further on: the loop visits each of them once, although
     the slots wrap around.
     */
    method RecordAll(first: nat, stop: nat, size: int, flags: Flags, ghost p: nat, ghost delta: nat)
      requires mem.Valid() && mem.n == numDesc && mem.base <= p && p + delta <= Added() && delta < numDesc
      requires first == RingSlot(p, numDesc) && stop == RingSlot(p + delta, numDesc)
      modifies mem`view, mem`window, mem.queue
      ensures mem.Valid() && |mem.window| == |old(mem.window)| && Pkts(mem.window) == old(Pkts(mem.window))
      ensures mem.window == Noted(old(mem.window), p - mem.base, p + delta - mem.base, size, flags)
    {
      hide RxMem.Backed, Holds;
      ghost var w, i := mem.window, 0;
      var id := first;
      while id != stop
        invariant i <= delta && id == RingSlot(p + i, numDesc)
        invariant mem.Valid() && |mem.window| == |w| && Pkts(mem.window) == Pkts(w)
        invariant forall j :: 0 <= j < |w| ==>
                    mem.window[j] == if p <= mem.base + j < p + i then w[j].(size := size, flags := flags) else w[j]
        decreases delta - i
      {
        ghost var j := p + i - mem.base;
        PktsUpdate(mem.window, j, mem.window[j].(size := size, flags := flags));
        mem.Record(id, size, flags, j);
        id := SlotAfter(id, 1, numDesc, p + i);
        i := i + 1;
      }
      if i < delta {
        DistinctSlots(p + i, p + delta, numDesc);
      }
    }

    /**
     Takes note of a completion event: `id` is the slot of the last buffer
     filled. `g` is its counter; the event names a buffer that was pushed and
     not reported before, or repeats the last report.
     */
    method Note(id: nat, size: nat, flags: Flags, batchMax: nat, ghost g: nat) returns (noted: bool)
      requires Valid() && id == RingSlot(g, numDesc) && gPending - 1 <= g < gPushed
      modifies this`pending, this`gPending, this`exception, mem`view, mem`window, mem.queue
      ensures Valid() && Pkts(mem.window) == old(Pkts(mem.window))
      ensures noted == (!exception && state == Started)
      ensures old(exception) || state != Started ==> gPending == old(gPending) && exception == old(exception)
      ensures !old(exception) && state == Started ==>
                && gPending == g + 1
                && (exception <==> g + 1 == old(gPending) || g + 1 - old(gPending) > batchMax)
      ensures mem.window == if !noted then old(mem.window)
                            else Noted(old(mem.window), old(gPending) - mem.base, g + 1 - mem.base, Cut16(size), flags)
    {
      hide RxMem.Valid, IsPow2, Pkts, GonePkts;
      if exception || state != Started {
        return false;
      }
      ghost var p := gPending;
      var slot, delta := Advance(id, g);
      if delta == 0 || delta > batchMax {
        exception := true;
        return false;
      }
      var stop := SlotAfter(id, 1, numDesc, g);
      RecordAll(slot, stop, Cut16(size), flags, p, g + 1 - p);
      noted := true;
    }

    /** A completion event, and the completion that follows when a batch has gathered. */
    method EvRx(id: nat, size: nat, flags: Flags, batchMax: nat, ghost g: nat,
                infos: seq<PktInfo>, allocs: seq<Alloc>, unpushed: nat, submitOk: bool)
      requires Valid() && id == RingSlot(g, numDesc) && gPending - 1 <= g < gPushed
      requires |infos| >= numDesc && unpushed < refillThreshold
      requires forall j :: 0 <= j < |allocs| ==> ValidAlloc(allocs[j])
      modifies this`pending, this`gPending, this`exception, this`completed, this`gone
      modifies this`added, this`pushed, this`gPushed, this`requests, this`entered, this`bounced
      modifies mem`base, mem`view, mem`window, mem.queue
      ensures Valid()
      ensures old(exception) || state != Started ==> gPending == old(gPending) && exception == old(exception)
      ensures !old(exception) && state == Started ==>
                && gPending == g + 1
                && (exception <==> g + 1 == old(gPending) || g + 1 - old(gPending) > batchMax)
      ensures var noted := !exception && state == Started;
        var i, j := old(gPending) - old(mem.base), g + 1 - old(mem.base);
        var w := if noted then Noted(old(mem.window), i, j, Cut16(size), flags) else old(mem.window);
        if noted && g + 1 - old(mem.base) >= RX_BATCH then
          && mem.base == g + 1 && gone == old(gone) + Judged(w[..g + 1 - old(mem.base)], infos, cfg)
          && Completed(old(Flow()).(reported := g + 1 - old(mem.base)), Flow(), submitOk)
        else
          && mem.base == old(mem.base) && mem.window == w && gone == old(gone)
          && (old(!exception) && state == Started ==> Reported(old(Flow()), Flow()))
    {
      hide RxMem.Valid, Pkts, Conserved, Marked, Judged, Noted, Got, PktsOf, Bounced;
      var noted := Note(id, size, flags, batchMax, g);
      DistanceOfWrapped(mem.base, gPending);
      if noted && Sub32(pending, completed) >= RX_BATCH {
        Complete(infos, allocs, unpushed, submitOk);
      }
    }

    /** The helper runs a refill request: it posts an event to the queue, if the queue is started. */
    method RefillHelper()
      requires requests > 0
      modifies this`requests, this`events
      ensures requests == old(requests) - 1 && events == old(events) + if state == Started then 1 else 0
      ensures mem.base <= gPushed && mem.base <= gPending && state == Started ==> Helped(old(Flow()), Flow())
    {
      requests := requests - 1;
      if state == Started {
        events := events + 1;
      }
    }

    /** The event that the helper posted arrives, and the ring is filled. */
    method EvSoftware(allocs: seq<Alloc>, unpushed: nat, submitOk: bool)
      requires Valid() && events > 0 && unpushed < refillThreshold
      requires forall j :: 0 <= j < |allocs| ==> ValidAlloc(allocs[j])
      modifies this`events, this`added, this`pushed, this`gPushed, this`requests, this`entered, this`bounced
      modifies mem`view, mem`window, mem.queue
      ensures Valid() && events == old(events) - 1 && Added() >= old(Added())
      ensures state == Started ==> Arrived(old(Flow()), Flow(), submitOk)
    {
      hide RxMem.Valid, Conserved, Got;
      events := events - 1;
      Fill(allocs, unpushed, submitOk);
    }

    /**
     The end of a queue that is being stopped: everything in the ring counts as
     reported, and every packet leaves it. A packet that no event has reported
     is released, not delivered.
     */
    method FlushAndReset(infos: seq<PktInfo>)
      requires Valid() && state == Stopping && |infos| >= |mem.window|
      modifies this`state, this`pending, this`gPending, this`completed, this`gone, this`added, this`pushed, this`gPushed
      modifies mem`base, mem`view, mem`window, mem.queue
      ensures state == Initialized && mem.window == [] && added == pushed == pending == completed == 0
      ensures entered == GonePkts(gone) && gone == old(gone) + Judged(old(mem.window), infos, cfg)
      ensures forall j :: old(gPending) - old(mem.base) <= j < |old(mem.window)| ==>
                Judged(old(mem.window), infos, cfg)[j].outcome == Discarded
    {
      hide RxMem.Valid;
      ghost var w, marked := mem.window, gPending - mem.base;
      forall j | marked <= j < |w|
        ensures Judged(w, infos, cfg)[j].outcome == Discarded
      {
        JudgedAt(w, infos, cfg, j);
      }
      pending, gPending := added, Added();
      var c := CompleteSlots(infos);
      completed := c;
      assert w[..|w|] == w;
      AppendNothing(GonePkts(gone));
      added, pushed, pending, completed := 0, 0, 0, 0;
      state := Initialized;
    }
  }
}
