/** The slot array seen from the oldest descriptor in flight. */
module TxRing {
  import opened Seqs
  import opened Words
  import opened Rings
  import opened TxDescriptors
  import opened TxHardware

  function HandlesOf(m: TxMapping): seq<nat> {
    (if m.xmit != 0 then [m.xmit] else []) + (if m.orig != 0 then [m.orig] else [])
  }

  /** Packet addresses held by slots, in order; both of a slot when it holds an original too. */
  function Handles(slots: seq<TxMapping>): seq<nat> {
    if slots == [] then []
    else Handles(slots[..|slots| - 1]) + HandlesOf(slots[|slots| - 1])
  }

  function IoAddrsOf(m: TxMapping): seq<nat> {
    if m.ioAddr != 0 then [m.ioAddr] else []
  }

  /** DMA addresses held by slots. */
  function IoAddrs(slots: seq<TxMapping>): seq<nat> {
    if slots == [] then []
    else IoAddrs(slots[..|slots| - 1]) + IoAddrsOf(slots[|slots| - 1])
  }

  lemma {:induction false} SlotsAppend(a: seq<TxMapping>, b: seq<TxMapping>)
    ensures Handles(a + b) == Handles(a) + Handles(b)
    ensures IoAddrs(a + b) == IoAddrs(a) + IoAddrs(b)
  {
    if b == [] {
      assert a + b == a;
    } else {
      var n := |b| - 1;
      InitOfAppend(a, b);
      SlotsAppend(a, b[..n]);
      Regroup(Handles(a), Handles(b[..n]), HandlesOf(b[n]));
      Regroup(IoAddrs(a), IoAddrs(b[..n]), IoAddrsOf(b[n]));
    }
  }

  lemma SlotsOne(m: TxMapping)
    ensures Handles([m]) == HandlesOf(m) && IoAddrs([m]) == IoAddrsOf(m)
  {
  }

  function Slots(cells: seq<Cell>): (s: seq<TxMapping>)
    ensures |s| == |cells|
  {
    seq(|cells|, i requires 0 <= i < |cells| => cells[i].slot)
  }

  lemma {:induction false} RecordedIsIoAddrs(cells: seq<Cell>)
    ensures IoAddrs(Slots(cells)) == Recorded(cells)
  {
    if cells != [] {
      var n := |cells| - 1;
      assert Slots(cells)[..n] == Slots(cells[..n]);
      RecordedIsIoAddrs(cells[..n]);
    }
  }

  /** A slot that owns no packet. Its DMA address may be left over from a send that failed. */
  predicate NoPacket(m: TxMapping) { m.xmit == 0 && m.orig == 0 }

  lemma {:induction false} NoHandles(slots: seq<TxMapping>)
    requires forall i :: 0 <= i < |slots| ==> NoPacket(slots[i])
    ensures Handles(slots) == []
  {
    if slots != [] {
      NoHandles(slots[..|slots| - 1]);
    }
  }

  /** A closed body owns exactly the packet sent and the original behind it, in that order. */
  lemma HandlesOfClosed(body: seq<Cell>, xmit: nat, orig: nat, max: nat)
    requires IsBody(body, max) && body != [] && xmit != 0
    ensures Handles(Slots(Close(body, xmit, orig))) == [xmit] + (if orig != 0 then [orig] else [])
  {
    var n := |body| - 1;
    var c := Close(body, xmit, orig);
    assert Slots(c)[..n] == Slots(body[..n]);
    NoHandles(Slots(body[..n]));
  }

  /** The view `v` holds the window `w`, then the cells `cs`, then slots that own no packet. */
  predicate Holds(v: seq<TxMapping>, w: seq<TxMapping>, cs: seq<Cell>) {
    && |w| + |cs| <= |v|
    && v[..|w|] == w
    && v[|w|..|w| + |cs|] == Slots(cs)
    && (forall k :: |w| + |cs| <= k < |v| ==> NoPacket(v[k]))
  }

  lemma HoldsOneMore(v: seq<TxMapping>, w: seq<TxMapping>, cs: seq<Cell>, c: Cell)
    requires Holds(v, w, cs) && |w| + |cs| < |v|
    ensures Holds(v[|w| + |cs| := c.slot], w, cs + [c])
  {
    var v' := v[|w| + |cs| := c.slot];
    assert Slots(cs + [c]) == Slots(cs) + [c.slot];
    assert v'[..|w|] == v[..|w|];
    assert v'[|w|..|w| + |cs|] == v[|w|..|w| + |cs|];
    assert v'[|w|..|w| + |cs| + 1] == v'[|w|..|w| + |cs|] + [c.slot];
  }

  /** Once posted, the cells belong to the window. */
  lemma HoldsPosted(v: seq<TxMapping>, w: seq<TxMapping>, cs: seq<Cell>)
    requires Holds(v, w, cs)
    ensures Holds(v, w + Slots(cs), [])
  {
  }

  /** Cells that own no packet can be given up. */
  lemma HoldsFewer(v: seq<TxMapping>, w: seq<TxMapping>, keep: seq<Cell>, tail: seq<Cell>)
    requires Holds(v, w, keep + tail)
    requires forall i :: 0 <= i < |tail| ==> NoPacket(tail[i].slot)
    ensures Holds(v, w, keep) && |w| + |keep| + |tail| <= |v|
  {
    var back := v[|w|..|w| + |keep + tail|];
    assert Slots(keep + tail)[..|keep|] == Slots(keep);
    assert v[|w|..|w| + |keep|] == back[..|keep|];
    forall k | |w| + |keep| <= k < |w| + |keep| + |tail|
      ensures NoPacket(v[k])
    {
      assert v[k] == back[k - |w|] == tail[k - |w| - |keep|].slot;
    }
  }

  /** Writing past the cells keeps the ring in order, as long as no packet is put there. */
  lemma HoldsWithSpare(v: seq<TxMapping>, w: seq<TxMapping>, cs: seq<Cell>, j: nat, m: TxMapping)
    requires Holds(v, w, cs) && |w| + |cs| <= j < |v| && NoPacket(m)
    ensures Holds(v[j := m], w, cs)
  {
  }

  /** Zeroing the oldest slot and moving on by one takes it out of the window. */
  lemma HoldsOldest(v: seq<TxMapping>, w: seq<TxMapping>, cs: seq<Cell>)
    requires Holds(v, w, cs) && w != []
    ensures v != [] && v[0] == w[0]
  {
    assert v[..|w|][0] == w[0];
  }

  lemma HoldsRetired(v: seq<TxMapping>, w: seq<TxMapping>, cs: seq<Cell>)
    requires Holds(v, w, cs) && w != []
    ensures Holds(v[1..] + [EMPTY], w[1..], cs)
  {
    hide Slots;
    var v' := v[1..] + [EMPTY];
    assert v'[..|w| - 1] == v[..|w|][1..];
    assert v'[|w| - 1..|w| - 1 + |cs|] == v[|w|..|w| + |cs|];
  }

  /** The DMA addresses held by entries `j` to `k` of a view. */
  function AddrsFrom(v: seq<TxMapping>, j: nat, k: nat): seq<nat>
    requires j <= k <= |v|
    decreases k - j
  {
    if j == k then [] else IoAddrsOf(v[j]) + AddrsFrom(v, j + 1, k)
  }

  lemma {:induction false} AddrsFromIs(v: seq<TxMapping>, j: nat, k: nat)
    requires j <= k <= |v|
    ensures AddrsFrom(v, j, k) == IoAddrs(v[j..k])
    decreases k - j
  {
    if j < k {
      AddrsFromIs(v, j + 1, k);
      assert v[j..k] == [v[j]] + v[j + 1..k];
      SlotsAppend([v[j]], v[j + 1..k]);
      SlotsOne(v[j]);
    }
  }

  /** The addresses recorded by the last cells, read from the view. */
  lemma TailAddrs(v: seq<TxMapping>, w: seq<TxMapping>, keep: seq<Cell>, tail: seq<Cell>)
    requires Holds(v, w, keep + tail)
    ensures var f := |w| + |keep|;
      AddrsFrom(v, f, f + |tail|) == IoAddrs(Slots(tail))
  {
    hide IoAddrs, AddrsFrom;
    var f := |w| + |keep|;
    assert v[f..f + |tail|] == v[|w|..|w| + |keep + tail|][|keep|..];
    assert Slots(keep + tail)[|keep|..] == Slots(tail);
    AddrsFromIs(v, f, f + |tail|);
  }

  /** A list of live mappings after the one at position `p` was undone. */
  function Undone(live: seq<nat>, p: nat): seq<nat>
    requires p < |live|
  {
    live[..p] + live[p + 1..]
  }

  /**
   The memory of a transmit queue: the slot array, and the descriptors pending
   for the packet at hand. `base` is the counter of the oldest slot in flight,
   `view` the slots from there on, `window` those in flight, `cells` what has
   been built and not posted, and `live` the DMA mappings made and not undone, oldest first.
   */
  class DescRing {
    const n: nat
    const txMap: array<TxMapping>
    const pendDesc: array<Desc>
    var nPendDesc: nat
    ghost var base: nat
    ghost var view: seq<TxMapping>
    ghost var window: seq<TxMapping>
    ghost var cells: seq<Cell>
    ghost var live: seq<nat>

    /** The view is the slot array, read from the oldest slot in flight. */
    ghost predicate Backed()
      reads this`base, this`view, txMap
    {
      txMap.Length == n && |view| == n > 0 && view == Rotated(txMap[..], base)
    }

    ghost predicate Pending()
      reads this`nPendDesc, this`cells, pendDesc
    {
      pendDesc.Length == n && nPendDesc == |cells| <= n && pendDesc[..nPendDesc] == Descs(cells)
    }

    ghost predicate Valid()
      reads this`base, this`view, this`nPendDesc, this`window, this`cells, txMap, pendDesc
    {
      IsPow2(n) && Backed() && Pending() && Holds(view, window, cells)
    }

    lemma PendingCount()
      requires Valid()
      ensures nPendDesc == |cells|
    {
    }

    ghost function Used(): nat
      reads this`window, this`cells
    {
      |window| + |cells|
    }

    /** The slot for the next cell. */
    ghost predicate IsNext(id: nat)
      reads this`base, this`window, this`cells
      requires n > 0
    {
      id == RingSlot(base + Used(), n)
    }

    constructor (n: nat, base: nat)
      requires IsPow2(n)
      ensures Valid() && this.n == n && this.base == base
      ensures window == [] && cells == [] && live == []
      ensures fresh(txMap) && fresh(pendDesc)
    {
      this.n := n;
      txMap := new TxMapping[n](_ => EMPTY);
      pendDesc := new Desc[n](_ => VlanOpt(0));
      nPendDesc, this.base, window, cells, live := 0, base, [], [], [];
      new;
      view := Rotated(txMap[..], base);
      forall k | 0 <= k < n
        ensures view[k] == EMPTY
      {
        RotatedAt(txMap[..], base, k);
      }
    }

    /** Fills the slot that lies `j` entries after the oldest in flight. */
    method PutSlot(id: nat, m: TxMapping, ghost j: nat)
      requires Backed() && j < n && id == RingSlot(base + j, n)
      modifies this`view, txMap
      ensures Backed() && view == old(view)[j := m]
    {
      RotatedUpdate(txMap[..], base, j, m);
      ghost var s := txMap[..];
      txMap[id] := m;
      assert txMap[..] == s[id := m];
      view := view[j := m];
    }

    /** Adds a descriptor to those pending. */
    method PutDesc(desc: Desc)
      requires nPendDesc < pendDesc.Length
      modifies this`nPendDesc, pendDesc
      ensures nPendDesc == old(nPendDesc) + 1
      ensures pendDesc[..nPendDesc] == old(pendDesc[..nPendDesc]) + [desc]
    {
      pendDesc[nPendDesc] := desc;
      nPendDesc := nPendDesc + 1;
    }

    /**
     Writes the slot `id` and the next pending descriptor, as the driver does
     for every descriptor it builds, and moves on to the next slot.
     */
    method Append(id: nat, desc: Desc, slot: TxMapping) returns (next: nat)
      requires Valid() && Used() < n && IsNext(id)
      modifies this`nPendDesc, this`view, this`cells, txMap, pendDesc
      ensures Valid() && cells == old(cells) + [Cell(desc, slot)]
      ensures IsNext(next)
    {
      hide Holds, Rotated;
      ghost var c := Cell(desc, slot);
      HoldsOneMore(view, window, cells, c);
      next := SlotAfter(id, 1, n, base + Used());
      PutSlot(id, slot, Used());
      PutDesc(desc);
      DescsOneMore(cells, c);
      cells := cells + [c];
    }

    /** The slot the next cell will have, as it was left: it may record a stale mapping but no packet. */
    method Peek(id: nat) returns (m: TxMapping)
      requires Valid() && Used() < n && IsNext(id)
      ensures NoPacket(m)
    {
      RotatedAt(txMap[..], base, Used());
      m := txMap[id];
    }

    /** Counts the packets a slot in flight owns. */
    method CountPackets(id: nat, ghost j: nat) returns (k: nat)
      requires Valid() && j < |window| && id == RingSlot(base + j, n)
      ensures k == |HandlesOf(window[j])|
    {
      RotatedAt(txMap[..], base, j);
      assert view[j] == window[j];
      k := (if txMap[id].xmit != 0 then 1 else 0) + (if txMap[id].orig != 0 then 1 else 0);
    }

    /** Undoes the mapping recorded in one slot, and zeroes the slot if told to. */
    method UndoSlot(id: nat, clear: bool, ghost j: nat, ghost front: seq<nat>, ghost rest: seq<nat>)
      requires Backed() && j < n && id == RingSlot(base + j, n)
      requires Holds(view, window, cells) && Used() <= j
      requires live == front + (IoAddrsOf(view[j]) + rest)
      modifies this`live, this`view, txMap
      ensures Backed() && Holds(view, window, cells)
      ensures live == front + rest
      ensures forall k :: 0 <= k < n && k != j ==> view[k] == old(view)[k]
      ensures view[j] == if clear && old(view)[j].ioAddr != 0 then EMPTY else old(view)[j]
    {
      hide Holds, Rotated, Slots;
      RotatedAt(txMap[..], base, j);
      if txMap[id].ioAddr != 0 {
        assert live[|front|] == txMap[id].ioAddr;
        live := Undone(live, |front|);
        if clear {
          HoldsWithSpare(view, window, cells, j, EMPTY);
          PutSlot(id, EMPTY, j);
        }
      }
    }

    /** Undoes the mappings recorded in the `count` slots from `startId` on, `f` entries after the oldest. */
    method UndoSlots(startId: nat, count: nat, clear: bool, ghost f: nat, ghost g: nat, ghost front: seq<nat>)
      requires Backed() && IsPow2(n) && f + count <= n
      requires startId == RingSlot(g, n) && g == base + f
      requires Holds(view, window, cells) && Used() <= f
      requires live == front + AddrsFrom(view, f, f + count)
      modifies this`view, this`live, txMap
      ensures Backed() && Holds(view, window, cells)
      ensures live == front
      // Told to, it clears the slots that recorded a mapping; it changes no others.
      ensures forall k :: 0 <= k < n ==>
                view[k] == if clear && f <= k < f + count && old(view)[k].ioAddr != 0 then EMPTY else old(view)[k]
    {
      hide Holds, Rotated, Slots;
      ghost var v, j, end := view, f, f + count;
      var i := 0;
      while i < count
        invariant i <= count && Backed()
        invariant j == f + i && Holds(view, window, cells)
        invariant forall k :: 0 <= k < n ==>
                    view[k] == if clear && f <= k < j && v[k].ioAddr != 0 then EMPTY else v[k]
        invariant live == front + AddrsFrom(v, j, end)
      {
        ghost var rest := AddrsFrom(v, j + 1, end);
        assert IoAddrsOf(view[j]) + rest == AddrsFrom(v, j, end);
        var id := SlotAfter(startId, i, n, g);
        UndoSlot(id, clear, j, front, rest);
        i, j := i + 1, j + 1;
      }
      AppendNothing(front);
    }

    /**
     Gives up the last `count` cells after a failed mapping: the pending
     descriptors are dropped and the mappings recorded in the slots undone.
     `clear` tells whether the slots are zeroed too.
     */
    method Rollback(startId: nat, count: nat, clear: bool,
                    ghost keep: seq<Cell>, ghost tail: seq<Cell>, ghost front: seq<nat>)
      requires Valid() && cells == keep + tail && count == |tail|
      requires startId == RingSlot(base + (|window| + |keep|), n)
      requires forall i :: 0 <= i < |tail| ==> NoPacket(tail[i].slot)
      requires live == front + IoAddrs(Slots(tail))
      modifies this`nPendDesc, this`view, this`cells, this`live, txMap
      ensures Valid() && cells == keep && live == front
    {
      hide Holds, Rotated, Slots, IoAddrs, AddrsFrom;
      HoldsFewer(view, window, keep, tail);
      TailAddrs(view, window, keep, tail);
      DropDescs(keep, tail);
      FirstOfFirst(pendDesc[..], |keep|, |cells|);
      nPendDesc := nPendDesc - count;
      cells := keep;
      UndoSlots(startId, count, clear, |window| + |keep|, base + (|window| + |keep|), front);
    }

    /** Hands the pending descriptors to the firmware; their slots are then in flight. */
    method Post() returns (ds: seq<Desc>)
      requires Valid()
      modifies this`nPendDesc, this`window, this`cells
      ensures Valid() && ds == Descs(old(cells))
      ensures window == old(window) + Slots(old(cells)) && cells == []
    {
      HoldsPosted(view, window, cells);
      ds := pendDesc[..nPendDesc];
      nPendDesc := 0;
      window, cells := window + Slots(cells), [];
    }

    /** Takes the oldest slot in flight out of the ring and zeroes it. */
    method Retire(id: nat) returns (m: TxMapping)
      requires Valid() && window != [] && id == RingSlot(base, n)
      modifies this`base, this`view, this`window, txMap
      ensures Valid() && base == old(base) + 1
      ensures m == old(window)[0] && window == old(window)[1..]
    {
      hide Holds, Rotated, IsPow2, Slots;
      RotatedAt(txMap[..], base, 0);
      HoldsOldest(view, window, cells);
      m := txMap[id];
      HoldsRetired(view, window, cells);
      ghost var after := view[1..] + [EMPTY];
      PutSlot(id, EMPTY, 0);
      RotatedNext(txMap[..], base);
      assert after == view[1..] + [view[0]];
      base, view, window := base + 1, after, window[1..];
    }
  }
}
