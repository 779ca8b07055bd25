/**
 Free-running 32-bit counters and ring slots.

 The queues count descriptors with unsigned 32-bit counters that are never
 reduced modulo the ring size; a ring slot is found with `counter & ptrMask`,
 where `ptrMask` is the ring size minus one. This module says what that
 arithmetic means in terms of counters that never wrap.
 */
module Words {

  const TWO32: nat := 0x1_0000_0000

  /** A `vmk_uint32`. */
  type u32 = x: int | 0 <= x < TWO32

  /** The 32-bit image of an unbounded counter. */
  function Wrap(x: int): u32 { x % TWO32 }

  /** Unsigned 32-bit addition. */
  function Add32(a: u32, b: int): u32 { Wrap(a + b) }

  /** Unsigned 32-bit subtraction. */
  function Sub32(a: u32, b: u32): u32 { Wrap(a - b) }

  /** The ISP2 check made on ring sizes. */
  predicate IsPow2(n: nat) {
    n == 1 || (n > 1 && n % 2 == 0 && IsPow2(n / 2))
  }

  /** Bitwise conjunction of two natural numbers. */
  function BitAnd(a: nat, b: nat): nat {
    if a == 0 || b == 0 then 0
    else 2 * BitAnd(a / 2, b / 2) + (if a % 2 == 1 && b % 2 == 1 then 1 else 0)
  }

  /** The slot of a counter in a ring of `n` entries: `counter & (n - 1)`. */
  function Slot(counter: nat, n: nat): nat
    requires n > 0
  {
    BitAnd(counter, n - 1)
  }

  /** The slot of a counter that never wraps, counted off turn by turn. */
  function RingSlot(c: nat, n: nat): (r: nat)
    requires n > 0
    ensures r < n
  {
    if c < n then c else RingSlot(c - n, n)
  }

  lemma {:induction false} MaskOfSmall(x: nat, n: nat)
    requires IsPow2(n) && x < n
    ensures BitAnd(x, n - 1) == x
  {
    if n > 1 && x > 0 {
      assert (n - 1) / 2 == n / 2 - 1;
      MaskOfSmall(x / 2, n / 2);
    }
  }

  lemma {:induction false} MaskOfTurn(x: nat, n: nat)
    requires IsPow2(n)
    ensures BitAnd(x + n, n - 1) == BitAnd(x, n - 1)
  {
    if n > 1 {
      assert (n - 1) / 2 == n / 2 - 1 && (x + n) / 2 == x / 2 + n / 2;
      MaskOfTurn(x / 2, n / 2);
    }
  }

  /** Masking with `n - 1` reduces a counter to its place in the ring, for a power of two. */
  lemma {:induction false} MaskIsRingSlot(x: nat, n: nat)
    requires IsPow2(n)
    ensures BitAnd(x, n - 1) == RingSlot(x, n)
  {
    if x < n {
      MaskOfSmall(x, n);
    } else {
      MaskIsRingSlot(x - n, n);
      MaskOfTurn(x - n, n);
    }
  }

  lemma {:induction false} MaskOfMask(x: nat, m: nat, n: nat)
    requires IsPow2(m) && IsPow2(n) && n <= m
    ensures BitAnd(BitAnd(x, m - 1), n - 1) == BitAnd(x, n - 1)
  {
    if n > 1 && x > 0 {
      assert (n - 1) / 2 == n / 2 - 1 && (m - 1) / 2 == m / 2 - 1;
      MaskOfMask(x / 2, m / 2, n / 2);
      var y := BitAnd(x, m - 1);
      assert y / 2 == BitAnd(x / 2, m / 2 - 1) && y % 2 == x % 2;
    }
  }

  /** Two counters less than a ring apart never share a slot. */
  lemma {:induction false} DistinctSlots(a: nat, b: nat, n: nat)
    requires a < b < a + n
    ensures RingSlot(a, n) != RingSlot(b, n)
  {
    if a >= n {
      DistinctSlots(a - n, b - n, n);
    }
  }

  lemma TwoTo32IsPow2()
    ensures IsPow2(TWO32)
  {
    assert IsPow2(0x100);
    assert IsPow2(0x1_0000);
    assert IsPow2(0x100_0000);
  }

  lemma {:induction false} WrapIsRingSlot(c: nat)
    ensures Wrap(c) == RingSlot(c, TWO32)
  {
    if c >= TWO32 {
      WrapIsRingSlot(c - TWO32);
    }
  }

  /** A wrapped counter selects the same slot as the counter that never wraps. */
  lemma SlotOfWrapped(c: nat, n: nat)
    requires IsPow2(n) && n <= TWO32
    ensures Slot(Wrap(c), n) == RingSlot(c, n)
  {
    TwoTo32IsPow2();
    WrapIsRingSlot(c);
    MaskIsRingSlot(c, TWO32);
    MaskOfMask(c, TWO32, n);
    MaskIsRingSlot(c, n);
  }

  /** The distance of two wrapped counters is their true distance, whenever that fits a word. */
  lemma DistanceOfWrapped(a: nat, b: nat)
    requires a <= b < a + TWO32
    ensures Sub32(Wrap(b), Wrap(a)) == b - a
    ensures Wrap(a) == Wrap(b) <==> a == b
  {
  }

  lemma WrapOfSum(a: nat, d: nat)
    ensures Add32(Wrap(a), d) == Wrap(a + d)
  {
  }

  /**
   The number of descriptors reported by a completion event. The event carries
   the slot `id` of the last descriptor done; `pending` is the counter of the
   first one not yet reported.
   */
  function Delta(pending: u32, id: nat, n: nat): int
    requires n > 0
  {
    var stop := Slot(id + 1, n);
    var first := Slot(pending, n);
    if stop >= first then stop - first else n - first + stop
  }

  lemma {:induction false} RingSlotPlus(g: nat, k: nat, n: nat)
    requires n > 0
    ensures RingSlot(RingSlot(g, n) + k, n) == RingSlot(g + k, n)
  {
    if g >= n {
      RingSlotPlus(g - n, k, n);
    }
  }

  /** Stepping `k` on from a masked slot: `(id + k) & ptrMask`. */
  lemma SlotPlus(g: nat, k: nat, n: nat)
    requires IsPow2(n)
    ensures Slot(RingSlot(g, n) + k, n) == RingSlot(g + k, n)
  {
    MaskIsRingSlot(RingSlot(g, n) + k, n);
    RingSlotPlus(g, k, n);
  }

  /** `(start + k) & ptrMask`, where `start` is the slot of counter `g`. */
  method SlotAfter(start: nat, k: nat, n: nat, ghost g: nat) returns (slot: nat)
    requires IsPow2(n) && start == RingSlot(g, n)
    ensures slot == RingSlot(g + k, n)
  {
    SlotPlus(g, k, n);
    slot := Slot(start + k, n);
  }

  /** `counter & ptrMask`, where `counter` is the word that `g` has wrapped to. */
  method SlotOf(counter: u32, n: nat, ghost g: nat) returns (slot: nat)
    requires IsPow2(n) && n <= TWO32 && counter == Wrap(g)
    ensures slot == RingSlot(g, n)
  {
    SlotOfWrapped(g, n);
    slot := Slot(counter, n);
  }

  /** The forward distance between two slots, for counters less than a turn apart. */
  lemma {:induction false} RingDistance(p: nat, q: nat, n: nat)
    requires n > 0 && p <= q < p + n
    ensures q - p == if RingSlot(q, n) >= RingSlot(p, n) then RingSlot(q, n) - RingSlot(p, n)
                     else n - RingSlot(p, n) + RingSlot(q, n)
  {
    if p >= n {
      RingDistance(p - n, q - n, n);
    } else if q >= n {
      assert RingSlot(q, n) == q - n;
    }
  }

  /**
   When the event names an in-flight descriptor `g`, the computed delta brings
   `pending` to exactly one past `g`. An event that repeats the last report
   (`g == pending - 1`) gives zero.
   */
  lemma DeltaCountsCompletions(pending: nat, g: nat, n: nat)
    requires IsPow2(n) && n <= TWO32
    requires pending - 1 <= g < pending + n - 1
    ensures Delta(Wrap(pending), RingSlot(g, n), n) == g + 1 - pending
  {
    SlotOfWrapped(pending, n);
    SlotPlus(g, 1, n);
    RingDistance(pending, g + 1, n);
  }
}
