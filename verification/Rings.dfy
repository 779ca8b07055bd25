/** A slot array seen from one of its entries on. */
module Rings {
  import opened Words

  /** The array `s` read `k` entries on, around the ring, starting at the slot of counter `base`. */
  function ReadOn<T>(s: seq<T>, base: nat, k: nat): (v: seq<T>)
    requires |s| > 0
    ensures |v| == k
  {
    if k == 0 then [] else ReadOn(s, base, k - 1) + [s[RingSlot(base + k - 1, |s|)]]
  }

  /** The array `s` read once around, starting at the slot of counter `base`. */
  function Rotated<T>(s: seq<T>, base: nat): (v: seq<T>)
    requires |s| > 0
    ensures |v| == |s|
  {
    ReadOn(s, base, |s|)
  }

  lemma {:induction false} ReadOnAt<T>(s: seq<T>, base: nat, k: nat, i: nat)
    requires |s| > 0 && i < k
    ensures ReadOn(s, base, k)[i] == s[RingSlot(base + i, |s|)]
  {
    if i < k - 1 {
      ReadOnAt(s, base, k - 1, i);
    }
  }

  lemma RotatedAt<T>(s: seq<T>, base: nat, i: nat)
    requires i < |s|
    ensures Rotated(s, base)[i] == s[RingSlot(base + i, |s|)]
  {
    ReadOnAt(s, base, |s|, i);
  }

  /** Writing the slot of counter `base + j` changes entry `j` of the view and no other. */
  lemma RotatedUpdate<T>(s: seq<T>, base: nat, j: nat, m: T)
    requires j < |s|
    ensures Rotated(s[RingSlot(base + j, |s|) := m], base) == Rotated(s, base)[j := m]
  {
    var n := |s|;
    var t := s[RingSlot(base + j, n) := m];
    forall k | 0 <= k < n
      ensures Rotated(t, base)[k] == Rotated(s, base)[j := m][k]
    {
      RotatedAt(t, base, k);
      RotatedAt(s, base, k);
      if k < j { DistinctSlots(base + k, base + j, n); }
      if j < k { DistinctSlots(base + j, base + k, n); }
    }
  }

  /** Moving on by one: the first entry of the view becomes the last. */
  lemma RotatedNext<T>(s: seq<T>, base: nat)
    requires |s| > 0
    ensures Rotated(s, base + 1) == Rotated(s, base)[1..] + [Rotated(s, base)[0]]
  {
    var n := |s|;
    forall k | 0 <= k < n
      ensures Rotated(s, base + 1)[k] == (Rotated(s, base)[1..] + [Rotated(s, base)[0]])[k]
    {
      RotatedAt(s, base + 1, k);
      if k == n - 1 {
        RotatedAt(s, base, 0);
        assert RingSlot(base + n, n) == RingSlot(base, n);
      } else {
        RotatedAt(s, base, k + 1);
        assert base + 1 + k == base + (k + 1);
      }
    }
  }
}
