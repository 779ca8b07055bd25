/** The lists of adapters: primaries, the secondaries of each, and those without a primary. */
module AdapterLists {
  import opened Seqs

  /** An adapter: a function of a controller. Functions of one controller have one serial number. */
  datatype Adapter = Adapter(id: nat, serial: string, port: nat)

  datatype Option<T> = None | Some(value: T)

  /** The lists, and the primary that each adapter points to, if any. */
  datatype Lists = Lists(primaries: seq<Adapter>, secondary: map<Adapter, seq<Adapter>>,
                         unassociated: seq<Adapter>, primary: map<Adapter, Adapter>)
  {
    function Of(p: Adapter): seq<Adapter> {
      if p in secondary then secondary[p] else []
    }

    function PrimaryOf(a: Adapter): Option<Adapter> {
      if a in primary then Some(primary[a]) else None
    }
  }

  /** The adapters with this serial number, or those without it, in order. */
  function Family(s: seq<Adapter>, serial: string, same: bool): (r: seq<Adapter>)
    ensures forall x :: x in r <==> x in s && (x.serial == serial) == same
  {
    if s == [] then []
    else
      var n := |s| - 1;
      assert s == s[..n] + [s[n]];
      Family(s[..n], serial, same) + if (s[n].serial == serial) == same then [s[n]] else []
  }

  predicate Once(s: seq<Adapter>) {
    forall i, j :: 0 <= i < j < |s| ==> s[i] != s[j]
  }

  /** A list after `a` is unlinked from it. */
  function Without(s: seq<Adapter>, a: Adapter): (r: seq<Adapter>)
    ensures forall x :: x in r <==> x in s && x != a
  {
    if s == [] then []
    else
      var n := |s| - 1;
      assert s == s[..n] + [s[n]];
      Without(s[..n], a) + if s[n] == a then [] else [s[n]]
  }

  /** The position of the first adapter with this serial number, or the length. */
  function First(s: seq<Adapter>, serial: string): (i: nat)
    ensures i <= |s| && (i < |s| ==> s[i].serial == serial)
    ensures forall j :: 0 <= j < i ==> s[j].serial != serial
  {
    if s == [] || s[0].serial == serial then 0 else 1 + First(s[1..], serial)
  }

  /** Every adapter of `s` points to `p`. */
  function PointTo(m: map<Adapter, Adapter>, s: seq<Adapter>, p: Adapter): (r: map<Adapter, Adapter>)
    ensures forall x :: x in r <==> x in m || x in s
    ensures forall x :: x in r ==> r[x] == if x in s then p else m[x]
  {
    map x | x in m.Keys + (set y | y in s) :: if x in s then p else m[x]
  }

  function PointNowhere(m: map<Adapter, Adapter>, s: seq<Adapter>): (r: map<Adapter, Adapter>)
    ensures forall x :: x in r <==> x in m && x !in s
    ensures forall x :: x in r ==> r[x] == m[x]
  {
    map x | x in m && x !in s :: m[x]
  }

  /** An adapter is put in its list. */
  function Added(l: Lists, a: Adapter): Lists {
    if l.PrimaryOf(a) == Some(a) then
      var mine := Family(l.unassociated, a.serial, true);
      Lists(l.primaries + [a], l.secondary[a := l.Of(a) + mine],
            Family(l.unassociated, a.serial, false), PointTo(l.primary, mine, a))
    else
      var i := First(l.primaries, a.serial);
      if i < |l.primaries| then
        var p := l.primaries[i];
        l.(secondary := l.secondary[p := l.Of(p) + [a]], primary := l.primary[a := p])
      else
        l.(unassociated := l.unassociated + [a])
  }

  function Attached(l: Lists, a: Adapter): Lists {
    Added(if a.port == 0 then l.(primary := l.primary[a := a]) else l, a)
  }

  /** Unlinks `a` from every list of secondaries, and empties its own. */
  function Emptied(m: map<Adapter, seq<Adapter>>, a: Adapter): (r: map<Adapter, seq<Adapter>>)
    ensures forall p :: p in r <==> p in m && p != a
    ensures forall p :: p in r ==> r[p] == Without(m[p], a)
  {
    map p | p in m && p != a :: Without(m[p], a)
  }

  /** An adapter is taken out of its list; its secondaries lose their primary. */
  function Removed(l: Lists, a: Adapter): Lists {
    var orphans := l.Of(a);
    Lists(Without(l.primaries, a), Emptied(l.secondary, a),
          Without(l.unassociated + orphans, a), PointNowhere(l.primary, orphans + [a]))
  }

  /** `r` is what is left of `s` when some elements are taken out. */
  predicate Within(r: seq<Adapter>, s: seq<Adapter>) {
    r == [] ||
    (s != [] &&
     var n := |s| - 1;
     Within(r, s[..n]) || (r[|r| - 1] == s[n] && Within(r[..|r| - 1], s[..n])))
  }

  lemma {:induction false} WithoutInOrder(s: seq<Adapter>, a: Adapter)
    ensures Within(Without(s, a), s)
  {
    if s != [] {
      var n := |s| - 1;
      WithoutInOrder(s[..n], a);
      if s[n] == a {
        AppendNothing(Without(s[..n], a));
      } else {
        var r := Without(s, a);
        assert r[..|r| - 1] == Without(s[..n], a);
      }
    }
  }

  lemma {:induction false} FamilyInOrder(s: seq<Adapter>, serial: string, same: bool)
    ensures Within(Family(s, serial, same), s)
  {
    if s != [] {
      var n := |s| - 1;
      FamilyInOrder(s[..n], serial, same);
      if (s[n].serial == serial) == same {
        var r := Family(s, serial, same);
        assert r[..|r| - 1] == Family(s[..n], serial, same);
      } else {
        AppendNothing(Family(s[..n], serial, same));
      }
    }
  }

  lemma {:induction false} SelfInOrder(s: seq<Adapter>)
    ensures Within(s, s)
  {
    if s != [] {
      SelfInOrder(s[..|s| - 1]);
    }
  }

  /** A new adapter comes last in its list, and those that waited for it last in its own; the others stay. */
  lemma AttachKeepsOrder(l: Lists, a: Adapter)
    ensures var m := Attached(l, a);
      && l.primaries <= m.primaries && (forall p :: l.Of(p) <= m.Of(p))
      && (Within(m.unassociated, l.unassociated) || m.unassociated == l.unassociated + [a])
      && (a.port == 0 ==> m.primaries == l.primaries + [a] && Within(m.Of(a)[|l.Of(a)|..], l.unassociated))
  {
    hide Within;
    FamilyInOrder(l.unassociated, a.serial, false);
    FamilyInOrder(l.unassociated, a.serial, true);
    SelfInOrder(l.unassociated);
    var mine := Family(l.unassociated, a.serial, true);
    assert (l.Of(a) + mine)[|l.Of(a)|..] == mine;
  }

  /** Taking an adapter away leaves the others in order, with its own behind those that wait. */
  lemma DetachKeepsOrder(l: Lists, a: Adapter)
    ensures var m := Removed(l, a);
      && Within(m.primaries, l.primaries) && Within(m.unassociated, l.unassociated + l.Of(a))
      && forall p :: Within(m.Of(p), l.Of(p))
  {
    WithoutInOrder(l.primaries, a);
    WithoutInOrder(l.unassociated + l.Of(a), a);
    forall p
      ensures Within(Removed(l, a).Of(p), l.Of(p))
    {
      WithoutInOrder(l.Of(p), a);
    }
  }

  /** Adapter `x` belongs to primary `p` among the adapters `all`. */
  predicate Belongs(all: set<Adapter>, x: Adapter, p: Adapter) {
    p in all && x in all && p.port == 0 && x.port != 0 && x.serial == p.serial
  }

  ghost predicate HasPrimary(all: set<Adapter>, x: Adapter) {
    exists p :: Belongs(all, x, p)
  }

  /** The members of each list are what the set of attached adapters says. */
  ghost predicate Members(l: Lists, all: set<Adapter>) {
    && (forall a :: a in l.primaries <==> a in all && a.port == 0)
    && (forall p, x :: x in l.Of(p) <==> Belongs(all, x, p))
    && (forall x :: x in l.unassociated <==> x in all && x.port != 0 && !HasPrimary(all, x))
  }

  /** An adapter points to itself if it is a primary, and to the one whose secondary it is. */
  ghost predicate Pointers(l: Lists) {
    forall x, p :: l.PrimaryOf(x) == Some(p) <==> (x == p && p in l.primaries) || x in l.Of(p)
  }

  /** No adapter is twice in one list. */
  ghost predicate NoneTwice(l: Lists) {
    Once(l.primaries) && Once(l.unassociated) && forall p :: Once(l.Of(p))
  }

  /** No adapter is secondary to two primaries. */
  ghost predicate OnePrimary(l: Lists) {
    forall x, p, q :: x in l.Of(p) && x in l.Of(q) ==> p == q
  }

  /** The lists are what the set of attached adapters says, and each adapter is in one of them, once. */
  ghost predicate Canonical(l: Lists, all: set<Adapter>) {
    Members(l, all) && Pointers(l) && NoneTwice(l) && OnePrimary(l)
  }

  /** Attaching `a` would give some secondary two primaries of its controller. */
  ghost predicate Conflict(all: set<Adapter>, a: Adapter) {
    exists x, p, q :: p != q && Belongs(all + {a}, x, p) && Belongs(all + {a}, x, q)
  }

  lemma {:induction false} FamilyOnce(s: seq<Adapter>, serial: string, same: bool)
    requires Once(s)
    ensures Once(Family(s, serial, same))
  {
    if s != [] {
      FamilyOnce(s[..|s| - 1], serial, same);
    }
  }

  lemma JoinOnce(s: seq<Adapter>, t: seq<Adapter>)
    requires Once(s) && Once(t) && forall x :: x in s ==> x !in t
    ensures Once(s + t)
  {
    var r := s + t;
    forall i, j | 0 <= i < j < |r|
      ensures r[i] != r[j]
    {
      assert i < |s| ==> r[i] in s;
      assert j >= |s| ==> r[j] == t[j - |s|];
    }
  }

  lemma {:induction false} WithoutOnce(s: seq<Adapter>, a: Adapter)
    requires Once(s)
    ensures Once(Without(s, a))
  {
    if s != [] {
      var n := |s| - 1;
      WithoutOnce(s[..n], a);
      AppendNothing(Without(s[..n], a));
      if s[n] != a {
        assert s[n] !in s[..n];
        JoinOnce(Without(s[..n], a), [s[n]]);
      }
    }
  }

  /** The grouping is a matter of the set of adapters alone. */
  lemma CanonicalIsUnique(l: Lists, m: Lists, all: set<Adapter>)
    requires Canonical(l, all) && Canonical(m, all)
    ensures forall x :: x in l.primaries <==> x in m.primaries
    ensures forall x :: x in l.unassociated <==> x in m.unassociated
    ensures forall p, x :: x in l.Of(p) <==> x in m.Of(p)
    ensures forall x :: l.PrimaryOf(x) == m.PrimaryOf(x)
  {
  }

  /** The lists of secondaries after `a` is detached. */
  lemma OfRemoved(l: Lists, a: Adapter, p: Adapter)
    ensures Removed(l, a).Of(p) == if p == a then [] else Without(l.Of(p), a)
  {
  }

  lemma LooseAfterDetach(l: Lists, all: set<Adapter>, a: Adapter, x: Adapter)
    requires Canonical(l, all) && a in all
    ensures x in Removed(l, a).unassociated <==> x in all - {a} && x.port != 0 && !HasPrimary(all - {a}, x)
  {
    assert x in l.Of(a) <==> Belongs(all, x, a);
    if HasPrimary(all - {a}, x) {
      var p :| Belongs(all - {a}, x, p);
      assert x in l.Of(p) && Belongs(all, x, p);
    }
    if HasPrimary(all, x) {
      var p :| Belongs(all, x, p);
      assert x in l.Of(p);
      assert x != a ==> p == a || Belongs(all - {a}, x, p);
    }
  }

  lemma DetachMembers(l: Lists, all: set<Adapter>, a: Adapter)
    requires Canonical(l, all) && a in all
    ensures Members(Removed(l, a), all - {a})
  {
    var r := Removed(l, a);
    forall p, x
      ensures x in r.Of(p) <==> Belongs(all - {a}, x, p)
    {
      OfRemoved(l, a, p);
    }
    forall x
      ensures x in r.unassociated <==> x in all - {a} && x.port != 0 && !HasPrimary(all - {a}, x)
    {
      LooseAfterDetach(l, all, a, x);
    }
  }

  lemma PrimaryRemoved(l: Lists, a: Adapter, x: Adapter)
    ensures Removed(l, a).PrimaryOf(x) == if x in l.Of(a) || x == a then None else l.PrimaryOf(x)
  {
  }

  lemma PointerRemoved(l: Lists, all: set<Adapter>, a: Adapter, x: Adapter, p: Adapter)
    requires Canonical(l, all) && a in all
    ensures (x !in l.Of(a) && x != a && l.PrimaryOf(x) == Some(p)) <==>
            (x == p && p in l.primaries && p != a) || (p != a && x != a && x in l.Of(p))
  {
  }

  lemma DetachPointers(l: Lists, all: set<Adapter>, a: Adapter)
    requires Canonical(l, all) && a in all
    ensures Pointers(Removed(l, a))
  {
    hide PointNowhere, Emptied, HasPrimary;
    forall x, p
      ensures Removed(l, a).PrimaryOf(x) == Some(p) <==>
              (x == p && p in Removed(l, a).primaries) || x in Removed(l, a).Of(p)
    {
      OfRemoved(l, a, p);
      PrimaryRemoved(l, a, x);
      PointerRemoved(l, all, a, x, p);
    }
  }

  /** Detaching keeps the lists canonical, whatever is attached. */
  lemma DetachIsCanonical(l: Lists, all: set<Adapter>, a: Adapter)
    requires Canonical(l, all) && a in all
    ensures Canonical(Removed(l, a), all - {a})
  {
    var r := Removed(l, a);
    DetachMembers(l, all, a);
    DetachPointers(l, all, a);
    WithoutOnce(l.primaries, a);
    assert forall x :: x in l.unassociated ==> x !in l.Of(a);
    JoinOnce(l.unassociated, l.Of(a));
    WithoutOnce(l.unassociated + l.Of(a), a);
    forall p
      ensures Once(r.Of(p)) && forall x :: x in r.Of(p) ==> x in l.Of(p)
    {
      OfRemoved(l, a, p);
      WithoutOnce(l.Of(p), a);
    }
  }

  /** Whether `x` has a primary once `a` is attached too. */
  lemma PrimaryWith(all: set<Adapter>, a: Adapter, x: Adapter)
    requires a !in all
    ensures HasPrimary(all + {a}, x) <==>
            (x in all && HasPrimary(all, x)) || Belongs(all + {a}, x, a) ||
            (x == a && exists p :: p in all && Belongs(all + {a}, a, p))
  {
    if HasPrimary(all + {a}, x) {
      var p :| Belongs(all + {a}, x, p);
      if p != a && x != a {
        assert Belongs(all, x, p);
      }
    }
    if x in all && HasPrimary(all, x) {
      var p :| Belongs(all, x, p);
      assert Belongs(all + {a}, x, p);
    }
  }

  lemma EmptyOrNot(s: seq<Adapter>)
    ensures s == [] || exists x :: x in s
  {
    if s != [] {
      assert s[0] in s;
    }
  }

  lemma NotAttached(l: Lists, all: set<Adapter>, a: Adapter)
    requires Canonical(l, all) && a !in all
    ensures l.Of(a) == [] && l.PrimaryOf(a) == None
    ensures a !in l.primaries && a !in l.unassociated && forall p :: a !in l.Of(p)
  {
    EmptyOrNot(l.Of(a));
    assert forall p :: l.PrimaryOf(a) != Some(p);
  }

  /** A new primary: its secondaries were waiting without one. */
  lemma AttachedPrimary(l: Lists, all: set<Adapter>, a: Adapter, x: Adapter, p: Adapter)
    requires Canonical(l, all) && a !in all && a.port == 0
    ensures var r, mine := Attached(l, a), Family(l.unassociated, a.serial, true);
      && r.primaries == l.primaries + [a] && r.unassociated == Family(l.unassociated, a.serial, false)
      && r.Of(p) == (if p == a then mine else l.Of(p))
      && r.PrimaryOf(x) == if x == a || x in mine then Some(a) else l.PrimaryOf(x)
  {
    NotAttached(l, all, a);
    AppendNothing(Family(l.unassociated, a.serial, true));
  }

  /** A new adapter of another port: it goes to the first primary of its controller, if there is one. */
  lemma AttachedSecondary(l: Lists, all: set<Adapter>, a: Adapter, x: Adapter, p: Adapter)
    requires Canonical(l, all) && a !in all && a.port != 0
    ensures var r, i := Attached(l, a), First(l.primaries, a.serial);
      && r.primaries == l.primaries
      && r.unassociated == (if i < |l.primaries| then l.unassociated else l.unassociated + [a])
      && r.Of(p) == (if i < |l.primaries| && p == l.primaries[i] then l.Of(p) + [a] else l.Of(p))
      && r.PrimaryOf(x) == if i < |l.primaries| && x == a then Some(l.primaries[i]) else l.PrimaryOf(x)
  {
  }

  /** An adapter that has a primary does not belong to the new one. */
  lemma WouldConflict(all: set<Adapter>, a: Adapter, x: Adapter)
    requires a !in all && !Conflict(all, a) && HasPrimary(all, x)
    ensures !Belongs(all + {a}, x, a)
  {
    var p :| Belongs(all, x, p);
    assert p != a && Belongs(all + {a}, x, p);
  }

  lemma PrimaryLoose(l: Lists, all: set<Adapter>, a: Adapter, x: Adapter)
    requires Canonical(l, all) && a !in all && a.port == 0 && !Conflict(all, a)
    ensures x in Family(l.unassociated, a.serial, false) <==>
            x in all + {a} && x.port != 0 && !HasPrimary(all + {a}, x)
    ensures x in Family(l.unassociated, a.serial, true) <==> Belongs(all + {a}, x, a)
  {
    hide NoneTwice, Pointers, OnePrimary, HasPrimary, Conflict;
    PrimaryWith(all, a, x);
    if HasPrimary(all, x) {
      WouldConflict(all, a, x);
    }
    assert x in l.unassociated <==> x in all && x.port != 0 && !HasPrimary(all, x);
  }

  /** Attaching a primary keeps the membership what it should be. */
  lemma PrimaryMembers(l: Lists, all: set<Adapter>, a: Adapter)
    requires Canonical(l, all) && a !in all && a.port == 0 && !Conflict(all, a)
    ensures Members(Attached(l, a), all + {a})
  {
    hide Attached, Added, HasPrimary, NoneTwice, Pointers, OnePrimary, Conflict;
    AttachedPrimary(l, all, a, a, a);
    forall x
      ensures x in Attached(l, a).unassociated <==> x in all + {a} && x.port != 0 && !HasPrimary(all + {a}, x)
    {
      PrimaryLoose(l, all, a, x);
    }
    forall p, x
      ensures x in Attached(l, a).Of(p) <==> Belongs(all + {a}, x, p)
    {
      AttachedPrimary(l, all, a, x, p);
      PrimaryLoose(l, all, a, x);
      assert x in l.Of(p) <==> Belongs(all, x, p);
    }
  }

  lemma LooseHasNone(l: Lists, all: set<Adapter>, x: Adapter, p: Adapter)
    requires Canonical(l, all) && x in l.unassociated
    ensures x !in l.Of(p) && x !in l.primaries
  {
  }

  lemma PrimaryPointers(l: Lists, all: set<Adapter>, a: Adapter)
    requires Canonical(l, all) && a !in all && a.port == 0
    ensures Pointers(Attached(l, a))
  {
    hide Attached, Added, HasPrimary, NoneTwice;
    var r := Attached(l, a);
    forall x, p
      ensures r.PrimaryOf(x) == Some(p) <==> (x == p && p in r.primaries) || x in r.Of(p)
    {
      AttachedPrimary(l, all, a, x, p);
      NotAttached(l, all, a);
      assert l.PrimaryOf(x) == Some(p) <==> (x == p && p in l.primaries) || x in l.Of(p);
      if x in l.unassociated {
        LooseHasNone(l, all, x, p);
      }
    }
  }

  /** The first primary of the serial number is the one that a new adapter belongs to. */
  lemma FirstIsPrimary(l: Lists, all: set<Adapter>, a: Adapter, p: Adapter)
    requires Canonical(l, all) && a !in all && a.port != 0 && !Conflict(all, a)
    ensures var i := First(l.primaries, a.serial);
      Belongs(all + {a}, a, p) <==> i < |l.primaries| && p == l.primaries[i]
  {
    hide NoneTwice, Pointers, OnePrimary, HasPrimary;
    var i := First(l.primaries, a.serial);
    if i < |l.primaries| {
      var q := l.primaries[i];
      assert q in l.primaries && Belongs(all + {a}, a, q);
    }
    if Belongs(all + {a}, a, p) {
      assert p in l.primaries;
      var j :| 0 <= j < |l.primaries| && l.primaries[j] == p;
    }
  }

  lemma SecondaryLoose(l: Lists, all: set<Adapter>, a: Adapter, x: Adapter)
    requires Canonical(l, all) && a !in all && a.port != 0 && !Conflict(all, a)
    ensures var i := First(l.primaries, a.serial);
      var u := if i < |l.primaries| then l.unassociated else l.unassociated + [a];
      x in u <==> x in all + {a} && x.port != 0 && !HasPrimary(all + {a}, x)
  {
    hide NoneTwice, Pointers, OnePrimary, Conflict, HasPrimary;
    var i := First(l.primaries, a.serial);
    PrimaryWith(all, a, x);
    assert x in l.unassociated <==> x in all && x.port != 0 && !HasPrimary(all, x);
    if i < |l.primaries| {
      FirstIsPrimary(l, all, a, l.primaries[i]);
    }
    forall p
      ensures Belongs(all + {a}, a, p) ==> i < |l.primaries|
    {
      FirstIsPrimary(l, all, a, p);
    }
  }

  lemma SecondaryMembers(l: Lists, all: set<Adapter>, a: Adapter)
    requires Canonical(l, all) && a !in all && a.port != 0 && !Conflict(all, a)
    ensures Members(Attached(l, a), all + {a})
  {
    hide Attached, Added, HasPrimary, NoneTwice, Pointers, OnePrimary, Conflict;
    AttachedSecondary(l, all, a, a, a);
    forall x
      ensures x in Attached(l, a).unassociated <==> x in all + {a} && x.port != 0 && !HasPrimary(all + {a}, x)
    {
      SecondaryLoose(l, all, a, x);
    }
    forall p, x
      ensures x in Attached(l, a).Of(p) <==> Belongs(all + {a}, x, p)
    {
      AttachedSecondary(l, all, a, x, p);
      FirstIsPrimary(l, all, a, p);
      assert x in l.Of(p) <==> Belongs(all, x, p);
    }
  }

  lemma SecondaryPointers(l: Lists, all: set<Adapter>, a: Adapter)
    requires Canonical(l, all) && a !in all && a.port != 0
    ensures Pointers(Attached(l, a))
  {
    hide Attached, Added, HasPrimary, NoneTwice;
    var r := Attached(l, a);
    forall x, p
      ensures r.PrimaryOf(x) == Some(p) <==> (x == p && p in r.primaries) || x in r.Of(p)
    {
      AttachedSecondary(l, all, a, x, p);
      NotAttached(l, all, a);
      assert l.PrimaryOf(x) == Some(p) <==> (x == p && p in l.primaries) || x in l.Of(p);
    }
  }

  lemma AttachNoneTwice(l: Lists, all: set<Adapter>, a: Adapter)
    requires Canonical(l, all) && a !in all
    ensures NoneTwice(Attached(l, a))
  {
    hide Attached, Added, HasPrimary, Conflict, OnePrimary, Pointers;
    NotAttached(l, all, a);
    JoinOnce(l.primaries, [a]);
    JoinOnce(l.unassociated, [a]);
    FamilyOnce(l.unassociated, a.serial, true);
    FamilyOnce(l.unassociated, a.serial, false);
    forall p
      ensures Once(Attached(l, a).Of(p)) && Once(Attached(l, a).unassociated) && Once(Attached(l, a).primaries)
    {
      JoinOnce(l.Of(p), [a]);
      if a.port == 0 {
        AttachedPrimary(l, all, a, a, p);
      } else {
        AttachedSecondary(l, all, a, a, p);
      }
    }
    assert Once(Attached(l, a).Of(a));
  }

  lemma OnePrimaryFromSet(l: Lists, all: set<Adapter>, a: Adapter)
    requires Members(l, all + {a}) && !Conflict(all, a)
    ensures OnePrimary(l)
  {
  }

  /** Attaching keeps the lists canonical exactly when no adapter gets two primaries to choose from. */
  lemma AttachIsCanonicalIff(l: Lists, all: set<Adapter>, a: Adapter)
    requires Canonical(l, all) && a !in all
    ensures Canonical(Attached(l, a), all + {a}) <==> !Conflict(all, a)
  {
    hide Attached, Added, HasPrimary, NoneTwice, Pointers;
    if Conflict(all, a) {
      var x, p, q :| p != q && Belongs(all + {a}, x, p) && Belongs(all + {a}, x, q);
      var r := Attached(l, a);
      assert Members(r, all + {a}) ==> x in r.Of(p) && x in r.Of(q);
    } else {
      AttachNoneTwice(l, all, a);
      if a.port == 0 {
        PrimaryMembers(l, all, a);
        PrimaryPointers(l, all, a);
      } else {
        SecondaryMembers(l, all, a);
        SecondaryPointers(l, all, a);
      }
      OnePrimaryFromSet(Attached(l, a), all, a);
    }
  }
}
