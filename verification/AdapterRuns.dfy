/** Attaching and detaching adapters: the lists in place, and what any run of attaches and detaches leaves. */
module AdapterRuns {
  import opened Seqs
  import opened AdapterLists

  function Empty(): Lists {
    Lists([], map[], [], map[])
  }

  /** The lists after the first `k` waiting adapters have been looked at. */
  function Gathered(l: Lists, a: Adapter, k: nat): Lists
    requires k <= |l.unassociated|
  {
    var u := l.unassociated;
    var mine := Family(u[..k], a.serial, true);
    Lists(l.primaries, l.secondary[a := l.Of(a) + mine],
          Family(u[..k], a.serial, false) + u[k..], PointTo(l.primary, mine, a))
  }

  lemma GatherEnds(l: Lists, a: Adapter)
    ensures Gathered(l, a, |l.unassociated|)
         == Lists(l.primaries, l.secondary[a := l.Of(a) + Family(l.unassociated, a.serial, true)],
                  Family(l.unassociated, a.serial, false),
                  PointTo(l.primary, Family(l.unassociated, a.serial, true), a))
  {
    var u := l.unassociated;
    assert u[..|u|] == u;
    AppendNothing(Family(u, a.serial, false));
  }

  /** The lists after the first `k` secondaries of `a` have been moved. */
  function Orphaned(l: Lists, a: Adapter, k: nat): Lists
    requires k <= |l.Of(a)|
  {
    Lists(l.primaries, if a in l.secondary then l.secondary[a := l.Of(a)[k..]] else l.secondary,
          l.unassociated + l.Of(a)[..k], PointNowhere(l.primary, l.Of(a)[..k]))
  }

  lemma OrphanStarts(l: Lists, a: Adapter)
    ensures Orphaned(l, a, 0) == l
  {
  }

  lemma OrphanStep(l: Lists, a: Adapter, k: nat)
    requires k < |l.Of(a)|
    ensures var x, r := l.Of(a)[k], Orphaned(l, a, k);
      && l.Of(a)[k..][0] == x && l.Of(a)[k..][1..] == l.Of(a)[k + 1..]
      && r.unassociated + [x] == Orphaned(l, a, k + 1).unassociated
      && r.primary - {x} == Orphaned(l, a, k + 1).primary
  {
  }

  lemma EmptiedOfUpdate(m: map<Adapter, seq<Adapter>>, a: Adapter, s: seq<Adapter>)
    ensures Emptied(m[a := s], a) == Emptied(m, a)
  {
  }

  lemma NowhereMinus(m: map<Adapter, Adapter>, s: seq<Adapter>, a: Adapter)
    ensures PointNowhere(m, s + [a]) == PointNowhere(m, s) - {a}
  {
  }

  lemma OrphanEnds(l: Lists, a: Adapter)
    ensures var r := Orphaned(l, a, |l.Of(a)|);
      Removed(l, a) == Lists(Without(r.primaries, a), Emptied(r.secondary, a),
                             Without(r.unassociated, a), r.primary - {a})
  {
    hide Without, Emptied, PointNowhere;
    var s := l.Of(a);
    assert s[..|s|] == s;
    EmptiedOfUpdate(l.secondary, a, s[|s|..]);
    NowhereMinus(l.primary, s, a);
  }

  lemma GatherStarts(l: Lists, a: Adapter)
    ensures Gathered(l, a, 0) == l.(secondary := l.secondary[a := l.Of(a)])
    ensures Family(l.unassociated[..0], a.serial, false) == []
  {
    AppendNothing(l.Of(a));
    assert l.unassociated[..0] == [];
    AppendNothing(l.unassociated);
    assert PointTo(l.primary, [], a) == l.primary;
  }

  /** The walk is at the end of the list exactly when every waiting adapter has been looked at. */
  lemma GatherLeft(l: Lists, a: Adapter, k: nat)
    requires k <= |l.unassociated|
    ensures |Gathered(l, a, k).unassociated| - |Family(l.unassociated[..k], a.serial, false)| == |l.unassociated| - k
  {
  }

  lemma PointOneMore(m: map<Adapter, Adapter>, s: seq<Adapter>, a: Adapter, x: Adapter)
    ensures PointTo(m, s + [x], a) == PointTo(m, s, a)[x := a]
  {
  }

  /** What one round of the walk over the waiting adapters does to the two parts of the list. */
  lemma GatherStep(l: Lists, a: Adapter, k: nat)
    requires k < |l.unassociated|
    ensures var u := l.unassociated;
      var no, yes, x := Family(u[..k], a.serial, false), Family(u[..k], a.serial, true), u[k];
      var no', yes' := Family(u[..k + 1], a.serial, false), Family(u[..k + 1], a.serial, true);
      && (no + u[k..])[|no|] == x
      && if x.serial == a.serial then
           no' == no && yes' == yes + [x]
           && (no + u[k..])[..|no|] + (no + u[k..])[|no| + 1..] == no' + u[k + 1..]
           && PointTo(l.primary, yes', a) == PointTo(l.primary, yes, a)[x := a]
         else
           no' == no + [x] && yes' == yes && no + u[k..] == no' + u[k + 1..]
  {
    hide PointTo;
    var u := l.unassociated;
    var no, yes := Family(u[..k], a.serial, false), Family(u[..k], a.serial, true);
    CutAt(u, k);
    AppendNothing(no);
    AppendNothing(yes);
    Regroup(no, [u[k]], u[k + 1..]);
    Halves(no, u[k..]);
    Halves(no + [u[k]], u[k + 1..]);
    PointOneMore(l.primary, yes, a, u[k]);
  }

  lemma UpdateTwice<T>(m: map<Adapter, T>, a: Adapter, x: T, y: T)
    ensures m[a := x][a := y] == m[a := y]
  {
  }

  /** One round of the walk: a waiting adapter of the serial number leaves the list and gets the primary. */
  lemma GatherNext(l: Lists, a: Adapter, k: nat)
    requires k < |l.unassociated|
    ensures var at := |Family(l.unassociated[..k], a.serial, false)|;
      var r, x := Gathered(l, a, k), l.unassociated[k];
      && at < |r.unassociated| && r.unassociated[at] == x && a in r.secondary
      && at + (if x.serial == a.serial then 0 else 1) == |Family(l.unassociated[..k + 1], a.serial, false)|
      && Gathered(l, a, k + 1) ==
         if x.serial == a.serial then
           Lists(r.primaries, r.secondary[a := r.secondary[a] + [x]],
                 r.unassociated[..at] + r.unassociated[at + 1..], r.primary[x := a])
         else r
  {
    hide Family, PointTo;
    GatherStep(l, a, k);
    var yes, x := Family(l.unassociated[..k], a.serial, true), l.unassociated[k];
    Regroup(l.Of(a), yes, [x]);
    UpdateTwice(l.secondary, a, l.Of(a) + yes, l.Of(a) + yes + [x]);
  }

  /** The lists that all adapters of the driver share. */
  class DriverLists {
    var primaries: seq<Adapter>
    var secondary: map<Adapter, seq<Adapter>>
    var unassociated: seq<Adapter>
    var primary: map<Adapter, Adapter>

    constructor ()
      ensures Value() == Empty()
    {
      primaries, secondary, unassociated, primary := [], map[], [], map[];
    }

    ghost function Value(): Lists
      reads this
    {
      Lists(primaries, secondary, unassociated, primary)
    }

    /** One waiting adapter: it moves to the new primary if it is of the same controller. */
    method GatherOne(a: Adapter, at: nat, ghost was: Lists, ghost k: nat) returns (at': nat)
      requires k < |was.unassociated| && Value() == Gathered(was, a, k)
      requires at == |Family(was.unassociated[..k], a.serial, false)|
      modifies `secondary, `unassociated, `primary
      ensures Value() == Gathered(was, a, k + 1)
      ensures at' == |Family(was.unassociated[..k + 1], a.serial, false)|
    {
      hide Family, Gathered;
      GatherNext(was, a, k);
      var other := unassociated[at];
      at' := at;
      if other.serial == a.serial {
        unassociated := unassociated[..at] + unassociated[at + 1..];
        secondary := secondary[a := secondary[a] + [other]];
        primary := primary[other := a];
      } else {
        at' := at + 1;
      }
    }

    /** Moves the waiting adapters of this serial number to the new primary, one by one. */
    method Gather(a: Adapter)
      modifies `secondary, `unassociated, `primary
      ensures Value() == Gathered(old(Value()), a, |old(unassociated)|)
    {
      hide Family, PointTo, Gathered;
      ghost var was, k := Value(), 0;
      GatherStarts(was, a);
      if a !in secondary {
        secondary := secondary[a := []];
      }
      var at := 0;
      while at < |unassociated|
        invariant k <= |was.unassociated| && Value() == Gathered(was, a, k)
        invariant at == |Family(was.unassociated[..k], a.serial, false)|
        decreases |was.unassociated| - k
      {
        GatherLeft(was, a, k);
        at := GatherOne(a, at, was, k);
        k := k + 1;
      }
      GatherLeft(was, a, k);
    }

    /** The position of the first primary of this serial number. */
    method Find(serial: string) returns (i: nat)
      ensures i == First(primaries, serial)
    {
      i := 0;
      while i < |primaries| && primaries[i].serial != serial
        invariant i <= |primaries| && forall j :: 0 <= j < i ==> primaries[j].serial != serial
      {
        i := i + 1;
      }
    }

    /** Puts an adapter in the list it belongs to. */
    method Add(a: Adapter)
      modifies this
      ensures Value() == Added(old(Value()), a)
    {
      if a in primary && primary[a] == a {
        GatherEnds(Value(), a);
        Gather(a);
        primaries := primaries + [a];
      } else {
        var i := Find(a.serial);
        if i < |primaries| {
          var p := primaries[i];
          if p !in secondary {
            secondary := secondary[p := []];
          }
          secondary := secondary[p := secondary[p] + [a]];
          primary := primary[a := p];
        } else {
          unassociated := unassociated + [a];
        }
      }
    }

    /** A newly attached adapter; the one of port 0 is a primary. */
    method Attach(a: Adapter)
      modifies this
      ensures Value() == Attached(old(Value()), a)
    {
      if a.port == 0 {
        primary := primary[a := a];
      }
      Add(a);
    }

    /** Every secondary of `a` loses its primary and waits for another. */
    method Orphan(a: Adapter)
      modifies `secondary, `unassociated, `primary
      ensures Value() == Orphaned(old(Value()), a, |old(Value()).Of(a)|)
    {
      hide PointNowhere;
      ghost var was, k := Value(), 0;
      OrphanStarts(was, a);
      while a in secondary && secondary[a] != []
        invariant k <= |was.Of(a)| && Value() == Orphaned(was, a, k)
        decreases |was.Of(a)| - k
      {
        OrphanStep(was, a, k);
        var other := secondary[a][0];
        secondary := secondary[a := secondary[a][1..]];
        unassociated := unassociated + [other];
        primary := primary - {other};
        k := k + 1;
      }
    }

    /** Takes a detached adapter out of its list. */
    method Remove(a: Adapter)
      modifies this
      ensures Value() == Removed(old(Value()), a)
    {
      OrphanEnds(Value(), a);
      Orphan(a);
      primaries := Without(primaries, a);
      secondary := Emptied(secondary, a);
      unassociated := Without(unassociated, a);
      primary := primary - {a};
    }
  }

  datatype Event = Attach(a: Adapter) | Detach(a: Adapter)

  /** The adapters that are attached after a run. */
  function AttachedAfter(run: seq<Event>): set<Adapter> {
    if run == [] then {}
    else
      var n := |run| - 1;
      match run[n]
      case Attach(a) => AttachedAfter(run[..n]) + {a}
      case Detach(a) => AttachedAfter(run[..n]) - {a}
  }

  /** The lists after a run. */
  function ListsAfter(run: seq<Event>): Lists {
    if run == [] then Empty()
    else
      var n := |run| - 1;
      match run[n]
      case Attach(a) => Attached(ListsAfter(run[..n]), a)
      case Detach(a) => Removed(ListsAfter(run[..n]), a)
  }

  /** What is attached was not, what is detached was, and no adapter ever has two primaries to choose from. */
  ghost predicate Legal(run: seq<Event>) {
    run == [] ||
    var n := |run| - 1;
    var all := AttachedAfter(run[..n]);
    Legal(run[..n]) &&
    match run[n]
    case Attach(a) => a !in all && !Conflict(all, a)
    case Detach(a) => a in all
  }

  /** After every legal run each attached adapter is in exactly the list that the attached set says. */
  lemma {:induction false} RunsAreCanonical(run: seq<Event>)
    requires Legal(run)
    ensures Canonical(ListsAfter(run), AttachedAfter(run))
  {
    if run != [] {
      var n := |run| - 1;
      RunsAreCanonical(run[..n]);
      match run[n]
      case Attach(a) => AttachIsCanonicalIff(ListsAfter(run[..n]), AttachedAfter(run[..n]), a);
      case Detach(a) => DetachIsCanonical(ListsAfter(run[..n]), AttachedAfter(run[..n]), a);
    }
  }

  /** Two runs that leave the same adapters attached leave them grouped in the same way. */
  lemma OrderDoesNotMatter(run: seq<Event>, other: seq<Event>)
    requires Legal(run) && Legal(other) && AttachedAfter(run) == AttachedAfter(other)
    ensures var l, m := ListsAfter(run), ListsAfter(other);
      && (forall x :: x in l.primaries <==> x in m.primaries)
      && (forall x :: x in l.unassociated <==> x in m.unassociated)
      && (forall p, x :: x in l.Of(p) <==> x in m.Of(p))
      && (forall x :: l.PrimaryOf(x) == m.PrimaryOf(x))
  {
    RunsAreCanonical(run);
    RunsAreCanonical(other);
    CanonicalIsUnique(ListsAfter(run), ListsAfter(other), AttachedAfter(run));
  }

  /** With one port 0 for each serial number no attach is a conflict. */
  lemma OnePortZeroIsLegal(all: set<Adapter>, a: Adapter)
    requires forall p, q :: p in all + {a} && q in all + {a} && p.port == 0 && q.port == 0 && p.serial == q.serial
               ==> p == q
    ensures !Conflict(all, a)
  {
  }

  lemma AttachOneMore(run: seq<Event>, a: Adapter)
    ensures ListsAfter(run + [Attach(a)]) == Attached(ListsAfter(run), a)
    ensures AttachedAfter(run + [Attach(a)]) == AttachedAfter(run) + {a}
    ensures Legal(run) && a !in AttachedAfter(run) && !Conflict(AttachedAfter(run), a) ==> Legal(run + [Attach(a)])
  {
  }

  lemma NothingYet()
    ensures ListsAfter([]) == Empty() && AttachedAfter([]) == {} && Legal([])
  {
  }

  lemma PrimaryAndOther(p: Adapter, x: Adapter)
    requires p.port == 0 && x.port != 0
    ensures Canonical(ListsAfter([Attach(p), Attach(x)]), {p, x})
    ensures AttachedAfter([Attach(p), Attach(x)]) == {p, x}
  {
    hide ListsAfter, AttachedAfter, Legal, Attached, Conflict, Canonical;
    NothingYet();
    var one, two := [Attach(p)], [Attach(p), Attach(x)];
    assert one == [] + [Attach(p)] && two == one + [Attach(x)];
    OnePortZeroIsLegal({}, p);
    AttachOneMore([], p);
    assert AttachedAfter(one) == {p};
    OnePortZeroIsLegal({p}, x);
    AttachOneMore(one, x);
    assert AttachedAfter(two) == {p, x};
    RunsAreCanonical(two);
  }

  lemma HasItsPrimary(l: Lists, all: set<Adapter>, p: Adapter, x: Adapter)
    requires Canonical(l, all) && Belongs(all, x, p)
    ensures l.PrimaryOf(x) == Some(p) && x !in l.unassociated
  {
  }

  /** A second primary of the controller does not take over the adapters that the first one has. */
  lemma FirstKeeps(p: Adapter, x: Adapter, q: Adapter)
    requires p != q && p.port == 0 && q.port == 0 && x.port != 0 && p.serial == x.serial == q.serial
    ensures ListsAfter([Attach(p), Attach(x), Attach(q)]).PrimaryOf(x) == Some(p)
    ensures AttachedAfter([Attach(p), Attach(x), Attach(q)]) == {p, x, q}
  {
    hide ListsAfter, AttachedAfter, Legal, Attached, Conflict, Canonical, Family;
    var two := [Attach(p), Attach(x)];
    assert [Attach(p), Attach(x), Attach(q)] == two + [Attach(q)];
    PrimaryAndOther(p, x);
    HasItsPrimary(ListsAfter(two), {p, x}, p, x);
    AttachOneMore(two, q);
    AttachedPrimary(ListsAfter(two), {p, x}, q, x, p);
  }

  /** With two primaries of one controller the order of attaching decides which of them an adapter gets. */
  lemma OrderMatters(p: Adapter, x: Adapter, q: Adapter)
    requires p != q && p.port == 0 && q.port == 0 && x.port != 0 && p.serial == x.serial == q.serial
    ensures var l, m := [Attach(p), Attach(x), Attach(q)], [Attach(q), Attach(x), Attach(p)];
      && AttachedAfter(l) == AttachedAfter(m)
      && ListsAfter(l).PrimaryOf(x) == Some(p) && ListsAfter(m).PrimaryOf(x) == Some(q)
  {
    FirstKeeps(p, x, q);
    FirstKeeps(q, x, p);
    hide AttachedAfter, ListsAfter;
  }
}
