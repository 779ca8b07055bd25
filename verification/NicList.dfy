/** The list of network interfaces, grouped into masters with their slaves, and freeing it. */
module NicList {
  import opened Seqs
  import opened NicGroups

  /** The groups of a list: the first node is a master, with every node that counts as its adapter; then the rest. */
  function GroupsOf(s: seq<IfaceNode>): (gs: seq<seq<IfaceNode>>)
    ensures forall k :: 0 <= k < |gs| ==> gs[k] != []
    decreases |s|
  {
    if s == [] then []
    else [[s[0]] + Pick(s[1..], s[0], true)] + GroupsOf(Pick(s[1..], s[0], false))
  }

  function Flat(gs: seq<seq<IfaceNode>>): seq<IfaceNode> {
    if gs == [] then [] else gs[0] + Flat(gs[1..])
  }

  /** Sorting a list into two keeps every node once. */
  lemma {:induction false} PickSplits(s: seq<IfaceNode>, m: IfaceNode)
    ensures multiset(Pick(s, m, true)) + multiset(Pick(s, m, false)) == multiset(s)
  {
    if s != [] {
      var n := |s| - 1;
      PickSplits(s[..n], m);
      assert s == s[..n] + [s[n]];
    }
  }

  /** Grouping keeps every node, in exactly one group. */
  lemma {:induction false} GroupsArePermutation(s: seq<IfaceNode>)
    ensures multiset(Flat(GroupsOf(s))) == multiset(s)
    decreases |s|
  {
    if s != [] {
      var m, rest := s[0], s[1..];
      var gs := GroupsOf(Pick(rest, m, false));
      var g := [m] + Pick(rest, m, true);
      CutFirst(s);
      PickSplits(rest, m);
      GroupsArePermutation(Pick(rest, m, false));
      assert ([g] + gs)[1..] == gs;
      assert Flat([g] + gs) == g + Flat(gs);
    }
  }

  /** Addresses of one format: as many characters before the dot in each, and at least one. */
  predicate Uniform(s: seq<IfaceNode>, w: nat) {
    w >= 1 && forall i :: 0 <= i < |s| ==> UpToDot(s[i].bdf) == w
  }

  /** For addresses of one format, counting as the same adapter is having the same prefix. */
  predicate SamePrefix(a: IfaceNode, b: IfaceNode, w: nat)
    requires w >= 1 && UpToDot(a.bdf) == w && UpToDot(b.bdf) == w
  {
    a.bdf[..w - 1] == b.bdf[..w - 1]
  }

  lemma UniformPick(s: seq<IfaceNode>, m: IfaceNode, same: bool, w: nat)
    requires Uniform(s, w)
    ensures Uniform(Pick(s, m, same), w)
  {
  }

  /** Picking out a different adapter first does not change what is picked. */
  lemma {:induction false} PickOfPick(s: seq<IfaceNode>, m: IfaceNode, x: IfaceNode, w: nat)
    requires Uniform(s, w) && UpToDot(m.bdf) == w && UpToDot(x.bdf) == w && !SamePrefix(m, x, w)
    ensures Pick(Pick(s, m, false), x, true) == Pick(s, x, true)
  {
    if s != [] {
      var n := |s| - 1;
      var front := Pick(s[..n], m, false);
      PickOfPick(s[..n], m, x, w);
      if Same(m.bdf, s[n].bdf) {
        AppendNothing(front);
        AppendNothing(Pick(s[..n], x, true));
      } else {
        assert (front + [s[n]])[..|front|] == front;
      }
    }
  }

  /** Nothing is picked for an adapter that is not there. */
  lemma {:induction false} PickedAreSame(s: seq<IfaceNode>, m: IfaceNode, same: bool, i: nat)
    requires i < |Pick(s, m, same)|
    ensures Same(m.bdf, Pick(s, m, same)[i].bdf) == same
  {
    var n := |s| - 1;
    if i < |Pick(s[..n], m, same)| {
      PickedAreSame(s[..n], m, same, i);
    }
  }

  lemma {:induction false} PickFirst(x: IfaceNode, s: seq<IfaceNode>, m: IfaceNode, same: bool)
    ensures Pick([x] + s, m, same) == (if Same(m.bdf, x.bdf) == same then [x] else []) + Pick(s, m, same)
  {
    var l := [x] + s;
    if s == [] {
      assert l == [x] && l[..0] == [];
    } else {
      var n := |s| - 1;
      InitOfAppend([x], s);
      PickFirst(x, s[..n], m, same);
      Regroup(if Same(m.bdf, x.bdf) == same then [x] else [], Pick(s[..n], m, same),
              if Same(m.bdf, s[n].bdf) == same then [s[n]] else []);
    }
  }

  lemma {:induction false} MasterIsMember(s: seq<IfaceNode>, k: nat)
    requires k < |GroupsOf(s)|
    ensures GroupsOf(s)[k][0] in s
    decreases |s|
  {
    if k > 0 {
      MasterIsMember(Pick(s[1..], s[0], false), k - 1);
    }
  }

  /** A later master is a node of the list, and counts as another adapter than the first one. */
  lemma MasterIsOther(rest: seq<IfaceNode>, m: IfaceNode, w: nat, k: nat)
    requires Uniform(rest, w) && UpToDot(m.bdf) == w && k < |GroupsOf(Pick(rest, m, false))|
    ensures var x := GroupsOf(Pick(rest, m, false))[k][0];
      UpToDot(x.bdf) == w && !SamePrefix(m, x, w) && !Same(x.bdf, m.bdf)
  {
    var others := Pick(rest, m, false);
    MasterIsMember(others, k);
    var x := GroupsOf(others)[k][0];
    var i :| 0 <= i < |others| && others[i] == x;
    PickedAreSame(rest, m, false, i);
    UniformPick(rest, m, false, w);
  }

  /**
   For addresses of one format each group is exactly the nodes of the whole
   list that share the prefix of its master, in their original order.
   */
  lemma {:induction false} GroupsAreExact(s: seq<IfaceNode>, w: nat, k: nat)
    requires Uniform(s, w) && k < |GroupsOf(s)|
    ensures GroupsOf(s)[k] == Pick(s, GroupsOf(s)[k][0], true)
    decreases |s|
  {
    var m, rest := s[0], s[1..];
    CutFirst(s);
    assert Uniform(rest, w);
    if k == 0 {
      PickFirst(m, rest, m, true);
    } else {
      var others := Pick(rest, m, false);
      UniformPick(rest, m, false, w);
      GroupsAreExact(others, w, k - 1);
      var g := GroupsOf(others)[k - 1];
      var x := g[0];
      assert GroupsOf(s)[k] == g;
      MasterIsOther(rest, m, w, k - 1);
      PickOfPick(rest, m, x, w);
      PickFirst(m, rest, x, true);
      AppendNothing(Pick(rest, x, true));
    }
  }

  /** The two addresses agree on everything before the dot. */
  predicate SameWhole(a: IfaceNode, b: IfaceNode, w: nat)
    requires w >= 1 && UpToDot(a.bdf) == w && UpToDot(b.bdf) == w
  {
    a.bdf[..w] == b.bdf[..w]
  }

  /** Two addresses that differ before the dot, but only in the last character there. */
  predicate Neighbours(a: IfaceNode, b: IfaceNode, w: nat)
    requires w >= 1 && UpToDot(a.bdf) == w && UpToDot(b.bdf) == w
  {
    a.bdf[..w - 1] == b.bdf[..w - 1] && a.bdf[w - 1] != b.bdf[w - 1]
  }

  /** For two addresses, counting as one adapter means agreeing before the dot, except for neighbours. */
  lemma SameUnlessNeighbours(a: IfaceNode, b: IfaceNode, w: nat)
    requires w >= 1 && UpToDot(a.bdf) == w && UpToDot(b.bdf) == w
    ensures Same(a.bdf, b.bdf) <==> SameWhole(a, b, w) || Neighbours(a, b, w)
    ensures !(SameWhole(a, b, w) && Neighbours(a, b, w))
  {
    assert a.bdf[..w] == a.bdf[..w - 1] + [a.bdf[w - 1]];
    assert b.bdf[..w] == b.bdf[..w - 1] + [b.bdf[w - 1]];
    assert a.bdf[..w][..w - 1] == a.bdf[..w - 1] && b.bdf[..w][..w - 1] == b.bdf[..w - 1];
  }

  /** The nodes whose whole address before the dot is that of `m`, in order. */
  function PickWhole(s: seq<IfaceNode>, m: IfaceNode, w: nat): (r: seq<IfaceNode>)
    requires Uniform(s, w) && UpToDot(m.bdf) == w
    ensures forall x :: x in r ==> x in s && SameWhole(m, x, w)
  {
    if s == [] then []
    else
      var n := |s| - 1;
      PickWhole(s[..n], m, w) + if SameWhole(m, s[n], w) then [s[n]] else []
  }

  /** No two nodes of the list are neighbours. */
  predicate NoNeighbours(s: seq<IfaceNode>, w: nat)
    requires Uniform(s, w)
  {
    forall i, j :: 0 <= i < |s| && 0 <= j < |s| ==> !Neighbours(s[i], s[j], w)
  }

  lemma {:induction false} PickIsWhole(s: seq<IfaceNode>, m: IfaceNode, w: nat)
    requires Uniform(s, w) && UpToDot(m.bdf) == w && forall i :: 0 <= i < |s| ==> !Neighbours(m, s[i], w)
    ensures Pick(s, m, true) == PickWhole(s, m, w)
  {
    if s != [] {
      var n := |s| - 1;
      PickIsWhole(s[..n], m, w);
      SameUnlessNeighbours(m, s[n], w);
    }
  }

  lemma {:induction false} Picked(s: seq<IfaceNode>, m: IfaceNode, x: IfaceNode)
    requires x in s && Same(m.bdf, x.bdf)
    ensures x in Pick(s, m, true)
  {
    var n := |s| - 1;
    if x in s[..n] {
      Picked(s[..n], m, x);
    } else {
      assert s == s[..n] + [s[n]];
    }
  }

  lemma {:induction false} InSomeGroup(gs: seq<seq<IfaceNode>>, x: IfaceNode) returns (k: nat)
    requires x in Flat(gs)
    ensures k < |gs| && x in gs[k]
  {
    if x in gs[0] {
      k := 0;
    } else {
      k := InSomeGroup(gs[1..], x);
      k := k + 1;
    }
  }

  lemma NotBothWhole(m: IfaceNode, a: IfaceNode, b: IfaceNode, w: nat)
    requires w >= 1 && UpToDot(m.bdf) == w && UpToDot(a.bdf) == w && UpToDot(b.bdf) == w && Neighbours(a, b, w)
    ensures !(SameWhole(m, a, w) && SameWhole(m, b, w))
  {
    SameUnlessNeighbours(a, b, w);
  }

  /** Two neighbours of the list are in one group, and that group is not by the whole address. */
  lemma NeighboursTogether(s: seq<IfaceNode>, w: nat, i: nat, j: nat) returns (k: nat)
    requires Uniform(s, w) && i < |s| && j < |s| && Neighbours(s[i], s[j], w)
    ensures k < |GroupsOf(s)| && s[i] in GroupsOf(s)[k] && s[j] in GroupsOf(s)[k]
    ensures UpToDot(GroupsOf(s)[k][0].bdf) == w && GroupsOf(s)[k] != PickWhole(s, GroupsOf(s)[k][0], w)
  {
    hide PickWhole, GroupsOf, Flat;
    GroupsArePermutation(s);
    assert s[i] in multiset(s);
    k := InSomeGroup(GroupsOf(s), s[i]);
    GroupsAreExact(s, w, k);
    MasterIsMember(s, k);
    var m, g := GroupsOf(s)[k][0], GroupsOf(s)[k];
    var at :| 0 <= at < |g| && g[at] == s[i];
    PickedAreSame(s, m, true, at);
    Picked(s, m, s[j]);
    NotBothWhole(m, s[i], s[j], w);
  }

  /** Each group is exactly the nodes with the whole address of its master if and only if no two are neighbours. */
  lemma WholeIffNoNeighbours(s: seq<IfaceNode>, w: nat)
    requires Uniform(s, w)
    ensures (forall k :: 0 <= k < |GroupsOf(s)| ==>
               && UpToDot(GroupsOf(s)[k][0].bdf) == w
               && GroupsOf(s)[k] == PickWhole(s, GroupsOf(s)[k][0], w))
            <==> NoNeighbours(s, w)
  {
    hide PickWhole, GroupsOf, Pick;
    if NoNeighbours(s, w) {
      forall k | 0 <= k < |GroupsOf(s)|
        ensures UpToDot(GroupsOf(s)[k][0].bdf) == w && GroupsOf(s)[k] == PickWhole(s, GroupsOf(s)[k][0], w)
      {
        MasterIsMember(s, k);
        var m := GroupsOf(s)[k][0];
        var i :| 0 <= i < |s| && s[i] == m;
        GroupsAreExact(s, w, k);
        PickIsWhole(s, m, w);
      }
    } else {
      var i, j :| 0 <= i < |s| && 0 <= j < |s| && Neighbours(s[i], s[j], w);
      var k := NeighboursTogether(s, w, i, j);
    }
  }

  lemma {:induction false} UpToDotOf(p: string, rest: string)
    requires forall i :: 0 <= i < |p| ==> p[i] != '.'
    ensures UpToDot(p + "." + rest) == |p|
  {
    var s := p + "." + rest;
    if p != [] {
      assert s[1..] == p[1..] + "." + rest;
      UpToDotOf(p[1..], rest);
    }
  }

  /**
   The last digit of the device number is not looked at: two addresses that
   agree up to it are taken for one adapter, whatever the digits are.
   */
  lemma NeighboursAreGrouped(p: string, d: char, e: char, f: string, g: string)
    requires p != [] && forall i :: 0 <= i < |p| ==> p[i] != '.'
    requires d != '.' && e != '.'
    ensures Same(p + [d] + "." + f, p + [e] + "." + g)
  {
    UpToDotOf(p + [d], f);
    var a, b := p + [d] + "." + f, p + [e] + "." + g;
    assert a[..|p|] == p && b[..|p|] == p;
  }
}
