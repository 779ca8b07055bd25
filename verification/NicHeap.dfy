/** Building the interface list, making masters, and freeing everything. */
module NicHeap {
  import opened Seqs
  import opened NicGroups
  import opened NicList

  class MasterNode {
    const iface: IfaceNode
    var next: MasterNode?

    constructor (iface: IfaceNode)
      ensures this.iface == iface && next == null
    {
      this.iface, next := iface, null;
    }
  }

  function MasterAt(ms: seq<MasterNode>, i: int): MasterNode? {
    if 0 <= i < |ms| then ms[i] else null
  }

  ghost predicate Masters(ms: seq<MasterNode>)
    reads ms
  {
    && (forall i :: 0 <= i < |ms| ==> ms[i].next == MasterAt(ms, i + 1))
    && (forall i, j :: 0 <= i < j < |ms| ==> ms[i] != ms[j])
  }

  /** An element of what is picked out of a list occurs once in it, and in the list. */
  lemma {:induction false} PickDistinct(s: seq<IfaceNode>, m: IfaceNode, same: bool)
    requires Distinct(s)
    ensures Distinct(Pick(s, m, same))
  {
    if s != [] {
      var n := |s| - 1;
      PickDistinct(s[..n], m, same);
      assert s[n] !in s[..n];
    }
  }

  /** Nothing is picked both ways. */
  lemma PickApart(s: seq<IfaceNode>, m: IfaceNode)
    ensures forall x :: x in Pick(s, m, true) ==> x !in Pick(s, m, false)
  {
    forall x | x in Pick(s, m, true)
      ensures x !in Pick(s, m, false)
    {
      var i :| 0 <= i < |Pick(s, m, true)| && Pick(s, m, true)[i] == x;
      PickedAreSame(s, m, true, i);
      if x in Pick(s, m, false) {
        var j :| 0 <= j < |Pick(s, m, false)| && Pick(s, m, false)[j] == x;
        PickedAreSame(s, m, false, j);
      }
    }
  }

  /** Takes the head off a list and makes a master of it, with its slaves. */
  method MakeGroup(head: IfaceNode, ghost s: seq<IfaceNode>) returns (m: MasterNode, newHead: IfaceNode?)
    requires s != [] && List(s) && Distinct(s) && head == s[0]
    modifies s
    ensures fresh(m) && m.iface == head && m.next == null
    ensures var others := Pick(s[1..], head, false);
      && Chain([head] + Pick(s[1..], head, true))
      && List(others) && newHead == At(others, 0)
  {
    ghost var rest := s[1..];
    CutFirst(s);
    m := new MasterNode(head);
    var next := head.next;
    head.next := null;
    if next != null {
      next.prev := null;
    }
    forall i | 0 <= i < |rest|
      ensures rest[i].next == At(rest, i + 1) && rest[i].prev == At(rest, i - 1)
    {
      assert rest[i] == s[i + 1];
    }
    newHead := UpdateSlaves(head, next, rest);
  }

  /** The forward links that make each group a chain. */
  function NextsOf(g: seq<IfaceNode>): (r: seq<IfaceNode?>)
    ensures |r| == |g| && forall i :: 0 <= i < |g| ==> r[i] == At(g, i + 1)
  {
    seq(|g|, i requires 0 <= i < |g| => At(g, i + 1))
  }

  function FlatNexts(gs: seq<seq<IfaceNode>>): seq<IfaceNode?> {
    if gs == [] then [] else NextsOf(gs[0]) + FlatNexts(gs[1..])
  }

  ghost predicate Linked(done: seq<IfaceNode>, nexts: seq<IfaceNode?>)
    reads done
  {
    |done| == |nexts| && forall i :: 0 <= i < |done| ==> done[i].next == nexts[i]
  }

  lemma {:induction false} FlatOneMore(gs: seq<seq<IfaceNode>>, g: seq<IfaceNode>)
    ensures Flat(gs + [g]) == Flat(gs) + g && FlatNexts(gs + [g]) == FlatNexts(gs) + NextsOf(g)
  {
    if gs == [] {
      assert [] + [g] == [g] && [g][1..] == [];
      AppendNothing(g);
      AppendNothing(NextsOf(g));
    } else {
      assert (gs + [g])[1..] == gs[1..] + [g];
      FlatOneMore(gs[1..], g);
      Regroup(gs[0], Flat(gs[1..]), g);
      Regroup(NextsOf(gs[0]), FlatNexts(gs[1..]), NextsOf(g));
    }
  }

  lemma LinkedJoin(done: seq<IfaceNode>, nexts: seq<IfaceNode?>, g: seq<IfaceNode>)
    requires Linked(done, nexts) && Chain(g)
    ensures Linked(done + g, nexts + NextsOf(g))
  {
  }

  /** When the links are as they should be, each group is a chain. */
  lemma {:induction false} ChainsFromLinks(gs: seq<seq<IfaceNode>>, k: nat)
    requires Linked(Flat(gs), FlatNexts(gs)) && k < |gs|
    ensures Chain(gs[k])
  {
    var d, e := Flat(gs[1..]), FlatNexts(gs[1..]);
    assert |d| == |e|;
    if k == 0 {
      forall i | 0 <= i < |gs[0]|
        ensures gs[0][i].next == At(gs[0], i + 1)
      {
        assert Flat(gs)[i] == gs[0][i];
      }
    } else {
      forall i | 0 <= i < |d|
        ensures d[i].next == e[i]
      {
        assert Flat(gs)[|gs[0]| + i] == d[i];
      }
      ChainsFromLinks(gs[1..], k - 1);
    }
  }

  /** The groups made so far and the list that is left: nothing in common, nothing lost. */
  predicate Made(s: seq<IfaceNode>, gs: seq<seq<IfaceNode>>, r: seq<IfaceNode>) {
    && GroupsOf(s) == gs + GroupsOf(r)
    && Distinct(r) && (forall i :: 0 <= i < |r| ==> r[i] in s)
    && (forall i :: 0 <= i < |Flat(gs)| ==> Flat(gs)[i] !in r)
  }

  lemma GroupApart(r: seq<IfaceNode>, g: seq<IfaceNode>, others: seq<IfaceNode>)
    requires r != [] && Distinct(r)
    requires g == [r[0]] + Pick(r[1..], r[0], true) && others == Pick(r[1..], r[0], false)
    ensures Distinct(others)
    ensures forall i :: 0 <= i < |others| ==> others[i] in r
    ensures forall i :: 0 <= i < |g| ==> g[i] !in others
  {
    PickDistinct(r[1..], r[0], false);
    PickApart(r[1..], r[0]);
    CutFirst(r);
    assert r[0] !in r[1..];
  }

  lemma NoneIn(a: seq<IfaceNode>, g: seq<IfaceNode>, others: seq<IfaceNode>, r: seq<IfaceNode>)
    requires forall i :: 0 <= i < |a| ==> a[i] !in r
    requires forall i :: 0 <= i < |g| ==> g[i] !in others
    requires forall i :: 0 <= i < |others| ==> others[i] in r
    ensures forall i :: 0 <= i < |a + g| ==> (a + g)[i] !in others
  {
    forall i | 0 <= i < |a + g|
      ensures (a + g)[i] !in others
    {
      if i < |a| {
        assert (a + g)[i] == a[i];
      } else {
        assert (a + g)[i] == g[i - |a|];
      }
    }
  }

  lemma GroupsOfOneMore(r: seq<IfaceNode>)
    requires r != []
    ensures GroupsOf(r) == [[r[0]] + Pick(r[1..], r[0], true)] + GroupsOf(Pick(r[1..], r[0], false))
  {
  }

  lemma MadeOneMore(s: seq<IfaceNode>, gs: seq<seq<IfaceNode>>, r: seq<IfaceNode>)
    requires r != [] && Made(s, gs, r)
    ensures Made(s, gs + [[r[0]] + Pick(r[1..], r[0], true)], Pick(r[1..], r[0], false))
  {
    hide Pick, Flat, GroupsOf, FlatNexts, Distinct;
    var g, others := [r[0]] + Pick(r[1..], r[0], true), Pick(r[1..], r[0], false);
    Regroup(gs, [g], GroupsOf(others));
    GroupApart(r, g, others);
    FlatOneMore(gs, g);
    GroupsOfOneMore(r);
    NoneIn(Flat(gs), g, others, r);
  }

  lemma MadeApart(s: seq<IfaceNode>, gs: seq<seq<IfaceNode>>, r: seq<IfaceNode>)
    requires Made(s, gs, r)
    ensures Distinct(r) && forall i :: 0 <= i < |Flat(gs)| ==> Flat(gs)[i] !in r
  {
  }

  /** Puts a master at the end of the list of masters. */
  method Link(first: MasterNode?, last: MasterNode?, m: MasterNode, ghost ms: seq<MasterNode>,
              ghost done: seq<IfaceNode>, ghost nexts: seq<IfaceNode?>, ghost r: seq<IfaceNode>)
    returns (newFirst: MasterNode?)
    requires Linked(done, nexts) && List(r)
    requires Masters(ms) && first == MasterAt(ms, 0) && last == MasterAt(ms, |ms| - 1) && m !in ms && m.next == null
    modifies last
    ensures Linked(done, nexts) && List(r)
    ensures Masters(ms + [m]) && newFirst == MasterAt(ms + [m], 0)
  {
    newFirst := first;
    if last == null {
      newFirst := m;
    } else {
      last.next := m;
    }
  }

  /** One master with its group. */
  method Step(cur: IfaceNode, ghost r: seq<IfaceNode>, ghost done: seq<IfaceNode>, ghost nexts: seq<IfaceNode?>)
    returns (m: MasterNode, next: IfaceNode?)
    requires r != [] && List(r) && Distinct(r) && cur == r[0]
    requires Linked(done, nexts) && forall i :: 0 <= i < |done| ==> done[i] !in r
    modifies r
    ensures fresh(m) && m.iface == cur && m.next == null
    ensures var g, others := [cur] + Pick(r[1..], cur, true), Pick(r[1..], cur, false);
      List(others) && next == At(others, 0) && Linked(done + g, nexts + NextsOf(g))
  {
    m, next := MakeGroup(cur, r);
    assert Linked(done, nexts);
    LinkedJoin(done, nexts, [cur] + Pick(r[1..], cur, true));
  }

  predicate Owns(ms: seq<MasterNode>, gs: seq<seq<IfaceNode>>) {
    |ms| == |gs| && forall k :: 0 <= k < |ms| ==> gs[k] != [] && ms[k].iface == gs[k][0]
  }

  /** Where the loop stands: the groups made, the list left, the masters in the order of their groups. */
  ghost predicate Making(s: seq<IfaceNode>, gs: seq<seq<IfaceNode>>, r: seq<IfaceNode>, ms: seq<MasterNode>)
    reads s, r, Flat(gs), ms
  {
    && Made(s, gs, r) && List(r) && Linked(Flat(gs), FlatNexts(gs)) && Masters(ms) && Owns(ms, gs)
  }

  lemma MakingStarts(s: seq<IfaceNode>)
    requires List(s) && Distinct(s)
    ensures Making(s, [], s, [])
  {
  }

  /** When no node is left the groups made are those of the whole list. */
  lemma MakingEnds(s: seq<IfaceNode>, gs: seq<seq<IfaceNode>>, ms: seq<MasterNode>)
    requires Making(s, gs, [], ms)
    ensures GroupsOf(s) == gs
  {
    AppendNothing(gs);
  }

  /** One round: the first node left becomes a master, at the end of the list of masters. */
  method Round(cur: IfaceNode, first: MasterNode?, last: MasterNode?, ghost s: seq<IfaceNode>,
               ghost gs: seq<seq<IfaceNode>>, ghost r: seq<IfaceNode>, ghost ms: seq<MasterNode>)
    returns (m: MasterNode, first': MasterNode?, cur': IfaceNode?)
    requires r != [] && Making(s, gs, r, ms) && cur == r[0]
    requires first == MasterAt(ms, 0) && last == MasterAt(ms, |ms| - 1)
    modifies r, last
    ensures fresh(m)
    ensures var g, others := [cur] + Pick(r[1..], cur, true), Pick(r[1..], cur, false);
      && Making(s, gs + [g], others, ms + [m]) && first' == MasterAt(ms + [m], 0) && cur' == At(others, 0)
  {
    hide Made, Pick, Flat, FlatNexts, NextsOf, GroupsOf, Same, UpToDot, Linked, List, Masters, Distinct;
    ghost var g := [cur] + Pick(r[1..], cur, true);
    ghost var others := Pick(r[1..], cur, false);
    MadeApart(s, gs, r);
    MadeOneMore(s, gs, r);
    FlatOneMore(gs, g);
    m, cur' := Step(cur, r, Flat(gs), FlatNexts(gs));
    assert Masters(ms);
    first' := Link(first, last, m, ms, Flat(gs + [g]), FlatNexts(gs + [g]), others);
  }

  /** How the making of one master goes. */
  datatype Outcome = Works | NoMemory | QueryFails

  /**
   Groups the nodes of the list: one master for each group, in order, each with
   its chain of nodes. It stops at the first master that cannot be made; `r`
   is the list that is left then.
   */
  method CreateMasters(head: IfaceNode?, outcome: nat -> Outcome, ghost s: seq<IfaceNode>)
    returns (first: MasterNode?, cur: IfaceNode?, end: Outcome,
             ghost ms: seq<MasterNode>, ghost gs: seq<seq<IfaceNode>>, ghost r: seq<IfaceNode>)
    requires List(s) && Distinct(s) && head == At(s, 0)
    modifies s
    ensures Making(s, gs, r, ms) && first == MasterAt(ms, 0) && cur == At(r, 0)
    ensures forall k :: 0 <= k < |ms| ==> fresh(ms[k])
    ensures forall i :: 0 <= i < |r| ==> r[i] in s
    ensures end.Works? <==> r == []
    ensures end == if r == [] then Works else outcome(|gs|)
    ensures forall k :: 0 <= k < |gs| ==> outcome(k).Works?
  {
    hide Making, Made, Pick, Flat, FlatNexts, NextsOf, GroupsOf, Same, UpToDot, Linked, List, Masters, Distinct, Owns;
    MakingStarts(s);
    first, ms := null, [];
    var last: MasterNode? := null;
    var count := 0;
    cur, gs, r := head, [], s;
    while cur != null
      invariant Making(s, gs, r, ms) && cur == At(r, 0)
      invariant forall i :: 0 <= i < |r| ==> r[i] in s
      invariant forall k :: 0 <= k < |ms| ==> fresh(ms[k])
      invariant first == MasterAt(ms, 0) && last == MasterAt(ms, |ms| - 1)
      invariant count == |gs| && forall k :: 0 <= k < count ==> outcome(k).Works?
      decreases |r|
    {
      if !outcome(count).Works? {
        return first, cur, outcome(count), ms, gs, r;
      }
      var m;
      m, first, cur := Round(cur, first, last, s, gs, r, ms);
      gs, r := gs + [[r[0]] + Pick(r[1..], r[0], true)], Pick(r[1..], r[0], false);
      last, ms, count := m, ms + [m], count + 1;
    }
    end := Works;
  }
}
