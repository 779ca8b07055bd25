/** The whole life of the interface list: built, ordered, grouped, and freed node by node. */
module NicRun {
  import opened Seqs
  import opened NicGroups
  import opened NicList
  import opened NicHeap

  /** What has been freed, in order. Nothing may be freed twice. */
  class Allocator {
    ghost var nodes: seq<IfaceNode>
    ghost var masters: seq<MasterNode>

    constructor ()
      ensures nodes == [] && masters == []
    {
      nodes, masters := [], [];
    }

    method FreeNode(n: IfaceNode)
      requires n !in nodes
      modifies `nodes
      ensures nodes == old(nodes) + [n]
    {
      nodes := nodes + [n];
    }

    method FreeMaster(m: MasterNode)
      requires m !in masters
      modifies `masters
      ensures masters == old(masters) + [m]
    {
      masters := masters + [m];
    }
  }

  /** Frees every node of a chain, each once. */
  method FreeSlaves(heap: Allocator, head: IfaceNode?, ghost s: seq<IfaceNode>)
    requires Chain(s) && head == At(s, 0) && Distinct(heap.nodes + s)
    modifies heap`nodes
    ensures heap.nodes == old(heap.nodes) + s
  {
    ghost var before := heap.nodes;
    var last := head;
    ghost var k := 0;
    AppendNothing(before);
    while last != null
      invariant k <= |s| && last == At(s, k) && heap.nodes == before + s[..k]
      decreases |s| - k
    {
      var next := last.next;
      CutAt(s, k);
      assert forall i :: 0 <= i < |before + s[..k]| ==> (before + s[..k])[i] == (before + s)[i];
      assert s[k] == (before + s)[|before| + k];
      heap.FreeNode(last);
      Regroup(before, s[..k], [s[k]]);
      last, k := next, k + 1;
    }
    assert s[..k] == s;
  }

  lemma {:induction false} FlatOfJoin(a: seq<seq<IfaceNode>>, b: seq<seq<IfaceNode>>)
    ensures Flat(a + b) == Flat(a) + Flat(b)
  {
    if a == [] {
      AppendNothing(b);
      AppendNothing(Flat(b));
    } else {
      assert (a + b)[1..] == a[1..] + b;
      FlatOfJoin(a[1..], b);
      Regroup(a[0], Flat(a[1..]), Flat(b));
    }
  }

  lemma {:induction false} FlatCut(gs: seq<seq<IfaceNode>>, k: nat)
    requires k < |gs|
    ensures Flat(gs) == Flat(gs[..k]) + gs[k] + Flat(gs[k + 1..]) && Flat(gs[..k + 1]) == Flat(gs[..k]) + gs[k]
  {
    CutAt(gs, k);
    FlatOneMore(gs[..k], gs[k]);
    Cut(gs, k + 1);
    FlatOfJoin(gs[..k + 1], gs[k + 1..]);
  }

  lemma DistinctPart(a: seq<IfaceNode>, b: seq<IfaceNode>, c: seq<IfaceNode>)
    requires Distinct(a + (b + c))
    ensures Distinct(a + b)
  {
    assert forall i :: 0 <= i < |a + b| ==> (a + b)[i] == (a + (b + c))[i];
  }

  /** The chain of group `k` has not been freed with the groups before it. */
  lemma FreeNth(nodes: seq<IfaceNode>, gs: seq<seq<IfaceNode>>, k: nat)
    requires k < |gs| && Distinct(nodes + Flat(gs))
    ensures Distinct(nodes + Flat(gs[..k]) + gs[k])
    ensures nodes + Flat(gs[..k]) + gs[k] == nodes + Flat(gs[..k + 1])
  {
    FlatCut(gs, k);
    DistinctPart(nodes, Flat(gs[..k]) + gs[k], Flat(gs[k + 1..]));
    Regroup(nodes, Flat(gs[..k]), gs[k]);
  }

  /** Frees the masters, and for each one its whole chain. */
  method FreeMasters(heap: Allocator, first: MasterNode?, ghost ms: seq<MasterNode>, ghost gs: seq<seq<IfaceNode>>)
    requires Masters(ms) && first == MasterAt(ms, 0) && Owns(ms, gs)
    requires forall k :: 0 <= k < |gs| ==> Chain(gs[k])
    requires Distinct(heap.nodes + Flat(gs)) && forall k :: 0 <= k < |ms| ==> ms[k] !in heap.masters
    modifies heap
    ensures heap.nodes == old(heap.nodes) + Flat(gs) && heap.masters == old(heap.masters) + ms
  {
    ghost var nodes, masters := heap.nodes, heap.masters;
    var node := first;
    ghost var k := 0;
    AppendNothing(nodes);
    AppendNothing(masters);
    while node != null
      invariant k <= |ms| && node == MasterAt(ms, k)
      invariant heap.nodes == nodes + Flat(gs[..k]) && heap.masters == masters + ms[..k]
      decreases |ms| - k
    {
      var next := node.next;
      FreeNth(nodes, gs, k);
      FreeSlaves(heap, node.iface, gs[k]);
      CutAt(ms, k);
      Regroup(masters, ms[..k], [ms[k]]);
      heap.FreeMaster(node);
      node, k := next, k + 1;
    }
    assert gs[..k] == gs && ms[..k] == ms;
  }

  lemma ListGrows(s: seq<IfaceNode>, n: IfaceNode)
    requires forall i {:trigger s[i]} :: 0 <= i < |s| ==>
               s[i].prev == At(s, i - 1) && s[i].next == if i < |s| - 1 then At(s, i + 1) else n
    requires n.next == null && n.prev == At(s, |s| - 1)
    ensures List(s + [n])
  {
  }

  /** The first of `n` interfaces whose node cannot be built. */
  function FirstFailing(build: nat -> Outcome, n: nat): (f: nat)
    ensures f <= n && (forall i :: 0 <= i < f ==> build(i).Works?) && (f < n ==> !build(f).Works?)
  {
    if n == 0 then 0
    else
      var f := FirstFailing(build, n - 1);
      if f == n - 1 && build(f).Works? then n else f
  }

  /** The nodes made: a node whose addresses cannot be had is in the list already. */
  function NodesBuilt(build: nat -> Outcome, n: nat): nat {
    var f := FirstFailing(build, n);
    if f < n && build(f).QueryFails? then f + 1 else f
  }

  lemma BuiltUpTo(build: nat -> Outcome, n: nat, i: nat)
    requires i <= n && (forall j :: 0 <= j < i ==> build(j).Works?) && (i < n ==> !build(i).Works?)
    ensures FirstFailing(build, n) == i
  {
    var f := FirstFailing(build, n);
    assert f < n ==> !build(f).Works?;
  }

  /** `s` is the first of the interfaces, one new node for each. */
  ghost predicate Mirrors(s: seq<IfaceNode>, items: seq<(string, string)>) {
    |s| <= |items| && forall i :: 0 <= i < |s| ==> s[i].name == items[i].0 && s[i].bdf == items[i].1
  }

  /** A new node at the end of the list. */
  method AddNode(head: IfaceNode?, last: IfaceNode?, name: string, bdf: string, ghost s: seq<IfaceNode>)
    returns (first: IfaceNode, node: IfaceNode)
    requires List(s) && Distinct(s) && head == At(s, 0) && last == At(s, |s| - 1)
    modifies s
    ensures fresh(node) && node.name == name && node.bdf == bdf
    ensures List(s + [node]) && Distinct(s + [node]) && first == At(s + [node], 0)
  {
    node := new IfaceNode(name, bdf);
    if head == null {
      first := node;
    } else {
      first := head;
      last.next := node;
      node.prev := last;
    }
    ListGrows(s, node);
  }

  lemma EmptyList()
    ensures List([]) && Distinct([])
  {
  }

  /** One node for each interface, linked in the order of the interfaces, up to the first that fails. */
  method BuildList(items: seq<(string, string)>, build: nat -> Outcome)
    returns (head: IfaceNode?, ok: bool, ghost s: seq<IfaceNode>)
    ensures List(s) && Distinct(s) && head == At(s, 0) && Mirrors(s, items) && |s| == NodesBuilt(build, |items|)
    ensures ok <==> forall i :: 0 <= i < |items| ==> build(i).Works?
    ensures forall i :: 0 <= i < |s| ==> fresh(s[i])
  {
    hide FirstFailing, List, Distinct;
    head, ok, s := null, true, [];
    EmptyList();
    var last: IfaceNode? := null;
    var i := 0;
    while i < |items| && ok
      invariant i <= |items| && forall j :: 0 <= j < i ==> build(j).Works?
      invariant ok || (i < |items| && !build(i).Works?)
      invariant |s| == if ok || build(i).NoMemory? then i else i + 1
      invariant List(s) && Distinct(s) && Mirrors(s, items) && head == At(s, 0) && last == At(s, |s| - 1)
      invariant forall j :: 0 <= j < |s| ==> fresh(s[j])
      decreases |items| - i, ok
    {
      if !build(i).NoMemory? {
        head, last := AddNode(head, last, items[i].0, items[i].1, s);
        s := s + [last];
      }
      ok := build(i).Works?;
      if ok {
        i := i + 1;
      }
    }
    BuiltUpTo(build, |items|, i);
  }

  /** Takes `x` out of the middle or the end of a list. Its own links are left alone. */
  method Detach(x: IfaceNode, ghost a: seq<IfaceNode>, ghost b: seq<IfaceNode>)
    requires Apart([], a, x, b) && a != [] && List(a + [x] + b)
    modifies a, b
    ensures List(a + b)
  {
    Parts(a, x, b);
    if x.next == null {
      x.prev.next := null;
    } else {
      x.prev.next := x.next;
      x.next.prev := x.prev;
    }
    Join(a, b);
  }

  /** Puts `x` before a list. */
  method PutFirst(x: IfaceNode, head: IfaceNode, ghost s: seq<IfaceNode>)
    requires s != [] && head == s[0] && List(s) && Distinct(s) && x !in s
    modifies x, head
    ensures List([x] + s)
  {
    x.next := head;
    head.prev := x;
    x.prev := null;
    Join([x], s);
  }

  lemma Around(s: seq<IfaceNode>, k: nat, a: seq<IfaceNode>, x: IfaceNode, b: seq<IfaceNode>)
    requires k < |s| && Distinct(s) && a == s[..k] && x == s[k] && b == s[k + 1..]
    ensures s == a + [x] + b && Apart([], a, x, b) && Distinct(a + b) && x !in a + b
    ensures forall o :: o in a + b ==> o in s
  {
  }

  /** The first node of this name. */
  method Find(head: IfaceNode, name: string, ghost s: seq<IfaceNode>) returns (x: IfaceNode, ghost k: nat)
    requires Chain(s) && s != [] && head == s[0]
    requires exists i :: 0 <= i < |s| && s[i].name == name
    ensures k < |s| && s[k] == x && x.name == name && forall i :: 0 <= i < k ==> s[i].name != name
  {
    x, k := head, 0;
    while x.name != name
      invariant k < |s| && x == s[k] && forall i :: 0 <= i < k ==> s[i].name != name
      decreases |s| - k
    {
      x, k := x.next, k + 1;
    }
  }

  lemma OnlyFirst(s: seq<IfaceNode>, k: nat)
    requires Distinct(s) && k < |s| && s[k] == s[0]
    ensures k == 0
  {
  }

  lemma ListIsChain(s: seq<IfaceNode>)
    requires List(s)
    ensures Chain(s)
  {
  }

  /** Puts node `k` at the head of the list; the others keep their order. */
  method MakeHead(head: IfaceNode, x: IfaceNode, ghost s: seq<IfaceNode>, ghost k: nat)
    requires List(s) && Distinct(s) && k < |s| && x == s[k] && head == s[0]
    modifies s
    ensures List([x] + (s[..k] + s[k + 1..]))
  {
    hide List, Apart, Distinct;
    ghost var a, b := s[..k], s[k + 1..];
    Around(s, k, a, x, b);
    if x != head {
      assert a[0] == head;
      Detach(x, a, b);
      PutFirst(x, head, a + b);
    } else {
      OnlyFirst(s, k);
      assert [x] + (a + b) == s;
    }
  }

  lemma FlatHas(gs: seq<seq<IfaceNode>>, k: nat)
    requires k < |gs|
    ensures forall i :: 0 <= i < |gs[k]| ==> gs[k][i] in Flat(gs)
  {
    FlatCut(gs, k);
  }

  ghost predicate ChainIn(gs: seq<seq<IfaceNode>>, k: nat)
    requires k < |gs|
    reads Flat(gs)
  {
    FlatHas(gs, k);
    Chain(gs[k])
  }

  /** What grouping leaves: masters with their chains, and what has been freed already, is all the nodes, each once. */
  ghost predicate Grouped(heap: Allocator, s: seq<IfaceNode>, ms: seq<MasterNode>, gs: seq<seq<IfaceNode>>)
    reads heap, ms, Flat(gs)
  {
    && Masters(ms) && Owns(ms, gs) && (forall k :: 0 <= k < |gs| ==> ChainIn(gs, k))
    && Distinct(heap.nodes + Flat(gs)) && multiset(heap.nodes + Flat(gs)) == multiset(s)
    && heap.masters == []
  }

  lemma {:induction false} OnceEach(a: seq<IfaceNode>, x: IfaceNode)
    requires Distinct(a)
    ensures multiset(a)[x] <= 1
  {
    if a != [] {
      CutFirst(a);
      OnceEach(a[1..], x);
      assert a[0] !in a[1..];
    }
  }

  lemma TwiceThere(b: seq<IfaceNode>, i: nat, j: nat)
    requires i < j < |b| && b[i] == b[j]
    ensures multiset(b)[b[i]] >= 2
  {
    Cut(b, j);
    assert b[i] in b[..j] && b[j] in b[j..];
  }

  lemma {:induction false} DistinctOfMultiset(a: seq<IfaceNode>, b: seq<IfaceNode>)
    requires Distinct(a) && multiset(a) == multiset(b)
    ensures Distinct(b)
  {
    forall i, j | 0 <= i < j < |b|
      ensures b[i] != b[j]
    {
      if b[i] == b[j] {
        OnceEach(a, b[i]);
        TwiceThere(b, i, j);
      }
    }
  }

  lemma RestDistinct(s: seq<IfaceNode>)
    requires s != [] && Distinct(s)
    ensures Distinct(Pick(s[1..], s[0], false))
  {
    CutFirst(s);
    PickDistinct(s[1..], s[0], false);
  }

  /** One master only: the first node with its slaves. The other nodes are freed. */
  method GroupOne(heap: Allocator, head: IfaceNode, ghost s: seq<IfaceNode>) returns (m: MasterNode)
    requires s != [] && List(s) && Distinct(s) && head == s[0] && heap.nodes == []
    modifies s, heap`nodes
    ensures fresh(m) && m.iface == head && m.next == null
    ensures Chain([head] + Pick(s[1..], head, true))
    ensures heap.nodes == Pick(s[1..], head, false)
  {
    hide Pick, Same, Chain, Distinct, List;
    var rest;
    ghost var others := Pick(s[1..], head, false);
    RestDistinct(s);
    AppendNothing(others);
    m, rest := MakeGroup(head, s);
    ListIsChain(others);
    FreeSlaves(heap, rest, others);
  }

  lemma WantedAll(s: seq<IfaceNode>)
    ensures var f := Flat(GroupsOf(s)); multiset([] + f) == multiset(s) && (Distinct(s) ==> Distinct([] + f))
  {
    var f := Flat(GroupsOf(s));
    AppendNothing(f);
    GroupsArePermutation(s);
    if Distinct(s) {
      DistinctOfMultiset(s, f);
    }
  }

  lemma FlatOfOne(g: seq<IfaceNode>)
    ensures Flat([g]) == g
  {
  }

  lemma SameNodes(a: seq<IfaceNode>, x: IfaceNode, b: seq<IfaceNode>, yes: seq<IfaceNode>, no: seq<IfaceNode>)
    requires multiset(yes) + multiset(no) == multiset(a + b)
    ensures multiset(no + ([x] + yes)) == multiset(a + [x] + b)
  {
    assert multiset([x] + yes) == multiset{x} + multiset(yes);
    assert multiset(no + ([x] + yes)) == multiset(no) + multiset([x] + yes);
    assert multiset(a + [x] + b) == multiset(a) + multiset{x} + multiset(b);
    assert multiset(a + b) == multiset(a) + multiset(b);
    assert multiset(no) + (multiset{x} + multiset(yes)) == multiset(yes) + multiset(no) + multiset{x};
    assert multiset(a) + multiset{x} + multiset(b) == multiset(a) + multiset(b) + multiset{x};
  }

  lemma WantedOne(s: seq<IfaceNode>, k: nat)
    requires k < |s|
    ensures var others := s[..k] + s[k + 1..];
      var f := Pick(others, s[k], false) + Flat([[s[k]] + Pick(others, s[k], true)]);
      multiset(f) == multiset(s) && (Distinct(s) ==> Distinct(f))
  {
    hide Pick, Flat, Distinct;
    var x, a, b := s[k], s[..k], s[k + 1..];
    var yes, no := Pick(a + b, x, true), Pick(a + b, x, false);
    FlatOfOne([x] + yes);
    PickSplits(a + b, x);
    SameNodes(a, x, b, yes, no);
    CutAt(s, k);
    Cut(s, k);
    Regroup(a, [x], b);
    if Distinct(s) {
      DistinctOfMultiset(s, no + ([x] + yes));
    }
  }

  /** Every interface: one group for each adapter. One interface: its adapter's group, with it in front. */
  ghost function Wanted(s: seq<IfaceNode>, k: int): (r: (seq<IfaceNode>, seq<seq<IfaceNode>>))
    requires k < |s|
    ensures Distinct(s) ==> Distinct(r.0 + Flat(r.1)) && multiset(r.0 + Flat(r.1)) == multiset(s)
  {
    if k < 0 then
      WantedAll(s);
      ([], GroupsOf(s))
    else
      var others := s[..k] + s[k + 1..];
      WantedOne(s, k);
      (Pick(others, s[k], false), [[s[k]] + Pick(others, s[k], true)])
  }

  /** What is left of a list without node `k`, with that node in front. */
  lemma InFront(s: seq<IfaceNode>, k: nat)
    requires k < |s| && Distinct(s)
    ensures var others := s[..k] + s[k + 1..]; Distinct([s[k]] + others) && ([s[k]] + others)[1..] == others
    ensures forall o :: o in [s[k]] + (s[..k] + s[k + 1..]) ==> o in s
  {
  }

  lemma GroupedAll(heap: Allocator, s: seq<IfaceNode>, ms: seq<MasterNode>, gs: seq<seq<IfaceNode>>)
    requires heap.nodes == [] && heap.masters == [] && Distinct(s) && Making(s, gs, [], ms)
    ensures Wanted(s, -1) == ([], gs) && Grouped(heap, s, ms, gs)
  {
    MakingEnds(s, gs, ms);
    WantedAll(s);
    forall k | 0 <= k < |gs|
      ensures ChainIn(gs, k)
    {
      ChainsFromLinks(gs, k);
    }
  }

  lemma SameSize(a: seq<IfaceNode>, b: seq<IfaceNode>)
    requires multiset(a) == multiset(b)
    ensures |a| == |b|
  {
    assert |multiset(a)| == |a| && |multiset(b)| == |b|;
  }

  /** The nodes in the groups made and the nodes left are all the nodes, and none is in two groups. */
  lemma PartMade(s: seq<IfaceNode>, gs: seq<seq<IfaceNode>>, r: seq<IfaceNode>)
    requires Distinct(s) && Made(s, gs, r)
    ensures |Flat(gs)| + |r| == |s| && Distinct(Flat(gs))
    ensures gs == [] ==> multiset(r) == multiset(s)
  {
    var rest := Flat(GroupsOf(r));
    GroupsArePermutation(s);
    GroupsArePermutation(r);
    FlatOfJoin(gs, GroupsOf(r));
    SameSize(rest, r);
    SameSize(Flat(GroupsOf(s)), s);
    DistinctOfMultiset(s, Flat(GroupsOf(s)));
    AppendNothing(Flat(gs) + rest);
    AppendNothing(Flat(gs));
    DistinctPart([], Flat(gs), rest);
  }

  /** The chains of the groups made, after the next node was cut off the list. */
  lemma ChainsMade(gs: seq<seq<IfaceNode>>)
    requires Linked(Flat(gs), FlatNexts(gs))
    ensures forall k :: 0 <= k < |gs| ==> Chain(gs[k])
  {
    forall k | 0 <= k < |gs|
      ensures Chain(gs[k])
    {
      ChainsFromLinks(gs, k);
    }
  }

  /** What is freed when a master cannot be made. */
  function Salvaged(cur: IfaceNode, failure: Outcome, gs: seq<seq<IfaceNode>>, r: seq<IfaceNode>): seq<IfaceNode> {
    if gs != [] then Flat(gs) else if failure.NoMemory? then r else [cur]
  }

  lemma {:induction false} FlatIn(gs: seq<seq<IfaceNode>>, x: IfaceNode)
    ensures x in Flat(gs) <==> exists k :: 0 <= k < |gs| && x in gs[k]
  {
    if gs != [] {
      FlatIn(gs[1..], x);
      if k :| 0 <= k < |gs| && x in gs[k] {
        if k > 0 {
          assert gs[1..][k - 1] == gs[k];
        }
      }
      if k :| 0 <= k < |gs[1..]| && x in gs[1..][k] {
        assert gs[k + 1] == gs[1..][k];
      }
    }
  }

  /** Freed are all nodes of the groups made; if there are none, the list if it is still whole, or just its head. */
  lemma SalvagedHas(cur: IfaceNode, failure: Outcome, gs: seq<seq<IfaceNode>>, r: seq<IfaceNode>, x: IfaceNode)
    requires r != [] && cur == r[0]
    ensures x in Salvaged(cur, failure, gs, r) <==>
              || (exists k :: 0 <= k < |gs| && x in gs[k])
              || (gs == [] && (x == cur || (failure.NoMemory? && x in r)))
  {
    FlatIn(gs, x);
  }

  lemma SalvagedIsAll(cur: IfaceNode, failure: Outcome, s: seq<IfaceNode>, gs: seq<seq<IfaceNode>>, r: seq<IfaceNode>)
    requires !failure.Works? && Distinct(s) && Made(s, gs, r) && r != [] && cur == r[0]
    ensures var f := Salvaged(cur, failure, gs, r);
      Distinct(f) && (multiset(f) == multiset(s) <==> gs == [] && (failure.NoMemory? || |s| == 1))
  {
    hide Made, Flat, GroupsOf;
    PartMade(s, gs, r);
    MadeApart(s, gs, r);
    var f := Salvaged(cur, failure, gs, r);
    if |r| == 1 {
      assert r == [cur];
    }
    if multiset(f) == multiset(s) {
      SameSize(f, s);
    }
  }

  lemma OneIsDistinct(x: IfaceNode)
    ensures Distinct([x])
  {
  }

  /** The links of the groups made do not involve the nodes left. */
  lemma LinksMade(s: seq<IfaceNode>, gs: seq<seq<IfaceNode>>, r: seq<IfaceNode>, ms: seq<MasterNode>)
    requires Making(s, gs, r, ms) && r != []
    ensures Linked(Flat(gs), FlatNexts(gs)) && r[0] !in Flat(gs) && Masters(ms) && Owns(ms, gs)
    ensures List(r) && Distinct(r) && Made(s, gs, r)
  {
  }

  /**
   What is done when a master cannot be made: the groups made are freed, or, if
   there are none, what hangs on the node whose master was to be made.
   */
  method CleanUp(heap: Allocator, first: MasterNode?, cur: IfaceNode, failure: Outcome, ghost s: seq<IfaceNode>,
                 ghost ms: seq<MasterNode>, ghost gs: seq<seq<IfaceNode>>, ghost r: seq<IfaceNode>)
    requires heap.nodes == [] && heap.masters == [] && !failure.Works?
    requires Distinct(s) && Making(s, gs, r, ms) && r != [] && cur == r[0] && first == MasterAt(ms, 0)
    modifies heap, cur
    ensures heap.masters == ms && heap.nodes == Salvaged(cur, failure, gs, r)
  {
    hide Made, Flat, GroupsOf, Making, FlatNexts, Distinct;
    LinksMade(s, gs, r, ms);
    PartMade(s, gs, r);
    AppendNothing(Flat(gs));
    AppendNothing(ms);
    AppendNothing(r);
    AppendNothing([cur]);
    OneIsDistinct(cur);
    ListIsChain(r);
    if failure.QueryFails? {
      cur.next := null;
    }
    if first != null {
      ChainsMade(gs);
      FreeMasters(heap, first, ms, gs);
    } else {
      FreeSlaves(heap, cur, if failure.NoMemory? then r else [cur]);
    }
  }

  lemma GroupedOne(heap: Allocator, s: seq<IfaceNode>, k: nat, m: MasterNode)
    requires k < |s| && Distinct(s) && heap.masters == [] && heap.nodes == Wanted(s, k).0
    requires m.iface == s[k] && m.next == null && Chain(Wanted(s, k).1[0])
    ensures Grouped(heap, s, [m], Wanted(s, k).1)
  {
  }

  /** The list with node `k` in front has the same nodes. */
  lemma FrontIsSame(s: seq<IfaceNode>, k: nat)
    requires k < |s|
    ensures multiset([s[k]] + (s[..k] + s[k + 1..])) == multiset(s)
  {
    Cut(s, k);
    CutAt(s, k);
    Regroup(s[..k], [s[k]], s[k + 1..]);
    SameNodes(s[..k], s[k], s[k + 1..], s[..k] + s[k + 1..], []);
  }

  /**
   When `o` is why the first master could not be made, everything is freed if
   there was no memory for it or if there is only one node; when a later one
   could not be made, never.
   */
  ghost predicate Abandoned(heap: Allocator, s: seq<IfaceNode>, o: Outcome)
    reads heap`nodes
  {
    && Distinct(heap.nodes)
    && (multiset(heap.nodes) == multiset(s) <==> o.NoMemory? || (o.QueryFails? && |s| == 1))
  }

  /** The first master cannot be made, of a list `l` that has the nodes of `s`. */
  method Abandon(heap: Allocator, x: IfaceNode, outcome: Outcome, ghost s: seq<IfaceNode>, ghost k: nat,
                 ghost l: seq<IfaceNode>)
    requires k < |s| && x == s[k] && l == [x] + (s[..k] + s[k + 1..]) && List(l) && Distinct(l)
    requires heap.nodes == [] && heap.masters == [] && !outcome.Works?
    modifies x, heap
    ensures Abandoned(heap, s, outcome)
  {
    hide List, Distinct, Making, Made, Flat, Masters;
    FrontIsSame(s, k);
    SameSize(l, s);
    MakingStarts(l);
    LinksMade(l, [], l, []);
    SalvagedIsAll(x, outcome, l, [], l);
    CleanUp(heap, null, x, outcome, l, [], [], l);
  }

  /** The interface of this name, in front of the others, becomes the one master, if it can be made. */
  method GroupNamed(heap: Allocator, head: IfaceNode, name: string, outcome: Outcome, ghost s: seq<IfaceNode>)
    returns (first: MasterNode?, ghost k: nat)
    requires List(s) && Distinct(s) && s != [] && head == s[0] && heap.nodes == [] && heap.masters == []
    requires exists i :: 0 <= i < |s| && s[i].name == name
    modifies s, heap
    ensures k < |s| && s[k].name == name && (first != null <==> outcome.Works?) && (first != null ==> fresh(first))
    ensures first != null ==> first.iface == s[k] && first.next == null && Chain(Wanted(s, k).1[0])
    ensures first != null ==> heap.nodes == Wanted(s, k).0 && heap.masters == []
    ensures first == null ==> Abandoned(heap, s, outcome)
  {
    hide List, Distinct, Pick, Chain, Abandoned;
    var x;
    ListIsChain(s);
    x, k := Find(head, name, s);
    MakeHead(head, x, s, k);
    InFront(s, k);
    if outcome.Works? {
      first := GroupOne(heap, x, [x] + (s[..k] + s[k + 1..]));
    } else {
      first := null;
      Abandon(heap, x, outcome, s, k, [x] + (s[..k] + s[k + 1..]));
    }
  }

  /** The masters are those wanted, and the nodes not wanted have been freed. */
  ghost predicate Finished(heap: Allocator, first: MasterNode?, s: seq<IfaceNode>, k: int, ms: seq<MasterNode>)
    requires k < |s|
    reads heap, ms, Flat(Wanted(s, k).1)
  {
    first == MasterAt(ms, 0) && heap.nodes == Wanted(s, k).0 && Grouped(heap, s, ms, Wanted(s, k).1)
  }

  lemma MadeSoFar(s: seq<IfaceNode>, gs: seq<seq<IfaceNode>>, r: seq<IfaceNode>, ms: seq<MasterNode>)
    requires Making(s, gs, r, ms)
    ensures if r == [] then GroupsOf(s) == gs else |gs| < |GroupsOf(s)|
  {
    AppendNothing(gs);
  }

  /** Masters for every interface, if they all can be made. */
  method GroupAll(heap: Allocator, head: IfaceNode?, outcome: nat -> Outcome, ghost s: seq<IfaceNode>)
    returns (first: MasterNode?, ok: bool, ghost ms: seq<MasterNode>)
    requires List(s) && Distinct(s) && head == At(s, 0) && heap.nodes == [] && heap.masters == []
    modifies s, heap
    ensures ok <==> forall k :: 0 <= k < |GroupsOf(s)| ==> outcome(k).Works?
    ensures forall i :: 0 <= i < |ms| ==> fresh(ms[i])
    ensures ok ==> Finished(heap, first, s, -1, ms)
    ensures !ok ==> Abandoned(heap, s, outcome(0))
  {
    hide List, Distinct, Pick, Chain, Making, Made, GroupsOf, Masters, Grouped, Flat, Same, Wanted;
    var cur, end;
    ghost var gs, r;
    first, cur, end, ms, gs, r := CreateMasters(head, outcome, s);
    ok := end.Works?;
    MadeSoFar(s, gs, r, ms);
    if ok {
      GroupedAll(heap, s, ms, gs);
    } else {
      LinksMade(s, gs, r, ms);
      SalvagedIsAll(cur, end, s, gs, r);
      CleanUp(heap, first, cur, end, s, ms, gs, r);
    }
  }

  /** Makes masters of the list that was built. */
  method GroupList(heap: Allocator, head: IfaceNode?, applyAll: bool, name: string, outcome: nat -> Outcome,
                   ghost s: seq<IfaceNode>)
    returns (first: MasterNode?, ok: bool, ghost k: int, ghost ms: seq<MasterNode>)
    requires List(s) && Distinct(s) && head == At(s, 0) && heap.nodes == [] && heap.masters == []
    requires !applyAll ==> exists i :: 0 <= i < |s| && s[i].name == name
    modifies s, heap
    ensures if applyAll then k == -1 else 0 <= k < |s| && s[k].name == name
    ensures ok <==> if applyAll then forall i :: 0 <= i < |GroupsOf(s)| ==> outcome(i).Works? else outcome(0).Works?
    ensures if ok then k < |s| && Finished(heap, first, s, k, ms) else Abandoned(heap, s, outcome(0))
    ensures forall i :: 0 <= i < |ms| ==> fresh(ms[i])
  {
    hide List, Distinct, Pick, Flat, GroupsOf, Same, Wanted, Grouped, Chain, Abandoned;
    if applyAll {
      k := -1;
      first, ok, ms := GroupAll(heap, head, outcome, s);
    } else {
      first, k := GroupNamed(heap, head, name, outcome(0), s);
      ok, ms := first != null, [];
      if ok {
        ms := [first];
        GroupedOne(heap, s, k, first);
      }
    }
  }

  /**
   Builds the interface list and makes masters of it, for every interface or
   for one. If the list cannot be built then every node made is freed. If some
   master cannot be made then everything is freed exactly when it was the
   first, and there was no memory for it or only one interface.
   */
  method CreateNicList(heap: Allocator, items: seq<(string, string)>, build: nat -> Outcome,
                       applyAll: bool, name: string, outcome: nat -> Outcome)
    returns (first: MasterNode?, ok: bool, ghost s: seq<IfaceNode>, ghost k: int, ghost ms: seq<MasterNode>)
    requires heap.nodes == [] && heap.masters == []
    requires !applyAll ==> exists i :: 0 <= i < |items| && items[i].0 == name
    modifies heap
    ensures Distinct(s) && Mirrors(s, items) && |s| == NodesBuilt(build, |items|)
    ensures forall i :: 0 <= i < |s| ==> fresh(s[i])
    ensures forall i :: 0 <= i < |ms| ==> fresh(ms[i])
    ensures var built := FirstFailing(build, |items|) == |items|;
      if built then
        && (if applyAll then k == -1 else 0 <= k < |s| && s[k].name == name)
        && (ok <==> if applyAll then forall i :: 0 <= i < |GroupsOf(s)| ==> outcome(i).Works? else outcome(0).Works?)
        && (if ok then k < |s| && Finished(heap, first, s, k, ms) else Abandoned(heap, s, outcome(0)))
      else
        !ok && heap.nodes == s && heap.masters == []
  {
    hide List, Distinct, Pick, Flat, GroupsOf, Same, Wanted, Grouped, Chain, Abandoned, FirstFailing;
    var head;
    head, ok, s := BuildList(items, build);
    if ok {
      first, ok, k, ms := GroupList(heap, head, applyAll, name, outcome, s);
    } else {
      first, k, ms := null, 0, [];
      ListIsChain(s);
      AppendNothing(s);
      FreeSlaves(heap, head, s);
    }
  }

  /** After freeing the masters every node has been freed, each exactly once, and so has every master. */
  method FreeAll(heap: Allocator, first: MasterNode?, ghost s: seq<IfaceNode>, ghost ms: seq<MasterNode>,
                 ghost gs: seq<seq<IfaceNode>>)
    requires Grouped(heap, s, ms, gs) && first == MasterAt(ms, 0)
    modifies heap
    ensures Distinct(heap.nodes) && multiset(heap.nodes) == multiset(s) && heap.masters == ms
  {
    forall k | 0 <= k < |gs|
      ensures Chain(gs[k])
    {
      assert ChainIn(gs, k);
    }
    AppendNothing(ms);
    FreeMasters(heap, first, ms, gs);
  }
}
