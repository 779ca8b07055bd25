/** Grouping of network interfaces by adapter, on doubly linked nodes. */
module NicGroups {
  import opened Seqs

  class IfaceNode {
    const name: string
    const bdf: string
    var next: IfaceNode?
    var prev: IfaceNode?

    constructor (name: string, bdf: string)
      ensures this.name == name && this.bdf == bdf && next == null && prev == null
    {
      this.name, this.bdf, next, prev := name, bdf, null, null;
    }
  }

  /** The number of characters before the first dot. */
  function UpToDot(s: string): (n: nat)
    ensures n <= |s|
  {
    if s == [] || s[0] == '.' then 0 else 1 + UpToDot(s[1..])
  }

  /**
   The two addresses count as the same adapter: they agree up to, but without,
   the last character before the dot. With nothing before the dot the whole
   strings are compared.
   */
  predicate Same(master: string, other: string) {
    var n := UpToDot(master) - 1;
    if n < 0 then other == master else n <= |other| && other[..n] == master[..n]
  }

  /** The nodes of a list that count as the same adapter as `m`, or those that do not, in order. */
  function Pick(s: seq<IfaceNode>, m: IfaceNode, same: bool): (r: seq<IfaceNode>)
    ensures |r| <= |s| && forall i :: 0 <= i < |r| ==> r[i] in s
  {
    if s == [] then []
    else
      var n := |s| - 1;
      Pick(s[..n], m, same) + (if Same(m.bdf, s[n].bdf) == same then [s[n]] else [])
  }

  lemma PickOneMore(s: seq<IfaceNode>, m: IfaceNode, same: bool, k: nat)
    requires k < |s|
    ensures Pick(s[..k + 1], m, same)
         == if Same(m.bdf, s[k].bdf) == same then Pick(s[..k], m, same) + [s[k]] else Pick(s[..k], m, same)
  {
    CutAt(s, k);
    AppendNothing(Pick(s[..k], m, same));
  }

  predicate Distinct(s: seq<IfaceNode>) {
    forall i, j :: 0 <= i < j < |s| ==> s[i] != s[j]
  }

  function At(s: seq<IfaceNode>, i: int): IfaceNode? {
    if 0 <= i < |s| then s[i] else null
  }

  /** The nodes are linked forwards in this order. */
  ghost predicate Chain(s: seq<IfaceNode>)
    reads s
  {
    forall i :: 0 <= i < |s| ==> s[i].next == At(s, i + 1)
  }

  /** The nodes are linked forwards and backwards in this order. */
  ghost predicate List(s: seq<IfaceNode>)
    reads s
  {
    Chain(s) && forall i :: 0 <= i < |s| ==> s[i].prev == At(s, i - 1)
  }

  /** The chain `g`, and the list made of `a`, `x` and `b`, have no node twice. */
  predicate Apart(g: seq<IfaceNode>, a: seq<IfaceNode>, x: IfaceNode, b: seq<IfaceNode>) {
    && Distinct(g) && Distinct(a) && Distinct(b)
    && x !in g && x !in a && x !in b
    && (forall i, j :: 0 <= i < |g| && 0 <= j < |a| ==> g[i] != a[j])
    && (forall i, j :: 0 <= i < |g| && 0 <= j < |b| ==> g[i] != b[j])
    && (forall i, j :: 0 <= i < |a| && 0 <= j < |b| ==> a[i] != b[j])
  }

  lemma ApartFromDistinct(g: seq<IfaceNode>, a: seq<IfaceNode>, x: IfaceNode, b: seq<IfaceNode>)
    requires Distinct(g + a + [x] + b)
    ensures Apart(g, a, x, b)
  {
    var s := g + a + [x] + b;
    assert forall i :: 0 <= i < |g| ==> g[i] == s[i];
    assert forall i :: 0 <= i < |a| ==> a[i] == s[|g| + i];
    assert x == s[|g| + |a|];
    assert forall i :: 0 <= i < |b| ==> b[i] == s[|g| + |a| + 1 + i];
  }

  lemma DistinctFromApart(g: seq<IfaceNode>, a: seq<IfaceNode>, x: IfaceNode, b: seq<IfaceNode>)
    requires Apart(g, a, x, b)
    ensures Distinct(g + [x] + a + b)
  {
  }

  /** The links inside a list, told for its front, one node and its back. */
  lemma Parts(a: seq<IfaceNode>, x: IfaceNode, b: seq<IfaceNode>)
    requires List(a + [x] + b)
    ensures forall i :: 0 <= i < |a| ==> a[i].prev == At(a, i - 1) && (i < |a| - 1 ==> a[i].next == a[i + 1])
    ensures forall i :: 0 <= i < |b| ==> b[i].next == At(b, i + 1) && (i > 0 ==> b[i].prev == b[i - 1])
    ensures x.next == At(b, 0) && x.prev == At(a, |a| - 1)
  {
    var l := a + [x] + b;
    assert forall i :: 0 <= i < |a| ==> l[i] == a[i];
    assert forall i :: 0 <= i < |b| ==> l[|a| + 1 + i] == b[i];
    assert x == l[|a|];
  }

  /** A list made of a front and a back that are linked to each other. */
  lemma Join(a: seq<IfaceNode>, b: seq<IfaceNode>)
    requires forall i {:trigger a[i]} :: 0 <= i < |a| ==>
               a[i].prev == At(a, i - 1) && a[i].next == if i < |a| - 1 then At(a, i + 1) else At(b, 0)
    requires forall i {:trigger b[i]} :: 0 <= i < |b| ==>
               b[i].next == At(b, i + 1) && b[i].prev == if i > 0 then At(b, i - 1) else At(a, |a| - 1)
    ensures List(a + b)
  {
  }

  /** Takes node `x` out of a list: `a` comes before it, `b` after it. */
  method Unlink(x: IfaceNode, head: IfaceNode?, ghost a: seq<IfaceNode>, ghost b: seq<IfaceNode>)
    returns (newHead: IfaceNode?, after: IfaceNode?)
    requires Apart([], a, x, b) && List(a + [x] + b) && head == At(a + [x] + b, 0)
    modifies a, b, x
    ensures List(a + b) && newHead == At(a + b, 0) && after == At(b, 0)
    ensures x.next == null && x.prev == null
  {
    Parts(a, x, b);
    newHead := head;
    if x == newHead {
      newHead := x.next;
    }
    if x.next != null {
      x.next.prev := x.prev;
    }
    if x.prev != null {
      x.prev.next := x.next;
    }
    after := x.next;
    x.next := null;
    x.prev := null;
    Join(a, b);
  }

  /** Takes node `x` out of a list and puts it at the end of the chain `g`. */
  method Move(last: IfaceNode, x: IfaceNode, head: IfaceNode?, ghost g: seq<IfaceNode>, ghost a: seq<IfaceNode>,
              ghost b: seq<IfaceNode>) returns (newHead: IfaceNode?, after: IfaceNode?)
    requires Apart(g, a, x, b) && Chain(g) && List(a + [x] + b)
    requires g != [] && last == g[|g| - 1] && head == At(a + [x] + b, 0)
    modifies last, a, b, x
    ensures Chain(g + [x]) && List(a + b)
    ensures newHead == At(a + b, 0) && after == At(b, 0)
  {
    ghost var l := a + [x] + b;
    assert last !in l;
    last.next := x;
    newHead, after := Unlink(x, head, a, b);
    assert forall i :: 0 <= i < |g| ==> g[i] !in a && g[i] !in b;
  }

  /** After `i` nodes: `g` is the chain of `m`, `a` the nodes passed over, `b` the nodes to come. */
  predicate Split(m: IfaceNode, s: seq<IfaceNode>, i: nat, g: seq<IfaceNode>, a: seq<IfaceNode>, b: seq<IfaceNode>) {
    && i <= |s| && g == [m] + Pick(s[..i], m, true) && a == Pick(s[..i], m, false) && b == s[i..]
    && Distinct(g + a + b)
  }

  lemma SplitStart(m: IfaceNode, s: seq<IfaceNode>)
    requires Distinct([m] + s)
    ensures Split(m, s, 0, [m], [], s)
  {
  }

  lemma SplitStep(m: IfaceNode, s: seq<IfaceNode>, i: nat, g: seq<IfaceNode>, a: seq<IfaceNode>, b: seq<IfaceNode>)
    requires Split(m, s, i, g, a, b) && i < |s|
    ensures b != [] && b[0] == s[i] && b == [b[0]] + b[1..] && Apart(g, a, b[0], b[1..])
    ensures a + [b[0]] + b[1..] == a + b
    ensures if Same(m.bdf, b[0].bdf) then Split(m, s, i + 1, g + [b[0]], a, b[1..])
            else Split(m, s, i + 1, g, a + [b[0]], b[1..])
  {
    var x, rest := b[0], b[1..];
    CutAt(s, i);
    CutFirst(b);
    PickOneMore(s, m, true, i);
    PickOneMore(s, m, false, i);
    Regroup(g + a, [x], rest);
    Regroup(a, [x], rest);
    ApartFromDistinct(g, a, x, rest);
    DistinctFromApart(g, a, x, rest);
    Regroup([m], Pick(s[..i], m, true), [x]);
    Regroup(g, a, [x]);
  }

  /** One node of the list: it joins the chain of `m` if it counts as the same adapter. */
  method Sort1(m: IfaceNode, last: IfaceNode, head: IfaceNode?, cur: IfaceNode,
               ghost g: seq<IfaceNode>, ghost a: seq<IfaceNode>, ghost b: seq<IfaceNode>)
    returns (last': IfaceNode, head': IfaceNode?, cur': IfaceNode?)
    requires Apart(g, a, cur, b) && Chain(g) && List(a + [cur] + b)
    requires g != [] && last == g[|g| - 1] && head == At(a + [cur] + b, 0)
    modifies last, a, b, cur
    ensures var same := Same(m.bdf, cur.bdf);
      && Chain(if same then g + [cur] else g) && List((if same then a else a + [cur]) + b)
      && last' == (if same then cur else last)
      && head' == At((if same then a else a + [cur]) + b, 0) && cur' == At(b, 0)
  {
    if Same(m.bdf, cur.bdf) {
      head', cur' := Move(last, cur, head, g, a, b);
      last' := cur;
    } else {
      Parts(a, cur, b);
      last', head', cur' := last, head, cur.next;
    }
  }

  /** Moves every node of the list that counts as the same adapter as `m` behind `m`, in order. */
  method UpdateSlaves(m: IfaceNode, head: IfaceNode?, ghost s: seq<IfaceNode>) returns (newHead: IfaceNode?)
    requires Distinct([m] + s) && m.next == null && List(s) && head == At(s, 0)
    modifies m, s
    ensures Chain([m] + Pick(s, m, true)) && List(Pick(s, m, false)) && newHead == At(Pick(s, m, false), 0)
  {
    var last, cur := m, head;
    newHead := head;
    ghost var i, g, a, b := 0, [m], [], s;
    SplitStart(m, s);
    assert a + b == s;
    while cur != null
      invariant Split(m, s, i, g, a, b)
      invariant Chain(g) && List(a + b)
      invariant g != [] && last == g[|g| - 1] && newHead == At(a + b, 0) && cur == At(b, 0)
      decreases |s| - i
    {
      SplitStep(m, s, i, g, a, b);
      last, newHead, cur := Sort1(m, last, newHead, cur, g, a, b[1..]);
      if Same(m.bdf, b[0].bdf) {
        g := g + [b[0]];
      } else {
        a := a + [b[0]];
      }
      i, b := i + 1, b[1..];
    }
    assert s[..i] == s && a + b == a;
  }
}
