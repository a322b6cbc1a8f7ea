/** Directed graphs, and the invariant of a depth-first search for cycles that marks the nodes on
    the current path (`temp`) and the nodes it has left for good (`perm`), but does not mark nodes
    without successors. */
module CycleGraph {
  type Node = int
  type Graph = map<Node, set<Node>>

  ghost predicate Closed(g: Graph) {
    forall n, m :: n in g && m in g[n] ==> m in g
  }

  ghost predicate IsWalk(g: Graph, w: seq<Node>) {
    && |w| > 0
    && (forall i :: 0 <= i < |w| ==> w[i] in g)
    && (forall i :: 0 <= i < |w| - 1 ==> w[i + 1] in g[w[i]])
  }

  ghost predicate Repeats(w: seq<Node>) {
    exists i, j :: 0 <= i < j < |w| && w[i] == w[j]
  }

  /** A walk from `n` runs into a cycle. */
  ghost predicate CycleReachable(g: Graph, n: Node) {
    exists w :: IsWalk(g, w) && w[0] == n && Repeats(w)
  }

  ghost predicate Acyclic(g: Graph) {
    forall n :: n in g ==> !CycleReachable(g, n)
  }

  /** `n` lies at the end of a walk of at least one edge from `t`. */
  ghost predicate Leads(g: Graph, t: Node, n: Node) {
    exists w :: IsWalk(g, w) && |w| >= 2 && w[0] == t && w[|w| - 1] == n
  }

  ghost predicate NoEdges(g: Graph, n: Node)
    requires n in g
  {
    forall m :: m !in g[n]
  }

  /** The search has left `n`: it is marked, or it has no successors. */
  ghost predicate Left(g: Graph, perm: set<Node>, n: Node) {
    n in g && (n in perm || NoEdges(g, n))
  }

  ghost predicate SearchInv(g: Graph, temp: set<Node>, perm: set<Node>) {
    && temp <= g.Keys
    && perm <= g.Keys
    && (forall t :: t in temp ==> !Left(g, perm, t))
    && (forall p, m :: p in perm && m in g[p] ==> Left(g, perm, m))
    && (forall p :: p in perm ==> !CycleReachable(g, p))
  }

  lemma WalkEdge(g: Graph, w: seq<Node>)
    requires IsWalk(g, w) && |w| >= 2
    ensures w[1] in g[w[0]]
  {
    assert w[0 + 1] in g[w[0]];
  }

  lemma FirstStep(g: Graph, w: seq<Node>)
    requires IsWalk(g, w) && |w| >= 2
    ensures !NoEdges(g, w[0])
  {
    WalkEdge(g, w);
    var m := w[1];
    assert m in g[w[0]];
  }

  lemma LeafHasNoCycle(g: Graph, n: Node)
    requires n in g && NoEdges(g, n)
    ensures !CycleReachable(g, n)
  {
    if CycleReachable(g, n) {
      var w :| IsWalk(g, w) && w[0] == n && Repeats(w);
      FirstStep(g, w);
    }
  }

  lemma CycleThroughSuccessor(g: Graph, n: Node, m: Node)
    requires n in g && m in g[n] && CycleReachable(g, m)
    ensures CycleReachable(g, n)
  {
    var w :| IsWalk(g, w) && w[0] == m && Repeats(w);
    var i, j :| 0 <= i < j < |w| && w[i] == w[j];
    var v := [n] + w;
    assert v[i + 1] == v[j + 1];
    assert IsWalk(g, v) && v[0] == n;
  }

  lemma LeadsToItself(g: Graph, n: Node)
    requires Leads(g, n, n)
    ensures CycleReachable(g, n)
  {
    var w :| IsWalk(g, w) && |w| >= 2 && w[0] == n && w[|w| - 1] == n;
    assert w[0] == w[|w| - 1];
  }

  lemma LeadsOn(g: Graph, t: Node, n: Node, m: Node)
    requires n in g && m in g && m in g[n] && (t == n || Leads(g, t, n))
    ensures Leads(g, t, m)
  {
    if t == n {
      assert IsWalk(g, [n, m]);
    } else {
      var w :| IsWalk(g, w) && |w| >= 2 && w[0] == t && w[|w| - 1] == n;
      assert IsWalk(g, w + [m]);
    }
  }

  /** A node all of whose successors were left without meeting it lies on no cycle and reaches none. */
  lemma {:induction false} WalkStaysLeft(g: Graph, temp: set<Node>, perm: set<Node>, w: seq<Node>, k: nat)
    requires SearchInv(g, temp, perm) && IsWalk(g, w) && Left(g, perm, w[0]) && k < |w|
    ensures Left(g, perm, w[k])
  {
    if k > 0 {
      WalkStaysLeft(g, temp, perm, w, k - 1);
      assert w[k - 1 + 1] in g[w[k - 1]];
    }
  }

  lemma LeftHasNoCycle(g: Graph, temp: set<Node>, perm: set<Node>, n: Node)
    requires SearchInv(g, temp, perm) && Left(g, perm, n)
    ensures !CycleReachable(g, n)
  {
    if n !in perm { LeafHasNoCycle(g, n); }
  }

  lemma FinishNode(g: Graph, temp: set<Node>, perm: set<Node>, n: Node)
    requires SearchInv(g, temp, perm) && n in temp
    requires forall m :: m in g[n] ==> Left(g, perm, m)
    ensures !CycleReachable(g, n)
    ensures SearchInv(g, temp - {n}, perm + {n})
  {
    if CycleReachable(g, n) {
      var w :| IsWalk(g, w) && w[0] == n && Repeats(w);
      var i, j :| 0 <= i < j < |w| && w[i] == w[j];
      WalkEdge(g, w);
      var v := w[1..];
      assert forall k :: 0 <= k < |v| ==> v[k] == w[k + 1];
      assert IsWalk(g, v);
      if i == 0 {
        WalkStaysLeft(g, temp, perm, v, j - 1);
      } else {
        assert v[i - 1] == v[j - 1];
        assert CycleReachable(g, v[0]);
        LeftHasNoCycle(g, temp, perm, v[0]);
      }
    }
    forall p, m | p in perm + {n} && m in g[p]
      ensures Left(g, perm + {n}, m)
    {
      assert Left(g, perm, m);
    }
  }

  /** The cycle at the end of a walk. */
  lemma ClosedWalk(g: Graph, n: Node) returns (v: seq<Node>)
    requires CycleReachable(g, n)
    ensures IsWalk(g, v) && |v| >= 2 && v[0] == v[|v| - 1]
  {
    var w :| IsWalk(g, w) && w[0] == n && Repeats(w);
    var i, j :| 0 <= i < j < |w| && w[i] == w[j];
    v := w[i..j + 1];
    assert forall k :: 0 <= k < |v| ==> v[k] == w[i + k];
  }

  lemma ClosedWalkIsCycle(g: Graph, v: seq<Node>)
    requires IsWalk(g, v) && |v| >= 2 && v[0] == v[|v| - 1]
    ensures CycleReachable(g, v[0])
  {}

  lemma WalkAvoiding(g: Graph, g': Graph, n: Node, v: seq<Node>)
    requires IsWalk(g', v) && n !in v
    requires g'.Keys == g.Keys + {n}
    requires forall m :: m in g ==> g'[m] == g[m] || g'[m] == g[m] + {n}
    ensures IsWalk(g, v)
  {
    assert forall i :: 0 <= i < |v| ==> v[i] in v;
    forall i | 0 <= i < |v| - 1 ensures v[i + 1] in g[v[i]] {
      var m := v[i];
      assert m in v;
      assert m != n;
      assert m in g'.Keys;
      assert m in g;
      assert g'[m] == g[m] || g'[m] == g[m] + {n};
    }
  }

  /** Adding a node from which no cycle is reachable, with edges to and from it only, keeps the
      whole graph acyclic. */
  lemma AddNodeKeepsAcyclic(g: Graph, g': Graph, n: Node)
    requires Acyclic(g) && !CycleReachable(g', n)
    requires g'.Keys == g.Keys + {n} && n !in g
    requires forall m :: m in g ==> g'[m] == g[m] || g'[m] == g[m] + {n}
    ensures Acyclic(g')
  {
    hide CycleReachable, IsWalk;
    forall m | m in g'
      ensures !CycleReachable(g', m)
    {
      if CycleReachable(g', m) {
        var v := ClosedWalk(g', m);
        if n in v {
          var k :| 0 <= k < |v| && v[k] == n;
          RotateCycle(g', v, k);
        } else {
          WalkAvoiding(g, g', n, v);
          WalkInGraph(g, v);
          ClosedWalkIsCycle(g, v);
        }
      }
    }
  }

  lemma WalkInGraph(g: Graph, v: seq<Node>)
    requires IsWalk(g, v)
    ensures v[0] in g
  {}

  lemma RotateCycle(g: Graph, v: seq<Node>, k: nat)
    requires IsWalk(g, v) && |v| >= 2 && v[0] == v[|v| - 1] && k < |v|
    ensures CycleReachable(g, v[k])
  {
    var u := v[k..] + v[1..k + 1];
    if k == 0 {
      assert CycleReachable(g, v[0]);
    } else {
      var p := |v| - k;
      assert |u| == p + k;
      assert forall i :: 0 <= i < |u| ==> u[i] == if i < p then v[k + i] else v[i - p + 1];
      forall i | 0 <= i < |u| - 1
        ensures u[i + 1] in g[u[i]]
      {
        if i + 1 < p {
          assert v[(k + i) + 1] in g[v[k + i]];
        } else if i + 1 == p {
          WalkEdge(g, v);
        } else {
          assert v[(i - p + 1) + 1] in g[v[i - p + 1]];
        }
      }
      assert IsWalk(g, u);
      assert u[0] == u[|u| - 1];
    }
  }

  /** Starting on a node that has successors and is not marked. */
  lemma EnterNode(g: Graph, temp: set<Node>, perm: set<Node>, n: Node)
    requires SearchInv(g, temp, perm) && n in g && n !in temp && n !in perm && !NoEdges(g, n)
    ensures SearchInv(g, temp + {n}, perm)
  {}

  lemma LeadsThrough(g: Graph, temp: set<Node>, n: Node, m: Node)
    requires n in g && m in g && m in g[n] && forall t :: t in temp ==> Leads(g, t, n)
    ensures forall t :: t in temp + {n} ==> Leads(g, t, m)
  {
    forall t | t in temp + {n} ensures Leads(g, t, m) { LeadsOn(g, t, n, m); }
  }

  lemma LeftGrows(g: Graph, perm: set<Node>, perm': set<Node>, n: Node)
    requires perm <= perm' && Left(g, perm, n)
    ensures Left(g, perm', n)
  {}

  lemma SearchStart(g: Graph)
    ensures SearchInv(g, {}, {})
  {}

  lemma NoSuccessors(g: Graph, n: Node, next: seq<Node>)
    requires n in g && forall m :: m in next <==> m in g[n]
    ensures next == [] <==> NoEdges(g, n)
  {
    if next != [] {
      var m := next[0];
      assert m in next;
    }
  }
}
