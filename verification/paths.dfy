/** Walks and cycles in the edge list, and the two graph facts the
    linearizer's contract rests on: an edge-respecting order cannot contain
    a node that a cycle feeds, and a node set in which every member has a
    predecessor inside the set is fed by a cycle. */
module GraphPaths {
  import opened Base
  import opened Workflow

  ghost predicate HasEdge(edges: seq<Edge>, s: NodeId, t: NodeId) {
    exists k :: 0 <= k < |edges| && edges[k].source == s && edges[k].target == t
  }

  /** `p` follows edges from `p[0]` to its last element. */
  ghost predicate IsWalk(p: seq<NodeId>, edges: seq<Edge>) {
    |p| >= 1 && forall i :: 0 <= i < |p| - 1 ==> HasEdge(edges, p[i], p[i + 1])
  }

  ghost predicate IsCycle(p: seq<NodeId>, edges: seq<Edge>) {
    IsWalk(p, edges) && |p| >= 2 && p[0] == p[|p| - 1]
  }

  ghost predicate OnCycle(v: NodeId, edges: seq<Edge>) {
    exists p :: IsCycle(p, edges) && p[0] == v
  }

  /** `v` lies on a cycle or can be reached from one. */
  ghost predicate FedByCycle(v: NodeId, edges: seq<Edge>) {
    exists p :: IsWalk(p, edges) && OnCycle(p[0], edges) && p[|p| - 1] == v
  }

  ghost predicate Acyclic(edges: seq<Edge>) {
    forall p :: !IsCycle(p, edges)
  }

  /** Every edge into a member of `order` comes from an earlier member. */
  ghost predicate EdgesPrecede(order: seq<NodeId>, edges: seq<Edge>) {
    forall j, k :: 0 <= j < |order| && 0 <= k < |edges| && edges[k].target == order[j] ==>
      edges[k].source in order[..j]
  }

  lemma {:induction false} WalkBack(order: seq<NodeId>, edges: seq<Edge>, p: seq<NodeId>, j: nat)
    requires EdgesPrecede(order, edges)
    requires IsWalk(p, edges) && |p| >= 2
    requires j < |order| && p[|p| - 1] == order[j]
    ensures exists i :: 0 <= i < j && order[i] == p[0]
    decreases |p|
  {
    assert HasEdge(edges, p[0], p[1]);
    var k :| 0 <= k < |edges| && edges[k].source == p[0] && edges[k].target == p[1];
    if |p| == 2 {
      assert edges[k].source in order[..j];
    } else {
      var q := p[1..];
      assert IsWalk(q, edges) by {
        forall i | 0 <= i < |q| - 1 ensures HasEdge(edges, q[i], q[i + 1]) {
          assert q[i] == p[i + 1] && q[i + 1] == p[i + 2];
        }
      }
      WalkBack(order, edges, q, j);
      var i' :| 0 <= i' < j && order[i'] == p[1];
      assert edges[k].source in order[..i'];
    }
  }

  /** An order without repeats in which edges precede never holds a node
      that a cycle feeds. */
  lemma EdgesPrecedeExcludesCycles(order: seq<NodeId>, edges: seq<Edge>)
    requires Distinct(order)
    requires EdgesPrecede(order, edges)
    ensures forall v :: v in order ==> !FedByCycle(v, edges)
  {
    forall v | v in order ensures !FedByCycle(v, edges) {
      if FedByCycle(v, edges) {
        var p :| IsWalk(p, edges) && OnCycle(p[0], edges) && p[|p| - 1] == v;
        var c :| IsCycle(c, edges) && c[0] == p[0];
        var j :| 0 <= j < |order| && order[j] == v;
        var jc := j;
        if |p| >= 2 {
          WalkBack(order, edges, p, j);
          jc :| 0 <= jc < j && order[jc] == p[0];
        }
        WalkBack(order, edges, c, jc);
        assert false;
      }
    }
  }

  /** In an acyclic graph nothing is fed by a cycle. */
  lemma AcyclicFeedsNothing(edges: seq<Edge>, v: NodeId)
    requires Acyclic(edges)
    ensures !FedByCycle(v, edges)
  {
  }

  /** `y` has an incoming edge whose source lies in `u`. */
  ghost predicate HasPredecessorIn(edges: seq<Edge>, y: NodeId, u: set<NodeId>) {
    exists k :: 0 <= k < |edges| && edges[k].target == y && edges[k].source in u
  }

  lemma {:induction false} BackWalk(u: set<NodeId>, edges: seq<Edge>, x: NodeId, n: nat) returns (w: seq<NodeId>)
    requires x in u
    requires forall y :: y in u ==> HasPredecessorIn(edges, y, u)
    ensures |w| == n + 1 && IsWalk(w, edges) && w[n] == x
    ensures forall i :: 0 <= i < |w| ==> w[i] in u
  {
    if n == 0 {
      w := [x];
    } else {
      var w' := BackWalk(u, edges, x, n - 1);
      assert HasPredecessorIn(edges, w'[0], u);
      var k :| 0 <= k < |edges| && edges[k].target == w'[0] && edges[k].source in u;
      w := [edges[k].source] + w';
      assert HasEdge(edges, w[0], w[1]);
      forall i | 0 <= i < |w| - 1 ensures HasEdge(edges, w[i], w[i + 1]) {
        if i > 0 {
          assert w[i] == w'[i - 1] && w[i + 1] == w'[i];
        }
      }
    }
  }

  lemma SubWalk(w: seq<NodeId>, edges: seq<Edge>, a: nat, b: nat)
    requires IsWalk(w, edges) && a < b <= |w|
    ensures IsWalk(w[a..b], edges)
  {
    var c := w[a..b];
    forall m | 0 <= m < |c| - 1 ensures HasEdge(edges, c[m], c[m + 1]) {
      assert c[m] == w[a + m] && c[m + 1] == w[a + m + 1];
    }
  }

  /** A walk that repeats a node passes through a cycle at the repeat. */
  lemma RepeatIsOnCycle(w: seq<NodeId>, edges: seq<Edge>, i: nat, j: nat)
    requires IsWalk(w, edges) && i < j < |w| && w[i] == w[j]
    ensures OnCycle(w[j], edges)
  {
    var c := w[i..j + 1];
    SubWalk(w, edges, i, j + 1);
    assert c[0] == w[i] && c[|c| - 1] == w[j];
    assert IsCycle(c, edges);
  }

  /** The tail of a walk that starts on a cycle shows its last node is fed
      by a cycle. */
  lemma TailFedByCycle(w: seq<NodeId>, edges: seq<Edge>, j: nat)
    requires IsWalk(w, edges) && j < |w| && OnCycle(w[j], edges)
    ensures FedByCycle(w[|w| - 1], edges)
  {
    var q := w[j..];
    SubWalk(w, edges, j, |w|);
    assert q == w[j..|w|];
    assert q[0] == w[j] && q[|q| - 1] == w[|w| - 1];
  }

  /** If every member of `u` has an incoming edge from inside `u`, every
      member of `u` is fed by a cycle. */
  lemma PredecessorClosedIsFedByCycle(u: set<NodeId>, edges: seq<Edge>, x: NodeId)
    requires x in u
    requires forall y :: y in u ==> HasPredecessorIn(edges, y, u)
    ensures FedByCycle(x, edges)
  {
    var w := BackWalk(u, edges, x, |u|);
    var i, j := Pigeonhole(w, u);
    RepeatIsOnCycle(w, edges, i, j);
    TailFedByCycle(w, edges, j);
  }
}
