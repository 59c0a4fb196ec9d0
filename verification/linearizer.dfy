/** The builder's "Run Workflow" action: Kahn's topological sort over the
    canvas nodes and edges, then the sorted ids mapped onto the agent list.
    The seed queue is enumerated in the order JavaScript lists the keys of
    the in-degree object; node ids are integer-like strings, so that order is
    ascending numeric order without repeats (`KeyOrder`). */
module Linearizer {
  import opened Base
  import opened Workflow
  import opened GraphPaths

  // ---------------------------------------------------------------- key order

  predicate Increasing(s: seq<NodeId>) {
    forall i, j :: 0 <= i < j < |s| ==> s[i] < s[j]
  }

  /** The ids of `ids` below `b`, ascending, each once. */
  function KeysBelow(ids: seq<NodeId>, b: nat): (r: seq<NodeId>)
    ensures forall x :: x in r <==> x in ids && x < b
    ensures Increasing(r)
    ensures forall i :: 0 <= i < |r| ==> r[i] < b
  {
    if b == 0 then []
    else KeysBelow(ids, b - 1) + (if b - 1 in ids then [b - 1] else [])
  }

  function Bound(ids: seq<NodeId>): (b: nat)
    ensures forall x :: x in ids ==> x < b
  {
    if |ids| == 0 then 0
    else
      var b := Bound(ids[1..]);
      assert forall x :: x in ids ==> x == ids[0] || x in ids[1..];
      if ids[0] < b then b else ids[0] + 1
  }

  /** The order `Object.keys` lists the node ids in. */
  function KeyOrder(ids: seq<NodeId>): (r: seq<NodeId>)
    ensures forall x :: x in r <==> x in ids
    ensures Increasing(r)
  {
    KeysBelow(ids, Bound(ids))
  }

  lemma IncreasingIsDistinct(s: seq<NodeId>)
    requires Increasing(s)
    ensures Distinct(s)
  {
  }

  lemma {:induction false} IncreasingUnique(a: seq<NodeId>, b: seq<NodeId>)
    requires Increasing(a) && Increasing(b)
    requires forall x :: x in a <==> x in b
    ensures a == b
    decreases |a|
  {
    if |a| > 0 || |b| > 0 {
      assert |a| > 0 ==> a[0] in b;
      assert |b| > 0 ==> b[0] in a;
      assert a[0] in b;
      assert b[0] in a;
      assert a[0] == b[0];
      forall x ensures x in a[1..] <==> x in b[1..] {
        if x in a[1..] {
          var i :| 1 <= i < |a| && a[i] == x;
          assert x in b && x != b[0];
        }
        if x in b[1..] {
          var i :| 1 <= i < |b| && b[i] == x;
          assert x in a && x != a[0];
        }
      }
      IncreasingUnique(a[1..], b[1..]);
      assert a == [a[0]] + a[1..] && b == [b[0]] + b[1..];
    }
  }

  /** When ids are created in increasing order (as the builder's counter
      creates them) the key order is the node list order. */
  lemma KeyOrderOfIncreasing(ids: seq<NodeId>)
    requires Increasing(ids)
    ensures KeyOrder(ids) == ids
  {
    IncreasingUnique(KeyOrder(ids), ids);
  }

  // ----------------------------------------------------------------- counting

  /** Occurrences of `v` in `xs`. */
  function Occ(xs: seq<NodeId>, v: NodeId): nat {
    if |xs| == 0 then 0
    else Occ(xs[..|xs| - 1], v) + (if xs[|xs| - 1] == v then 1 else 0)
  }

  lemma {:induction false} OccConcat(a: seq<NodeId>, b: seq<NodeId>, v: NodeId)
    ensures Occ(a + b, v) == Occ(a, v) + Occ(b, v)
    decreases |b|
  {
    if |b| > 0 {
      assert (a + b)[..|a + b| - 1] == a + b[..|b| - 1];
      OccConcat(a, b[..|b| - 1], v);
    } else {
      assert a + b == a;
    }
  }

  /** Targets of the first `n` edges that leave `s`, in edge order. */
  function TargetsUpTo(edges: seq<Edge>, n: nat, s: NodeId): seq<NodeId>
    requires n <= |edges|
  {
    if n == 0 then []
    else TargetsUpTo(edges, n - 1, s) + (if edges[n - 1].source == s then [edges[n - 1].target] else [])
  }

  /** `adjList[s]` once every edge is listed. */
  function Targets(edges: seq<Edge>, s: NodeId): seq<NodeId> {
    TargetsUpTo(edges, |edges|, s)
  }

  /** Among the first `n` edges, those into `v` whose source is not in
      `done`, counted with multiplicity. */
  function InCountUpTo(edges: seq<Edge>, n: nat, v: NodeId, done: set<NodeId>): nat
    requires n <= |edges|
  {
    if n == 0 then 0
    else InCountUpTo(edges, n - 1, v, done) + (if edges[n - 1].target == v && edges[n - 1].source !in done then 1 else 0)
  }

  function InCount(edges: seq<Edge>, v: NodeId, done: set<NodeId>): nat {
    InCountUpTo(edges, |edges|, v, done)
  }

  /** Processing `c` removes exactly its outgoing edges from every count. */
  lemma {:induction false} InCountStep(edges: seq<Edge>, n: nat, v: NodeId, done: set<NodeId>, c: NodeId)
    requires n <= |edges| && c !in done
    ensures InCountUpTo(edges, n, v, done) ==
      InCountUpTo(edges, n, v, done + {c}) + Occ(TargetsUpTo(edges, n, c), v)
  {
    if n > 0 {
      var e := edges[n - 1];
      InCountStep(edges, n - 1, v, done, c);
      OccConcat(TargetsUpTo(edges, n - 1, c), if e.source == c then [e.target] else [], v);
    }
  }

  lemma {:induction false} InCountZero(edges: seq<Edge>, n: nat, v: NodeId, done: set<NodeId>)
    requires n <= |edges|
    ensures InCountUpTo(edges, n, v, done) == 0 <==>
      forall k :: 0 <= k < n && edges[k].target == v ==> edges[k].source in done
  {
    if n > 0 {
      InCountZero(edges, n - 1, v, done);
    }
  }

  /** The seed queue: ids of `keys` whose in-degree is zero, in key order. */
  function ZeroInDegree(keys: seq<NodeId>, indeg: map<NodeId, int>): (r: seq<NodeId>)
    requires forall k :: k in keys ==> k in indeg
    ensures forall v :: v in r <==> v in keys && indeg[v] == 0
    ensures Distinct(keys) ==> Distinct(r)
  {
    if |keys| == 0 then []
    else
      var rest := ZeroInDegree(keys[1..], indeg);
      assert Distinct(keys) ==> forall i :: 1 <= i < |keys| ==> keys[i] != keys[0];
      assert Distinct(keys) ==> Distinct(keys[1..]);
      (if indeg[keys[0]] == 0 then [keys[0]] else []) + rest
  }

  // -------------------------------------------------------------- Kahn's sort

  /** After the first `i` neighbours in `adj`: every count has dropped by
      the occurrences seen so far and can still pay for the rest, and
      `added` lists, once each, the nodes whose count has just reached
      zero. */
  ghost predicate Released(indeg: map<NodeId, int>, adj: seq<NodeId>, i: nat,
                           indeg': map<NodeId, int>, added: seq<NodeId>)
    requires i <= |adj|
  {
    && indeg'.Keys == indeg.Keys
    && (forall v :: v in indeg ==> indeg'[v] == indeg[v] - Occ(adj[..i], v))
    && (forall v :: v in indeg ==> indeg'[v] >= Occ(adj[i..], v))
    && (forall v :: v in added <==> v in indeg && indeg[v] > 0 && indeg'[v] == 0)
    && Distinct(added)
  }

  /** One step of the inner loop: neighbour `adj[i]` loses one incoming
      edge and joins the queue when its count drops to zero. A neighbour
      that is not a node has no count (`NaN` in the source) and never
      joins. */
  method ReleaseOne(ghost indeg: map<NodeId, int>, adj: seq<NodeId>, i: nat,
                    indeg': map<NodeId, int>, added: seq<NodeId>)
    returns (indeg'': map<NodeId, int>, added': seq<NodeId>)
    requires i < |adj| && Released(indeg, adj, i, indeg', added)
    ensures Released(indeg, adj, i + 1, indeg'', added')
    ensures added' == added || added' == added + [adj[i]]
  {
    var neighbor := adj[i];
    OccStep(adj, i);
    indeg'', added' := indeg', added;
    if neighbor in indeg'' {
      indeg'' := indeg''[neighbor := indeg''[neighbor] - 1];
      if indeg''[neighbor] == 0 {
        added' := added' + [neighbor];
        DistinctConcat(added, [neighbor]);
      }
    }
  }

  /** The inner loop of the sort: every neighbour of the dequeued node loses
      one incoming edge, and a node whose count drops to zero joins the
      queue. */
  method Release(indeg: map<NodeId, int>, queue: seq<NodeId>, adj: seq<NodeId>)
    returns (indeg': map<NodeId, int>, queue': seq<NodeId>)
    requires forall v :: v in indeg ==> indeg[v] >= Occ(adj, v)
    ensures indeg'.Keys == indeg.Keys
    ensures forall v :: v in indeg ==> indeg'[v] == indeg[v] - Occ(adj, v)
    ensures |queue| <= |queue'| && queue' == queue + queue'[|queue|..]
    ensures forall v :: v in queue'[|queue|..] <==> v in indeg && indeg[v] > 0 && indeg'[v] == 0
    ensures Distinct(queue'[|queue|..])
  {
    indeg' := indeg;
    var added := [];
    assert adj[..0] == [] && adj[0..] == adj;
    var i := 0;
    while i < |adj|
      invariant 0 <= i <= |adj|
      invariant Released(indeg, adj, i, indeg', added)
    {
      indeg', added := ReleaseOne(indeg, adj, i, indeg', added);
      i := i + 1;
    }
    assert adj[..|adj|] == adj;
    queue' := queue + added;
    assert queue'[|queue|..] == added;
  }

  /** Moving past `adj[i]` counts it once among the processed neighbours and
      drops it from the unprocessed ones. */
  lemma OccStep(adj: seq<NodeId>, i: nat)
    requires i < |adj|
    ensures forall v :: Occ(adj[..i + 1], v) == Occ(adj[..i], v) + (if v == adj[i] then 1 else 0)
    ensures forall v :: Occ(adj[i..], v) == Occ(adj[i + 1..], v) + (if v == adj[i] then 1 else 0)
  {
    assert adj[..i + 1][..i] == adj[..i];
    assert adj[i..] == [adj[i]] + adj[i + 1..];
    assert [adj[i]][..0] == [];
    forall v ensures Occ(adj[i..], v) == Occ(adj[i + 1..], v) + (if v == adj[i] then 1 else 0) {
      OccConcat([adj[i]], adj[i + 1..], v);
    }
  }

  /** Nodes left over when the queue runs dry all have an incoming edge from
      another left-over node, so a cycle feeds each of them. */
  lemma LeftOverAreFedByCycle(nodeIds: seq<NodeId>, edges: seq<Edge>, done: set<NodeId>)
    requires forall k :: 0 <= k < |edges| ==> edges[k].source in nodeIds
    requires forall v :: v in nodeIds && v !in done ==> InCount(edges, v, done) > 0
    ensures forall v :: v in nodeIds && v !in done ==> FedByCycle(v, edges)
  {
    var u := set v | v in nodeIds && v !in done;
    forall y | y in u ensures HasPredecessorIn(edges, y, u) {
      InCountZero(edges, |edges|, y, done);
      var k :| 0 <= k < |edges| && edges[k].target == y && edges[k].source !in done;
      assert edges[k].source in u;
    }
    forall v | v in nodeIds && v !in done ensures FedByCycle(v, edges) {
      PredecessorClosedIsFedByCycle(u, edges, v);
    }
  }

  lemma EdgesPrecedeExtend(order: seq<NodeId>, edges: seq<Edge>, c: NodeId)
    requires EdgesPrecede(order, edges)
    requires forall k :: 0 <= k < |edges| && edges[k].target == c ==> edges[k].source in order
    ensures EdgesPrecede(order + [c], edges)
  {
    var o := order + [c];
    forall j, k | 0 <= j < |o| && 0 <= k < |edges| && edges[k].target == o[j]
      ensures edges[k].source in o[..j]
    {
      if j < |order| {
        assert o[..j] == order[..j];
      } else {
        assert o[..j] == order;
      }
    }
  }

  /** The first half of the sort: an empty adjacency list and a zero count
      per node, then every edge appended to its source's list and counted
      at its target. */
  method Tabulate(nodeIds: seq<NodeId>, edges: seq<Edge>)
    returns (adj: map<NodeId, seq<NodeId>>, indeg: map<NodeId, int>)
    requires forall k :: 0 <= k < |edges| ==> edges[k].source in nodeIds
    ensures forall v :: v in adj <==> v in nodeIds
    ensures forall v :: v in indeg <==> v in nodeIds
    ensures forall v :: v in adj ==> adj[v] == Targets(edges, v)
    ensures forall v :: v in indeg ==> indeg[v] == InCount(edges, v, {})
  {
    adj := map v | v in nodeIds :: [];
    indeg := map v | v in nodeIds :: 0;
    adj, indeg := AddEdges(edges, adj, indeg);
  }

  /** The edge loop of `Tabulate`. */
  method AddEdges(edges: seq<Edge>, adj0: map<NodeId, seq<NodeId>>, indeg0: map<NodeId, int>)
    returns (adj: map<NodeId, seq<NodeId>>, indeg: map<NodeId, int>)
    requires adj0.Keys == indeg0.Keys
    requires forall k :: 0 <= k < |edges| ==> edges[k].source in adj0
    requires TablesUpTo(edges, 0, adj0, indeg0)
    ensures adj.Keys == adj0.Keys && indeg.Keys == adj0.Keys
    ensures TablesUpTo(edges, |edges|, adj, indeg)
  {
    adj, indeg := adj0, indeg0;
    var j := 0;
    while j < |edges|
      invariant 0 <= j <= |edges|
      invariant adj.Keys == adj0.Keys && indeg.Keys == adj0.Keys
      invariant TablesUpTo(edges, j, adj, indeg)
    {
      var e := edges[j];
      ghost var adj1, indeg1 := adj, indeg;
      adj := adj[e.source := adj[e.source] + [e.target]];
      if e.target in indeg {
        indeg := indeg[e.target := indeg[e.target] + 1];
      }
      AddEdgeTables(edges, j, adj1, indeg1, adj, indeg);
      j := j + 1;
    }
  }

  /** The adjacency lists and counts of the first `j` edges. */
  ghost predicate TablesUpTo(edges: seq<Edge>, j: nat, adj: map<NodeId, seq<NodeId>>, indeg: map<NodeId, int>)
    requires j <= |edges|
  {
    && (forall v :: v in adj ==> adj[v] == TargetsUpTo(edges, j, v))
    && (forall v :: v in indeg ==> indeg[v] == InCountUpTo(edges, j, v, {}))
  }

  /** Appending edge `j` to its source's list and counting it at its
      target (when the target has a count) extends both tables from the
      first `j` edges to the first `j + 1`. */
  lemma AddEdgeTables(edges: seq<Edge>, j: nat, adj0: map<NodeId, seq<NodeId>>, indeg0: map<NodeId, int>,
                      adj: map<NodeId, seq<NodeId>>, indeg: map<NodeId, int>)
    requires j < |edges| && edges[j].source in adj0
    requires TablesUpTo(edges, j, adj0, indeg0)
    requires adj == adj0[edges[j].source := adj0[edges[j].source] + [edges[j].target]]
    requires indeg == if edges[j].target in indeg0 then indeg0[edges[j].target := indeg0[edges[j].target] + 1] else indeg0
    ensures TablesUpTo(edges, j + 1, adj, indeg)
  {
    var e := edges[j];
    forall v | v in adj ensures adj[v] == TargetsUpTo(edges, j + 1, v) {
      if v != e.source {
        assert adj[v] == adj0[v];
      }
    }
    forall v | v in indeg ensures indeg[v] == InCountUpTo(edges, j + 1, v, {}) {
      if v != e.target {
        assert indeg[v] == indeg0[v];
      }
    }
  }

  /** The queue holds exactly the unprocessed nodes whose count is zero. */
  ghost predicate QueueExact(queue: seq<NodeId>, indeg: map<NodeId, int>, done: set<NodeId>) {
    forall v :: v in queue <==> v in indeg && v !in done && indeg[v] == 0
  }

  /** Each node's count is the number of its incoming edges from
      unprocessed sources. */
  ghost predicate CountsMatch(indeg: map<NodeId, int>, edges: seq<Edge>, done: set<NodeId>) {
    forall v :: v in indeg ==> indeg[v] == InCount(edges, v, done)
  }

  /** What holds between two rounds of the sort; `done` is the set of nodes
      already dequeued, which is the set of nodes in `order`. */
  ghost predicate KahnState(nodeIds: seq<NodeId>, edges: seq<Edge>, adj: map<NodeId, seq<NodeId>>,
                            indeg: map<NodeId, int>, queue: seq<NodeId>, order: seq<NodeId>,
                            done: set<NodeId>) {
    && (forall v :: v in adj ==> adj[v] == Targets(edges, v))
    && adj.Keys == indeg.Keys
    && (forall v :: v in indeg <==> v in nodeIds)
    && (forall v :: v in order <==> v in done)
    && done <= indeg.Keys
    && |done| == |order|
    && CountsMatch(indeg, edges, done)
    && QueueExact(queue, indeg, done)
    && Distinct(queue) && Distinct(order)
    && (forall v :: v in done ==> v in indeg && indeg[v] == 0)
    && EdgesPrecede(order, edges)
  }

  /** One round keeps the queue exact and free of repeats. */
  lemma QueueStep(indeg: map<NodeId, int>, indeg': map<NodeId, int>, adj: seq<NodeId>,
                  done: set<NodeId>, current: NodeId, rest: seq<NodeId>, added: seq<NodeId>)
    requires QueueExact([current] + rest, indeg, done) && Distinct([current] + rest)
    requires forall v :: v in done ==> v in indeg && indeg[v] == 0
    requires indeg'.Keys == indeg.Keys
    requires forall v :: v in indeg ==> indeg'[v] == indeg[v] - Occ(adj, v) && indeg'[v] >= 0
    requires forall v :: v in added <==> v in indeg && indeg[v] > 0 && indeg'[v] == 0
    requires Distinct(added)
    ensures QueueExact(rest + added, indeg', done + {current})
    ensures Distinct(rest + added)
    ensures forall v :: v in done + {current} ==> v in indeg' && indeg'[v] == 0
  {
    assert current in [current] + rest;
    assert forall v :: v in rest ==> v in [current] + rest && v != current by {
      forall v | v in rest ensures v in [current] + rest && v != current {
        var i :| 0 <= i < |rest| && rest[i] == v;
        assert ([current] + rest)[i + 1] == v && ([current] + rest)[0] == current;
      }
    }
    assert Distinct(rest) by {
      forall i, j | 0 <= i < j < |rest| ensures rest[i] != rest[j] {
        assert ([current] + rest)[i + 1] == rest[i] && ([current] + rest)[j + 1] == rest[j];
      }
    }
    DistinctConcat(rest, added);
  }

  /** Dequeuing `current` removes its outgoing edges from every count. */
  lemma CountsStep(indeg: map<NodeId, int>, edges: seq<Edge>, done: set<NodeId>, current: NodeId)
    requires CountsMatch(indeg, edges, done) && current !in done
    ensures forall v :: v in indeg ==>
      indeg[v] == InCount(edges, v, done + {current}) + Occ(Targets(edges, current), v)
  {
    forall v | v in indeg
      ensures indeg[v] == InCount(edges, v, done + {current}) + Occ(Targets(edges, current), v)
    {
      InCountStep(edges, |edges|, v, done, current);
    }
  }

  /** One round of the outer loop: dequeue the head, append it to the
      order, release its neighbours. */
  method KahnRound(ghost nodeIds: seq<NodeId>, ghost edges: seq<Edge>, adj: map<NodeId, seq<NodeId>>,
                   indeg: map<NodeId, int>, queue: seq<NodeId>, order: seq<NodeId>,
                   ghost done: set<NodeId>)
    returns (indeg': map<NodeId, int>, queue': seq<NodeId>, order': seq<NodeId>, ghost done': set<NodeId>)
    requires KahnState(nodeIds, edges, adj, indeg, queue, order, done) && |queue| > 0
    ensures KahnState(nodeIds, edges, adj, indeg', queue', order', done')
    ensures indeg'.Keys == indeg.Keys && |done'| == |done| + 1 && done' <= indeg.Keys
  {
    var current := queue[0];
    var rest := queue[1..];
    assert queue == [current] + rest;
    assert current in indeg && current !in done && indeg[current] == 0;
    InCountZero(edges, |edges|, current, done);
    EdgesPrecedeExtend(order, edges, current);
    CountsStep(indeg, edges, done, current);
    DistinctConcat(order, [current]);
    order' := order + [current];
    indeg', queue' := Release(indeg, rest, adj[current]);
    ghost var added := queue'[|rest|..];
    QueueStep(indeg, indeg', adj[current], done, current, rest, added);
    done' := done + {current};
  }

  /** When the queue runs dry, the order holds exactly the nodes no cycle
      feeds. */
  lemma KahnFinish(nodeIds: seq<NodeId>, edges: seq<Edge>, adj: map<NodeId, seq<NodeId>>,
                   indeg: map<NodeId, int>, order: seq<NodeId>, done: set<NodeId>)
    requires forall k :: 0 <= k < |edges| ==> edges[k].source in nodeIds
    requires KahnState(nodeIds, edges, adj, indeg, [], order, done)
    ensures forall v :: v in order ==> v in nodeIds
    ensures forall v :: v in nodeIds ==> (v in order <==> !FedByCycle(v, edges))
  {
    assert forall v :: v in nodeIds && v !in done ==> InCount(edges, v, done) > 0;
    LeftOverAreFedByCycle(nodeIds, edges, done);
    EdgesPrecedeExcludesCycles(order, edges);
  }

  /** Kahn's topological sort exactly as the builder runs it: in-degrees
      counted with multiplicity, seeds in key order, FIFO queue. Every edge
      source must be a node (the source crashes on `adjList[source]`
      otherwise); edge targets that are not nodes are ignored. The result
      has no repeats, respects every edge, and holds exactly the nodes that
      no cycle feeds; nodes on or behind a cycle are dropped silently. */
  method Linearize(nodeIds: seq<NodeId>, edges: seq<Edge>) returns (order: seq<NodeId>)
    requires forall k :: 0 <= k < |edges| ==> edges[k].source in nodeIds
    ensures Distinct(order)
    ensures forall v :: v in order ==> v in nodeIds
    ensures EdgesPrecede(order, edges)
    ensures forall v :: v in nodeIds ==> (v in order <==> !FedByCycle(v, edges))
    ensures Acyclic(edges) ==> (forall v :: v in order <==> v in nodeIds) && |order| == |KeyOrder(nodeIds)|
  {
    var adj, indeg := Tabulate(nodeIds, edges);

    // seeds, in key order
    var keys := KeyOrder(nodeIds);
    IncreasingIsDistinct(keys);
    var queue := ZeroInDegree(keys, indeg);
    order := [];
    ghost var done: set<NodeId> := {};

    while |queue| > 0
      invariant KahnState(nodeIds, edges, adj, indeg, queue, order, done)
      decreases |indeg.Keys| - |done|
    {
      SubsetCard(done, indeg.Keys);
      indeg, queue, order, done := KahnRound(nodeIds, edges, adj, indeg, queue, order, done);
      SubsetCard(done, indeg.Keys);
    }

    KahnFinish(nodeIds, edges, adj, indeg, order, done);
    if Acyclic(edges) {
      AcyclicCoversAll(nodeIds, edges, order, keys);
    }
  }

  lemma AcyclicCoversAll(nodeIds: seq<NodeId>, edges: seq<Edge>, order: seq<NodeId>, keys: seq<NodeId>)
    requires Acyclic(edges)
    requires Distinct(order) && Distinct(keys)
    requires forall v :: v in keys <==> v in nodeIds
    requires forall v :: v in order ==> v in nodeIds
    requires forall v :: v in nodeIds ==> (v in order <==> !FedByCycle(v, edges))
    ensures forall v :: v in order <==> v in nodeIds
    ensures |order| == |keys|
  {
    forall v | v in nodeIds ensures v in order {
      AcyclicFeedsNothing(edges, v);
    }
    assert Elems(order) == Elems(keys);
    DistinctCard(order);
    DistinctCard(keys);
  }
}
