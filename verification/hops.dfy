/** Hop labels of an ego view: breadth-first distances over undirected edges
    (crates/topodb-json/src/graph.rs). */
module Hops {

  datatype Link = Link(source: string, target: string)

  /** Some edge joins the two nodes, in either direction. */
  predicate Adjacent(edges: seq<Link>, u: string, v: string) {
    Link(u, v) in edges || Link(v, u) in edges
  }

  predicate IsWalk(edges: seq<Link>, p: seq<string>) {
    forall i :: 0 <= i < |p| - 1 ==> Adjacent(edges, p[i], p[i + 1])
  }

  /** A walk of `k` edges leads from a seed to `v`. */
  ghost predicate Reaches(seeds: seq<string>, edges: seq<Link>, v: string, k: nat) {
    exists p: seq<string> :: |p| == k + 1 && p[0] in seeds && p[k] == v && IsWalk(edges, p)
  }

  /** The same, one edge at a time from the far end. */
  ghost predicate Layer(seeds: seq<string>, edges: seq<Link>, v: string, k: nat)
    decreases k
  {
    if k == 0 then v in seeds else exists u :: Layer(seeds, edges, u, k - 1) && Adjacent(edges, u, v)
  }

  lemma {:induction false} LayerReaches(seeds: seq<string>, edges: seq<Link>, v: string, k: nat)
    requires Layer(seeds, edges, v, k)
    ensures Reaches(seeds, edges, v, k)
    decreases k
  {
    if k == 0 {
      assert [v][0] in seeds && IsWalk(edges, [v]);
    } else {
      var u :| Layer(seeds, edges, u, k - 1) && Adjacent(edges, u, v);
      LayerReaches(seeds, edges, u, k - 1);
      var p: seq<string> :| |p| == k && p[0] in seeds && p[k - 1] == u && IsWalk(edges, p);
      var q := p + [v];
      assert q[0] in seeds && q[k] == v && IsWalk(edges, q);
    }
  }

  ghost predicate Closed(edges: seq<Link>, hops: map<string, nat>, u: string)
    requires u in hops
  {
    forall v :: Adjacent(edges, u, v) ==> v in hops && hops[v] <= hops[u] + 1
  }

  /** Labels closed under edges bound every walk from below. */
  lemma {:induction false} WalkBound(seeds: seq<string>, edges: seq<Link>, hops: map<string, nat>, p: seq<string>, k: nat)
    requires k < |p| && p[0] in seeds && IsWalk(edges, p)
    requires forall s | s in seeds :: s in hops && hops[s] == 0
    requires forall u | u in hops :: Closed(edges, hops, u)
    ensures p[k] in hops && hops[p[k]] <= k
  {
    if k > 0 {
      WalkBound(seeds, edges, hops, p, k - 1);
      assert Closed(edges, hops, p[k - 1]) && Adjacent(edges, p[k - 1], p[k]);
    }
  }

  /** The labels are the shortest distances: a node is labelled exactly when some walk leads to
      it from a seed, with the length of a shortest one. */
  ghost predicate ShortestHops(seeds: seq<string>, edges: seq<Link>, hops: map<string, nat>) {
    forall v ::
      && (v in hops <==> exists k :: Reaches(seeds, edges, v, k))
      && (v in hops ==> Reaches(seeds, edges, v, hops[v]))
      && (v in hops ==> forall k :: Reaches(seeds, edges, v, k) ==> hops[v] <= k)
  }

  lemma ClosedLabelsAreShortest(seeds: seq<string>, edges: seq<Link>, hops: map<string, nat>)
    requires forall s | s in seeds :: s in hops && hops[s] == 0
    requires forall u | u in hops :: Closed(edges, hops, u)
    requires forall v | v in hops :: Layer(seeds, edges, v, hops[v])
    ensures ShortestHops(seeds, edges, hops)
  {
    forall v | v in hops ensures Reaches(seeds, edges, v, hops[v]) {
      LayerReaches(seeds, edges, v, hops[v]);
    }
    forall v, k: nat | Reaches(seeds, edges, v, k) ensures v in hops && hops[v] <= k {
      var p: seq<string> :| |p| == k + 1 && p[0] in seeds && p[k] == v && IsWalk(edges, p);
      WalkBound(seeds, edges, hops, p, k);
    }
  }

  /** So the labels are determined by the graph alone. */
  lemma ShortestHopsUnique(seeds: seq<string>, edges: seq<Link>, a: map<string, nat>, b: map<string, nat>)
    requires ShortestHops(seeds, edges, a) && ShortestHops(seeds, edges, b)
    ensures a == b
  {
    assert forall v :: v in a <==> v in b;
    forall v | v in a ensures a[v] == b[v] {
      assert Reaches(seeds, edges, v, a[v]) && Reaches(seeds, edges, v, b[v]);
    }
  }

  function Neighbours(adjacency: map<string, seq<string>>, u: string): seq<string> {
    if u in adjacency then adjacency[u] else []
  }

  ghost predicate Lists(adjacency: map<string, seq<string>>, edges: seq<Link>) {
    forall u, v :: v in Neighbours(adjacency, u) <==> Adjacent(edges, u, v)
  }

  lemma ListsStep(adjacency: map<string, seq<string>>, edges: seq<Link>, e: Link)
    requires Lists(adjacency, edges)
    ensures var a := adjacency[e.source := Neighbours(adjacency, e.source) + [e.target]];
            Lists(a[e.target := Neighbours(a, e.target) + [e.source]], edges + [e])
  {
    var a := adjacency[e.source := Neighbours(adjacency, e.source) + [e.target]];
    var b := a[e.target := Neighbours(a, e.target) + [e.source]];
    forall u, v ensures v in Neighbours(b, u) <==> Adjacent(edges + [e], u, v) {
      assert v in Neighbours(a, u) <==> v in Neighbours(adjacency, u) || (u == e.source && v == e.target);
      assert v in Neighbours(b, u) <==> v in Neighbours(a, u) || (u == e.target && v == e.source);
      assert Link(u, v) in edges + [e] <==> Link(u, v) in edges || Link(u, v) == e;
      assert Link(v, u) in edges + [e] <==> Link(v, u) in edges || Link(v, u) == e;
    }
  }

  /** The undirected adjacency lists. */
  method BuildAdjacency(edges: seq<Link>) returns (adjacency: map<string, seq<string>>)
    ensures Lists(adjacency, edges)
  {
    adjacency := map[];
    for i := 0 to |edges|
      invariant Lists(adjacency, edges[..i])
    {
      var e := edges[i];
      ListsStep(adjacency, edges[..i], e);
      assert edges[..i + 1] == edges[..i] + [e];
      adjacency := adjacency[e.source := Neighbours(adjacency, e.source) + [e.target]];
      adjacency := adjacency[e.target := Neighbours(adjacency, e.target) + [e.source]];
    }
    assert edges[..|edges|] == edges;
  }

  datatype Entry = Entry(node: string, hop: nat)

  predicate Queued(queue: seq<Entry>, u: string) {
    exists i :: 0 <= i < |queue| && queue[i].node == u
  }

  /** A queue in order of hops, agreeing with the labels, no label more than one past its head. */
  ghost predicate QueueOk(queue: seq<Entry>, hops: map<string, nat>) {
    && (forall i :: 0 <= i < |queue| ==> queue[i].node in hops && hops[queue[i].node] == queue[i].hop)
    && (forall i, j :: 0 <= i < j < |queue| ==> queue[i].hop <= queue[j].hop)
    && (queue != [] ==> forall v | v in hops :: hops[v] <= queue[0].hop + 1)
  }

  ghost predicate LabelsOk(seeds: seq<string>, edges: seq<Link>, hops: map<string, nat>) {
    && (forall s | s in seeds :: s in hops && hops[s] == 0)
    && (forall v {:trigger Layer(seeds, edges, v, hops[v])} | v in hops :: Layer(seeds, edges, v, hops[v]))
  }

  /** Labels one unvisited neighbour of `u`, a node at hop `h`. */
  lemma LabelStep(seeds: seq<string>, edges: seq<Link>, hops: map<string, nat>, u: string, v: string, hops': map<string, nat>)
    requires LabelsOk(seeds, edges, hops) && u in hops && v !in hops && Adjacent(edges, u, v) && hops' == hops[v := hops[u] + 1]
    ensures LabelsOk(seeds, edges, hops')
  {
    assert Layer(seeds, edges, u, hops[u]);
  }

  /** A finite set of nodes that the search cannot leave. */
  ghost predicate Covers(all: set<string>, seeds: seq<string>, edges: seq<Link>) {
    && (forall s | s in seeds :: s in all)
    && (forall e | e in edges :: e.source in all && e.target in all)
  }

  lemma CoverExists(seeds: seq<string>, edges: seq<Link>) returns (all: set<string>)
    ensures Covers(all, seeds, edges)
  {
    all := (set s | s in seeds) + (set e | e in edges :: e.source) + (set e | e in edges :: e.target);
  }

  /** What the main loop keeps: everything visited and no longer queued is closed. */
  ghost predicate Searching(all: set<string>, seeds: seq<string>, edges: seq<Link>, visited: set<string>, queue: seq<Entry>, hops: map<string, nat>) {
    && visited == hops.Keys && visited <= all
    && LabelsOk(seeds, edges, hops) && QueueOk(queue, hops)
    && forall u {:trigger Closed(edges, hops, u)} | u in hops && !Queued(queue, u) :: Closed(edges, hops, u)
  }

  method SeedQueue(ghost all: set<string>, seeds: seq<string>, ghost edges: seq<Link>) returns (hops: map<string, nat>, visited: set<string>, queue: seq<Entry>)
    requires Covers(all, seeds, edges)
    ensures Searching(all, seeds, edges, visited, queue, hops)
  {
    hops := map[];
    visited := {};
    queue := [];
    for i := 0 to |seeds|
      invariant visited == hops.Keys == set s | s in seeds[..i]
      invariant |queue| == i && forall k :: 0 <= k < i ==> queue[k] == Entry(seeds[k], 0)
      invariant forall v | v in hops :: hops[v] == 0
    {
      assert seeds[..i + 1] == seeds[..i] + [seeds[i]];
      hops := hops[seeds[i] := 0];
      visited := visited + {seeds[i]};
      queue := queue + [Entry(seeds[i], 0)];
    }
    assert seeds[..|seeds|] == seeds;
    forall v | v in hops ensures Layer(seeds, edges, v, hops[v]) && Queued(queue, v) {
      var k :| 0 <= k < |seeds| && seeds[k] == v;
      assert queue[k].node == v;
    }
  }

  /** Visits a node first reached from the head of `before`, at hop `h`. */
  method Visit(ghost all: set<string>, ghost seeds: seq<string>, ghost edges: seq<Link>, ghost adjacency: map<string, seq<string>>,
               ghost before: seq<Entry>, ghost hops0: map<string, nat>, ghost budget: int, v: string, h: nat,
               visited0: set<string>, labels0: map<string, nat>, queue0: seq<Entry>)
    returns (visited: set<string>, hops: map<string, nat>, queue: seq<Entry>)
    requires Lists(adjacency, edges) && Covers(all, seeds, edges)
    requires Expanding(all, seeds, edges, before, hops0, visited0, queue0, labels0, budget)
    requires before[0].hop == h && v !in visited0 && v in Neighbours(adjacency, before[0].node)
    ensures Expanding(all, seeds, edges, before, hops0, visited, queue, hops, budget) && visited == visited0 + {v}
  {
    visited := visited0 + {v};
    hops := labels0[v := h + 1];
    queue := queue0 + [Entry(v, h + 1)];
    ExpandStep(all, seeds, edges, adjacency, before, hops0, visited0, queue0, labels0, budget, v, visited, queue, hops);
  }

  /** Takes the head of the queue and visits its unvisited neighbours. */
  method Expand(ghost all: set<string>, ghost seeds: seq<string>, ghost edges: seq<Link>, adjacency: map<string, seq<string>>,
                before: seq<Entry>, hops0: map<string, nat>, visited0: set<string>)
    returns (hops: map<string, nat>, visited: set<string>, queue: seq<Entry>)
    requires before != [] && Lists(adjacency, edges) && Covers(all, seeds, edges) && Searching(all, seeds, edges, visited0, before, hops0)
    ensures Searching(all, seeds, edges, visited, queue, hops)
    ensures |queue| + |all - visited| < |before| + |all - visited0|
  {
    var u, h := before[0].node, before[0].hop;
    hops, visited, queue := hops0, visited0, before[1..];
    var next := Neighbours(adjacency, u);
    ghost var budget := |before| - 1 + |all - visited0|;
    ExpandStart(all, seeds, edges, before, hops0, visited0);
    for i := 0 to |next|
      invariant Expanding(all, seeds, edges, before, hops0, visited, queue, hops, budget)
      invariant forall v | v in next[..i] :: v in visited
    {
      var v := next[i];
      assert next[..i + 1] == next[..i] + [v];
      if v !in visited {
        visited, hops, queue := Visit(all, seeds, edges, adjacency, before, hops0, budget, v, h, visited, hops, queue);
      }
    }
    assert next[..|next|] == next;
    AllSeen(edges, adjacency, u, hops);
    ExpandDone(all, seeds, edges, before, hops0, visited0, visited, queue, hops, budget);
  }

  lemma ExpandStart(all: set<string>, seeds: seq<string>, edges: seq<Link>, before: seq<Entry>, hops0: map<string, nat>, visited0: set<string>)
    requires before != [] && Searching(all, seeds, edges, visited0, before, hops0)
    ensures Expanding(all, seeds, edges, before, hops0, visited0, before[1..], hops0, |before| - 1 + |all - visited0|)
  {
  }

  lemma ExpandDone(all: set<string>, seeds: seq<string>, edges: seq<Link>, before: seq<Entry>, hops0: map<string, nat>, visited0: set<string>,
                   visited: set<string>, queue: seq<Entry>, hops: map<string, nat>, budget: int)
    requires Expanding(all, seeds, edges, before, hops0, visited, queue, hops, budget)
    requires Searching(all, seeds, edges, visited0, before, hops0)
    requires forall v | Adjacent(edges, before[0].node, v) :: v in hops
    ensures Searching(all, seeds, edges, visited, queue, hops)
  {
    ScanDone(edges, before, queue, hops0, hops, before[0].hop);
  }

  ghost predicate Expanding(all: set<string>, seeds: seq<string>, edges: seq<Link>, before: seq<Entry>, hops0: map<string, nat>,
                            visited: set<string>, queue: seq<Entry>, hops: map<string, nat>, budget: int) {
    && before != [] && visited == hops.Keys && visited <= all
    && |queue| + |all - visited| == budget
    && LabelsOk(seeds, edges, hops) && Scanning(before, queue, hops0, hops, before[0].hop)
  }

  lemma ExpandStep(all: set<string>, seeds: seq<string>, edges: seq<Link>, adjacency: map<string, seq<string>>, before: seq<Entry>, hops0: map<string, nat>,
                   visited: set<string>, queue: seq<Entry>, hops: map<string, nat>, budget: int, v: string,
                   visited': set<string>, queue': seq<Entry>, hops': map<string, nat>)
    requires Expanding(all, seeds, edges, before, hops0, visited, queue, hops, budget) && Lists(adjacency, edges) && Covers(all, seeds, edges)
    requires v !in visited && v in Neighbours(adjacency, before[0].node)
    requires visited' == visited + {v} && queue' == queue + [Entry(v, before[0].hop + 1)] && hops' == hops[v := before[0].hop + 1]
    ensures Expanding(all, seeds, edges, before, hops0, visited', queue', hops', budget)
  {
    var u, h := before[0].node, before[0].hop;
    NeighbourCovered(all, seeds, edges, adjacency, u, v);
    HeadLabel(before, queue, hops0, hops);
    LabelStep(seeds, edges, hops, u, v, hops');
    ScanStep(before, queue, hops0, hops, h, v, queue', hops');
    Recount(all, visited, queue, hops, budget, v, visited', queue', hops');
  }

  lemma Recount(all: set<string>, visited: set<string>, queue: seq<Entry>, hops: map<string, nat>, budget: int, v: string,
                visited': set<string>, queue': seq<Entry>, hops': map<string, nat>)
    requires visited == hops.Keys && visited <= all && |queue| + |all - visited| == budget && v in all && v !in visited
    requires visited' == visited + {v} && |queue'| == |queue| + 1 && hops'.Keys == hops.Keys + {v}
    ensures visited' == hops'.Keys && visited' <= all && |queue'| + |all - visited'| == budget
  {
    Shrinks(all, visited, v);
  }

  lemma HeadLabel(before: seq<Entry>, queue: seq<Entry>, hops0: map<string, nat>, hops: map<string, nat>)
    requires before != [] && Scanning(before, queue, hops0, hops, before[0].hop)
    ensures before[0].node in hops && hops[before[0].node] == before[0].hop
  {
    assert before[0].node in hops0;
  }

  lemma NeighbourCovered(all: set<string>, seeds: seq<string>, edges: seq<Link>, adjacency: map<string, seq<string>>, u: string, v: string)
    requires Covers(all, seeds, edges) && Lists(adjacency, edges) && v in Neighbours(adjacency, u)
    ensures v in all && Adjacent(edges, u, v)
  {
    assert Adjacent(edges, u, v);
  }

  lemma AllSeen(edges: seq<Link>, adjacency: map<string, seq<string>>, u: string, hops: map<string, nat>)
    requires Lists(adjacency, edges) && forall v | v in Neighbours(adjacency, u) :: v in hops
    ensures forall v | Adjacent(edges, u, v) :: v in hops
  {
    forall v | Adjacent(edges, u, v) ensures v in hops {
      assert v in Neighbours(adjacency, u);
    }
  }

  lemma Shrinks(all: set<string>, visited: set<string>, v: string)
    requires v in all && v !in visited
    ensures |all - (visited + {v})| == |all - visited| - 1
  {
    assert all - (visited + {v}) == (all - visited) - {v};
  }

  method HopsFrom(seeds: seq<string>, edges: seq<Link>) returns (hops: map<string, nat>)
    ensures ShortestHops(seeds, edges, hops)
  {
    var visited, queue;
    ghost var all := CoverExists(seeds, edges);
    hops, visited, queue := SeedQueue(all, seeds, edges);
    var adjacency := BuildAdjacency(edges);
    while queue != []
      invariant Searching(all, seeds, edges, visited, queue, hops)
      decreases |queue| + |all - visited|
    {
      hops, visited, queue := Expand(all, seeds, edges, adjacency, queue, hops, visited);
    }
    forall u | u in hops ensures Closed(edges, hops, u) {
      assert !Queued(queue, u);
    }
    ClosedLabelsAreShortest(seeds, edges, hops);
  }

  /** While the head of `before`, at hop `h`, is expanded: old labels stay, new ones are `h + 1`
      and each has its entry behind the old queue. */
  ghost predicate Scanning(before: seq<Entry>, queue: seq<Entry>, hops0: map<string, nat>, hops: map<string, nat>, h: nat) {
    && before != [] && before[0].hop == h && QueueOk(before, hops0)
    && |before| - 1 <= |queue| && queue[..|before| - 1] == before[1..]
    && (forall v | v in hops0 :: v in hops && hops[v] == hops0[v])
    && (forall v | v in hops && v !in hops0 :: hops[v] == h + 1 && Queued(queue, v))
    && (forall i :: |before| - 1 <= i < |queue| ==> queue[i].hop == h + 1 && queue[i].node in hops && hops[queue[i].node] == h + 1)
  }

  lemma ScanStep(before: seq<Entry>, queue: seq<Entry>, hops0: map<string, nat>, hops: map<string, nat>, h: nat, v: string,
                 queue': seq<Entry>, hops': map<string, nat>)
    requires Scanning(before, queue, hops0, hops, h) && v !in hops
    requires queue' == queue + [Entry(v, h + 1)] && hops' == hops[v := h + 1]
    ensures Scanning(before, queue', hops0, hops', h)
  {
    assert queue'[|queue|].node == v;
    forall w | w in hops && w !in hops0 ensures Queued(queue', w) {
      var i :| 0 <= i < |queue| && queue[i].node == w;
      assert queue'[i].node == w;
    }
  }

  lemma ScanDone(edges: seq<Link>, before: seq<Entry>, queue: seq<Entry>, hops0: map<string, nat>, hops: map<string, nat>, h: nat)
    requires Scanning(before, queue, hops0, hops, h)
    requires forall v | Adjacent(edges, before[0].node, v) :: v in hops
    requires forall u {:trigger Closed(edges, hops0, u)} | u in hops0 && !Queued(before, u) :: Closed(edges, hops0, u)
    ensures QueueOk(queue, hops)
    ensures forall u {:trigger Closed(edges, hops, u)} | u in hops && !Queued(queue, u) :: Closed(edges, hops, u)
  {
    assert forall i :: 0 <= i < |before| - 1 ==> queue[i] == before[1..][i] == before[i + 1];
    forall u | u in hops && !Queued(queue, u) ensures Closed(edges, hops, u) {
      assert u in hops0;
      if u != before[0].node {
        NotQueued(before, queue, u);
        assert Closed(edges, hops0, u);
      }
    }
  }

  lemma NotQueued(before: seq<Entry>, queue: seq<Entry>, u: string)
    requires before != [] && |before| - 1 <= |queue| && queue[..|before| - 1] == before[1..]
    requires u != before[0].node && !Queued(queue, u)
    ensures !Queued(before, u)
  {
    forall i | 0 <= i < |before| ensures before[i].node != u {
      if i > 0 {
        assert before[i] == queue[..|before| - 1][i - 1] == queue[i - 1];
      }
    }
  }
}
