/** What a committed plan does to the graph, as one simultaneous update. */
module Effects {
  import opened Text
  import opened Store
  import opened Compose

  function Elements(ids: seq<nat>): set<nat> {
    set id | id in ids
  }

  function Stamped(n: Node, prop: string, at: int): Node {
    n.(props := n.props[prop := Int(at)])
  }

  /** Memories `marks` stamped and edges `es` closed, all at once. */
  function Retired(g: Graph, marks: set<NodeId>, es: set<EdgeId>, verb: Verb, stamp: int, w: int): Graph {
    Graph(map id | id in g.nodes :: if id in marks then Stamped(g.nodes[id], Tombstone(verb), stamp) else g.nodes[id],
          map e | e in g.edges :: if e in es then Closed(g.edges[e], w, w) else g.edges[e])
  }

  /** Open edges in the write scope that leave one of `marks`. */
  function OpenFrom(g: Graph, scope: Scope, marks: set<NodeId>): set<EdgeId> {
    set e | e in g.edges && g.edges[e].from in marks && g.edges[e].scope == scope && g.edges[e].validTo.None?
  }

  lemma RetiredTwice(g: Graph, m1: set<NodeId>, e1: set<EdgeId>, m2: set<NodeId>, e2: set<EdgeId>, verb: Verb, stamp: int, w: int)
    ensures Retired(Retired(g, m1, e1, verb, stamp, w), m2, e2, verb, stamp, w) == Retired(g, m1 + m2, e1 + e2, verb, stamp, w)
  {
    var a := Retired(Retired(g, m1, e1, verb, stamp, w), m2, e2, verb, stamp, w);
    var b := Retired(g, m1 + m2, e1 + e2, verb, stamp, w);
    forall id | id in g.nodes ensures a.nodes[id] == b.nodes[id] {
      var n := g.nodes[id];
      assert n.props[Tombstone(verb) := Int(stamp)][Tombstone(verb) := Int(stamp)] == n.props[Tombstone(verb) := Int(stamp)];
    }
    assert a.nodes == b.nodes;
    assert a.edges == b.edges;
  }

  lemma RetiredNothing(g: Graph, verb: Verb, stamp: int, w: int)
    ensures Retired(g, {}, {}, verb, stamp, w) == g
  {
    assert Retired(g, {}, {}, verb, stamp, w).nodes == g.nodes;
    assert Retired(g, {}, {}, verb, stamp, w).edges == g.edges;
  }

  lemma {:induction false} RunCloses(g: Graph, es: seq<EdgeId>, verb: Verb, stamp: int, w: int)
    requires Distinct(es)
    requires forall e | e in es :: e in g.edges && g.edges[e].validTo.None?
    ensures Run(g, Closes(es), w) == Ok(Retired(g, {}, Elements(es), verb, stamp, w))
    decreases |es|
  {
    if es == [] {
      RetiredNothing(g, verb, stamp, w);
      assert Elements(es) == {} && Closes(es) == [];
    } else {
      var e := es[0];
      assert e in es;
      var g' := ApplyOp(g, CloseEdge(e, None), w).value;
      assert g' == Retired(g, {}, {e}, verb, stamp, w);
      assert Closes(es)[1..] == Closes(es[1..]);
      forall x | x in es[1..] ensures x in g'.edges && g'.edges[x].validTo.None? {
        assert x in es && x != e;
      }
      RunCloses(g', es[1..], verb, stamp, w);
      RetiredTwice(g, {}, {e}, {}, Elements(es[1..]), verb, stamp, w);
      assert Elements(es) == {e} + Elements(es[1..]);
    }
  }

  lemma RunRetireOps(g0: Graph, g1: Graph, scope: Scope, verb: Verb, id: NodeId, now: int, w: int)
    requires id in g1.nodes
    requires forall e | e in OpenOut(g0, {scope}, id) :: e in g1.edges && g1.edges[e].validTo.None?
    ensures Run(g1, RetireOps(g0, scope, verb, id, now), w) ==
            Ok(Retired(g1, {id}, OpenOut(g0, {scope}, id), verb, now, w))
  {
    var es := Sorted(OpenOut(g0, {scope}, id));
    var stamp := SetNodeProps(id, map[Tombstone(verb) := Some(Int(now))]);
    StampRuns(g1, verb, id, now, w);
    assert ([stamp] + Closes(es))[1..] == Closes(es);
    ClosesRun(g1, es, OpenOut(g0, {scope}, id), verb, id, now, w);
  }

  lemma StampRuns(g: Graph, verb: Verb, id: NodeId, now: int, w: int)
    requires id in g.nodes
    ensures ApplyOp(g, SetNodeProps(id, map[Tombstone(verb) := Some(Int(now))]), w) == Ok(Retired(g, {id}, {}, verb, now, w))
  {
    var n := g.nodes[id];
    assert Changed(n.props, map[Tombstone(verb) := Some(Int(now))]) == n.props[Tombstone(verb) := Int(now)];
    assert ApplyOp(g, SetNodeProps(id, map[Tombstone(verb) := Some(Int(now))]), w).value == Retired(g, {id}, {}, verb, now, w);
  }

  lemma ClosesRun(g: Graph, es: seq<EdgeId>, all: set<EdgeId>, verb: Verb, id: NodeId, now: int, w: int)
    requires es == Sorted(all) && forall e | e in all :: e in g.edges && g.edges[e].validTo.None?
    ensures Run(Retired(g, {id}, {}, verb, now, w), Closes(es), w) == Ok(Retired(g, {id}, all, verb, now, w))
  {
    assert Elements(es) == all;
    RunCloses(Retired(g, {id}, {}, verb, now, w), es, verb, now, w);
    RetiredTwice(g, {id}, {}, {}, all, verb, now, w);
    assert {id} + {} == {id} && {} + all == all;
  }

  /** Exactly the parsed, unseen ids without the tombstone are marked, each once. */
  lemma {:induction false} MarkedExactly(tx: Codec, g: Graph, scope: Scope, verb: Verb, ids: seq<string>, seen: set<NodeId>, now: int)
    requires RetireAll(tx, g, scope, verb, ids, seen, now).Ok?
    ensures var marked := RetireAll(tx, g, scope, verb, ids, seen, now).value.marked;
            && Distinct(marked)
            && (forall id :: id in marked <==>
                  id in ParsedIds(tx, ids) && id !in seen && id in g.nodes && Tombstone(verb) !in g.nodes[id].props)
    ensures forall raw | raw in ids :: tx.parseId(raw).Some?
    ensures forall id | id in ParsedIds(tx, ids) && id !in seen ::
              id in g.nodes && g.nodes[id].scope == scope && g.nodes[id].tag == MEMORY
    decreases |ids|
  {
    if ids != [] {
      var id := tx.parseId(ids[0]).value;
      assert ParsedIds(tx, ids) == {id} + ParsedIds(tx, ids[1..]) by {
        assert forall raw :: raw in ids <==> raw == ids[0] || raw in ids[1..];
      }
      if id in seen {
        MarkedExactly(tx, g, scope, verb, ids[1..], seen, now);
      } else {
        MarkedExactly(tx, g, scope, verb, ids[1..], seen + {id}, now);
      }
    }
  }

  /** `g1` still holds what a retirement planned on `g0` refers to. */
  ghost predicate Holds(g0: Graph, g1: Graph, done: set<NodeId>) {
    && g0.nodes.Keys <= g1.nodes.Keys
    && forall e | e in g0.edges :: e in g1.edges
         && (g0.edges[e].validTo.None? && g0.edges[e].from !in done ==> g1.edges[e].validTo.None?)
  }

  lemma HoldsAfter(g0: Graph, g1: Graph, scope: Scope, verb: Verb, id: NodeId, done: set<NodeId>, now: int, w: int)
    requires Holds(g0, g1, done)
    ensures Holds(g0, Retired(g1, {id}, OpenOut(g0, {scope}, id), verb, now, w), done + {id})
  {
  }

  lemma RetireHead(g0: Graph, g1: Graph, scope: Scope, verb: Verb, id: NodeId, rest: Retirement, now: int, w: int)
    requires id in g1.nodes
    requires forall e | e in OpenOut(g0, {scope}, id) :: e in g1.edges && g1.edges[e].validTo.None?
    requires var m := Elements(rest.marked);
             var g2 := Retired(g1, {id}, OpenOut(g0, {scope}, id), verb, now, w);
             Run(g2, rest.ops, w) == Ok(Retired(g2, m, OpenFrom(g0, scope, m), verb, now, w))
    ensures var m := {id} + Elements(rest.marked);
            Run(g1, RetireOps(g0, scope, verb, id, now) + rest.ops, w) == Ok(Retired(g1, m, OpenFrom(g0, scope, m), verb, now, w))
  {
    var m := Elements(rest.marked);
    RunRetireOps(g0, g1, scope, verb, id, now, w);
    RunConcat(g1, RetireOps(g0, scope, verb, id, now), rest.ops, w);
    RetiredTwice(g1, {id}, OpenOut(g0, {scope}, id), m, OpenFrom(g0, scope, m), verb, now, w);
    assert OpenFrom(g0, scope, {id} + m) == OpenOut(g0, {scope}, id) + OpenFrom(g0, scope, m);
  }

  /** A retirement planned on `g0` and run on a graph that extends it stamps exactly the
      marked memories and closes exactly their open out-edges of the write scope. */
  lemma {:induction false} RetireRuns(tx: Codec, g0: Graph, g1: Graph, scope: Scope, verb: Verb, ids: seq<string>, seen: set<NodeId>, now: int, w: int)
    requires RetireAll(tx, g0, scope, verb, ids, seen, now).Ok?
    requires Holds(g0, g1, seen)
    ensures var r := RetireAll(tx, g0, scope, verb, ids, seen, now).value;
            Run(g1, r.ops, w) ==
            Ok(Retired(g1, Elements(r.marked), OpenFrom(g0, scope, Elements(r.marked)), verb, now, w))
    decreases |ids|
  {
    var r := RetireAll(tx, g0, scope, verb, ids, seen, now).value;
    if ids == [] {
      RetiredNothing(g1, verb, now, w);
      assert Elements(r.marked) == {} && OpenFrom(g0, scope, {}) == {};
    } else {
      var id := tx.parseId(ids[0]).value;
      if id in seen {
        RetireRuns(tx, g0, g1, scope, verb, ids[1..], seen, now, w);
      } else if !Judge(g0, scope, verb, id).value {
        RetireRuns(tx, g0, g1, scope, verb, ids[1..], seen + {id}, now, w);
      } else {
        var rest := RetireAll(tx, g0, scope, verb, ids[1..], seen + {id}, now).value;
        var g2 := Retired(g1, {id}, OpenOut(g0, {scope}, id), verb, now, w);
        HoldsAfter(g0, g1, scope, verb, id, seen, now, w);
        RetireRuns(tx, g0, g2, scope, verb, ids[1..], seen + {id}, now, w);
        RetireHead(g0, g1, scope, verb, id, rest, now, w);
        assert r == Retirement(RetireOps(g0, scope, verb, id, now) + rest.ops, [id] + rest.marked);
        assert Elements([id] + rest.marked) == {id} + Elements(rest.marked);
      }
    }
  }
}
