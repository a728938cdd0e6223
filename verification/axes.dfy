/** The two time axes of an edge, from the instants given to the ops that made and closed it. */
module Axes {
  import opened Text
  import opened Store
  import opened History

  /** What the batches of a run do to one edge: the op's own instant and the write instant. */
  datatype Event =
    | Made(at: Option<int>, written: int)
    | Ended(at: Option<int>, written: int)

  function EventsOf(ops: seq<Op>, e: EdgeId, w: int): seq<Event> {
    if ops == [] then []
    else
      var rest := EventsOf(ops[1..], e, w);
      if ops[0].CreateEdge? && ops[0].edge == e then [Made(ops[0].validFrom, w)] + rest
      else if ops[0].CloseEdge? && ops[0].edge == e then [Ended(ops[0].validTo, w)] + rest
      else rest
  }

  datatype Batch = Batch(ops: seq<Op>, written: int)

  function AllEvents(batches: seq<Batch>, e: EdgeId): seq<Event> {
    if batches == [] then [] else EventsOf(batches[0].ops, e, batches[0].written) + AllEvents(batches[1..], e)
  }

  /** The graph after committing the batches in turn, if all are accepted. */
  function CommitAll(tx: Codec, g: Graph, batches: seq<Batch>): Option<Graph>
    decreases |batches|
  {
    if batches == [] then Some(g)
    else
      match Commit(tx, g, batches[0].ops, batches[0].written)
      case Err(_) => None
      case Ok(applied) => CommitAll(tx, applied.graph, batches[1..])
  }

  datatype Times = Times(validFrom: int, validTo: Option<int>, recordedAt: int, supersededAt: Option<int>)

  function TimesOf(e: Edge): Times {
    Times(e.validFrom, e.validTo, e.recordedAt, e.supersededAt)
  }

  function TellOne(t: Option<Times>, event: Event): Option<Times> {
    match event
    case Made(at, w) => Some(Times(if at.Some? then at.value else w, None, w, None))
    case Ended(at, w) =>
      if t.None? then None else Some(t.value.(validTo := Some(if at.Some? then at.value else w), supersededAt := Some(w)))
  }

  /** What the events say of the edge's four instants. */
  function Tell(t: Option<Times>, events: seq<Event>): Option<Times>
    decreases |events|
  {
    if events == [] then t else Tell(TellOne(t, events[0]), events[1..])
  }

  /** `t` is right about `e`, should the edge be there. */
  predicate Agrees(g: Graph, e: EdgeId, t: Option<Times>) {
    e in g.edges ==> t == Some(TimesOf(g.edges[e]))
  }

  lemma {:induction false} TellConcat(t: Option<Times>, a: seq<Event>, b: seq<Event>)
    ensures Tell(t, a + b) == Tell(Tell(t, a), b)
    decreases |a|
  {
    if a == [] {
      assert a + b == b;
    } else {
      assert (a + b)[0] == a[0] && (a + b)[1..] == a[1..] + b;
      TellConcat(TellOne(t, a[0]), a[1..], b);
    }
  }

  lemma OpTells(g: Graph, op: Op, e: EdgeId, w: int, t: Option<Times>)
    requires Agrees(g, e, t) && ApplyOp(g, op, w).Ok?
    ensures var g' := ApplyOp(g, op, w).value;
            if op.CreateEdge? && op.edge == e then Agrees(g', e, TellOne(t, Made(op.validFrom, w)))
            else if op.CloseEdge? && op.edge == e then Agrees(g', e, TellOne(t, Ended(op.validTo, w)))
            else Agrees(g', e, t)
  {
  }

  lemma {:induction false} RunTells(g: Graph, ops: seq<Op>, e: EdgeId, w: int, t: Option<Times>)
    requires Agrees(g, e, t) && Run(g, ops, w).Ok?
    ensures Agrees(Run(g, ops, w).value, e, Tell(t, EventsOf(ops, e, w)))
    decreases |ops|
  {
    if ops != [] {
      var op, rest := ops[0], EventsOf(ops[1..], e, w);
      OpTells(g, op, e, w, t);
      var g' := ApplyOp(g, op, w).value;
      if op.CreateEdge? && op.edge == e {
        assert ([Made(op.validFrom, w)] + rest)[1..] == rest;
        RunTells(g', ops[1..], e, w, TellOne(t, Made(op.validFrom, w)));
      } else if op.CloseEdge? && op.edge == e {
        assert ([Ended(op.validTo, w)] + rest)[1..] == rest;
        RunTells(g', ops[1..], e, w, TellOne(t, Ended(op.validTo, w)));
      } else {
        RunTells(g', ops[1..], e, w, t);
      }
    }
  }

  lemma {:induction false} RewriteKeepsEvents(tx: Codec, g: Graph, ops: seq<Op>, remap: map<NodeId, NodeId>, pending: map<PendingKey, NodeId>, e: EdgeId, w: int)
    ensures EventsOf(Rewrite(tx, g, ops, remap, pending).ops, e, w) == EventsOf(ops, e, w)
    decreases |ops|
  {
    if ops != [] {
      var op := ops[0];
      if op.UpsertNode? {
        var target := UpsertTarget(tx, g, pending, op);
        if target.Some? {
          RewriteKeepsEvents(tx, g, ops[1..], remap[op.id := target.value], pending, e, w);
        } else {
          var rest := Rewrite(tx, g, ops[1..], remap, Pend(pending, op)).ops;
          RewriteKeepsEvents(tx, g, ops[1..], remap, Pend(pending, op), e, w);
          assert ([CreateNode(op.id, op.scope, op.tag, op.props)] + rest)[1..] == rest;
        }
      } else {
        var rest := Rewrite(tx, g, ops[1..], remap, pending).ops;
        RewriteKeepsEvents(tx, g, ops[1..], remap, pending, e, w);
        assert ([RemapOp(op, remap)] + rest)[1..] == rest;
      }
    }
  }

  lemma {:induction false} CommitsTell(tx: Codec, g: Graph, batches: seq<Batch>, e: EdgeId, t: Option<Times>)
    requires Agrees(g, e, t) && CommitAll(tx, g, batches).Some?
    ensures Agrees(CommitAll(tx, g, batches).value, e, Tell(t, AllEvents(batches, e)))
    decreases |batches|
  {
    if batches != [] {
      var (ops, w) := (batches[0].ops, batches[0].written);
      var g' := Commit(tx, g, ops, w).value.graph;
      if ops != [] {
        RunTells(g, Rewrite(tx, g, ops, map[], map[]).ops, e, w, t);
        RewriteKeepsEvents(tx, g, ops, map[], map[], e, w);
      }
      CommitsTell(tx, g', batches[1..], e, Tell(t, EventsOf(ops, e, w)));
      TellConcat(t, EventsOf(ops, e, w), AllEvents(batches[1..], e));
    }
  }

  /** An edge made at write instant `w` with `valid_from` `f`, and closed at `w2` with
      `valid_to` `c` or never, is live in the world from `f` to `c` and believed from `w` to
      `w2`, whatever else the batches do; an omitted instant is the write instant. */
  lemma EdgeOnBothAxes(tx: Codec, g: Graph, batches: seq<Batch>, e: EdgeId, f: Option<int>, w: int, closing: Option<(Option<int>, int)>, t: int)
    requires e !in g.edges && CommitAll(tx, g, batches).Some? && e in CommitAll(tx, g, batches).value.edges
    requires AllEvents(batches, e) == [Made(f, w)] + (if closing.Some? then [Ended(closing.value.0, closing.value.1)] else [])
    ensures var g' := CommitAll(tx, g, batches).value;
            var from := if f.Some? then f.value else w;
            && (e in LiveView(g', t) <==>
                from <= t && (closing.Some? ==> t < (if closing.value.0.Some? then closing.value.0.value else closing.value.1)))
            && (e in BelievedView(g', t) <==> w <= t && (closing.Some? ==> t < closing.value.1))
  {
    CommitsTell(tx, g, batches, e, None);
    var made := TellOne(None, Made(f, w));
    var events := AllEvents(batches, e);
    if closing.Some? {
      var ended := Ended(closing.value.0, closing.value.1);
      assert events == [Made(f, w), ended] && events[1..] == [ended] && [ended][1..] == [];
      assert Tell(None, events) == Tell(made, [ended]) == TellOne(made, ended);
    } else {
      assert events == [Made(f, w)] && events[1..] == [];
      assert Tell(None, events) == made;
    }
  }
}
