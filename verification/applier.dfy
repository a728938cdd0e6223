/** What the applier does to a graph, entry by entry, and which batches it refuses. */
module Applier {
  import opened Text
  import opened Store

  /** Which ops are accepted: those whose subjects exist, whose edge does not join two
      projects, and whose edge is still open. */
  lemma OpAccepted(g: Graph, op: Op, now: int)
    ensures ApplyOp(g, op, now).Ok? <==>
            match op
            case CreateNode(_, _, _, _) => true
            case UpsertNode(_, _, _, _, _) => false
            case SetNodeProps(id, _) => id in g.nodes
            case SetEmbedding(id, _, _) => id in g.nodes
            case RemoveNode(id) => id in g.nodes
            case CreateEdge(_, _, _, from, to, _, _) =>
              from in g.nodes && to in g.nodes
              && (g.nodes[from].scope == Shared || g.nodes[to].scope == Shared || g.nodes[from].scope == g.nodes[to].scope)
            case CloseEdge(e, _) => e in g.edges && g.edges[e].validTo.None?
  {
  }

  /** One property after a change: set, removed, or as it was. */
  predicate PropAfter(old_: Props, new_: Props, changes: map<string, Option<Value>>, k: string) {
    if k in changes then (if changes[k].Some? then k in new_ && new_[k] == changes[k].value else k !in new_)
    else (k in new_ <==> k in old_) && (k in old_ ==> new_[k] == old_[k])
  }

  lemma NodesAfter(g: Graph, op: Op, now: int)
    requires ApplyOp(g, op, now).Ok?
    ensures var g' := ApplyOp(g, op, now).value;
            && (forall id :: id in g'.nodes <==> (id in g.nodes && op != RemoveNode(id)) || (op.CreateNode? && op.id == id))
            && (forall id | id in g'.nodes ::
                  if op.CreateNode? && op.id == id then g'.nodes[id] == Node(op.scope, op.tag, op.props)
                  else if op.SetNodeProps? && op.id == id then
                    g'.nodes[id].scope == g.nodes[id].scope && g'.nodes[id].tag == g.nodes[id].tag
                    && forall k :: PropAfter(g.nodes[id].props, g'.nodes[id].props, op.changes, k)
                  else g'.nodes[id] == g.nodes[id])
  {
  }

  lemma EdgesAfter(g: Graph, op: Op, now: int)
    requires ApplyOp(g, op, now).Ok?
    ensures var g' := ApplyOp(g, op, now).value;
            && (forall e :: e in g'.edges <==>
                  ((e in g.edges && !(op.RemoveNode? && (g.edges[e].from == op.id || g.edges[e].to == op.id)))
                   || (op.CreateEdge? && op.edge == e)))
            && (forall e | e in g'.edges ::
                  var x := g'.edges[e];
                  if op.CreateEdge? && op.edge == e then
                    && x.scope == op.scope && x.ty == op.ty && x.from == op.from && x.to == op.to && x.props == op.props
                    && x.validFrom == (if op.validFrom.Some? then op.validFrom.value else now) && x.validTo.None?
                    && x.recordedAt == now && x.supersededAt.None?
                  else if op.CloseEdge? && op.edge == e then
                    x == g.edges[e].(validTo := Some(if op.validTo.Some? then op.validTo.value else now), supersededAt := Some(now))
                  else x == g.edges[e])
  {
  }

  // ----- what is checked before anything is applied -----

  predicate MadeAt(ops: seq<Op>, j: nat, id: NodeId, s: Scope) {
    j < |ops| && ops[j].CreateNode? && ops[j].id == id && ops[j].scope == s
  }

  /** `s` is the scope of node `id` when op `i` is reached: it was there, or was created. */
  ghost predicate HasScope(g: Graph, ops: seq<Op>, i: nat, id: NodeId, s: Scope) {
    (id in g.nodes && g.nodes[id].scope == s) || exists j: nat :: j < i && MadeAt(ops, j, id, s)
  }

  /** Every id that the batch creates is new, and created once. */
  ghost predicate CreatesOnce(g: Graph, ops: seq<Op>) {
    && (forall i | 0 <= i < |ops| && ops[i].CreateNode? :: ops[i].id !in g.nodes)
    && (forall i, j | 0 <= i < j < |ops| && ops[i].CreateNode? && ops[j].CreateNode? :: ops[i].id != ops[j].id)
  }

  lemma {:induction false} CreatesOnceWhen(g: Graph, seen: set<NodeId>, ops: seq<Op>)
    ensures CreateIdsFresh(g, seen, ops) <==> CreatesOnce(g, ops) && forall i | 0 <= i < |ops| && ops[i].CreateNode? :: ops[i].id !in seen
    decreases |ops|
  {
    if ops != [] {
      var op, rest := ops[0], ops[1..];
      var seen' := if op.CreateNode? then seen + {op.id} else seen;
      CreatesOnceWhen(g, seen', rest);
      assert forall i :: 0 <= i < |rest| ==> rest[i] == ops[i + 1];
      if CreateIdsFresh(g, seen, ops) {
        forall i, j | 0 <= i < j < |ops| && ops[i].CreateNode? && ops[j].CreateNode? ensures ops[i].id != ops[j].id {
          assert ops[j] == rest[j - 1];
          if i > 0 { assert ops[i] == rest[i - 1]; }
        }
        forall i | 0 <= i < |ops| && ops[i].CreateNode? ensures ops[i].id !in g.nodes && ops[i].id !in seen {
          if i > 0 { assert ops[i] == rest[i - 1]; }
        }
      }
      if CreatesOnce(g, ops) && forall i | 0 <= i < |ops| && ops[i].CreateNode? :: ops[i].id !in seen {
        forall i | 0 <= i < |rest| && rest[i].CreateNode? ensures rest[i].id !in seen' && rest[i].id !in g.nodes {
          assert rest[i] == ops[i + 1];
        }
        forall i, j | 0 <= i < j < |rest| && rest[i].CreateNode? && rest[j].CreateNode? ensures rest[i].id != rest[j].id {
          assert rest[i] == ops[i + 1] && rest[j] == ops[j + 1];
        }
      }
    }
  }

  /** An edge that touches a project's node belongs to that project or is shared. */
  predicate RightScope(edge: Scope, from: Scope, to: Scope) {
    (from == Shared && to == Shared) || edge == Shared || edge == (if from != Shared then from else to)
  }

  /** The table of scopes knows exactly what the first `i` ops created. */
  ghost predicate Knows(created: map<NodeId, Scope>, ops: seq<Op>, i: nat) {
    && (forall id | id in created :: exists j: nat :: j < i && MadeAt(ops, j, id, created[id]))
    && (forall j: nat, id, s :: j < i && MadeAt(ops, j, id, s) ==> id in created && created[id] == s)
  }

  lemma {:induction false} EdgeScopesChecked(g: Graph, ops: seq<Op>, at: nat, created: map<NodeId, Scope>, i: nat, from: Scope, to: Scope)
    requires at <= i < |ops| && EdgeScopesOk(g, created, ops[at..]) && CreatesOnce(g, ops) && Knows(created, ops, at)
    requires ops[i].CreateEdge? && HasScope(g, ops, i, ops[i].from, from) && HasScope(g, ops, i, ops[i].to, to)
    ensures RightScope(ops[i].scope, from, to)
    decreases i - at
  {
    var op := ops[at];
    assert ops[at..][0] == op && ops[at..][1..] == ops[at + 1..];
    if i == at {
      KnownScope(g, ops, i, created, op.from, from);
      KnownScope(g, ops, i, created, op.to, to);
    } else {
      var created' := if op.CreateNode? then created[op.id := op.scope] else created;
      KnowsMore(g, ops, at, created);
      EdgeScopesChecked(g, ops, at + 1, created', i, from, to);
    }
  }

  lemma KnownScope(g: Graph, ops: seq<Op>, i: nat, created: map<NodeId, Scope>, id: NodeId, s: Scope)
    requires i <= |ops| && CreatesOnce(g, ops) && Knows(created, ops, i) && HasScope(g, ops, i, id, s)
    ensures ScopeBefore(g, created, id) == Some(s)
  {
    if id in created {
      var j: nat :| j < i && MadeAt(ops, j, id, created[id]);
      assert ops[j].CreateNode? && ops[j].id !in g.nodes;
    }
  }

  lemma KnowsMore(g: Graph, ops: seq<Op>, at: nat, created: map<NodeId, Scope>)
    requires at < |ops| && CreatesOnce(g, ops) && Knows(created, ops, at)
    ensures Knows(if ops[at].CreateNode? then created[ops[at].id := ops[at].scope] else created, ops, at + 1)
  {
    var op := ops[at];
    var created' := if op.CreateNode? then created[op.id := op.scope] else created;
    forall id | id in created' ensures exists j: nat :: j < at + 1 && MadeAt(ops, j, id, created'[id]) {
      if op.CreateNode? && op.id == id {
        assert MadeAt(ops, at, id, created'[id]);
      } else {
        var j: nat :| j < at && MadeAt(ops, j, id, created[id]);
      }
    }
    forall j: nat, id, s | j < at + 1 && MadeAt(ops, j, id, s) ensures id in created' && created'[id] == s {
      if j < at {
        assert id in created && created[id] == s;
      }
    }
  }

  /** A committed batch creates new nodes, each once, and every edge it makes has a scope that
      fits the nodes it joins. */
  lemma CommitChecks(tx: Codec, g: Graph, ops: seq<Op>, now: int)
    requires Commit(tx, g, ops, now).Ok?
    ensures CreatesOnce(g, ops)
    ensures forall i, from, to | 0 <= i < |ops| && ops[i].CreateEdge? && HasScope(g, ops, i, ops[i].from, from) && HasScope(g, ops, i, ops[i].to, to) ::
              RightScope(ops[i].scope, from, to)
  {
    if ops != [] {
      CreatesOnceWhen(g, {}, ops);
      assert ops[0..] == ops;
      forall i, from, to | 0 <= i < |ops| && ops[i].CreateEdge? && HasScope(g, ops, i, ops[i].from, from) && HasScope(g, ops, i, ops[i].to, to)
        ensures RightScope(ops[i].scope, from, to)
      {
        EdgeScopesChecked(g, ops, 0, map[], i, from, to);
      }
    }
  }
}
