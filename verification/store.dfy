/** The bitemporal property graph and its single applier, as the planners see them:
    scoped reads, and batches that commit whole or not at all. */
module Store {
  import opened Text

  type NodeId = nat
  type EdgeId = nat

  datatype Scope = Shared | Project(id: nat)

  datatype Value = Str(s: string) | Int(i: int) | Float(r: real) | Bool(b: bool)

  type Props = map<string, Value>

  datatype Node = Node(scope: Scope, tag: string, props: Props)

  datatype Edge = Edge(
    scope: Scope,
    ty: string,
    from: NodeId,
    to: NodeId,
    props: Props,
    validFrom: int,
    validTo: Option<int>,
    recordedAt: int,
    supersededAt: Option<int>)

  datatype Graph = Graph(nodes: map<NodeId, Node>, edges: map<EdgeId, Edge>)

  /** `validFrom`/`validTo` of `None` mean "the write instant"; the belief-axis instants are
      always the write instant, so an op does not carry them. */
  datatype Op =
    | CreateNode(id: NodeId, scope: Scope, tag: string, props: Props)
    | UpsertNode(id: NodeId, scope: Scope, tag: string, keyProp: string, props: Props)
    | SetNodeProps(id: NodeId, changes: map<string, Option<Value>>)
    | SetEmbedding(id: NodeId, model: string, vector: seq<real>)
    | RemoveNode(id: NodeId)
    | CreateEdge(edge: EdgeId, scope: Scope, ty: string, from: NodeId, to: NodeId, props: Props, validFrom: Option<int>)
    | CloseEdge(edge: EdgeId, validTo: Option<int>)

  datatype Rejection =
    | EmptyBatch | BadEdgeScope | DuplicateId | MissingNode | MissingEdge | AlreadyClosed | CrossScope | Unresolved

  const ENTITY := "Entity"
  const MEMORY := "Memory"
  const ALIAS := "Alias"
  const SYNONYM := "Synonym"
  const NAME := "name"
  const CONTENT := "content"
  const CONTENT_HASH := "content_hash"
  const SUPERSEDED_AT := "superseded_at"
  const FORGOTTEN_AT := "forgotten_at"
  const KIND := "kind"
  const ALIAS_OF := "alias_of"

  /** The equality indexes the default spec declares. */
  const EQUALITY_INDEX: set<(string, string)> :=
    {(ENTITY, NAME), (ALIAS, NAME), (SYNONYM, "term"), (MEMORY, CONTENT_HASH)}

  // ----- ordered sets of ids -----

  lemma {:induction false} FindLeast(s: set<nat>) returns (m: nat)
    requires s != {}
    ensures m in s && forall x | x in s :: m <= x
    decreases |s|
  {
    var a :| a in s;
    var rest := s - {a};
    m := a;
    if rest != {} {
      assert |rest| < |s|;
      var b := FindLeast(rest);
      if b < a { m := b; }
      forall x | x in s ensures m <= x { assert x == a || x in rest; }
    } else {
      assert s == {a};
    }
  }

  lemma LeastExists(s: set<nat>)
    requires s != {}
    ensures exists m :: m in s && forall x | x in s :: m <= x
  {
    var m := FindLeast(s);
  }

  function Least(s: set<nat>): (m: nat)
    requires s != {}
    ensures m in s && forall x | x in s :: m <= x
  {
    LeastExists(s);
    var m :| m in s && forall x | x in s :: m <= x;
    m
  }

  predicate Ascending(ids: seq<nat>) {
    forall i, j | 0 <= i < j < |ids| :: ids[i] < ids[j]
  }

  /** The elements of a set, ascending: the engine's oldest-first order. */
  function Sorted(s: set<nat>): (ids: seq<nat>)
    ensures forall x :: x in ids <==> x in s
    ensures Ascending(ids)
    decreases |s|
  {
    if s == {} then []
    else
      var m := Least(s);
      assert |s - {m}| < |s|;
      [m] + Sorted(s - {m})
  }

  // ----- scoped reads -----

  /** `Db::node`: a point lookup gated by scope. */
  function NodeIn(g: Graph, scopes: set<Scope>, id: NodeId): Option<Node> {
    if id in g.nodes && g.nodes[id].scope in scopes then Some(g.nodes[id]) else None
  }

  /** `Db::nodes_by_prop`: exact equality on an indexed property. */
  function NodesByProp(g: Graph, scopes: set<Scope>, tag: string, prop: string, value: Value): set<NodeId> {
    set id | id in g.nodes && g.nodes[id].tag == tag && g.nodes[id].scope in scopes
             && prop in g.nodes[id].props && g.nodes[id].props[prop] == value
  }

  /** The key a value is stored under in the equality index; floats are not indexed. */
  function IndexKey(tx: Codec, v: Value): Option<Value> {
    match v
    case Str(s) => Some(Str(NameKey(tx, s)))
    case Float(_) => None
    case _ => Some(v)
  }

  predicate SameKey(tx: Codec, n: Node, prop: string, value: Value) {
    && prop in n.props
    && IndexKey(tx, value).Some?
    && IndexKey(tx, n.props[prop]) == IndexKey(tx, value)
  }

  /** `Db::nodes_by_prop_normalized`: equality up to case and white space. */
  function NodesByKey(tx: Codec, g: Graph, scopes: set<Scope>, tag: string, prop: string, value: Value): set<NodeId> {
    set id | id in g.nodes && g.nodes[id].tag == tag && g.nodes[id].scope in scopes
             && SameKey(tx, g.nodes[id], prop, value)
  }

  /** `Db::edges_from` with `open_only` on the valid axis. Scope is the edge's own. */
  predicate IsOpenOut(e: Edge, scopes: set<Scope>, from: NodeId) {
    e.from == from && e.scope in scopes && e.validTo.None?
  }

  function OpenOut(g: Graph, scopes: set<Scope>, from: NodeId): set<EdgeId> {
    set e | e in g.edges && IsOpenOut(g.edges[e], scopes, from)
  }

  function OpenOutOfType(g: Graph, scopes: set<Scope>, from: NodeId, ty: string): set<EdgeId> {
    set e | e in g.edges && IsOpenOut(g.edges[e], scopes, from) && g.edges[e].ty == ty
  }

  // ----- the two time axes -----

  predicate LiveAt(e: Edge, t: int) {
    e.validFrom <= t && (e.validTo.Some? ==> e.validTo.value > t)
  }

  predicate BelievedAt(e: Edge, t: int) {
    e.recordedAt <= t && (e.supersededAt.Some? ==> e.supersededAt.value > t)
  }

  // ----- the applier -----

  function Closed(e: Edge, validTo: int, now: int): Edge {
    e.(validTo := Some(validTo), supersededAt := Some(now))
  }

  function Changed(props: Props, changes: map<string, Option<Value>>): Props {
    map k | k in props.Keys + changes.Keys && (k in changes ==> changes[k].Some?)
      :: if k in changes then changes[k].value else props[k]
  }

  function Or(t: Option<int>, now: int): int {
    if t.Some? then t.value else now
  }

  /** One plain op at write instant `now`. */
  function ApplyOp(g: Graph, op: Op, now: int): Result<Graph, Rejection> {
    match op
    case CreateNode(id, scope, tag, props) =>
      Ok(g.(nodes := g.nodes[id := Node(scope, tag, props)]))
    case UpsertNode(_, _, _, _, _) => Err(Unresolved)
    case SetNodeProps(id, changes) =>
      if id !in g.nodes then Err(MissingNode)
      else
        var n := g.nodes[id];
        Ok(g.(nodes := g.nodes[id := n.(props := Changed(n.props, changes))]))
    case SetEmbedding(id, _, _) =>
      if id !in g.nodes then Err(MissingNode) else Ok(g)
    case RemoveNode(id) =>
      if id !in g.nodes then Err(MissingNode)
      else Ok(Graph(g.nodes - {id},
                    map e | e in g.edges && g.edges[e].from != id && g.edges[e].to != id :: g.edges[e]))
    case CreateEdge(edge, scope, ty, from, to, props, validFrom) =>
      if from !in g.nodes || to !in g.nodes then Err(MissingNode)
      else if CrossesProjects(g.nodes[from].scope, g.nodes[to].scope) then Err(CrossScope)
      else Ok(g.(edges := g.edges[edge :=
                   Edge(scope, ty, from, to, props, Or(validFrom, now), None, now, None)]))
    case CloseEdge(edge, validTo) =>
      if edge !in g.edges then Err(MissingEdge)
      else if g.edges[edge].validTo.Some? then Err(AlreadyClosed)
      else Ok(g.(edges := g.edges[edge := Closed(g.edges[edge], Or(validTo, now), now)]))
  }

  predicate CrossesProjects(a: Scope, b: Scope) {
    a != b && a != Shared && b != Shared
  }

  function Run(g: Graph, ops: seq<Op>, now: int): Result<Graph, Rejection>
    decreases |ops|
  {
    if ops == [] then Ok(g)
    else
      match ApplyOp(g, ops[0], now)
      case Err(e) => Err(e)
      case Ok(g') => Run(g', ops[1..], now)
  }

  /** An edge touching a project node is scoped to that project or shared. */
  predicate EdgeScopeValid(edge: Scope, from: Scope, to: Scope) {
    (from == Shared && to == Shared) ||
    edge == (if from != Shared then from else to) || edge == Shared
  }

  function ScopeBefore(g: Graph, created: map<NodeId, Scope>, id: NodeId): Option<Scope> {
    if id in created then Some(created[id])
    else if id in g.nodes then Some(g.nodes[id].scope)
    else None
  }

  /** `prevalidate_edge_scopes`: endpoints not known before the batch, nor created in it so
      far, are left to the apply loop. */
  predicate EdgeScopesOk(g: Graph, created: map<NodeId, Scope>, ops: seq<Op>)
    decreases |ops|
  {
    ops == [] ||
    match ops[0]
    case CreateNode(id, scope, _, _) => EdgeScopesOk(g, created[id := scope], ops[1..])
    case CreateEdge(_, scope, _, from, to, _, _) =>
      var (a, b) := (ScopeBefore(g, created, from), ScopeBefore(g, created, to));
      && (a.Some? && b.Some? ==> EdgeScopeValid(scope, a.value, b.value))
      && EdgeScopesOk(g, created, ops[1..])
    case _ => EdgeScopesOk(g, created, ops[1..])
  }

  /** `prevalidate_create_node_ids`: ids are minted once. */
  predicate CreateIdsFresh(g: Graph, seen: set<NodeId>, ops: seq<Op>)
    decreases |ops|
  {
    ops == [] ||
    match ops[0]
    case CreateNode(id, _, _, _) => id !in g.nodes && id !in seen && CreateIdsFresh(g, seen + {id}, ops[1..])
    case _ => CreateIdsFresh(g, seen, ops[1..])
  }

  /** `lookup_indexed_node`: the oldest committed node with this key in this scope. */
  function LookupIndexed(tx: Codec, g: Graph, scope: Scope, tag: string, prop: string, value: Value): Option<NodeId> {
    if (tag, prop) !in EQUALITY_INDEX then None
    else
      var hits := NodesByKey(tx, g, {scope}, tag, prop, value);
      if hits == {} then None else Some(Least(hits))
  }

  function RemapId(remap: map<NodeId, NodeId>, id: NodeId): NodeId {
    if id in remap then remap[id] else id
  }

  function RemapOp(op: Op, remap: map<NodeId, NodeId>): Op {
    match op
    case CreateEdge(edge, scope, ty, from, to, props, validFrom) =>
      CreateEdge(edge, scope, ty, RemapId(remap, from), RemapId(remap, to), props, validFrom)
    case SetNodeProps(id, changes) => SetNodeProps(RemapId(remap, id), changes)
    case SetEmbedding(id, model, vector) => SetEmbedding(RemapId(remap, id), model, vector)
    case RemoveNode(id) => RemoveNode(RemapId(remap, id))
    case _ => op
  }

  type PendingKey = (Scope, string, string, Value)

  datatype Rewritten = Rewritten(ops: seq<Op>, remap: map<NodeId, NodeId>)

  /** Where an upsert lands: an older committed node, an identical upsert earlier in the
      batch, or nowhere yet. */
  function UpsertTarget(tx: Codec, g: Graph, pending: map<PendingKey, NodeId>, op: Op): Option<NodeId>
    requires op.UpsertNode?
  {
    if op.keyProp !in op.props then None
    else
      var v := op.props[op.keyProp];
      var hit := LookupIndexed(tx, g, op.scope, op.tag, op.keyProp, v);
      var key := (op.scope, op.tag, op.keyProp, v);
      if hit.Some? then hit else if key in pending then Some(pending[key]) else None
  }

  function Pend(pending: map<PendingKey, NodeId>, op: Op): map<PendingKey, NodeId>
    requires op.UpsertNode?
  {
    if op.keyProp in op.props
    then pending[(op.scope, op.tag, op.keyProp, op.props[op.keyProp]) := op.id]
    else pending
  }

  /** The upsert pre-pass: every upsert becomes a create or disappears, and later
      references to a collapsed id follow it. */
  function Rewrite(tx: Codec, g: Graph, ops: seq<Op>, remap: map<NodeId, NodeId>, pending: map<PendingKey, NodeId>): Rewritten {
    if ops == [] then Rewritten([], remap)
    else if ops[0].UpsertNode? then
      var op := ops[0];
      match UpsertTarget(tx, g, pending, op)
      case Some(found) => Rewrite(tx, g, ops[1..], remap[op.id := found], pending)
      case None =>
        var rest := Rewrite(tx, g, ops[1..], remap, Pend(pending, op));
        rest.(ops := [CreateNode(op.id, op.scope, op.tag, op.props)] + rest.ops)
    else
      var rest := Rewrite(tx, g, ops[1..], remap, pending);
      rest.(ops := [RemapOp(ops[0], remap)] + rest.ops)
  }

  datatype Applied = Applied(graph: Graph, remap: map<NodeId, NodeId>)

  /** `Db::submit` of one batch at write instant `now`. */
  function Submit(tx: Codec, g: Graph, ops: seq<Op>, now: int): Result<Applied, Rejection> {
    if ops == [] then Err(EmptyBatch)
    else if !EdgeScopesOk(g, map[], ops) then Err(BadEdgeScope)
    else if !CreateIdsFresh(g, {}, ops) then Err(DuplicateId)
    else
      var rw := Rewrite(tx, g, ops, map[], map[]);
      match Run(g, rw.ops, now)
      case Err(e) => Err(e)
      case Ok(g') => Ok(Applied(g', rw.remap))
  }

  /** What every front end does with a plan: an empty batch is not submitted. */
  function Commit(tx: Codec, g: Graph, ops: seq<Op>, now: int): Result<Applied, Rejection> {
    if ops == [] then Ok(Applied(g, map[])) else Submit(tx, g, ops, now)
  }

  // ----- what every committed batch keeps -----

  /** Edges join existing nodes, and an edge is closed on both axes or on neither. */
  ghost predicate WellFormed(g: Graph) {
    forall e | e in g.edges ::
      && g.edges[e].from in g.nodes && g.edges[e].to in g.nodes
      && (g.edges[e].validTo.None? <==> g.edges[e].supersededAt.None?)
  }

  lemma {:induction false} RunConcat(g: Graph, a: seq<Op>, b: seq<Op>, now: int)
    ensures Run(g, a + b, now) ==
            match Run(g, a, now) { case Ok(g') => Run(g', b, now) case Err(e) => Err(e) }
    decreases |a|
  {
    if a == [] {
      assert a + b == b;
    } else {
      assert (a + b)[1..] == a[1..] + b;
      var r := ApplyOp(g, a[0], now);
      if r.Ok? { RunConcat(r.value, a[1..], b, now); }
    }
  }

  lemma {:induction false} RunKeepsWellFormed(g: Graph, ops: seq<Op>, now: int)
    requires WellFormed(g)
    requires Run(g, ops, now).Ok?
    ensures WellFormed(Run(g, ops, now).value)
    decreases |ops|
  {
    if ops != [] {
      RunKeepsWellFormed(ApplyOp(g, ops[0], now).value, ops[1..], now);
    }
  }

  lemma CommitKeepsWellFormed(tx: Codec, g: Graph, ops: seq<Op>, now: int)
    requires WellFormed(g)
    requires Commit(tx, g, ops, now).Ok?
    ensures WellFormed(Commit(tx, g, ops, now).value.graph)
  {
    if ops != [] {
      RunKeepsWellFormed(g, Rewrite(tx, g, ops, map[], map[]).ops, now);
    }
  }
}
