/** Where the edges of a plan land when other writers came first: on the entities that the
    corrected report names. */
module Races {
  import opened Text
  import opened Store
  import opened Compose
  import opened Remember
  import opened Idempotence
  import opened Entities

  predicate Upserts(ops: seq<Op>, id: NodeId) {
    exists op :: op in ops && op.UpsertNode? && op.id == id
  }

  /** No edge refers to a node that is only upserted after it. */
  ghost predicate Settled(ops: seq<Op>) {
    ops == [] || (Settled(ops[1..]) && (ops[0].CreateEdge? ==> !Upserts(ops[1..], ops[0].from) && !Upserts(ops[1..], ops[0].to)))
  }

  lemma {:induction false} RemapStable(tx: Codec, g: Graph, ops: seq<Op>, remap: map<NodeId, NodeId>, pending: map<PendingKey, NodeId>, id: NodeId)
    requires !Upserts(ops, id)
    ensures RemapId(Rewrite(tx, g, ops, remap, pending).remap, id) == RemapId(remap, id)
    decreases |ops|
  {
    if ops != [] {
      var op := ops[0];
      assert op in ops && forall x | x in ops[1..] :: x in ops;
      if op.UpsertNode? {
        var target := UpsertTarget(tx, g, pending, op);
        RemapStable(tx, g, ops[1..], if target.Some? then remap[op.id := target.value] else remap,
                    if target.Some? then pending else Pend(pending, op), id);
      } else {
        RemapStable(tx, g, ops[1..], remap, pending, id);
      }
    }
  }

  function Followed(op: Op, remap: map<NodeId, NodeId>): Op
    requires op.CreateEdge?
  {
    CreateEdge(op.edge, op.scope, op.ty, if op.from in remap then remap[op.from] else op.from,
               if op.to in remap then remap[op.to] else op.to, op.props, op.validFrom)
  }

  /** The pre-pass keeps exactly the edges of the batch, their ends following the final remap. */
  lemma {:induction false} EdgesFollow(tx: Codec, g: Graph, ops: seq<Op>, remap: map<NodeId, NodeId>, pending: map<PendingKey, NodeId>)
    requires Settled(ops)
    ensures var rw := Rewrite(tx, g, ops, remap, pending);
            forall x :: x in rw.ops && x.CreateEdge? <==> exists op :: op in ops && op.CreateEdge? && x == Followed(op, rw.remap)
    decreases |ops|
  {
    if ops != [] {
      var op := ops[0];
      var rw := Rewrite(tx, g, ops, remap, pending);
      if op.UpsertNode? {
        var target := UpsertTarget(tx, g, pending, op);
        if target.Some? {
          EdgesFollow(tx, g, ops[1..], remap[op.id := target.value], pending);
        } else {
          EdgesFollow(tx, g, ops[1..], remap, Pend(pending, op));
        }
      } else {
        EdgesFollow(tx, g, ops[1..], remap, pending);
        if op.CreateEdge? {
          RemapStable(tx, g, ops[1..], remap, pending, op.from);
          RemapStable(tx, g, ops[1..], remap, pending, op.to);
          assert RemapOp(op, remap) == Followed(op, rw.remap);
        }
      }
      TailFollows(ops, rw, Rewritten(if op.UpsertNode? && UpsertTarget(tx, g, pending, op).Some? then rw.ops else rw.ops[1..], rw.remap));
    }
  }

  lemma TailFollows(ops: seq<Op>, rw: Rewritten, rest: Rewritten)
    requires ops != [] && rw.remap == rest.remap
    requires forall x :: x in rest.ops && x.CreateEdge? <==> exists op :: op in ops[1..] && op.CreateEdge? && x == Followed(op, rw.remap)
    requires (rw.ops == rest.ops && !ops[0].CreateEdge?) || (rw.ops != [] && rw.ops[1..] == rest.ops
             && (if ops[0].CreateEdge? then rw.ops[0] == Followed(ops[0], rw.remap) else !rw.ops[0].CreateEdge?))
    ensures forall x :: x in rw.ops && x.CreateEdge? <==> exists op :: op in ops && op.CreateEdge? && x == Followed(op, rw.remap)
  {
    forall x ensures x in rw.ops && x.CreateEdge? <==> exists op :: op in ops && op.CreateEdge? && x == Followed(op, rw.remap) {
      assert forall op :: op in ops <==> op == ops[0] || op in ops[1..];
      assert rw.ops != [] ==> forall y :: y in rw.ops <==> y == rw.ops[0] || y in rw.ops[1..];
    }
  }

  lemma {:induction false} RunMakesEdge(tx: Codec, g: Graph, ops: seq<Op>, keys: set<EntityKey>, ids: set<NodeId>, w: int, op: Op)
    requires CreatesUntaken(tx, ops, keys, ids) && Run(g, ops, w).Ok? && op.CreateEdge?
    requires forall x | x in ops && x.CreateEdge? && x.edge == op.edge :: x == op
    requires op in ops || (op.edge in g.edges && SameLink(g.edges[op.edge], op))
    ensures var g' := Run(g, ops, w).value; op.edge in g'.edges && SameLink(g'.edges[op.edge], op)
    decreases |ops|
  {
    if ops != [] {
      var g1 := ApplyOp(g, ops[0], w).value;
      assert ops[0] in ops && forall x | x in ops[1..] :: x in ops;
      assert op in ops ==> op == ops[0] || op in ops[1..];
      var x := ops[0];
      if x.CreateNode? {
        var n := Node(x.scope, x.tag, x.props);
        RunMakesEdge(tx, g1, ops[1..], if IsEntity(n) then keys + {KeyOfNode(tx, n)} else keys, ids + {x.id}, w, op);
      } else {
        RunMakesEdge(tx, g1, ops[1..], keys, ids, w, op);
      }
    }
  }

  predicate SameLink(e: Edge, op: Op)
    requires op.CreateEdge?
  {
    e.from == op.from && e.to == op.to && e.ty == op.ty && e.scope == op.scope
  }

  // ----- the ops of a plan -----

  lemma {:induction false} EdgeOpsAre(scope: Scope, memory: NodeId, ty: string, ls: seq<Link>)
    ensures forall op :: op in AllLinkOps(scope, memory, ty, ls) && op.CreateEdge? <==>
              exists l :: l in ls && l.isNew && op == CreateEdge(l.edge, scope, ty, memory, l.entity.id, map[], None)
  {
    if ls != [] {
      EdgeOpsAre(scope, memory, ty, ls[1..]);
      assert forall l :: l in ls <==> l == ls[0] || l in ls[1..];
    }
  }

  lemma UpsertsAre(scope: Scope, memory: NodeId, ty: string, ls: seq<Link>, id: NodeId)
    requires Upserts(AllLinkOps(scope, memory, ty, ls), id)
    ensures exists l :: l in ls && l.entity.created && l.entity.id == id
  {
    LinkOpsAre(scope, memory, ty, ls);
    var op :| op in AllLinkOps(scope, memory, ty, ls) && op.UpsertNode? && op.id == id;
  }

  lemma {:induction false} LinksSettled(scope: Scope, memory: NodeId, ty: string, ls: seq<Link>, tail: seq<Op>)
    requires forall i, j | 0 <= i < j < |ls| :: ls[i].entity.id != ls[j].entity.id
    requires forall l | l in ls && l.entity.created :: l.entity.id != memory
    requires forall op | op in tail :: !op.UpsertNode? && !op.CreateEdge?
    ensures Settled(AllLinkOps(scope, memory, ty, ls) + tail)
    decreases |ls|
  {
    if ls == [] {
      assert AllLinkOps(scope, memory, ty, ls) + tail == tail;
      PlainSettled(tail);
    } else {
      var l, rest := ls[0], AllLinkOps(scope, memory, ty, ls[1..]) + tail;
      assert forall x | x in ls[1..] :: x in ls;
      LinksSettled(scope, memory, ty, ls[1..], tail);
      LaterUpserts(scope, memory, ty, ls, tail);
      LinkSettled(scope, memory, ty, l, rest);
      assert AllLinkOps(scope, memory, ty, ls) + tail == LinkOps(scope, memory, ty, l) + rest;
    }
  }

  lemma LaterUpserts(scope: Scope, memory: NodeId, ty: string, ls: seq<Link>, tail: seq<Op>)
    requires ls != [] && forall i, j | 0 <= i < j < |ls| :: ls[i].entity.id != ls[j].entity.id
    requires forall l | l in ls && l.entity.created :: l.entity.id != memory
    requires forall op | op in tail :: !op.UpsertNode? && !op.CreateEdge?
    ensures var rest := AllLinkOps(scope, memory, ty, ls[1..]) + tail; !Upserts(rest, memory) && !Upserts(rest, ls[0].entity.id)
  {
    var rest := AllLinkOps(scope, memory, ty, ls[1..]) + tail;
    forall id | Upserts(rest, id) ensures id != memory && id != ls[0].entity.id {
      var op :| op in rest && op.UpsertNode? && op.id == id;
      assert op in AllLinkOps(scope, memory, ty, ls[1..]);
      UpsertsAre(scope, memory, ty, ls[1..], id);
      var x :| x in ls[1..] && x.entity.created && x.entity.id == id;
      var j :| 0 <= j < |ls[1..]| && ls[1..][j] == x;
      assert ls[j + 1] == x && x in ls;
    }
  }

  lemma LinkSettled(scope: Scope, memory: NodeId, ty: string, l: Link, rest: seq<Op>)
    requires Settled(rest) && !Upserts(rest, memory) && !Upserts(rest, l.entity.id)
    ensures Settled(LinkOps(scope, memory, ty, l) + rest)
  {
    var edge := CreateEdge(l.edge, scope, ty, memory, l.entity.id, map[], None);
    var upsert := UpsertNode(l.entity.id, scope, ENTITY, NAME, EntityProps(l.entity.name));
    var body := if l.isNew then [edge] + rest else rest;
    SettledAhead(edge, rest);
    SettledAhead(upsert, body);
    assert LinkOps(scope, memory, ty, l) + rest == if l.entity.created then [upsert] + body else body;
  }

  lemma SettledAhead(op: Op, rest: seq<Op>)
    requires Settled(rest) && (op.CreateEdge? ==> !Upserts(rest, op.from) && !Upserts(rest, op.to))
    ensures Settled([op] + rest)
  {
    assert ([op] + rest)[1..] == rest;
  }

  lemma {:induction false} PlainSettled(ops: seq<Op>)
    requires forall op | op in ops :: !op.UpsertNode? && !op.CreateEdge?
    ensures Settled(ops)
  {
    if ops != [] {
      PlainSettled(ops[1..]);
    }
  }

  lemma PlanSettled(tx: Codec, c: Write)
    requires Enough(c.mint, c.req) && Fresh(c.mint, c.snapshot)
    requires RememberPlan(tx, c.snapshot, c.scope, c.lookup, c.now, c.req, c.mint).Ok?
    ensures var plan := RememberPlan(tx, c.snapshot, c.scope, c.lookup, c.now, c.req, c.mint).value;
            var ls := Links(tx, c.snapshot, c.scope, c.lookup, c.req, c.mint);
            && Settled(plan.ops)
            && forall op :: op in plan.ops && op.CreateEdge? <==>
                 exists l :: l in ls && l.isNew && op == CreateEdge(l.edge, c.scope, Validate(tx, c.req).value, plan.memory, l.entity.id, map[], None)
  {
    var plan := RememberPlan(tx, c.snapshot, c.scope, c.lookup, c.now, c.req, c.mint).value;
    var ty := Validate(tx, c.req).value;
    var ls := Links(tx, c.snapshot, c.scope, c.lookup, c.req, c.mint);
    var create := CreateMemoryOps(tx, c.snapshot, c.scope, c.req, c.mint, NewMemoryProps(tx, c.req).value);
    var retire := RetireAll(tx, c.snapshot, c.scope, Supersede, c.req.supersedes, {}, c.now).value.ops;
    PlanShape(tx, c.snapshot, c.scope, c.lookup, c.now, c.req, c.mint);
    RetireOpsAre(tx, c.snapshot, c.scope, Supersede, c.req.supersedes, {}, c.now);
    PlannedLinksAre(tx, c.snapshot, c.scope, c.lookup, ty, c.req, c.mint);
    CreatedApart(tx, c);
    LinksSettled(c.scope, plan.memory, ty, ls, retire);
    EdgeOpsAre(c.scope, plan.memory, ty, ls);
    var rest := AllLinkOps(c.scope, plan.memory, ty, ls) + retire;
    if create != [] {
      assert create == [create[0]];
      SettledAhead(create[0], rest);
    } else {
      assert create + rest == rest;
    }
  }

  lemma CreatedApart(tx: Codec, c: Write)
    requires Enough(c.mint, c.req) && Fresh(c.mint, c.snapshot) && Validate(tx, c.req).Ok?
    ensures forall l | l in Links(tx, c.snapshot, c.scope, c.lookup, c.req, c.mint) && l.entity.created ::
              l.entity.id != MemoryFor(tx, c.snapshot, c.scope, c.req, c.mint)
  {
    var ls := Links(tx, c.snapshot, c.scope, c.lookup, c.req, c.mint);
    PlannedLinksAre(tx, c.snapshot, c.scope, c.lookup, Validate(tx, c.req).value, c.req, c.mint);
    KeptIs(tx, c.snapshot, c.lookup, c.req, c.mint);
    if Dedups(tx, c.snapshot, c.scope, c.req) { DedupTarget(tx, c.snapshot, c.scope, c.req.content); }
    forall l | l in ls && l.entity.created ensures l.entity.id in c.mint.entities {
      var i :| 0 <= i < |ls| && ls[i] == l;
      assert KeptEntities(tx, c.snapshot, c.lookup, c.req, c.mint)[i] in KeptEntities(tx, c.snapshot, c.lookup, c.req, c.mint);
    }
  }

  /** After a raced commit every new edge of the plan leads from its memory to the entity that
      the corrected report names for it. */
  lemma RacedEdges(tx: Codec, g: Graph, c: Write, i: nat)
    requires Minted(g, c) && Fresh(c.mint, c.snapshot)
    requires RememberPlan(tx, c.snapshot, c.scope, c.lookup, c.now, c.req, c.mint).Ok?
    requires var plan := RememberPlan(tx, c.snapshot, c.scope, c.lookup, c.now, c.req, c.mint).value;
             Commit(tx, g, plan.ops, c.w).Ok? && i < |plan.entities| && i < |plan.edgeIds| && plan.edgeIds[i] in c.mint.edges
    ensures var plan := RememberPlan(tx, c.snapshot, c.scope, c.lookup, c.now, c.req, c.mint).value;
            var applied := Commit(tx, g, plan.ops, c.w).value;
            && plan.edgeIds[i] in applied.graph.edges
            && var e := applied.graph.edges[plan.edgeIds[i]];
               e.to == Remapped(plan.entities[i], applied.remap).id && e.from == plan.memory
               && e.scope == c.scope && EdgeType(tx, if c.req.edgeType.Some? then c.req.edgeType.value else "about") == Ok(e.ty)
  {
    var plan := RememberPlan(tx, c.snapshot, c.scope, c.lookup, c.now, c.req, c.mint).value;
    var ls := Links(tx, c.snapshot, c.scope, c.lookup, c.req, c.mint);
    PlanFields(tx, c.snapshot, c.scope, c.lookup, c.now, c.req, c.mint);
    PlanSettled(tx, c);
    var op := CreateEdge(ls[i].edge, c.scope, Validate(tx, c.req).value, plan.memory, ls[i].entity.id, map[], None);
    OneEdgeOp(tx, c, i);
    assert ls[i] in ls;
    assert op in plan.ops;
    PlanSafe(tx, c.snapshot, c.scope, c.lookup, c.now, c.req, c.mint, g.nodes.Keys);
    EdgeLands(tx, g, plan.ops, op, c.w);
    MemoryNotUpserted(tx, c);
    RemapStable(tx, g, plan.ops, map[], map[], plan.memory);
  }

  lemma MemoryNotUpserted(tx: Codec, c: Write)
    requires Enough(c.mint, c.req) && Fresh(c.mint, c.snapshot)
    requires RememberPlan(tx, c.snapshot, c.scope, c.lookup, c.now, c.req, c.mint).Ok?
    ensures var plan := RememberPlan(tx, c.snapshot, c.scope, c.lookup, c.now, c.req, c.mint).value; !Upserts(plan.ops, plan.memory)
  {
    var plan := RememberPlan(tx, c.snapshot, c.scope, c.lookup, c.now, c.req, c.mint).value;
    var ty := Validate(tx, c.req).value;
    PlanShape(tx, c.snapshot, c.scope, c.lookup, c.now, c.req, c.mint);
    RetireOpsAre(tx, c.snapshot, c.scope, Supersede, c.req.supersedes, {}, c.now);
    CreatedApart(tx, c);
    if op :| op in plan.ops && op.UpsertNode? && op.id == plan.memory {
      assert op in AllLinkOps(c.scope, plan.memory, ty, Links(tx, c.snapshot, c.scope, c.lookup, c.req, c.mint));
      UpsertsAre(c.scope, plan.memory, ty, Links(tx, c.snapshot, c.scope, c.lookup, c.req, c.mint), plan.memory);
    }
  }

  lemma OneEdgeOp(tx: Codec, c: Write, i: nat)
    requires Enough(c.mint, c.req) && Fresh(c.mint, c.snapshot) && Validate(tx, c.req).Ok?
    requires var ls := Links(tx, c.snapshot, c.scope, c.lookup, c.req, c.mint); i < |ls| && ls[i].edge in c.mint.edges
    ensures var ls := Links(tx, c.snapshot, c.scope, c.lookup, c.req, c.mint);
            ls[i].isNew && forall l | l in ls && l.isNew && l.edge == ls[i].edge :: l == ls[i]
  {
    var ls := Links(tx, c.snapshot, c.scope, c.lookup, c.req, c.mint);
    var ty := Validate(tx, c.req).value;
    PlannedLinksAre(tx, c.snapshot, c.scope, c.lookup, ty, c.req, c.mint);
    LinkedIsOld(c.snapshot, c.scope, MemoryFor(tx, c.snapshot, c.scope, c.req, c.mint), ty, ls[i].entity.id);
    forall l | l in ls && l.isNew && l.edge == ls[i].edge ensures l == ls[i] {
      var j :| 0 <= j < |ls| && ls[j] == l;
      assert ls[j].edge == c.mint.edges[j] && ls[i].edge == c.mint.edges[i];
    }
  }

  lemma LinkedIsOld(g: Graph, scope: Scope, memory: NodeId, ty: string, to: NodeId)
    ensures LinkedEdge(g, scope, memory, ty, to).Some? ==> LinkedEdge(g, scope, memory, ty, to).value in g.edges
  {
    var es := Sorted(set e | e in OpenOutOfType(g, {scope}, memory, ty) && g.edges[e].to == to);
    if es != [] { assert es[|es| - 1] in es; }
  }

  lemma EdgeLands(tx: Codec, g: Graph, ops: seq<Op>, op: Op, w: int)
    requires EntitySafe(tx, ops, {}, g.nodes.Keys) && Settled(ops) && Commit(tx, g, ops, w).Ok?
    requires op in ops && op.CreateEdge? && forall x | x in ops && x.CreateEdge? && x.edge == op.edge :: x == op
    ensures var applied := Commit(tx, g, ops, w).value;
            op.edge in applied.graph.edges && SameLink(applied.graph.edges[op.edge], Followed(op, applied.remap))
  {
    var rw := Rewrite(tx, g, ops, map[], map[]);
    RewriteSafe(tx, g, ops, map[], map[], {}, g.nodes.Keys);
    EdgesFollow(tx, g, ops, map[], map[]);
    assert Followed(op, rw.remap) in rw.ops;
    RunMakesEdge(tx, g, rw.ops, EntityKeys(tx, g) + {}, g.nodes.Keys, w, Followed(op, rw.remap));
  }

  // ----- where an upsert lands -----

  /** Values that an equality index takes for one: texts up to case and white space, floats never. */
  predicate Alike(tx: Codec, a: Value, b: Value) {
    if a.Str? && b.Str? then NameKey(tx, a.s) == NameKey(tx, b.s) else !a.Float? && a == b
  }

  /** The committed node `id` has the scope, label and indexed key of the upsert. */
  predicate Holds(tx: Codec, g: Graph, op: Op, id: NodeId)
    requires op.UpsertNode?
  {
    && (op.tag, op.keyProp) in {("Entity", "name"), ("Alias", "name"), ("Synonym", "term"), ("Memory", "content_hash")}
    && id in g.nodes && g.nodes[id].scope == op.scope && g.nodes[id].tag == op.tag
    && op.keyProp in op.props && op.keyProp in g.nodes[id].props && Alike(tx, op.props[op.keyProp], g.nodes[id].props[op.keyProp])
  }

  ghost predicate IsHeld(tx: Codec, g: Graph, op: Op)
    requires op.UpsertNode?
  {
    exists id :: Holds(tx, g, op, id)
  }

  /** Two upserts of one scope, label, key property and value. */
  predicate SameUpsert(a: Op, b: Op) {
    && a.UpsertNode? && b.UpsertNode? && a.scope == b.scope && a.tag == b.tag && a.keyProp == b.keyProp
    && a.keyProp in a.props && b.keyProp in b.props && a.props[a.keyProp] == b.props[b.keyProp]
  }

  predicate IsFirstSame(ops: seq<Op>, j: nat, op: Op) {
    j < |ops| && SameUpsert(ops[j], op) && forall k | 0 <= k < j :: !SameUpsert(ops[k], op)
  }

  /** Upsert `i` lands on the oldest committed node that holds its key, else on the first upsert
      of the batch like it, which may be itself, and else is its own. */
  ghost predicate LandsOn(tx: Codec, g: Graph, ops: seq<Op>, i: nat, x: NodeId)
    requires i < |ops| && ops[i].UpsertNode?
  {
    if IsHeld(tx, g, ops[i]) then Holds(tx, g, ops[i], x) && forall y | Holds(tx, g, ops[i], y) :: x <= y
    else if ops[i].keyProp in ops[i].props then exists j: nat :: j <= i && IsFirstSame(ops, j, ops[i]) && x == ops[j].id
    else x == ops[i].id
  }

  lemma HeldWhen(tx: Codec, g: Graph, op: Op)
    requires op.UpsertNode? && op.keyProp in op.props
    ensures var hit := LookupIndexed(tx, g, op.scope, op.tag, op.keyProp, op.props[op.keyProp]);
            && (hit.Some? <==> IsHeld(tx, g, op))
            && (hit.Some? ==> Holds(tx, g, op, hit.value) && forall y | Holds(tx, g, op, y) :: hit.value <= y)
  {
    var hits := NodesByKey(tx, g, {op.scope}, op.tag, op.keyProp, op.props[op.keyProp]);
    forall id ensures (op.tag, op.keyProp) in EQUALITY_INDEX && id in hits <==> Holds(tx, g, op, id) {
    }
  }

  function KeyOf(op: Op): PendingKey
    requires op.UpsertNode? && op.keyProp in op.props
  {
    (op.scope, op.tag, op.keyProp, op.props[op.keyProp])
  }

  /** The pending table knows, of the first `k` ops, the first upsert of each key not held. */
  ghost predicate Pends(tx: Codec, g: Graph, ops: seq<Op>, k: nat, pending: map<PendingKey, NodeId>) {
    forall op: Op | op.UpsertNode? && op.keyProp in op.props && !IsHeld(tx, g, op) ::
      && (KeyOf(op) in pending ==> exists j: nat :: j < k && IsFirstSame(ops, j, op) && pending[KeyOf(op)] == ops[j].id)
      && (KeyOf(op) !in pending ==> forall j | 0 <= j < k && j < |ops| :: !SameUpsert(ops[j], op))
  }

  lemma HeldIsSame(tx: Codec, g: Graph, a: Op, b: Op)
    requires SameUpsert(a, b)
    ensures IsHeld(tx, g, a) <==> IsHeld(tx, g, b)
    ensures KeyOf(a) == KeyOf(b)
  {
    forall id ensures Holds(tx, g, a, id) <==> Holds(tx, g, b, id) {
    }
  }

  /** One op of the pre-pass, seen from the table. */
  lemma PendsMore(tx: Codec, g: Graph, ops: seq<Op>, k: nat, pending: map<PendingKey, NodeId>)
    requires k < |ops| && Pends(tx, g, ops, k, pending)
    ensures var op := ops[k];
            Pends(tx, g, ops, k + 1, if op.UpsertNode? && UpsertTarget(tx, g, pending, op).None? then Pend(pending, op) else pending)
  {
    var op := ops[k];
    var pending' := if op.UpsertNode? && UpsertTarget(tx, g, pending, op).None? then Pend(pending, op) else pending;
    forall x: Op | x.UpsertNode? && x.keyProp in x.props && !IsHeld(tx, g, x)
      ensures KeyOf(x) in pending' ==> exists j: nat :: j < k + 1 && IsFirstSame(ops, j, x) && pending'[KeyOf(x)] == ops[j].id
      ensures KeyOf(x) !in pending' ==> forall j | 0 <= j < k + 1 :: !SameUpsert(ops[j], x)
    {
      if SameUpsert(op, x) {
        HeldIsSame(tx, g, op, x);
        HeldWhen(tx, g, op);
        if KeyOf(x) !in pending {
          assert IsFirstSame(ops, k, x);
        }
      }
    }
  }

  /** Landing of upsert `i` from place `k` of the pre-pass on. */
  lemma {:induction false} LandsFrom(tx: Codec, g: Graph, ops: seq<Op>, k: nat, remap: map<NodeId, NodeId>, pending: map<PendingKey, NodeId>, i: nat)
    requires k <= i < |ops| && ops[i].UpsertNode? && Pends(tx, g, ops, k, pending) && ops[i].id !in remap
    requires forall j | 0 <= j < |ops| && j != i && ops[j].UpsertNode? :: ops[j].id != ops[i].id
    ensures var rw := Rewrite(tx, g, ops[k..], remap, pending);
            && LandsOn(tx, g, ops, i, RemapId(rw.remap, ops[i].id))
            && (UpsertIsNew(tx, g, ops, i) ==> CreateNode(ops[i].id, ops[i].scope, ops[i].tag, ops[i].props) in rw.ops)
    decreases |ops| - k
  {
    var op, rest := ops[k], ops[k + 1..];
    assert ops[k..][0] == op && ops[k..][1..] == rest;
    PendsMore(tx, g, ops, k, pending);
    var target := if op.UpsertNode? then UpsertTarget(tx, g, pending, op) else None;
    var remap' := if target.Some? then remap[op.id := target.value] else remap;
    var pending' := if op.UpsertNode? && target.None? then Pend(pending, op) else pending;
    if k < i {
      LandsFrom(tx, g, ops, k + 1, remap', pending', i);
    } else {
      assert !Upserts(rest, op.id);
      RemapStable(tx, g, rest, remap', pending', op.id);
      LandsHere(tx, g, ops, i, pending);
    }
  }

  /** No committed node holds the key and no earlier upsert is like it. */
  ghost predicate UpsertIsNew(tx: Codec, g: Graph, ops: seq<Op>, i: nat)
    requires i < |ops| && ops[i].UpsertNode?
  {
    !IsHeld(tx, g, ops[i]) && forall j | 0 <= j < i :: !SameUpsert(ops[j], ops[i])
  }

  lemma LandsHere(tx: Codec, g: Graph, ops: seq<Op>, i: nat, pending: map<PendingKey, NodeId>)
    requires i < |ops| && ops[i].UpsertNode? && Pends(tx, g, ops, i, pending)
    ensures var target := UpsertTarget(tx, g, pending, ops[i]);
            && LandsOn(tx, g, ops, i, if target.Some? then target.value else ops[i].id)
            && (UpsertIsNew(tx, g, ops, i) ==> target.None?)
  {
    var op := ops[i];
    if op.keyProp in op.props {
      HeldWhen(tx, g, op);
      if !IsHeld(tx, g, op) && KeyOf(op) !in pending {
        assert IsFirstSame(ops, i, op);
      }
    } else {
      assert !IsHeld(tx, g, op);
    }
  }

  /** Where each upsert of a batch lands, and that a new one becomes a create. */
  lemma UpsertsLand(tx: Codec, g: Graph, ops: seq<Op>, i: nat)
    requires i < |ops| && ops[i].UpsertNode?
    requires forall j | 0 <= j < |ops| && j != i && ops[j].UpsertNode? :: ops[j].id != ops[i].id
    ensures var rw := Rewrite(tx, g, ops, map[], map[]);
            && LandsOn(tx, g, ops, i, if ops[i].id in rw.remap then rw.remap[ops[i].id] else ops[i].id)
            && (UpsertIsNew(tx, g, ops, i) ==> CreateNode(ops[i].id, ops[i].scope, ops[i].tag, ops[i].props) in rw.ops)
  {
    assert ops[0..] == ops;
    LandsFrom(tx, g, ops, 0, map[], map[], i);
  }
}
