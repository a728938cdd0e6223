/** The effect of a committed `remember` plan, and exactly when the applier takes it. */
module Remember {
  import opened Text
  import opened Store
  import opened Compose
  import opened Effects

  function NewEdge(scope: Scope, memory: NodeId, ty: string, l: Link, w: int): Edge {
    Edge(scope, ty, memory, l.entity.id, map[], w, None, w, None)
  }

  function NewEntity(scope: Scope, l: Link): Node {
    Node(scope, ENTITY, EntityProps(l.entity.name))
  }

  function AddLink(g: Graph, scope: Scope, memory: NodeId, ty: string, l: Link, w: int): Graph {
    Graph(if l.entity.created then g.nodes[l.entity.id := NewEntity(scope, l)] else g.nodes,
          if l.isNew then g.edges[l.edge := NewEdge(scope, memory, ty, l, w)] else g.edges)
  }

  function AddLinks(g: Graph, scope: Scope, memory: NodeId, ty: string, ls: seq<Link>, w: int): Graph
    decreases |ls|
  {
    if ls == [] then g else AddLinks(AddLink(g, scope, memory, ty, ls[0], w), scope, memory, ty, ls[1..], w)
  }

  /** Links with distinct targets and distinct new edges; created targets are unknown to
      the graph and linked by a new edge, the others are known. */
  ghost predicate GoodLinks(g: Graph, ls: seq<Link>) {
    && (forall i, j | 0 <= i < j < |ls| :: ls[i].entity.id != ls[j].entity.id)
    && (forall i, j | 0 <= i < j < |ls| :: ls[i].isNew && ls[j].isNew ==> ls[i].edge != ls[j].edge)
    && (forall l | l in ls :: l.isNew ==> l.edge !in g.edges)
    && (forall l | l in ls :: l.entity.created <==> l.entity.id !in g.nodes)
    && (forall l | l in ls :: l.entity.created ==> l.isNew)
  }

  /** No new edge would join two different projects. */
  ghost predicate NoCrossing(g: Graph, scope: Scope, ls: seq<Link>) {
    forall l | l in ls && l.isNew && !l.entity.created ::
      l.entity.id in g.nodes && !CrossesProjects(scope, g.nodes[l.entity.id].scope)
  }

  lemma GoodTail(g: Graph, scope: Scope, memory: NodeId, ty: string, ls: seq<Link>, w: int)
    requires ls != [] && GoodLinks(g, ls)
    ensures GoodLinks(AddLink(g, scope, memory, ty, ls[0], w), ls[1..])
  {
    assert forall l | l in ls[1..] :: l in ls;
  }

  lemma {:induction false} AddedNodes(g: Graph, scope: Scope, memory: NodeId, ty: string, ls: seq<Link>, w: int)
    requires GoodLinks(g, ls)
    ensures var h := AddLinks(g, scope, memory, ty, ls, w);
            && (forall id :: id in h.nodes <==> id in g.nodes || exists l :: l in ls && l.entity.created && l.entity.id == id)
            && (forall id | id in g.nodes :: h.nodes[id] == g.nodes[id])
            && (forall l | l in ls && l.entity.created :: h.nodes[l.entity.id] == NewEntity(scope, l))
    decreases |ls|
  {
    if ls != [] {
      var g' := AddLink(g, scope, memory, ty, ls[0], w);
      GoodTail(g, scope, memory, ty, ls, w);
      AddedNodes(g', scope, memory, ty, ls[1..], w);
      assert forall l :: l in ls <==> l == ls[0] || l in ls[1..];
    }
  }

  lemma {:induction false} AddedEdges(g: Graph, scope: Scope, memory: NodeId, ty: string, ls: seq<Link>, w: int)
    requires GoodLinks(g, ls)
    ensures var h := AddLinks(g, scope, memory, ty, ls, w);
            && (forall e :: e in h.edges <==> e in g.edges || exists l :: l in ls && l.isNew && l.edge == e)
            && (forall e | e in g.edges :: h.edges[e] == g.edges[e])
            && (forall l | l in ls && l.isNew :: h.edges[l.edge] == NewEdge(scope, memory, ty, l, w))
    decreases |ls|
  {
    if ls != [] {
      var g' := AddLink(g, scope, memory, ty, ls[0], w);
      GoodTail(g, scope, memory, ty, ls, w);
      AddedEdges(g', scope, memory, ty, ls[1..], w);
      assert forall l :: l in ls <==> l == ls[0] || l in ls[1..];
    }
  }

  function PlainOp(op: Op): Op {
    if op.UpsertNode? then CreateNode(op.id, op.scope, op.tag, op.props) else op
  }

  function Plain(ops: seq<Op>): (r: seq<Op>)
    ensures |r| == |ops|
  {
    seq(|ops|, i requires 0 <= i < |ops| => PlainOp(ops[i]))
  }

  lemma RunLink(g: Graph, scope: Scope, memory: NodeId, ty: string, l: Link, w: int)
    requires memory in g.nodes && g.nodes[memory].scope == scope
    requires GoodLinks(g, [l])
    ensures var r := Run(g, Plain(LinkOps(scope, memory, ty, l)), w);
            if NoCrossing(g, scope, [l]) then r == Ok(AddLink(g, scope, memory, ty, l, w)) else r.Err?
  {
    assert l in [l];
    var ops := Plain(LinkOps(scope, memory, ty, l));
    if l.entity.created {
      assert ops[1..] == [CreateEdge(l.edge, scope, ty, memory, l.entity.id, map[], None)];
      assert ops[1..][1..] == [];
      assert ops[0] == CreateNode(l.entity.id, scope, ENTITY, EntityProps(l.entity.name));
      assert NoCrossing(g, scope, [l]);
      var g' := ApplyOp(g, ops[0], w).value;
      assert Run(g', ops[1..], w) == Ok(AddLink(g, scope, memory, ty, l, w));
    } else if l.isNew {
      assert ops[1..] == [];
    }
  }

  lemma PlainConcat(a: seq<Op>, b: seq<Op>)
    ensures Plain(a + b) == Plain(a) + Plain(b)
  {
  }

  /** Running the link part of a plan adds all links, or is rejected if one would cross. */
  lemma {:induction false} RunLinks(g: Graph, scope: Scope, memory: NodeId, ty: string, ls: seq<Link>, w: int)
    requires memory in g.nodes && g.nodes[memory].scope == scope
    requires GoodLinks(g, ls)
    ensures var r := Run(g, Plain(AllLinkOps(scope, memory, ty, ls)), w);
            if NoCrossing(g, scope, ls) then r == Ok(AddLinks(g, scope, memory, ty, ls, w)) else r.Err?
    decreases |ls|
  {
    if ls == [] {
    } else {
      var l := ls[0];
      assert forall x :: x in ls <==> x == l || x in ls[1..];
      RunLink(g, scope, memory, ty, l, w);
      PlainConcat(LinkOps(scope, memory, ty, l), AllLinkOps(scope, memory, ty, ls[1..]));
      RunConcat(g, Plain(LinkOps(scope, memory, ty, l)), Plain(AllLinkOps(scope, memory, ty, ls[1..])), w);
      if NoCrossing(g, scope, [l]) {
        var g' := AddLink(g, scope, memory, ty, l, w);
        GoodTail(g, scope, memory, ty, ls, w);
        RunLinks(g', scope, memory, ty, ls[1..], w);
        assert NoCrossing(g', scope, ls[1..]) <==> NoCrossing(g, scope, ls[1..]);
        assert l in [l];
      } else {
        assert l in ls;
      }
    }
  }

  // ----- the shape of a plan -----

  lemma {:induction false} DistinctNamesIs(tx: Codec, names: seq<string>, seen: set<string>)
    ensures var ns := DistinctNames(tx, names, seen);
            && (forall i, j | 0 <= i < j < |ns| :: NameKey(tx, ns[i]) != NameKey(tx, ns[j]))
            && (forall n | n in ns :: n in names && NameKey(tx, n) !in seen)
  {
    if names != [] {
      if NameKey(tx, names[0]) in seen {
        DistinctNamesIs(tx, names[1..], seen);
      } else {
        DistinctNamesIs(tx, names[1..], seen + {NameKey(tx, names[0])});
      }
    }
  }

  ghost predicate DistinctKeys(tx: Codec, rs: seq<Planned>) {
    forall i, j | 0 <= i < j < |rs| :: NameKey(tx, rs[i].name) != NameKey(tx, rs[j].name)
  }

  ghost predicate DistinctIds(rs: seq<Planned>) {
    forall i, j | 0 <= i < j < |rs| :: rs[i].id != rs[j].id
  }

  /** Retaining picks a subsequence with distinct ids. */
  lemma {:induction false} RetainFirstIs(rs: seq<Planned>, seen: set<NodeId>) returns (at: seq<nat>)
    ensures var ks := RetainFirst(rs, seen);
            && |at| == |ks| && Ascending(at) && DistinctIds(ks)
            && (forall i | 0 <= i < |ks| :: at[i] < |rs| && ks[i] == rs[at[i]] && ks[i].id !in seen)
  {
    if rs == [] {
      at := [];
    } else if rs[0].id in seen {
      var rest := RetainFirstIs(rs[1..], seen);
      at := seq(|rest|, i requires 0 <= i < |rest| => rest[i] + 1);
    } else {
      var rest := RetainFirstIs(rs[1..], seen + {rs[0].id});
      at := [0] + seq(|rest|, i requires 0 <= i < |rest| => rest[i] + 1);
    }
  }

  ghost predicate ResolvedIn(tx: Codec, g: Graph, lookup: set<Scope>, mint: Mint, k: Planned) {
    if k.created then FindExisting(tx, g, lookup, k.name).None? && k.id in mint.entities
    else FindExisting(tx, g, lookup, k.name) == Some(k.id)
  }

  /** An entity kept in a plan is resolved as its name resolves in the graph. */
  lemma KeptIs(tx: Codec, g: Graph, lookup: set<Scope>, req: Request, mint: Mint)
    requires Enough(mint, req)
    ensures var ks := KeptEntities(tx, g, lookup, req, mint);
            && DistinctIds(ks) && DistinctKeys(tx, ks)
            && (forall k | k in ks :: ResolvedIn(tx, g, lookup, mint, k))
  {
    var names := DistinctNames(tx, req.entities, {});
    var rs := ResolveNames(tx, g, lookup, names, mint.entities);
    DistinctNamesIs(tx, req.entities, {});
    var ks := RetainFirst(rs, {});
    var at := RetainFirstIs(rs, {});
    forall i | 0 <= i < |ks| ensures ks[i].name == names[at[i]] && ResolvedIn(tx, g, lookup, mint, ks[i]) {
      assert ks[i] == ResolveName(tx, g, lookup, names[at[i]], mint.entities[at[i]]);
    }
  }

  /** The graph with the memory the plan writes about in it. */
  function WithMemory(tx: Codec, g: Graph, scope: Scope, req: Request, mint: Mint): Graph
    requires NewMemoryProps(tx, req).Ok?
  {
    if Dedups(tx, g, scope, req) then g
    else g.(nodes := g.nodes[mint.memory := Node(scope, MEMORY, NewMemoryProps(tx, req).value)])
  }

  lemma DedupTarget(tx: Codec, g: Graph, scope: Scope, content: string)
    requires ExistingMemory(tx, g, scope, content).Some?
    ensures var id := ExistingMemory(tx, g, scope, content).value;
            && id in g.nodes && g.nodes[id].scope == scope && g.nodes[id].tag == MEMORY
            && Live(g.nodes[id]) && HasContent(g.nodes[id], Collapse(content))
  {
  }

  lemma LinkOneIs(tx: Codec, g: Graph, scope: Scope, lookup: set<Scope>, memory: NodeId, ty: string, dedup: bool, mint: Mint, k: Planned, minted: EdgeId)
    requires WellFormed(g) && Fresh(mint, g)
    requires ResolvedIn(tx, g, lookup, mint, k) && minted in mint.edges
    ensures var l := LinkOne(g, scope, memory, ty, dedup, k, minted);
            && l.entity == k
            && (l.isNew ==> l.edge == minted && l.edge !in g.edges)
            && (k.created <==> k.id !in g.nodes) && (k.created ==> l.isNew && k.id != mint.memory)
            && (!k.created ==> g.nodes[k.id].tag == ENTITY)
  {
    var l := LinkOne(g, scope, memory, ty, dedup, k, minted);
    if k.created {
      assert k.id !in g.nodes;
      assert LinkedEdge(g, scope, memory, ty, k.id).None?;
    } else {
      assert k.id in FindEntities(tx, g, lookup, k.name);
    }
  }

  lemma LinksAreGood(tx: Codec, g: Graph, scope: Scope, lookup: set<Scope>, ty: string, req: Request, mint: Mint)
    requires WellFormed(g) && Enough(mint, req) && Fresh(mint, g)
    requires NewMemoryProps(tx, req).Ok?
    ensures GoodLinks(WithMemory(tx, g, scope, req, mint), PlannedLinks(tx, g, scope, lookup, ty, req, mint))
    ensures NoCrossing(WithMemory(tx, g, scope, req, mint), scope, PlannedLinks(tx, g, scope, lookup, ty, req, mint))
            <==> NoCrossing(g, scope, PlannedLinks(tx, g, scope, lookup, ty, req, mint))
  {
    var ls := PlannedLinks(tx, g, scope, lookup, ty, req, mint);
    var ks := KeptEntities(tx, g, lookup, req, mint);
    var memory := MemoryFor(tx, g, scope, req, mint);
    var dedup := Dedups(tx, g, scope, req);
    KeptIs(tx, g, lookup, req, mint);
    forall i | 0 <= i < |ls|
      ensures ls[i].entity == ks[i]
      ensures ls[i].isNew ==> ls[i].edge == mint.edges[i] && ls[i].edge !in g.edges
      ensures ls[i].entity.created <==> ls[i].entity.id !in g.nodes
      ensures ls[i].entity.created ==> ls[i].entity.id != mint.memory && ls[i].isNew
    {
      assert ls[i] == LinkOne(g, scope, memory, ty, dedup, ks[i], mint.edges[i]);
      assert ks[i] in ks && mint.edges[i] in mint.edges;
      LinkOneIs(tx, g, scope, lookup, memory, ty, dedup, mint, ks[i], mint.edges[i]);
    }
  }

  // ----- submitting a plan -----

  lemma {:induction false} LinkOpsAre(scope: Scope, memory: NodeId, ty: string, ls: seq<Link>)
    ensures forall op | op in AllLinkOps(scope, memory, ty, ls) ::
              || (op.UpsertNode? && op.scope == scope && op.tag == ENTITY && op.keyProp == NAME
                  && exists l :: l in ls && l.entity.created && op.id == l.entity.id && op.props == EntityProps(l.entity.name))
              || (op.CreateEdge? && op.scope == scope && op.from == memory && op.validFrom.None?)
  {
    if ls != [] {
      LinkOpsAre(scope, memory, ty, ls[1..]);
      assert forall l | l in ls[1..] :: l in ls;
      assert ls[0] in ls;
    }
  }

  predicate IsRetireOp(op: Op, verb: Verb, now: int) {
    || (op.SetNodeProps? && op.changes == map[Tombstone(verb) := Some(Int(now))])
    || (op.CloseEdge? && op.validTo.None?)
  }

  lemma {:induction false} RetireOpsAre(tx: Codec, g: Graph, scope: Scope, verb: Verb, ids: seq<string>, seen: set<NodeId>, now: int)
    requires RetireAll(tx, g, scope, verb, ids, seen, now).Ok?
    ensures forall op | op in RetireAll(tx, g, scope, verb, ids, seen, now).value.ops :: IsRetireOp(op, verb, now)
    decreases |ids|
  {
    if ids != [] {
      var id := tx.parseId(ids[0]).value;
      RetireOpsAre(tx, g, scope, verb, ids[1..], if id in seen then seen else seen + {id}, now);
    }
  }

  lemma {:induction false} RewriteWithoutUpserts(tx: Codec, g: Graph, ops: seq<Op>, pending: map<PendingKey, NodeId>)
    requires forall op | op in ops :: !op.UpsertNode?
    ensures Rewrite(tx, g, ops, map[], pending) == Rewritten(ops, map[])
  {
    if ops != [] {
      assert ops[0] in ops;
      RewriteWithoutUpserts(tx, g, ops[1..], pending);
      assert RemapOp(ops[0], map[]) == ops[0];
    }
  }

  function KeyOf(scope: Scope, l: Link): PendingKey {
    (scope, ENTITY, NAME, Str(l.entity.name))
  }

  function PendLink(pending: map<PendingKey, NodeId>, scope: Scope, l: Link): map<PendingKey, NodeId> {
    if l.entity.created then pending[KeyOf(scope, l) := l.entity.id] else pending
  }

  /** Created names are unindexed, differ from each other, and are not pending. */
  ghost predicate NoCollapse(tx: Codec, g: Graph, scope: Scope, ls: seq<Link>, pending: map<PendingKey, NodeId>) {
    && (forall l | l in ls && l.entity.created :: LookupIndexed(tx, g, scope, ENTITY, NAME, Str(l.entity.name)).None?)
    && (forall i, j | 0 <= i < j < |ls| :: ls[i].entity.name != ls[j].entity.name)
    && (forall l | l in ls :: KeyOf(scope, l) !in pending)
  }

  lemma NoCollapseTail(tx: Codec, g: Graph, scope: Scope, ls: seq<Link>, pending: map<PendingKey, NodeId>)
    requires ls != [] && NoCollapse(tx, g, scope, ls, pending)
    ensures NoCollapse(tx, g, scope, ls[1..], PendLink(pending, scope, ls[0]))
  {
    forall x | x in ls[1..] ensures x in ls && KeyOf(scope, x) !in PendLink(pending, scope, ls[0]) {
      var i :| 0 <= i < |ls[1..]| && ls[1..][i] == x;
      assert ls[i + 1] == x;
    }
  }

  /** No planned upsert collapses when nobody wrote in between. */
  lemma {:induction false} RewriteLinks(tx: Codec, g: Graph, scope: Scope, memory: NodeId, ty: string, ls: seq<Link>, tail: seq<Op>, pending: map<PendingKey, NodeId>)
    requires NoCollapse(tx, g, scope, ls, pending)
    requires forall op | op in tail :: !op.UpsertNode?
    ensures Rewrite(tx, g, AllLinkOps(scope, memory, ty, ls) + tail, map[], pending) ==
            Rewritten(Plain(AllLinkOps(scope, memory, ty, ls)) + tail, map[])
    decreases |ls|
  {
    if ls == [] {
      assert AllLinkOps(scope, memory, ty, ls) + tail == tail;
      assert Plain([]) + tail == tail;
      RewriteWithoutUpserts(tx, g, tail, pending);
    } else {
      var head := LinkOps(scope, memory, ty, ls[0]);
      var links := AllLinkOps(scope, memory, ty, ls[1..]);
      NoCollapseTail(tx, g, scope, ls, pending);
      RewriteLinks(tx, g, scope, memory, ty, ls[1..], tail, PendLink(pending, scope, ls[0]));
      RewriteHead(tx, g, scope, memory, ty, ls[0], links + tail, pending);
      Regrouped(head, links, tail);
    }
  }

  lemma Regrouped(head: seq<Op>, links: seq<Op>, tail: seq<Op>)
    ensures (head + links) + tail == head + (links + tail)
    ensures Plain(head + links) + tail == Plain(head) + (Plain(links) + tail)
  {
    PlainConcat(head, links);
  }

  lemma RewriteHead(tx: Codec, g: Graph, scope: Scope, memory: NodeId, ty: string, l: Link, rest: seq<Op>, pending: map<PendingKey, NodeId>)
    requires l.entity.created ==> LookupIndexed(tx, g, scope, ENTITY, NAME, Str(l.entity.name)).None?
    requires KeyOf(scope, l) !in pending
    ensures var head := LinkOps(scope, memory, ty, l);
            var r := Rewrite(tx, g, rest, map[], PendLink(pending, scope, l));
            Rewrite(tx, g, head + rest, map[], pending) == Rewritten(Plain(head) + r.ops, r.remap)
  {
    var ops := LinkOps(scope, memory, ty, l) + rest;
    var edge := CreateEdge(l.edge, scope, ty, memory, l.entity.id, map[], None);
    assert RemapOp(edge, map[]) == edge;
    if l.entity.created && l.isNew {
      assert ops[1..] == [edge] + rest && ([edge] + rest)[1..] == rest;
    } else if l.entity.created || l.isNew {
      assert ops[1..] == rest;
    } else {
      assert ops == rest;
    }
  }

  lemma {:induction false} EdgeScopesAlwaysOk(g: Graph, created: map<NodeId, Scope>, ops: seq<Op>, scope: Scope, memory: NodeId)
    requires forall op | op in ops :: (op.CreateNode? ==> op.scope == scope) && (op.CreateEdge? ==> op.scope == scope && op.from == memory)
    requires ScopeBefore(g, created, memory).Some? ==> ScopeBefore(g, created, memory).value == scope
    ensures EdgeScopesOk(g, created, ops)
    decreases |ops|
  {
    if ops != [] {
      assert ops[0] in ops;
      var created' := if ops[0].CreateNode? then created[ops[0].id := scope] else created;
      EdgeScopesAlwaysOk(g, created', ops[1..], scope, memory);
    }
  }

  lemma {:induction false} NoCreatesFresh(g: Graph, seen: set<NodeId>, ops: seq<Op>)
    requires forall op | op in ops :: !op.CreateNode?
    ensures CreateIdsFresh(g, seen, ops)
  {
    if ops != [] {
      assert ops[0] in ops;
      NoCreatesFresh(g, seen, ops[1..]);
    }
  }

  /** The graph after a `remember` planned on `g` commits at instant `w`. */
  function Remembered(tx: Codec, g: Graph, scope: Scope, lookup: set<Scope>, now: int, req: Request, mint: Mint, w: int): Graph
    requires Enough(mint, req)
    requires RememberPlan(tx, g, scope, lookup, now, req, mint).Ok?
  {
    var plan := RememberPlan(tx, g, scope, lookup, now, req, mint).value;
    var ty := Validate(tx, req).value;
    var links := PlannedLinks(tx, g, scope, lookup, ty, req, mint);
    var marks := Elements(plan.superseded);
    Retired(AddLinks(WithMemory(tx, g, scope, req, mint), scope, plan.memory, ty, links, w),
            marks, OpenFrom(g, scope, marks), Supersede, now, w)
  }

  lemma CreatedNotIndexed(tx: Codec, g: Graph, scope: Scope, lookup: set<Scope>, name: string)
    requires scope in lookup && FindExisting(tx, g, lookup, name).None?
    ensures LookupIndexed(tx, g, scope, ENTITY, NAME, Str(name)).None?
  {
    assert NodesByKey(tx, g, {scope}, ENTITY, NAME, Str(name)) <= FindEntities(tx, g, lookup, name);
  }

  lemma PlannedNoCollapse(tx: Codec, g: Graph, scope: Scope, lookup: set<Scope>, ty: string, req: Request, mint: Mint)
    requires Enough(mint, req) && scope in lookup
    ensures NoCollapse(tx, g, scope, PlannedLinks(tx, g, scope, lookup, ty, req, mint), map[])
  {
    var ls := PlannedLinks(tx, g, scope, lookup, ty, req, mint);
    var ks := KeptEntities(tx, g, lookup, req, mint);
    KeptIs(tx, g, lookup, req, mint);
    forall i | 0 <= i < |ls|
      ensures ls[i].entity == ks[i]
      ensures ks[i].created ==> LookupIndexed(tx, g, scope, ENTITY, NAME, Str(ks[i].name)).None?
    {
      assert ks[i] in ks;
      if ks[i].created { CreatedNotIndexed(tx, g, scope, lookup, ks[i].name); }
    }
  }

  /** Putting the memory's create in front of a batch that creates no other node. */
  lemma CreateInFront(tx: Codec, g: Graph, create: seq<Op>, rest: seq<Op>, scope: Scope, memory: NodeId)
    requires create == [] || (|create| == 1 && create[0].CreateNode? && create[0].scope == scope
                              && create[0].id == memory && memory !in g.nodes)
    requires create == [] ==> memory in g.nodes && g.nodes[memory].scope == scope
    requires forall op | op in rest :: !op.CreateNode? && (op.CreateEdge? ==> op.scope == scope && op.from == memory)
    ensures EdgeScopesOk(g, map[], create + rest) && CreateIdsFresh(g, {}, create + rest)
    ensures var r := Rewrite(tx, g, rest, map[], map[]);
            Rewrite(tx, g, create + rest, map[], map[]) == r.(ops := create + r.ops)
  {
    var ops := create + rest;
    EdgeScopesAlwaysOk(g, map[], ops, scope, memory);
    if create == [] {
      assert ops == rest;
      NoCreatesFresh(g, {}, rest);
      assert create + Rewrite(tx, g, rest, map[], map[]).ops == Rewrite(tx, g, rest, map[], map[]).ops;
    } else {
      assert ops[1..] == rest;
      NoCreatesFresh(g, {} + {memory}, rest);
      assert create == [create[0]];
    }
  }

  lemma RestOfPlan(tx: Codec, g: Graph, scope: Scope, memory: NodeId, ty: string, ls: seq<Link>, ids: seq<string>, now: int)
    requires RetireAll(tx, g, scope, Supersede, ids, {}, now).Ok?
    requires NoCollapse(tx, g, scope, ls, map[])
    ensures var links := AllLinkOps(scope, memory, ty, ls);
            var retire := RetireAll(tx, g, scope, Supersede, ids, {}, now).value.ops;
            && (forall op | op in links + retire :: !op.CreateNode? && (op.CreateEdge? ==> op.scope == scope && op.from == memory))
            && Rewrite(tx, g, links + retire, map[], map[]) == Rewritten(Plain(links) + retire, map[])
  {
    LinkOpsAre(scope, memory, ty, ls);
    RetireOpsAre(tx, g, scope, Supersede, ids, {}, now);
    RewriteLinks(tx, g, scope, memory, ty, ls, RetireAll(tx, g, scope, Supersede, ids, {}, now).value.ops, map[]);
  }

  lemma PlanShape(tx: Codec, g: Graph, scope: Scope, lookup: set<Scope>, now: int, req: Request, mint: Mint)
    requires Enough(mint, req) && RememberPlan(tx, g, scope, lookup, now, req, mint).Ok?
    ensures var plan := RememberPlan(tx, g, scope, lookup, now, req, mint).value;
            var ty := Validate(tx, req).value;
            var create := CreateMemoryOps(tx, g, scope, req, mint, NewMemoryProps(tx, req).value);
            var links := AllLinkOps(scope, plan.memory, ty, PlannedLinks(tx, g, scope, lookup, ty, req, mint));
            var retire := RetireAll(tx, g, scope, Supersede, req.supersedes, {}, now).value.ops;
            plan.ops == create + (links + retire) && plan.memory == MemoryFor(tx, g, scope, req, mint)
  {
    Regroup(CreateMemoryOps(tx, g, scope, req, mint, NewMemoryProps(tx, req).value),
            AllLinkOps(scope, MemoryFor(tx, g, scope, req, mint), Validate(tx, req).value,
                       PlannedLinks(tx, g, scope, lookup, Validate(tx, req).value, req, mint)),
            RetireAll(tx, g, scope, Supersede, req.supersedes, {}, now).value.ops);
  }

  lemma Regroup(a: seq<Op>, b: seq<Op>, c: seq<Op>)
    ensures (a + b) + c == a + (b + c)
  {
  }

  /** The applier accepts the batch as planned: the scope and id checks pass, and every
      upsert creates its node. */
  lemma PlanRewrites(tx: Codec, g: Graph, scope: Scope, lookup: set<Scope>, now: int, req: Request, mint: Mint)
    requires Enough(mint, req) && Fresh(mint, g) && scope in lookup
    requires RememberPlan(tx, g, scope, lookup, now, req, mint).Ok?
    ensures var plan := RememberPlan(tx, g, scope, lookup, now, req, mint).value;
            var ty := Validate(tx, req).value;
            var create := CreateMemoryOps(tx, g, scope, req, mint, NewMemoryProps(tx, req).value);
            var links := Plain(AllLinkOps(scope, plan.memory, ty, PlannedLinks(tx, g, scope, lookup, ty, req, mint)));
            var retire := RetireAll(tx, g, scope, Supersede, req.supersedes, {}, now).value.ops;
            && EdgeScopesOk(g, map[], plan.ops) && CreateIdsFresh(g, {}, plan.ops)
            && Rewrite(tx, g, plan.ops, map[], map[]) == Rewritten(create + (links + retire), map[])
  {
    var plan := RememberPlan(tx, g, scope, lookup, now, req, mint).value;
    var ty := Validate(tx, req).value;
    var ls := PlannedLinks(tx, g, scope, lookup, ty, req, mint);
    var create := CreateMemoryOps(tx, g, scope, req, mint, NewMemoryProps(tx, req).value);
    var links := AllLinkOps(scope, plan.memory, ty, ls);
    var retire := RetireAll(tx, g, scope, Supersede, req.supersedes, {}, now).value.ops;
    PlanShape(tx, g, scope, lookup, now, req, mint);
    PlannedNoCollapse(tx, g, scope, lookup, ty, req, mint);
    RestOfPlan(tx, g, scope, plan.memory, ty, ls, req.supersedes, now);
    if Dedups(tx, g, scope, req) { DedupTarget(tx, g, scope, req.content); }
    CreateInFront(tx, g, create, links + retire, scope, plan.memory);
  }

  /** Running the planned batch, retirement included, gives the simultaneous update. */
  lemma PlanRuns(tx: Codec, g: Graph, scope: Scope, lookup: set<Scope>, now: int, req: Request, mint: Mint, w: int)
    requires WellFormed(g) && Enough(mint, req) && Fresh(mint, g)
    requires RememberPlan(tx, g, scope, lookup, now, req, mint).Ok?
    ensures var plan := RememberPlan(tx, g, scope, lookup, now, req, mint).value;
            var ty := Validate(tx, req).value;
            var ls := PlannedLinks(tx, g, scope, lookup, ty, req, mint);
            var create := CreateMemoryOps(tx, g, scope, req, mint, NewMemoryProps(tx, req).value);
            var retire := RetireAll(tx, g, scope, Supersede, req.supersedes, {}, now).value.ops;
            var r := Run(g, create + (Plain(AllLinkOps(scope, plan.memory, ty, ls)) + retire), w);
            if NoCrossing(g, scope, ls) then r == Ok(Remembered(tx, g, scope, lookup, now, req, mint, w)) else r.Err?
  {
    var plan := RememberPlan(tx, g, scope, lookup, now, req, mint).value;
    var ty := Validate(tx, req).value;
    var ls := PlannedLinks(tx, g, scope, lookup, ty, req, mint);
    var create := CreateMemoryOps(tx, g, scope, req, mint, NewMemoryProps(tx, req).value);
    var links := Plain(AllLinkOps(scope, plan.memory, ty, ls));
    var retire := RetireAll(tx, g, scope, Supersede, req.supersedes, {}, now).value.ops;
    var gm := WithMemory(tx, g, scope, req, mint);
    if Dedups(tx, g, scope, req) {
      DedupTarget(tx, g, scope, req.content);
    } else {
      assert create[1..] == [];
    }
    assert Run(g, create, w) == Ok(gm);
    RunConcat(g, create, links + retire, w);
    LinksAreGood(tx, g, scope, lookup, ty, req, mint);
    RunLinks(gm, scope, plan.memory, ty, ls, w);
    RunConcat(gm, links, retire, w);
    if NoCrossing(g, scope, ls) {
      AddedNodes(gm, scope, plan.memory, ty, ls, w);
      AddedEdges(gm, scope, plan.memory, ty, ls, w);
      RetireRuns(tx, g, AddLinks(gm, scope, plan.memory, ty, ls, w), scope, Supersede, req.supersedes, {}, now, w);
    }
  }

  lemma {:induction false} AddNothing(g: Graph, scope: Scope, memory: NodeId, ty: string, ls: seq<Link>, w: int)
    requires AllLinkOps(scope, memory, ty, ls) == []
    ensures AddLinks(g, scope, memory, ty, ls, w) == g
    ensures forall l | l in ls :: !l.isNew
    decreases |ls|
  {
    if ls != [] {
      assert LinkOps(scope, memory, ty, ls[0]) == [] && AllLinkOps(scope, memory, ty, ls[1..]) == [];
      AddNothing(g, scope, memory, ty, ls[1..], w);
      assert AddLink(g, scope, memory, ty, ls[0], w) == g;
    }
  }

  /** A `remember` commits exactly when no new edge would join two projects, and then the
      graph changes by its memory, its entities, its edges and its retirements, nothing else;
      no id is remapped. */
  lemma RememberCommits(tx: Codec, g: Graph, scope: Scope, lookup: set<Scope>, now: int, req: Request, mint: Mint, w: int)
    requires WellFormed(g) && Enough(mint, req) && Fresh(mint, g) && scope in lookup
    requires RememberPlan(tx, g, scope, lookup, now, req, mint).Ok?
    ensures var plan := RememberPlan(tx, g, scope, lookup, now, req, mint).value;
            var links := PlannedLinks(tx, g, scope, lookup, Validate(tx, req).value, req, mint);
            var r := Commit(tx, g, plan.ops, w);
            && (r.Ok? <==> NoCrossing(g, scope, links))
            && (r.Ok? ==> r.value == Applied(Remembered(tx, g, scope, lookup, now, req, mint, w), map[]))
  {
    var plan := RememberPlan(tx, g, scope, lookup, now, req, mint).value;
    PlanRuns(tx, g, scope, lookup, now, req, mint, w);
    PlanRewrites(tx, g, scope, lookup, now, req, mint);
    if plan.ops == [] {
      var ty := Validate(tx, req).value;
      var retire := RetireAll(tx, g, scope, Supersede, req.supersedes, {}, now).value;
      AddNothing(g, scope, plan.memory, ty, PlannedLinks(tx, g, scope, lookup, ty, req, mint), w);
      MarkedOps(tx, g, scope, Supersede, req.supersedes, {}, now);
      assert Elements(retire.marked) == {} && OpenFrom(g, scope, {}) == {};
      RetiredNothing(g, Supersede, now, w);
    }
  }

  lemma {:induction false} MarkedOps(tx: Codec, g: Graph, scope: Scope, verb: Verb, ids: seq<string>, seen: set<NodeId>, now: int)
    requires RetireAll(tx, g, scope, verb, ids, seen, now).Ok?
    ensures var r := RetireAll(tx, g, scope, verb, ids, seen, now).value;
            r.ops == [] <==> r.marked == []
    decreases |ids|
  {
    if ids != [] {
      var id := tx.parseId(ids[0]).value;
      MarkedOps(tx, g, scope, verb, ids[1..], if id in seen then seen else seen + {id}, now);
    }
  }
}
