/** Concurrent writers do not fragment entities: a plan made on any snapshot, applied to any
    later graph, never adds an entity beside another of its name and scope. */
module Entities {
  import opened Text
  import opened Store
  import opened Compose
  import opened Remember
  import opened Idempotence

  type EntityKey = (Scope, string)

  predicate IsEntity(n: Node) {
    n.tag == ENTITY && NAME in n.props && n.props[NAME].Str?
  }

  function KeyOfNode(tx: Codec, n: Node): EntityKey
    requires IsEntity(n)
  {
    (n.scope, NameKey(tx, n.props[NAME].s))
  }

  /** No two entities of one scope have names equal up to case and white space. */
  ghost predicate UniqueEntities(tx: Codec, g: Graph) {
    forall a, b | a in g.nodes && b in g.nodes && IsEntity(g.nodes[a]) && IsEntity(g.nodes[b])
                  && KeyOfNode(tx, g.nodes[a]) == KeyOfNode(tx, g.nodes[b]) :: a == b
  }

  function EntityKeys(tx: Codec, g: Graph): set<EntityKey> {
    set id | id in g.nodes && IsEntity(g.nodes[id]) :: KeyOfNode(tx, g.nodes[id])
  }

  predicate IsEntityUpsert(op: Op) {
    op.UpsertNode? && op.tag == ENTITY && op.keyProp == NAME && NAME in op.props && op.props[NAME].Str?
  }

  function KeyOfUpsert(tx: Codec, op: Op): EntityKey
    requires IsEntityUpsert(op)
  {
    (op.scope, NameKey(tx, op.props[NAME].s))
  }

  /** A batch whose only entity writes are upserts by name, each name and each id once. */
  predicate EntitySafe(tx: Codec, ops: seq<Op>, keys: set<EntityKey>, ids: set<NodeId>)
    decreases |ops|
  {
    ops == [] ||
    match ops[0]
    case UpsertNode(id, _, _, _, _) =>
      && IsEntityUpsert(ops[0]) && KeyOfUpsert(tx, ops[0]) !in keys && id !in ids
      && EntitySafe(tx, ops[1..], keys + {KeyOfUpsert(tx, ops[0])}, ids + {id})
    case CreateNode(id, _, tag, _) => tag == MEMORY && id !in ids && EntitySafe(tx, ops[1..], keys, ids + {id})
    case SetNodeProps(_, changes) => NAME !in changes && EntitySafe(tx, ops[1..], keys, ids)
    case RemoveNode(_) => false
    case _ => EntitySafe(tx, ops[1..], keys, ids)
  }

  /** Plain ops that create only entities whose key and id are not taken. */
  predicate CreatesUntaken(tx: Codec, ops: seq<Op>, keys: set<EntityKey>, ids: set<NodeId>)
    decreases |ops|
  {
    ops == [] ||
    match ops[0]
    case CreateNode(id, scope, tag, props) =>
      var n := Node(scope, tag, props);
      && id !in ids && (IsEntity(n) ==> KeyOfNode(tx, n) !in keys)
      && CreatesUntaken(tx, ops[1..], if IsEntity(n) then keys + {KeyOfNode(tx, n)} else keys, ids + {id})
    case SetNodeProps(_, changes) => NAME !in changes && CreatesUntaken(tx, ops[1..], keys, ids)
    case RemoveNode(_) => false
    case _ => CreatesUntaken(tx, ops[1..], keys, ids)
  }

  /** Later entries of the pending table come from keys already met. */
  ghost predicate PendingMet(tx: Codec, pending: map<PendingKey, NodeId>, keys: set<EntityKey>) {
    forall k | k in pending :: k.1 == ENTITY && k.2 == NAME && k.3.Str? && (k.0, NameKey(tx, k.3.s)) in keys
  }

  lemma {:induction false} RewriteSafe(tx: Codec, g: Graph, ops: seq<Op>, remap: map<NodeId, NodeId>, pending: map<PendingKey, NodeId>, keys: set<EntityKey>, ids: set<NodeId>)
    requires EntitySafe(tx, ops, keys, ids) && PendingMet(tx, pending, keys)
    ensures CreatesUntaken(tx, Rewrite(tx, g, ops, remap, pending).ops, EntityKeys(tx, g) + keys, ids)
    decreases |ops|
  {
    if ops != [] {
      var op := ops[0];
      if op.UpsertNode? {
        var key := KeyOfUpsert(tx, op);
        var target := UpsertTarget(tx, g, pending, op);
        if target.Some? {
          RewriteSafe(tx, g, ops[1..], remap[op.id := target.value], pending, keys + {key}, ids + {op.id});
          UntakenWeaker(tx, Rewrite(tx, g, ops[1..], remap[op.id := target.value], pending).ops,
                        EntityKeys(tx, g) + (keys + {key}), ids + {op.id}, EntityKeys(tx, g) + keys, ids);
        } else {
          LookupMisses(tx, g, op);
          var rest := Rewrite(tx, g, ops[1..], remap, Pend(pending, op)).ops;
          RewriteSafe(tx, g, ops[1..], remap, Pend(pending, op), keys + {key}, ids + {op.id});
          assert EntityKeys(tx, g) + (keys + {key}) == EntityKeys(tx, g) + keys + {key};
          assert ([CreateNode(op.id, op.scope, op.tag, op.props)] + rest)[1..] == rest;
        }
      } else {
        var rest := Rewrite(tx, g, ops[1..], remap, pending).ops;
        RewriteSafe(tx, g, ops[1..], remap, pending, keys, if op.CreateNode? then ids + {op.id} else ids);
        assert ([RemapOp(op, remap)] + rest)[1..] == rest;
      }
    }
  }

  lemma {:induction false} UntakenWeaker(tx: Codec, ops: seq<Op>, keys: set<EntityKey>, ids: set<NodeId>, keys': set<EntityKey>, ids': set<NodeId>)
    requires CreatesUntaken(tx, ops, keys, ids) && keys' <= keys && ids' <= ids
    ensures CreatesUntaken(tx, ops, keys', ids')
    decreases |ops|
  {
    if ops != [] {
      if ops[0].CreateNode? {
        var n := Node(ops[0].scope, ops[0].tag, ops[0].props);
        var id := ops[0].id;
        if IsEntity(n) {
          UntakenWeaker(tx, ops[1..], keys + {KeyOfNode(tx, n)}, ids + {id}, keys' + {KeyOfNode(tx, n)}, ids' + {id});
        } else {
          UntakenWeaker(tx, ops[1..], keys, ids + {id}, keys', ids' + {id});
        }
      } else {
        UntakenWeaker(tx, ops[1..], keys, ids, keys', ids');
      }
    }
  }

  lemma LookupMisses(tx: Codec, g: Graph, op: Op)
    requires IsEntityUpsert(op) && LookupIndexed(tx, g, op.scope, op.tag, op.keyProp, op.props[op.keyProp]).None?
    ensures KeyOfUpsert(tx, op) !in EntityKeys(tx, g)
  {
    var hits := NodesByKey(tx, g, {op.scope}, ENTITY, NAME, op.props[NAME]);
    assert hits == {};
    forall id | id in g.nodes && IsEntity(g.nodes[id]) ensures KeyOfNode(tx, g.nodes[id]) != KeyOfUpsert(tx, op) {
      assert id !in hits;
    }
  }

  /** Entities keep their scope and name through plain ops that create fresh ids only. */
  ghost predicate EntitiesKept(g: Graph, g': Graph) {
    forall id | id in g.nodes && IsEntity(g.nodes[id]) ::
      id in g'.nodes && IsEntity(g'.nodes[id]) && g'.nodes[id].scope == g.nodes[id].scope && g'.nodes[id].props[NAME] == g.nodes[id].props[NAME]
  }

  /** Two entities of one key afterwards were two entities of one key before: none was added
      beside another. */
  ghost predicate NoNewTwins(tx: Codec, g: Graph, g': Graph) {
    forall a, b | a != b && a in g'.nodes && b in g'.nodes && IsEntity(g'.nodes[a]) && IsEntity(g'.nodes[b])
                  && KeyOfNode(tx, g'.nodes[a]) == KeyOfNode(tx, g'.nodes[b]) ::
      && a in g.nodes && b in g.nodes && IsEntity(g.nodes[a]) && IsEntity(g.nodes[b])
      && KeyOfNode(tx, g.nodes[a]) == KeyOfNode(tx, g'.nodes[a]) && KeyOfNode(tx, g.nodes[b]) == KeyOfNode(tx, g'.nodes[b])
  }

  /** No entity is lost or renamed, and none is added beside another of its key. */
  ghost predicate EntitiesSafe(tx: Codec, g: Graph, g': Graph) {
    EntitiesKept(g, g') && NoNewTwins(tx, g, g')
  }

  lemma SafeTwice(tx: Codec, g: Graph, g1: Graph, g2: Graph)
    requires EntitiesSafe(tx, g, g1) && EntitiesSafe(tx, g1, g2)
    ensures EntitiesSafe(tx, g, g2)
  {
  }

  lemma SafeKeepsUnique(tx: Codec, g: Graph, g': Graph)
    requires EntitiesSafe(tx, g, g') && UniqueEntities(tx, g)
    ensures UniqueEntities(tx, g')
  {
  }

  lemma {:induction false} RunIsSafe(tx: Codec, g: Graph, ops: seq<Op>, keys: set<EntityKey>, ids: set<NodeId>, w: int)
    requires CreatesUntaken(tx, ops, keys, ids) && Run(g, ops, w).Ok?
    requires EntityKeys(tx, g) <= keys && g.nodes.Keys <= ids
    ensures EntitiesSafe(tx, g, Run(g, ops, w).value)
    decreases |ops|
  {
    if ops != [] {
      var g' := ApplyOp(g, ops[0], w).value;
      if ops[0].CreateNode? {
        var n := Node(ops[0].scope, ops[0].tag, ops[0].props);
        CreateIsSafe(tx, g, ops[0].id, n, keys);
        RunIsSafe(tx, g', ops[1..], if IsEntity(n) then keys + {KeyOfNode(tx, n)} else keys, ids + {ops[0].id}, w);
      } else {
        if ops[0].SetNodeProps? { ChangeIsSafe(tx, g, ops[0].id, ops[0].changes); }
        RunIsSafe(tx, g', ops[1..], keys, ids, w);
      }
      SafeTwice(tx, g, g', Run(g, ops, w).value);
    }
  }

  lemma CreateIsSafe(tx: Codec, g: Graph, id: NodeId, n: Node, keys: set<EntityKey>)
    requires id !in g.nodes && EntityKeys(tx, g) <= keys && (IsEntity(n) ==> KeyOfNode(tx, n) !in keys)
    ensures var g' := g.(nodes := g.nodes[id := n]);
            && EntitiesSafe(tx, g, g')
            && EntityKeys(tx, g') <= if IsEntity(n) then keys + {KeyOfNode(tx, n)} else keys
  {
    forall a | a in g.nodes && IsEntity(g.nodes[a]) ensures KeyOfNode(tx, g.nodes[a]) in keys {
      assert KeyOfNode(tx, g.nodes[a]) in EntityKeys(tx, g);
    }
  }

  lemma ChangeIsSafe(tx: Codec, g: Graph, id: NodeId, changes: map<string, Option<Value>>)
    requires id in g.nodes && NAME !in changes
    ensures var n := g.nodes[id];
            var g' := g.(nodes := g.nodes[id := n.(props := Changed(n.props, changes))]);
            EntitiesSafe(tx, g, g') && EntityKeys(tx, g') == EntityKeys(tx, g)
  {
    var n := g.nodes[id];
    var g' := g.(nodes := g.nodes[id := n.(props := Changed(n.props, changes))]);
    assert forall a | a in g.nodes :: IsEntity(g'.nodes[a]) == IsEntity(g.nodes[a]);
    assert forall a | a in g.nodes && IsEntity(g.nodes[a]) :: KeyOfNode(tx, g'.nodes[a]) == KeyOfNode(tx, g.nodes[a]);
  }

  // ----- remember plans are safe, whatever they were planned on -----

  predicate NamesNothing(op: Op) {
    (op.SetNodeProps? && NAME !in op.changes) || op.CloseEdge?
  }

  lemma {:induction false} TailSafe(tx: Codec, ops: seq<Op>, keys: set<EntityKey>, ids: set<NodeId>)
    requires forall op | op in ops :: NamesNothing(op)
    ensures EntitySafe(tx, ops, keys, ids)
    decreases |ops|
  {
    if ops != [] {
      assert NamesNothing(ops[0]);
      TailSafe(tx, ops[1..], keys, ids);
    }
  }

  ghost predicate LinksApart(tx: Codec, scope: Scope, ls: seq<Link>, keys: set<EntityKey>, ids: set<NodeId>) {
    && (forall i, j | 0 <= i < j < |ls| :: NameKey(tx, ls[i].entity.name) != NameKey(tx, ls[j].entity.name) && ls[i].entity.id != ls[j].entity.id)
    && (forall l | l in ls && l.entity.created :: (scope, NameKey(tx, l.entity.name)) !in keys && l.entity.id !in ids)
  }

  function KeysWith(tx: Codec, scope: Scope, l: Link, keys: set<EntityKey>): set<EntityKey> {
    if l.entity.created then keys + {(scope, NameKey(tx, l.entity.name))} else keys
  }

  function IdsWith(l: Link, ids: set<NodeId>): set<NodeId> {
    if l.entity.created then ids + {l.entity.id} else ids
  }

  lemma ApartTail(tx: Codec, scope: Scope, ls: seq<Link>, keys: set<EntityKey>, ids: set<NodeId>)
    requires ls != [] && LinksApart(tx, scope, ls, keys, ids)
    ensures LinksApart(tx, scope, ls[1..], KeysWith(tx, scope, ls[0], keys), IdsWith(ls[0], ids))
  {
    forall x | x in ls[1..] && x.entity.created
      ensures (scope, NameKey(tx, x.entity.name)) !in KeysWith(tx, scope, ls[0], keys) && x.entity.id !in IdsWith(ls[0], ids)
    {
      var i :| 0 <= i < |ls[1..]| && ls[1..][i] == x;
      assert ls[i + 1] == x;
    }
  }

  lemma HeadSafe(tx: Codec, scope: Scope, memory: NodeId, ty: string, l: Link, rest: seq<Op>, keys: set<EntityKey>, ids: set<NodeId>)
    requires l.entity.created ==> (scope, NameKey(tx, l.entity.name)) !in keys && l.entity.id !in ids
    requires EntitySafe(tx, rest, KeysWith(tx, scope, l, keys), IdsWith(l, ids))
    ensures EntitySafe(tx, LinkOps(scope, memory, ty, l) + rest, keys, ids)
  {
    var ops := LinkOps(scope, memory, ty, l) + rest;
    if l.entity.created && l.isNew {
      assert ops[1..][1..] == rest;
    } else if l.entity.created || l.isNew {
      assert ops[1..] == rest;
    } else {
      assert ops == rest;
    }
  }

  lemma {:induction false} LinksSafe(tx: Codec, scope: Scope, memory: NodeId, ty: string, ls: seq<Link>, tail: seq<Op>, keys: set<EntityKey>, ids: set<NodeId>)
    requires LinksApart(tx, scope, ls, keys, ids)
    requires forall op | op in tail :: NamesNothing(op)
    ensures EntitySafe(tx, AllLinkOps(scope, memory, ty, ls) + tail, keys, ids)
    decreases |ls|
  {
    if ls == [] {
      assert AllLinkOps(scope, memory, ty, ls) + tail == tail;
      TailSafe(tx, tail, keys, ids);
    } else {
      var links := AllLinkOps(scope, memory, ty, ls[1..]);
      assert ls[0] in ls;
      ApartTail(tx, scope, ls, keys, ids);
      LinksSafe(tx, scope, memory, ty, ls[1..], tail, KeysWith(tx, scope, ls[0], keys), IdsWith(ls[0], ids));
      HeadSafe(tx, scope, memory, ty, ls[0], links + tail, keys, ids);
      assert (LinkOps(scope, memory, ty, ls[0]) + links) + tail == LinkOps(scope, memory, ty, ls[0]) + (links + tail);
    }
  }

  lemma RestSafe(tx: Codec, snapshot: Graph, scope: Scope, memory: NodeId, ty: string, ls: seq<Link>, raws: seq<string>, now: int, ids: set<NodeId>)
    requires LinksApart(tx, scope, ls, {}, ids) && RetireAll(tx, snapshot, scope, Supersede, raws, {}, now).Ok?
    ensures EntitySafe(tx, AllLinkOps(scope, memory, ty, ls) + RetireAll(tx, snapshot, scope, Supersede, raws, {}, now).value.ops, {}, ids)
  {
    RetireOpsAre(tx, snapshot, scope, Supersede, raws, {}, now);
    LinksSafe(tx, scope, memory, ty, ls, RetireAll(tx, snapshot, scope, Supersede, raws, {}, now).value.ops, {}, ids);
  }

  lemma CreateSafe(tx: Codec, create: seq<Op>, rest: seq<Op>, ids: set<NodeId>)
    requires create == [] || (|create| == 1 && create[0].CreateNode? && create[0].tag == MEMORY && create[0].id !in ids)
    requires EntitySafe(tx, rest, {}, if create == [] then ids else ids + {create[0].id})
    ensures EntitySafe(tx, create + rest, {}, ids)
  {
    assert if create == [] then create + rest == rest else (create + rest)[1..] == rest;
  }

  /** Every plan of a remember, from any snapshot, writes entities only by upserts with
      distinct keys and distinct fresh ids. */
  lemma PlanSafe(tx: Codec, snapshot: Graph, scope: Scope, lookup: set<Scope>, now: int, req: Request, mint: Mint, ids: set<NodeId>)
    requires Enough(mint, req) && RememberPlan(tx, snapshot, scope, lookup, now, req, mint).Ok?
    requires mint.memory !in mint.entities && mint.memory !in ids && forall id | id in mint.entities :: id !in ids
    ensures EntitySafe(tx, RememberPlan(tx, snapshot, scope, lookup, now, req, mint).value.ops, {}, ids)
  {
    var plan := RememberPlan(tx, snapshot, scope, lookup, now, req, mint).value;
    var ty := Validate(tx, req).value;
    var ls := PlannedLinks(tx, snapshot, scope, lookup, ty, req, mint);
    var create := CreateMemoryOps(tx, snapshot, scope, req, mint, NewMemoryProps(tx, req).value);
    var links := AllLinkOps(scope, plan.memory, ty, ls);
    var retire := RetireAll(tx, snapshot, scope, Supersede, req.supersedes, {}, now).value.ops;
    var ids' := if create == [] then ids else ids + {mint.memory};
    PlanShape(tx, snapshot, scope, lookup, now, req, mint);
    PlannedApart(tx, snapshot, scope, lookup, ty, req, mint, ids');
    RestSafe(tx, snapshot, scope, plan.memory, ty, ls, req.supersedes, now, ids');
    CreateSafe(tx, create, links + retire, ids);
  }

  lemma PlannedApart(tx: Codec, snapshot: Graph, scope: Scope, lookup: set<Scope>, ty: string, req: Request, mint: Mint, ids: set<NodeId>)
    requires Enough(mint, req) && forall id | id in mint.entities :: id !in ids
    ensures LinksApart(tx, scope, PlannedLinks(tx, snapshot, scope, lookup, ty, req, mint), {}, ids)
  {
    var ks := KeptEntities(tx, snapshot, lookup, req, mint);
    var ls := PlannedLinks(tx, snapshot, scope, lookup, ty, req, mint);
    KeptIs(tx, snapshot, lookup, req, mint);
    PlannedLinksAre(tx, snapshot, scope, lookup, ty, req, mint);
    forall l | l in ls && l.entity.created ensures l.entity.id !in ids {
      var i :| 0 <= i < |ls| && ls[i] == l;
      assert ks[i] in ks;
    }
  }

  /** One writer: a plan made on any snapshot, committed to a graph it never saw. */
  datatype Write = Write(snapshot: Graph, scope: Scope, lookup: set<Scope>, now: int, req: Request, mint: Mint, w: int)

  ghost predicate Minted(g: Graph, c: Write) {
    Enough(c.mint, c.req) && Fresh(c.mint, g)
  }

  function Race(tx: Codec, g: Graph, c: Write): Graph
    requires Enough(c.mint, c.req)
  {
    match RememberPlan(tx, c.snapshot, c.scope, c.lookup, c.now, c.req, c.mint)
    case Err(_) => g
    case Ok(plan) =>
      match Commit(tx, g, plan.ops, c.w)
      case Err(_) => g
      case Ok(applied) => applied.graph
  }

  lemma RaceIsSafe(tx: Codec, g: Graph, c: Write)
    requires Minted(g, c)
    ensures EntitiesSafe(tx, g, Race(tx, g, c))
  {
    var plan := RememberPlan(tx, c.snapshot, c.scope, c.lookup, c.now, c.req, c.mint);
    if plan.Ok? && plan.value.ops != [] && Commit(tx, g, plan.value.ops, c.w).Ok? {
      PlanSafe(tx, c.snapshot, c.scope, c.lookup, c.now, c.req, c.mint, g.nodes.Keys);
      RewriteSafe(tx, g, plan.value.ops, map[], map[], {}, g.nodes.Keys);
      RunIsSafe(tx, g, Rewrite(tx, g, plan.value.ops, map[], map[]).ops, EntityKeys(tx, g) + {}, g.nodes.Keys, c.w);
    }
  }

  ghost predicate MintedRun(tx: Codec, g: Graph, cs: seq<Write>)
    decreases |cs|
  {
    cs == [] || (Minted(g, cs[0]) && MintedRun(tx, Race(tx, g, cs[0]), cs[1..]))
  }

  ghost function AfterRace(tx: Codec, g: Graph, cs: seq<Write>): Graph
    requires MintedRun(tx, g, cs)
    decreases |cs|
  {
    if cs == [] then g else AfterRace(tx, Race(tx, g, cs[0]), cs[1..])
  }

  /** Any number of writers, each planning on a snapshot of its own and committing in any
      order, lose no entity and add none beside another of its scope and name; so names that
      were unique stay so, and every duplicate there is was there before. */
  lemma {:induction false} WritersNeverFragment(tx: Codec, g: Graph, cs: seq<Write>)
    requires MintedRun(tx, g, cs)
    ensures EntitiesSafe(tx, g, AfterRace(tx, g, cs))
    ensures UniqueEntities(tx, g) ==> UniqueEntities(tx, AfterRace(tx, g, cs))
    decreases |cs|
  {
    if cs != [] {
      RaceIsSafe(tx, g, cs[0]);
      WritersNeverFragment(tx, Race(tx, g, cs[0]), cs[1..]);
      SafeTwice(tx, g, Race(tx, g, cs[0]), AfterRace(tx, g, cs));
    }
    if UniqueEntities(tx, g) { SafeKeepsUnique(tx, g, AfterRace(tx, g, cs)); }
  }

  // ----- what the caller is told -----

  /** `id` names, in `g`, an entity of this key. */
  ghost predicate Names(tx: Codec, g: Graph, id: NodeId, key: EntityKey) {
    id in g.nodes && IsEntity(g.nodes[id]) && KeyOfNode(tx, g.nodes[id]) == key
  }

  /** An upsert either collapsed onto a committed entity of its key or became a create. */
  ghost predicate Landed(tx: Codec, g: Graph, op: Op, rw: Rewritten)
    requires IsEntityUpsert(op)
  {
    if op.id in rw.remap then Names(tx, g, rw.remap[op.id], KeyOfUpsert(tx, op))
    else CreateNode(op.id, op.scope, op.tag, op.props) in rw.ops
  }

  lemma TargetNames(tx: Codec, g: Graph, pending: map<PendingKey, NodeId>, op: Op, keys: set<EntityKey>)
    requires IsEntityUpsert(op) && PendingMet(tx, pending, keys) && KeyOfUpsert(tx, op) !in keys
    ensures UpsertTarget(tx, g, pending, op).Some? ==> Names(tx, g, UpsertTarget(tx, g, pending, op).value, KeyOfUpsert(tx, op))
  {
    var hits := NodesByKey(tx, g, {op.scope}, ENTITY, NAME, op.props[NAME]);
    if hits != {} { assert Least(hits) in hits; }
  }

  lemma {:induction false} RewriteLands(tx: Codec, g: Graph, ops: seq<Op>, remap: map<NodeId, NodeId>, pending: map<PendingKey, NodeId>, keys: set<EntityKey>, ids: set<NodeId>)
    requires EntitySafe(tx, ops, keys, ids) && PendingMet(tx, pending, keys) && remap.Keys <= ids
    ensures var rw := Rewrite(tx, g, ops, remap, pending);
            && (forall id | id in remap :: id in rw.remap && rw.remap[id] == remap[id])
            && (forall id | id in rw.remap && id !in remap :: id !in ids)
            && (forall op | op in ops && op.UpsertNode? :: IsEntityUpsert(op) && op.id !in ids && Landed(tx, g, op, rw))
    decreases |ops|, 1
  {
    if ops != [] {
      var op := ops[0];
      assert forall x :: x in ops <==> x == op || x in ops[1..];
      if op.UpsertNode? {
        UpsertLands(tx, g, ops, remap, pending, keys, ids);
      } else {
        RewriteLands(tx, g, ops[1..], remap, pending, keys, if op.CreateNode? then ids + {op.id} else ids);
      }
    }
  }

  lemma {:induction false} UpsertLands(tx: Codec, g: Graph, ops: seq<Op>, remap: map<NodeId, NodeId>, pending: map<PendingKey, NodeId>, keys: set<EntityKey>, ids: set<NodeId>)
    requires ops != [] && ops[0].UpsertNode?
    requires EntitySafe(tx, ops, keys, ids) && PendingMet(tx, pending, keys) && remap.Keys <= ids
    ensures var rw := Rewrite(tx, g, ops, remap, pending);
            && (forall id | id in remap :: id in rw.remap && rw.remap[id] == remap[id])
            && (forall id | id in rw.remap && id !in remap :: id !in ids)
            && (forall op | op in ops && op.UpsertNode? :: IsEntityUpsert(op) && op.id !in ids && Landed(tx, g, op, rw))
    decreases |ops|, 0
  {
    var op := ops[0];
    var rw := Rewrite(tx, g, ops, remap, pending);
    assert forall x :: x in ops <==> x == op || x in ops[1..];
    var key := KeyOfUpsert(tx, op);
    TargetNames(tx, g, pending, op, keys);
    var target := UpsertTarget(tx, g, pending, op);
    if target.Some? {
      RewriteLands(tx, g, ops[1..], remap[op.id := target.value], pending, keys + {key}, ids + {op.id});
      assert rw == Rewrite(tx, g, ops[1..], remap[op.id := target.value], pending);
    } else {
      RewriteLands(tx, g, ops[1..], remap, Pend(pending, op), keys + {key}, ids + {op.id});
      assert rw.ops[0] == CreateNode(op.id, op.scope, op.tag, op.props);
    }
  }

  lemma {:induction false} RunCreatesNamed(tx: Codec, g: Graph, ops: seq<Op>, keys: set<EntityKey>, ids: set<NodeId>, w: int, op: Op)
    requires CreatesUntaken(tx, ops, keys, ids) && Run(g, ops, w).Ok?
    requires EntityKeys(tx, g) <= keys && g.nodes.Keys <= ids
    requires op in ops && op.CreateNode? && IsEntity(Node(op.scope, op.tag, op.props))
    ensures Names(tx, Run(g, ops, w).value, op.id, KeyOfNode(tx, Node(op.scope, op.tag, op.props)))
    decreases |ops|
  {
    var g' := ApplyOp(g, ops[0], w).value;
    if ops[0].CreateNode? {
      var n := Node(ops[0].scope, ops[0].tag, ops[0].props);
      var keys' := if IsEntity(n) then keys + {KeyOfNode(tx, n)} else keys;
      CreateIsSafe(tx, g, ops[0].id, n, keys);
      RunIsSafe(tx, g', ops[1..], keys', ids + {ops[0].id}, w);
      if op != ops[0] { RunCreatesNamed(tx, g', ops[1..], keys', ids + {ops[0].id}, w, op); }
    } else {
      if ops[0].SetNodeProps? { ChangeIsSafe(tx, g, ops[0].id, ops[0].changes); }
      RunCreatesNamed(tx, g', ops[1..], keys, ids, w, op);
    }
  }

  /** After a raced commit and the remap, every entity the plan meant to create is reported
      under the id of an entity of that name in the write scope; any other one of that name
      was there before, beside it. */
  lemma ReportedEntitiesExist(tx: Codec, g: Graph, c: Write, k: Planned)
    requires Minted(g, c)
    requires RememberPlan(tx, c.snapshot, c.scope, c.lookup, c.now, c.req, c.mint).Ok?
    requires var plan := RememberPlan(tx, c.snapshot, c.scope, c.lookup, c.now, c.req, c.mint).value;
             k in plan.entities && k.created && Commit(tx, g, plan.ops, c.w).Ok?
    ensures var plan := RememberPlan(tx, c.snapshot, c.scope, c.lookup, c.now, c.req, c.mint).value;
            var applied := Commit(tx, g, plan.ops, c.w).value;
            ReportedRight(tx, g, applied.graph, Remapped(k, applied.remap).id, (c.scope, NameKey(tx, k.name)))
  {
    var plan := RememberPlan(tx, c.snapshot, c.scope, c.lookup, c.now, c.req, c.mint).value;
    PlannedUpsert(tx, c, k);
    PlanSafe(tx, c.snapshot, c.scope, c.lookup, c.now, c.req, c.mint, g.nodes.Keys);
    UpsertReported(tx, g, plan.ops, UpsertNode(k.id, c.scope, ENTITY, NAME, EntityProps(k.name)), c.w);
  }

  ghost predicate ReportedRight(tx: Codec, g: Graph, g': Graph, reported: NodeId, key: EntityKey) {
    && Names(tx, g', reported, key)
    && forall id | Names(tx, g', id, key) && id != reported :: Names(tx, g, id, key) && Names(tx, g, reported, key)
  }

  lemma UpsertReported(tx: Codec, g: Graph, ops: seq<Op>, op: Op, w: int)
    requires EntitySafe(tx, ops, {}, g.nodes.Keys) && op in ops && IsEntityUpsert(op) && Commit(tx, g, ops, w).Ok?
    ensures var applied := Commit(tx, g, ops, w).value;
            ReportedRight(tx, g, applied.graph, RemapId(applied.remap, op.id), KeyOfUpsert(tx, op))
  {
    var rw := Rewrite(tx, g, ops, map[], map[]);
    RewriteSafe(tx, g, ops, map[], map[], {}, g.nodes.Keys);
    RewriteLands(tx, g, ops, map[], map[], {}, g.nodes.Keys);
    LandedReported(tx, g, rw, op, w);
  }

  lemma LandedReported(tx: Codec, g: Graph, rw: Rewritten, op: Op, w: int)
    requires CreatesUntaken(tx, rw.ops, EntityKeys(tx, g) + {}, g.nodes.Keys) && IsEntityUpsert(op) && Landed(tx, g, op, rw)
    requires Run(g, rw.ops, w).Ok?
    ensures ReportedRight(tx, g, Run(g, rw.ops, w).value, RemapId(rw.remap, op.id), KeyOfUpsert(tx, op))
  {
    RunIsSafe(tx, g, rw.ops, EntityKeys(tx, g) + {}, g.nodes.Keys, w);
    if op.id !in rw.remap {
      RunCreatesNamed(tx, g, rw.ops, EntityKeys(tx, g) + {}, g.nodes.Keys, w, CreateNode(op.id, op.scope, op.tag, op.props));
    }
    ReportedOf(tx, g, Run(g, rw.ops, w).value, RemapId(rw.remap, op.id), KeyOfUpsert(tx, op));
  }

  lemma ReportedOf(tx: Codec, g: Graph, g': Graph, reported: NodeId, key: EntityKey)
    requires EntitiesSafe(tx, g, g') && (Names(tx, g, reported, key) || Names(tx, g', reported, key))
    ensures ReportedRight(tx, g, g', reported, key)
  {
  }

  lemma {:induction false} UpsertAmong(scope: Scope, memory: NodeId, ty: string, ls: seq<Link>, l: Link)
    requires l in ls && l.entity.created
    ensures UpsertNode(l.entity.id, scope, ENTITY, NAME, EntityProps(l.entity.name)) in AllLinkOps(scope, memory, ty, ls)
  {
    if l != ls[0] { UpsertAmong(scope, memory, ty, ls[1..], l); }
  }

  lemma PlannedUpsert(tx: Codec, c: Write, k: Planned)
    requires Enough(c.mint, c.req) && RememberPlan(tx, c.snapshot, c.scope, c.lookup, c.now, c.req, c.mint).Ok?
    requires k in RememberPlan(tx, c.snapshot, c.scope, c.lookup, c.now, c.req, c.mint).value.entities && k.created
    ensures UpsertNode(k.id, c.scope, ENTITY, NAME, EntityProps(k.name)) in
            RememberPlan(tx, c.snapshot, c.scope, c.lookup, c.now, c.req, c.mint).value.ops
  {
    var plan := RememberPlan(tx, c.snapshot, c.scope, c.lookup, c.now, c.req, c.mint).value;
    var ls := Links(tx, c.snapshot, c.scope, c.lookup, c.req, c.mint);
    var ty := Validate(tx, c.req).value;
    LinkOpsPlanned(tx, c.snapshot, c.scope, c.lookup, c.now, c.req, c.mint);
    var i := LinkOf(ls, k);
    UpsertAmong(c.scope, plan.memory, ty, ls, ls[i]);
  }

  lemma LinkOf(ls: seq<Link>, k: Planned) returns (i: nat)
    requires k in Entities(ls)
    ensures i < |ls| && ls[i].entity == k
  {
    i :| 0 <= i < |ls| && Entities(ls)[i] == k;
  }

  lemma LinkOpsPlanned(tx: Codec, g: Graph, scope: Scope, lookup: set<Scope>, now: int, req: Request, mint: Mint)
    requires Enough(mint, req) && RememberPlan(tx, g, scope, lookup, now, req, mint).Ok?
    ensures var plan := RememberPlan(tx, g, scope, lookup, now, req, mint).value;
            var ls := Links(tx, g, scope, lookup, req, mint);
            && plan.entities == Entities(ls)
            && forall op | op in AllLinkOps(scope, plan.memory, Validate(tx, req).value, ls) :: op in plan.ops
  {
    var memory := MemoryFor(tx, g, scope, req, mint);
    var ls := Links(tx, g, scope, lookup, req, mint);
    Middle(CreateMemoryOps(tx, g, scope, req, mint, NewMemoryProps(tx, req).value),
           AllLinkOps(scope, memory, Validate(tx, req).value, ls),
           RetirePlan(tx, g, scope, Supersede, req.supersedes, now).value.ops);
  }

  lemma Middle(a: seq<Op>, b: seq<Op>, c: seq<Op>)
    ensures forall op | op in b :: op in a + b + c
  {
  }

  function Remapped(e: Planned, remap: map<NodeId, NodeId>): Planned {
    if e.id in remap then Planned(e.name, remap[e.id], false) else e
  }

  /** `apply_upsert_remap`: correct the planned entities in place against the applier's remap. */
  method ApplyUpsertRemap(entities: array<Planned>, remap: map<NodeId, NodeId>)
    modifies entities
    ensures forall i | 0 <= i < entities.Length :: entities[i] == Remapped(old(entities[i]), remap)
  {
    if remap == map[] { return; }
    for i := 0 to entities.Length
      invariant forall j | 0 <= j < i :: entities[j] == Remapped(old(entities[j]), remap)
      invariant forall j | i <= j < entities.Length :: entities[j] == old(entities[j])
    {
      if entities[i].id in remap {
        entities[i] := Planned(entities[i].name, remap[entities[i].id], false);
      }
    }
  }
}
