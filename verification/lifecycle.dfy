/** Runs of the composed verbs: remember, supersede, forget and purge, in any order. */
module Lifecycle {
  import opened Text
  import opened Store
  import opened Compose
  import opened Effects
  import opened Remember
  import opened Idempotence

  // ----- purge -----

  /** A tombstone counts for purge only as an integer strictly before the cutoff. */
  predicate TombstonedBefore(n: Node, cutoff: int) {
    || (SUPERSEDED_AT in n.props && n.props[SUPERSEDED_AT].Int? && n.props[SUPERSEDED_AT].i < cutoff)
    || (FORGOTTEN_AT in n.props && n.props[FORGOTTEN_AT].Int? && n.props[FORGOTTEN_AT].i < cutoff)
  }

  function MemoriesIn(g: Graph, scopes: set<Scope>): set<NodeId> {
    set id | id in g.nodes && g.nodes[id].tag == MEMORY && g.nodes[id].scope in scopes
  }

  function Doomed(g: Graph, scopes: set<Scope>, cutoff: int): set<NodeId> {
    set id | id in MemoriesIn(g, scopes) && TombstonedBefore(g.nodes[id], cutoff)
  }

  function Removes(ids: seq<NodeId>): seq<Op> {
    seq(|ids|, i requires 0 <= i < |ids| => RemoveNode(ids[i]))
  }

  function PurgePlan(g: Graph, scopes: set<Scope>, cutoff: int): Result<Retirement, Refusal> {
    if cutoff <= 0 then Err(BadCutoff)
    else
      var ids := Sorted(Doomed(g, scopes, cutoff));
      Ok(Retirement(Removes(ids), ids))
  }

  function Insert(ids: seq<NodeId>, id: NodeId): (r: seq<NodeId>)
    ensures |r| == |ids| + 1 && forall x :: x in r <==> x in ids || x == id
    ensures Ascending(ids) && id !in ids ==> Ascending(r)
  {
    if ids == [] || id <= ids[0] then [id] + ids
    else
      assert forall x :: x in ids <==> x == ids[0] || x in ids[1..];
      var r := Insert(ids[1..], id);
      assert Ascending(ids) ==> forall x | x in ids[1..] :: ids[0] < x;
      assert forall k | 0 <= k < |r| :: r[k] in r;
      [ids[0]] + r
  }

  /** The listing in ascending order, repetitions kept. */
  function SortIds(ids: seq<NodeId>): (r: seq<NodeId>)
    ensures |r| == |ids| && forall x :: x in r <==> x in ids
    ensures Distinct(ids) ==> Ascending(r)
  {
    if ids == [] then []
    else
      assert forall x :: x in ids <==> x == ids[0] || x in ids[1..];
      Insert(SortIds(ids[1..]), ids[0])
  }

  lemma {:induction false} SameAscending(a: seq<NodeId>, b: seq<NodeId>)
    requires Ascending(a) && Ascending(b) && forall x :: x in a <==> x in b
    ensures a == b
  {
    assert a != [] ==> a[0] in a;
    assert b != [] ==> b[0] in b;
    if a != [] {
      assert a[0] in b && b[0] in a;
      assert a[0] == b[0];
      forall x ensures x in a[1..] <==> x in b[1..] {
        assert x in a <==> x == a[0] || x in a[1..];
        assert x in b <==> x == b[0] || x in b[1..];
      }
      SameAscending(a[1..], b[1..]);
    }
  }

  /** Sorting distinct ids enumerates their set in ascending order. */
  lemma SortIdsIsSorted(ids: seq<NodeId>)
    requires Distinct(ids)
    ensures SortIds(ids) == Sorted(Elements(ids))
  {
    SameAscending(SortIds(ids), Sorted(Elements(ids)));
  }

  /** `plan_purge`: one pass over the memories, in whatever order the label read lists them. */
  method PlanPurge(g: Graph, scopes: set<Scope>, cutoff: int, rows: seq<NodeId>) returns (r: Result<Retirement, Refusal>)
    requires Distinct(rows) && forall id :: id in rows <==> id in MemoriesIn(g, scopes)
    ensures r == PurgePlan(g, scopes, cutoff)
  {
    if cutoff <= 0 { return Err(BadCutoff); }
    var doomed: seq<NodeId> := [];
    for i := 0 to |rows|
      invariant forall id :: id in doomed <==> id in rows[..i] && id in Doomed(g, scopes, cutoff)
      invariant Distinct(doomed)
    {
      assert rows[i] in rows && rows[i] !in rows[..i];
      if TombstonedBefore(g.nodes[rows[i]], cutoff) {
        doomed := doomed + [rows[i]];
      }
    }
    assert rows[..|rows|] == rows;
    assert Elements(doomed) == Doomed(g, scopes, cutoff);
    SortIdsIsSorted(doomed);
    var ids := SortIds(doomed);
    r := Ok(Retirement(Removes(ids), ids));
  }

  /** The graph without some nodes and without the edges that touch them. */
  function Without(g: Graph, ids: set<NodeId>): Graph {
    Graph(g.nodes - ids, map e | e in g.edges && g.edges[e].from !in ids && g.edges[e].to !in ids :: g.edges[e])
  }

  lemma {:induction false} RunRemoves(g: Graph, ids: seq<NodeId>, w: int)
    requires Distinct(ids) && forall id | id in ids :: id in g.nodes
    ensures Run(g, Removes(ids), w) == Ok(Without(g, Elements(ids)))
    decreases |ids|
  {
    if ids == [] {
      assert Removes(ids) == [] && Without(g, {}).nodes == g.nodes && Without(g, {}).edges == g.edges;
      assert Elements(ids) == {};
    } else {
      assert ids[0] in ids;
      var g' := ApplyOp(g, RemoveNode(ids[0]), w).value;
      assert Removes(ids)[1..] == Removes(ids[1..]);
      forall id | id in ids[1..] ensures id in g'.nodes { assert id in ids; }
      RunRemoves(g', ids[1..], w);
      var a, b := Without(g', Elements(ids[1..])), Without(g, Elements(ids));
      assert Elements(ids) == {ids[0]} + Elements(ids[1..]);
      assert a.nodes == b.nodes;
      assert a.edges == b.edges;
    }
  }

  /** Batches with no creates and no upserts reach the apply loop unchanged. */
  lemma PlainBatchCommits(tx: Codec, g: Graph, ops: seq<Op>, w: int)
    requires forall op | op in ops :: !op.CreateNode? && !op.UpsertNode? && !op.CreateEdge?
    ensures Commit(tx, g, ops, w) ==
            match Run(g, ops, w) { case Ok(g') => Ok(Applied(g', map[])) case Err(e) => Err(e) }
  {
    NoEdgesOk(g, map[], ops);
    NoCreatesFresh(g, {}, ops);
    RewriteWithoutUpserts(tx, g, ops, map[]);
  }

  lemma {:induction false} NoEdgesOk(g: Graph, created: map<NodeId, Scope>, ops: seq<Op>)
    requires forall op | op in ops :: !op.CreateNode? && !op.CreateEdge?
    ensures EdgeScopesOk(g, created, ops)
  {
    if ops != [] {
      assert ops[0] in ops;
      NoEdgesOk(g, created, ops[1..]);
    }
  }

  lemma PurgeRuns(tx: Codec, g: Graph, ids: seq<NodeId>, w: int)
    requires Ascending(ids) && forall id | id in ids :: id in g.nodes
    ensures Commit(tx, g, Removes(ids), w) == Ok(Applied(Without(g, Elements(ids)), map[]))
  {
    PlainBatchCommits(tx, g, Removes(ids), w);
    RunRemoves(g, ids, w);
  }

  /** Purge always commits, and removes exactly the memories of the scopes tombstoned
      strictly before the cutoff, with the edges that touch them; planning it again finds
      nothing. */
  lemma PurgeExact(tx: Codec, g: Graph, scopes: set<Scope>, cutoff: int, w: int)
    requires cutoff > 0
    ensures var after := Without(g, Doomed(g, scopes, cutoff));
            && Commit(tx, g, PurgePlan(g, scopes, cutoff).value.ops, w) == Ok(Applied(after, map[]))
            && (forall id | id in g.nodes && id !in after.nodes :: g.nodes[id].tag == MEMORY && !Live(g.nodes[id]) && TombstonedBefore(g.nodes[id], cutoff))
            && PurgePlan(after, scopes, cutoff) == Ok(Retirement([], []))
  {
    var ids := Sorted(Doomed(g, scopes, cutoff));
    PurgeRuns(tx, g, ids, w);
    assert Elements(ids) == Doomed(g, scopes, cutoff);
    assert Doomed(Without(g, Doomed(g, scopes, cutoff)), scopes, cutoff) == {};
    assert Removes([]) == [];
  }

  /** A planned supersede or forget always commits, and changes exactly the marked memories
      and their open out-edges of the write scope. */
  lemma RetireCommits(tx: Codec, g: Graph, scope: Scope, verb: Verb, ids: seq<string>, now: int, w: int)
    requires RetirePlan(tx, g, scope, verb, ids, now).Ok?
    ensures var plan := RetirePlan(tx, g, scope, verb, ids, now).value;
            var marks := Elements(plan.marked);
            Commit(tx, g, plan.ops, w) == Ok(Applied(Retired(g, marks, OpenFrom(g, scope, marks), verb, now, w), map[]))
  {
    RetireOpsAre(tx, g, scope, verb, ids, {}, now);
    PlainBatchCommits(tx, g, RetirePlan(tx, g, scope, verb, ids, now).value.ops, w);
    RetireRuns(tx, g, g, scope, verb, ids, {}, now, w);
  }

  // ----- runs -----

  datatype Act =
    | Remembering(scope: Scope, lookup: set<Scope>, req: Request, mint: Mint)
    | Retiring(verb: Verb, scope: Scope, ids: seq<string>)
    | Purging(scopes: set<Scope>, cutoff: int)

  /** One call: what is asked, the planner's clock, and the applier's write instant. */
  datatype Call = Call(act: Act, now: int, w: int)

  /** The graph, and every node id that was ever in it. */
  datatype World = World(graph: Graph, born: set<NodeId>)

  /** Callers look names up in their own write scope too, and ULIDs are never reused. */
  ghost predicate Allowed(s: World, c: Call) {
    c.act.Remembering? ==>
      && Enough(c.act.mint, c.act.req) && Fresh(c.act.mint, s.graph) && c.act.scope in c.act.lookup
      && c.act.mint.memory !in s.born && forall id | id in c.act.mint.entities :: id !in s.born
  }

  function PlannedOps(tx: Codec, g: Graph, c: Call): Result<seq<Op>, Refusal>
    requires c.act.Remembering? ==> Enough(c.act.mint, c.act.req)
  {
    match c.act
    case Remembering(scope, lookup, req, mint) =>
      (match RememberPlan(tx, g, scope, lookup, c.now, req, mint) { case Ok(p) => Ok(p.ops) case Err(e) => Err(e) })
    case Retiring(verb, scope, ids) =>
      (match RetirePlan(tx, g, scope, verb, ids, c.now) { case Ok(r) => Ok(r.ops) case Err(e) => Err(e) })
    case Purging(scopes, cutoff) =>
      (match PurgePlan(g, scopes, cutoff) { case Ok(r) => Ok(r.ops) case Err(e) => Err(e) })
  }

  /** A call that is refused, or whose batch is rejected, changes nothing. */
  function Next(tx: Codec, s: World, c: Call): World
    requires c.act.Remembering? ==> Enough(c.act.mint, c.act.req)
  {
    match PlannedOps(tx, s.graph, c)
    case Err(_) => s
    case Ok(ops) =>
      match Commit(tx, s.graph, ops, c.w)
      case Err(_) => s
      case Ok(applied) => World(applied.graph, s.born + applied.graph.nodes.Keys)
  }

  ghost predicate AllowedRun(tx: Codec, s: World, cs: seq<Call>)
    decreases |cs|
  {
    cs == [] || (Allowed(s, cs[0]) && AllowedRun(tx, Next(tx, s, cs[0]), cs[1..]))
  }

  ghost function After(tx: Codec, s: World, cs: seq<Call>): World
    requires AllowedRun(tx, s, cs)
    decreases |cs|
  {
    if cs == [] then s else After(tx, Next(tx, s, cs[0]), cs[1..])
  }

  // ----- what every call keeps -----

  /** A live memory whose hash stamp is that of its content. */
  predicate IsStampedLive(tx: Codec, n: Node) {
    && n.tag == MEMORY && Live(n) && CONTENT in n.props && n.props[CONTENT].Str?
    && CONTENT_HASH in n.props && n.props[CONTENT_HASH] == Str(ContentHash(tx, n.props[CONTENT].s))
  }

  predicate Twins(tx: Codec, a: Node, b: Node) {
    && IsStampedLive(tx, a) && IsStampedLive(tx, b) && a.scope == b.scope
    && Collapse(a.props[CONTENT].s) == Collapse(b.props[CONTENT].s)
  }

  /** Per scope and normalized content there is at most one live stamped memory. */
  ghost predicate OneLivePerContent(tx: Codec, g: Graph) {
    forall a, b | a in g.nodes && b in g.nodes && Twins(tx, g.nodes[a], g.nodes[b]) :: a == b
  }

  /** A well-formed graph whose nodes are all on record. */
  ghost predicate Grounded(s: World) {
    WellFormed(s.graph) && s.graph.nodes.Keys <= s.born
  }

  /** A node that stays keeps its scope, label and properties; only missing tombstones are added. */
  predicate Aged(n: Node, n': Node) {
    && n'.scope == n.scope && n'.tag == n.tag
    && n'.props.Keys - {SUPERSEDED_AT, FORGOTTEN_AT} == n.props.Keys - {SUPERSEDED_AT, FORGOTTEN_AT}
    && forall k | k in n.props :: k in n'.props && n'.props[k] == n.props[k]
  }

  /** The life of an id: unborn, active, retired (tombstoned memory), gone. */
  function Stage(s: World, id: NodeId): nat {
    if id !in s.born then 0
    else if id !in s.graph.nodes then 3
    else if s.graph.nodes[id].tag == MEMORY && !Live(s.graph.nodes[id]) then 2
    else 1
  }

  /** One call: each id's life advances by at most one stage, and what stays only ages. */
  ghost predicate StepOk(s: World, s': World) {
    && (forall id :: Stage(s', id) == Stage(s, id) || Stage(s', id) == Stage(s, id) + 1)
    && (forall id | id in s.graph.nodes && id in s'.graph.nodes :: Aged(s.graph.nodes[id], s'.graph.nodes[id]))
  }

  lemma StampedAges(n: Node, prop: string, at: int)
    requires prop in {SUPERSEDED_AT, FORGOTTEN_AT} && prop !in n.props
    ensures Aged(n, Stamped(n, prop, at)) && !Live(Stamped(n, prop, at))
  {
  }

  /** What a retirement does to the nodes. */
  ghost predicate NodesRetired(g: Graph, g': Graph, marks: set<NodeId>) {
    && g'.nodes.Keys == g.nodes.Keys
    && forall id | id in g.nodes ::
         && Aged(g.nodes[id], g'.nodes[id])
         && (if id in marks then g.nodes[id].tag == MEMORY && !Live(g'.nodes[id]) else g'.nodes[id] == g.nodes[id])
  }

  lemma RetireAges(tx: Codec, g: Graph, scope: Scope, verb: Verb, ids: seq<string>, now: int, w: int)
    requires RetirePlan(tx, g, scope, verb, ids, now).Ok?
    ensures var plan := RetirePlan(tx, g, scope, verb, ids, now).value;
            var r := Commit(tx, g, plan.ops, w);
            r.Ok? && NodesRetired(g, r.value.graph, Elements(plan.marked))
  {
    RetireCommits(tx, g, scope, verb, ids, now, w);
    MarkedExactly(tx, g, scope, verb, ids, {}, now);
    var marks := Elements(RetirePlan(tx, g, scope, verb, ids, now).value.marked);
    var g' := Retired(g, marks, OpenFrom(g, scope, marks), verb, now, w);
    forall id | id in g.nodes
      ensures Aged(g.nodes[id], g'.nodes[id])
      ensures if id in marks then g.nodes[id].tag == MEMORY && !Live(g'.nodes[id]) else g'.nodes[id] == g.nodes[id]
    {
      if id in marks { StampedAges(g.nodes[id], Tombstone(verb), now); }
    }
  }

  lemma NextKeepsWellFormed(tx: Codec, s: World, c: Call)
    requires WellFormed(s.graph) && (c.act.Remembering? ==> Enough(c.act.mint, c.act.req))
    ensures WellFormed(Next(tx, s, c).graph)
  {
    var ops := PlannedOps(tx, s.graph, c);
    if ops.Ok? && Commit(tx, s.graph, ops.value, c.w).Ok? {
      CommitKeepsWellFormed(tx, s.graph, ops.value, c.w);
    }
  }

  lemma NoTwinAfterRemember(tx: Codec, g: Graph, scope: Scope, lookup: set<Scope>, now: int, req: Request, mint: Mint, g': Graph, d: Delta)
    requires Planning(tx, g, scope, lookup, now, req, mint)
    requires d == DeltaOf(tx, g, scope, lookup, now, req, mint, d.w) && NodesBecame(g, g', d)
    requires OneLivePerContent(tx, g)
    ensures OneLivePerContent(tx, g')
  {
    MatchesAfter(tx, g, scope, lookup, now, req, mint, g', d, req.content);
    MatchesAre(tx, g, scope, req.content);
    NewMemoryIs(tx, req);
    if d.props.Some? {
      var existing := ExistingMemory(tx, g, scope, req.content);
      forall y | y in Matches(tx, g, scope, req.content) ensures y in ParsedIds(tx, req.supersedes) {
        assert Twins(tx, g.nodes[y], g.nodes[existing.value]);
      }
    }
    NoTwinOfDelta(tx, g, g', d, req.content);
  }

  lemma NoTwinOfDelta(tx: Codec, g: Graph, g': Graph, d: Delta, content: string)
    requires NodesBecame(g, g', d) && OneLivePerContent(tx, g)
    requires d.props.Some? ==> IsMatch(tx, Node(d.scope, MEMORY, d.props.value), d.scope, content)
    requires d.props.Some? ==> Matches(tx, g', d.scope, content) == {d.memory}
    ensures OneLivePerContent(tx, g')
  {
    forall id | id in g'.nodes && IsStampedLive(tx, g'.nodes[id]) && !(d.props.Some? && id == d.memory)
      ensures id in g.nodes && g'.nodes[id] == g.nodes[id]
    {
      if id in g.nodes { assert id !in d.marks; }
    }
    if d.props.Some? {
      MatchesAre(tx, g', d.scope, content);
      forall b | b in g'.nodes && Twins(tx, g'.nodes[d.memory], g'.nodes[b]) ensures b == d.memory {
        assert b in Matches(tx, g', d.scope, content);
      }
    }
  }

  lemma RememberStep(tx: Codec, s: World, c: Call)
    requires Grounded(s) && Allowed(s, c) && c.act.Remembering?
    ensures StepOk(s, Next(tx, s, c))
    ensures OneLivePerContent(tx, s.graph) ==> OneLivePerContent(tx, Next(tx, s, c).graph)
  {
    var g := s.graph;
    var Remembering(scope, lookup, req, mint) := c.act;
    var plan := RememberPlan(tx, g, scope, lookup, c.now, req, mint);
    if plan.Ok? && Commit(tx, g, plan.value.ops, c.w).Ok? {
      RememberCommits(tx, g, scope, lookup, c.now, req, mint, c.w);
      RememberSteps(tx, g, scope, lookup, c.now, req, mint, c.w, s.born);
    }
  }

  lemma RememberSteps(tx: Codec, g: Graph, scope: Scope, lookup: set<Scope>, now: int, req: Request, mint: Mint, w: int, born: set<NodeId>)
    requires Planning(tx, g, scope, lookup, now, req, mint)
    requires g.nodes.Keys <= born && mint.memory !in born && forall id | id in mint.entities :: id !in born
    ensures var g' := Remembered(tx, g, scope, lookup, now, req, mint, w);
            && StepOk(World(g, born), World(g', born + g'.nodes.Keys))
            && (OneLivePerContent(tx, g) ==> OneLivePerContent(tx, g'))
  {
    RememberedIs(tx, g, scope, lookup, now, req, mint, w);
    var d := DeltaOf(tx, g, scope, lookup, now, req, mint, w);
    var g' := Remembered(tx, g, scope, lookup, now, req, mint, w);
    DeltaAges(tx, g, scope, lookup, now, req, mint, g', d, born);
    if OneLivePerContent(tx, g) {
      NoTwinAfterRemember(tx, g, scope, lookup, now, req, mint, g', d);
    }
  }

  lemma RetireStep(tx: Codec, s: World, c: Call)
    requires Grounded(s) && c.act.Retiring?
    ensures StepOk(s, Next(tx, s, c))
    ensures OneLivePerContent(tx, s.graph) ==> OneLivePerContent(tx, Next(tx, s, c).graph)
  {
    var Retiring(verb, scope, ids) := c.act;
    if RetirePlan(tx, s.graph, scope, verb, ids, c.now).Ok? {
      RetireAges(tx, s.graph, scope, verb, ids, c.now, c.w);
    }
  }

  lemma PurgeStep(tx: Codec, s: World, c: Call)
    requires Grounded(s) && c.act.Purging?
    ensures StepOk(s, Next(tx, s, c))
    ensures OneLivePerContent(tx, s.graph) ==> OneLivePerContent(tx, Next(tx, s, c).graph)
  {
    if c.act.cutoff > 0 {
      PurgeExact(tx, s.graph, c.act.scopes, c.act.cutoff, c.w);
    }
  }

  lemma DeltaAges(tx: Codec, g: Graph, scope: Scope, lookup: set<Scope>, now: int, req: Request, mint: Mint, g': Graph, d: Delta, born: set<NodeId>)
    requires Planning(tx, g, scope, lookup, now, req, mint)
    requires d == DeltaOf(tx, g, scope, lookup, now, req, mint, d.w) && NodesBecame(g, g', d)
    requires g.nodes.Keys <= born && mint.memory !in born && forall id | id in mint.entities :: id !in born
    ensures StepOk(World(g, born), World(g', born + g'.nodes.Keys))
  {
    MintedLinks(tx, g, scope, lookup, req, mint);
    MarksAre(tx, g, scope, req.supersedes, now);
    if d.props.Some? { NewMemoryIs(tx, req); }
    RememberAges(g, g', d, born);
  }

  lemma MintedLinks(tx: Codec, g: Graph, scope: Scope, lookup: set<Scope>, req: Request, mint: Mint)
    requires Enough(mint, req) && Validate(tx, req).Ok?
    ensures forall l | l in Links(tx, g, scope, lookup, req, mint) && l.entity.created :: l.entity.id in mint.entities
  {
    var ks := KeptEntities(tx, g, lookup, req, mint);
    KeptIs(tx, g, lookup, req, mint);
    PlannedLinksAre(tx, g, scope, lookup, Validate(tx, req).value, req, mint);
    forall l | l in Links(tx, g, scope, lookup, req, mint) && l.entity.created ensures l.entity.id in mint.entities {
      var i :| 0 <= i < |ks| && l == Links(tx, g, scope, lookup, req, mint)[i];
      assert ks[i] in ks;
    }
  }

  lemma RememberAges(g: Graph, g': Graph, d: Delta, born: set<NodeId>)
    requires NodesBecame(g, g', d) && g.nodes.Keys <= born
    requires forall id | id in d.marks :: SUPERSEDED_AT !in g.nodes[id].props
    requires forall l | l in d.links && l.entity.created :: l.entity.id !in born
    requires d.props.Some? ==> d.memory !in born && SUPERSEDED_AT !in d.props.value && FORGOTTEN_AT !in d.props.value
    ensures StepOk(World(g, born), World(g', born + g'.nodes.Keys))
  {
    forall id | id in g.nodes
      ensures Aged(g.nodes[id], g'.nodes[id]) && (id in d.marks ==> !Live(g'.nodes[id]))
    {
      if id in d.marks { StampedAges(g.nodes[id], SUPERSEDED_AT, d.now); }
    }
  }

  /** Any call advances each id's life by at most one stage and only ages what stays, from any
      graph; and it makes no second live memory of a content where there was at most one. */
  lemma CallStep(tx: Codec, s: World, c: Call)
    requires Grounded(s) && Allowed(s, c)
    ensures Grounded(Next(tx, s, c)) && StepOk(s, Next(tx, s, c))
    ensures OneLivePerContent(tx, s.graph) ==> OneLivePerContent(tx, Next(tx, s, c).graph)
  {
    NextKeepsWellFormed(tx, s, c);
    match c.act
    case Remembering(_, _, _, _) => RememberStep(tx, s, c);
    case Retiring(_, _, _) => RetireStep(tx, s, c);
    case Purging(_, _) => PurgeStep(tx, s, c);
  }

  /** Over every run, from any graph: no id's life ever goes back, so a tombstoned memory is
      never live again and a purged one never returns; and what is still there has kept its
      content and every tombstone it had. Where contents had at most one live stamped memory
      per scope, they still have. */
  lemma {:induction false} LifecycleRun(tx: Codec, s: World, cs: seq<Call>)
    requires Grounded(s) && AllowedRun(tx, s, cs)
    ensures Grounded(After(tx, s, cs))
    ensures forall id :: Stage(s, id) <= Stage(After(tx, s, cs), id)
    ensures forall id | id in s.graph.nodes && id in After(tx, s, cs).graph.nodes :: Aged(s.graph.nodes[id], After(tx, s, cs).graph.nodes[id])
    ensures OneLivePerContent(tx, s.graph) ==> OneLivePerContent(tx, After(tx, s, cs).graph)
    decreases |cs|
  {
    if cs != [] {
      var s' := Next(tx, s, cs[0]);
      CallStep(tx, s, cs[0]);
      LifecycleRun(tx, s', cs[1..]);
      forall id | id in s.graph.nodes && id in After(tx, s, cs).graph.nodes
        ensures Aged(s.graph.nodes[id], After(tx, s, cs).graph.nodes[id])
      {
        assert Stage(s', id) <= Stage(After(tx, s, cs), id);
        assert id in s'.graph.nodes;
      }
    }
  }
}
