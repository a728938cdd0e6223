/** The composed write verbs: each reads a graph and plans ONE atomic batch.
    A verb is a method with the source's loops, proved equal to a planning function;
    the theorems about what plans do are stated over the functions. */
module Compose {
  import opened Text
  import opened Store
  import opened Json

  datatype Refusal =
    | BadRequest(reason: string)
    | BadId(raw: string)
    | NoIds
    | NotInScope(id: NodeId)
    | NotAMemory(id: NodeId)
    | AlreadyForgotten(id: NodeId)
    | AlreadySuperseded(id: NodeId)
    | BadCutoff

  // ----- memories -----

  /** A memory is live iff no tombstone property is present, whatever its value. */
  predicate Live(n: Node) {
    SUPERSEDED_AT !in n.props && FORGOTTEN_AT !in n.props
  }

  predicate HasContent(n: Node, want: string) {
    CONTENT in n.props && n.props[CONTENT].Str? && Collapse(n.props[CONTENT].s) == want
  }

  /** Live memories of `scope` in the content-hash bucket whose stored text normalizes to
      the wanted content. */
  function Matches(tx: Codec, g: Graph, scope: Scope, content: string): set<NodeId> {
    var bucket := NodesByProp(g, {scope}, MEMORY, CONTENT_HASH, Str(ContentHash(tx, content)));
    set id | id in bucket && Live(g.nodes[id]) && HasContent(g.nodes[id], Collapse(content))
  }

  /** The oldest match, if any. */
  function ExistingMemory(tx: Codec, g: Graph, scope: Scope, content: string): Option<NodeId> {
    var hits := Matches(tx, g, scope, content);
    if hits == {} then None else Some(Least(hits))
  }

  const RESERVED := {CONTENT_HASH, SUPERSEDED_AT, FORGOTTEN_AT, KIND}

  /** Properties of a new memory: the caller's extras, which must not name a system-kept
      key, plus the content and its hash. */
  function MemoryProps(tx: Codec, content: string, extra: Option<Json>): Result<Props, string> {
    if extra.Some? && extra.value.Object? && extra.value.fields.Keys * RESERVED != {} then
      Err("props must not include a key maintained by the write path")
    else
      match MergeRequired(CONTENT, Str(content), extra)
      case Err(e) => Err(e)
      case Ok(props) => Ok(props[CONTENT_HASH := Str(ContentHash(tx, content))])
  }

  // ----- retiring memories: supersede and forget -----

  datatype Verb = Supersede | Forget

  function Tombstone(verb: Verb): string {
    if verb == Supersede then SUPERSEDED_AT else FORGOTTEN_AT
  }

  /** Whether `id` is to be marked (`Ok(true)`), skipped (`Ok(false)`) or refuses the call.
      Supersede is a bulk mark that skips what is already superseded; forget is a judgment
      on live memories only. */
  function Judge(g: Graph, scope: Scope, verb: Verb, id: NodeId): Result<bool, Refusal> {
    match NodeIn(g, {scope}, id)
    case None => Err(NotInScope(id))
    case Some(n) =>
      if n.tag != MEMORY then Err(NotAMemory(id))
      else if verb == Supersede then Ok(SUPERSEDED_AT !in n.props)
      else if FORGOTTEN_AT in n.props then Err(AlreadyForgotten(id))
      else if SUPERSEDED_AT in n.props then Err(AlreadySuperseded(id))
      else Ok(true)
  }

  function Closes(es: seq<EdgeId>): seq<Op> {
    seq(|es|, i requires 0 <= i < |es| => CloseEdge(es[i], None))
  }

  /** Stamp one memory and close its open out-edges in the write scope. */
  function RetireOps(g: Graph, scope: Scope, verb: Verb, id: NodeId, now: int): seq<Op> {
    [SetNodeProps(id, map[Tombstone(verb) := Some(Int(now))])] + Closes(Sorted(OpenOut(g, {scope}, id)))
  }

  datatype Retirement = Retirement(ops: seq<Op>, marked: seq<NodeId>)

  function Before(r: Retirement, rest: Result<Retirement, Refusal>): Result<Retirement, Refusal> {
    match rest
    case Err(e) => Err(e)
    case Ok(s) => Ok(Retirement(r.ops + s.ops, r.marked + s.marked))
  }

  lemma BeforeUnits(rest: Result<Retirement, Refusal>, r: Retirement)
    ensures Before(Retirement([], []), rest) == rest
    ensures Before(r, Ok(Retirement([], []))) == Ok(r)
  {
    if rest.Ok? {
      assert [] + rest.value.ops == rest.value.ops && [] + rest.value.marked == rest.value.marked;
    }
    assert r.ops + [] == r.ops && r.marked + [] == r.marked;
  }

  lemma BeforeAssociates(a: Retirement, b: Retirement, rest: Result<Retirement, Refusal>)
    ensures Before(a, Before(b, rest)) == Before(Retirement(a.ops + b.ops, a.marked + b.marked), rest)
  {
    if rest.Ok? {
      assert a.ops + (b.ops + rest.value.ops) == (a.ops + b.ops) + rest.value.ops;
      assert a.marked + (b.marked + rest.value.marked) == (a.marked + b.marked) + rest.value.marked;
    }
  }

  function RetireAll(tx: Codec, g: Graph, scope: Scope, verb: Verb, ids: seq<string>, seen: set<NodeId>, now: int): Result<Retirement, Refusal>
    decreases |ids|
  {
    if ids == [] then Ok(Retirement([], []))
    else
      match tx.parseId(ids[0])
      case None => Err(BadId(ids[0]))
      case Some(id) =>
        if id in seen then RetireAll(tx, g, scope, verb, ids[1..], seen, now)
        else
          match Judge(g, scope, verb, id)
          case Err(e) => Err(e)
          case Ok(mark) =>
            var rest := RetireAll(tx, g, scope, verb, ids[1..], seen + {id}, now);
            if mark then Before(Retirement(RetireOps(g, scope, verb, id, now), [id]), rest) else rest
  }

  function RetirePlan(tx: Codec, g: Graph, scope: Scope, verb: Verb, ids: seq<string>, now: int): Result<Retirement, Refusal> {
    if verb == Forget && ids == [] then Err(NoIds)
    else RetireAll(tx, g, scope, verb, ids, {}, now)
  }

  /** `plan_supersede` and `plan_forget`: one pass over the ids with a `seen` set. */
  method PlanRetire(tx: Codec, g: Graph, scope: Scope, verb: Verb, ids: seq<string>, now: int)
    returns (r: Result<Retirement, Refusal>)
    ensures r == RetirePlan(tx, g, scope, verb, ids, now)
  {
    if verb == Forget && ids == [] { return Err(NoIds); }
    var ops: seq<Op> := [];
    var marked: seq<NodeId> := [];
    var seen: set<NodeId> := {};
    BeforeUnits(RetireAll(tx, g, scope, verb, ids, {}, now), Retirement(ops, marked));
    assert ids[0..] == ids;
    for i := 0 to |ids|
      invariant RetireAll(tx, g, scope, verb, ids, {}, now) ==
                Before(Retirement(ops, marked), RetireAll(tx, g, scope, verb, ids[i..], seen, now))
    {
      assert ids[i..][0] == ids[i] && ids[i..][1..] == ids[i + 1..];
      var parsed := tx.parseId(ids[i]);
      if parsed.None? { return Err(BadId(ids[i])); }
      var id := parsed.value;
      if id !in seen {
        var verdict := Judge(g, scope, verb, id);
        if verdict.Err? { return Err(verdict.error); }
        seen := seen + {id};
        if verdict.value {
          ghost var rest := RetireAll(tx, g, scope, verb, ids[i + 1..], seen, now);
          var more := RetireOps(g, scope, verb, id, now);
          BeforeAssociates(Retirement(ops, marked), Retirement(more, [id]), rest);
          ops := ops + more;
          marked := marked + [id];
        }
      }
    }
    BeforeUnits(Ok(Retirement(ops, marked)), Retirement(ops, marked));
    r := Ok(Retirement(ops, marked));
  }

  // ----- entities -----

  /** Canonical entities for a name: direct matches, and aliases followed through their
      open `alias_of` edges. */
  function FindEntities(tx: Codec, g: Graph, lookup: set<Scope>, name: string): set<NodeId> {
    var direct := NodesByKey(tx, g, lookup, ENTITY, NAME, Str(name));
    var aliases := NodesByKey(tx, g, lookup, ALIAS, NAME, Str(name));
    direct + set e | e in g.edges && IsAliasEdge(g, lookup, aliases, g.edges[e]) :: g.edges[e].to
  }

  predicate IsAliasEdge(g: Graph, lookup: set<Scope>, aliases: set<NodeId>, e: Edge) {
    && e.from in aliases && e.scope in lookup && e.validTo.None? && e.ty == ALIAS_OF
    && NodeIn(g, lookup, e.to).Some? && g.nodes[e.to].tag == ENTITY
  }

  /** The oldest canonical entity, if any; `None` means "create it". */
  function FindExisting(tx: Codec, g: Graph, lookup: set<Scope>, name: string): Option<NodeId> {
    var hits := FindEntities(tx, g, lookup, name);
    if hits == {} then None else Some(Least(hits))
  }

  datatype Planned = Planned(name: string, id: NodeId, created: bool)

  /** First spelling of each name key, in request order. */
  function DistinctNames(tx: Codec, names: seq<string>, seen: set<string>): (r: seq<string>)
    ensures |r| <= |names|
  {
    if names == [] then []
    else if NameKey(tx, names[0]) in seen then DistinctNames(tx, names[1..], seen)
    else [names[0]] + DistinctNames(tx, names[1..], seen + {NameKey(tx, names[0])})
  }

  function ResolveName(tx: Codec, g: Graph, lookup: set<Scope>, name: string, minted: NodeId): Planned {
    match FindExisting(tx, g, lookup, name)
    case Some(id) => Planned(name, id, false)
    case None => Planned(name, minted, true)
  }

  function ResolveNames(tx: Codec, g: Graph, lookup: set<Scope>, names: seq<string>, minted: seq<NodeId>): (r: seq<Planned>)
    requires |names| <= |minted|
    ensures |r| == |names|
  {
    seq(|names|, i requires 0 <= i < |names| => ResolveName(tx, g, lookup, names[i], minted[i]))
  }

  /** Two names resolving to one node keep the first. */
  function RetainFirst(rs: seq<Planned>, seen: set<NodeId>): (r: seq<Planned>)
    ensures |r| <= |rs|
  {
    if rs == [] then []
    else if rs[0].id in seen then RetainFirst(rs[1..], seen)
    else [rs[0]] + RetainFirst(rs[1..], seen + {rs[0].id})
  }

  // ----- remember -----

  datatype Request = Request(
    content: string,
    entities: seq<string>,
    edgeType: Option<string>,
    supersedes: seq<string>,
    props: Option<Json>,
    kind: Option<string>)

  /** The fresh ULIDs one call may draw. */
  datatype Mint = Mint(memory: NodeId, entities: seq<NodeId>, edges: seq<EdgeId>)

  predicate Enough(mint: Mint, req: Request) {
    |req.entities| <= |mint.entities| && |req.entities| <= |mint.edges|
  }

  predicate Distinct(ids: seq<nat>) {
    forall i, j | 0 <= i < j < |ids| :: ids[i] != ids[j]
  }

  /** ULIDs are minted once: none is in the graph, and no two are equal. */
  predicate Fresh(mint: Mint, g: Graph) {
    && mint.memory !in g.nodes && mint.memory !in mint.entities
    && Distinct(mint.entities) && Distinct(mint.edges)
    && (forall id | id in mint.entities :: id !in g.nodes)
    && (forall e | e in mint.edges :: e !in g.edges)
  }

  datatype Link = Link(entity: Planned, edge: EdgeId, isNew: bool)

  datatype Plan = Plan(
    ops: seq<Op>,
    memory: NodeId,
    deduplicated: bool,
    newMemory: Option<string>,
    entities: seq<Planned>,
    edgeIds: seq<EdgeId>,
    superseded: seq<NodeId>)

  const KINDS := {"episodic", "semantic", "procedural", "decision"}

  /** Input-only validation; the normalized edge type on success. */
  function Validate(tx: Codec, req: Request): Result<string, string> {
    match EdgeType(tx, if req.edgeType.Some? then req.edgeType.value else "about")
    case Err(e) => Err(e)
    case Ok(ty) =>
      if req.entities == [] then Err("entities must contain at least one name")
      else if exists n | n in req.entities :: Words(IsSpace, n) == [] then Err("entity names must be non-empty")
      else if req.kind.Some? && req.kind.value !in KINDS then Err("kind must be one of the four kinds")
      else Ok(ty)
  }

  function NewMemoryProps(tx: Codec, req: Request): Result<Props, string> {
    match MemoryProps(tx, req.content, req.props)
    case Err(e) => Err(e)
    case Ok(props) => Ok(if req.kind.Some? then props[KIND := Str(req.kind.value)] else props)
  }

  function FirstBadId(tx: Codec, raws: seq<string>): Option<string> {
    if raws == [] then None
    else if tx.parseId(raws[0]).None? then Some(raws[0])
    else FirstBadId(tx, raws[1..])
  }

  function ParsedIds(tx: Codec, raws: seq<string>): set<NodeId> {
    set raw | raw in raws && tx.parseId(raw).Some? :: tx.parseId(raw).value
  }

  /** Newest open edge of the type from `memory` to `to` in the write scope. */
  function LinkedEdge(g: Graph, scope: Scope, memory: NodeId, ty: string, to: NodeId): Option<EdgeId> {
    var es := Sorted(set e | e in OpenOutOfType(g, {scope}, memory, ty) && g.edges[e].to == to);
    if es == [] then None else Some(es[|es| - 1])
  }

  function LinkOne(g: Graph, scope: Scope, memory: NodeId, ty: string, dedup: bool, r: Planned, minted: EdgeId): Link {
    var linked := LinkedEdge(g, scope, memory, ty, r.id);
    if dedup && linked.Some? then Link(r, linked.value, false) else Link(r, minted, true)
  }

  function LinkAll(g: Graph, scope: Scope, memory: NodeId, ty: string, dedup: bool, rs: seq<Planned>, minted: seq<EdgeId>): (ls: seq<Link>)
    requires |rs| <= |minted|
    ensures |ls| == |rs|
  {
    seq(|rs|, i requires 0 <= i < |rs| => LinkOne(g, scope, memory, ty, dedup, rs[i], minted[i]))
  }

  function EntityProps(name: string): Props {
    map[NAME := Str(name)]
  }

  function LinkOps(scope: Scope, memory: NodeId, ty: string, l: Link): seq<Op> {
    (if l.entity.created then [UpsertNode(l.entity.id, scope, ENTITY, NAME, EntityProps(l.entity.name))] else []) +
    (if l.isNew then [CreateEdge(l.edge, scope, ty, memory, l.entity.id, map[], None)] else [])
  }

  function AllLinkOps(scope: Scope, memory: NodeId, ty: string, ls: seq<Link>): seq<Op> {
    if ls == [] then [] else LinkOps(scope, memory, ty, ls[0]) + AllLinkOps(scope, memory, ty, ls[1..])
  }

  function Entities(ls: seq<Link>): seq<Planned> {
    seq(|ls|, i requires 0 <= i < |ls| => ls[i].entity)
  }

  function EdgeIds(ls: seq<Link>): seq<EdgeId> {
    seq(|ls|, i requires 0 <= i < |ls| => ls[i].edge)
  }

  /** Deduplicate onto the existing memory unless the request supersedes that very one. */
  function Dedups(tx: Codec, g: Graph, scope: Scope, req: Request): bool {
    var existing := ExistingMemory(tx, g, scope, req.content);
    existing.Some? && existing.value !in ParsedIds(tx, req.supersedes)
  }

  function MemoryFor(tx: Codec, g: Graph, scope: Scope, req: Request, mint: Mint): NodeId {
    if Dedups(tx, g, scope, req) then ExistingMemory(tx, g, scope, req.content).value else mint.memory
  }

  function KeptEntities(tx: Codec, g: Graph, lookup: set<Scope>, req: Request, mint: Mint): (r: seq<Planned>)
    requires Enough(mint, req)
    ensures |r| <= |req.entities|
  {
    RetainFirst(ResolveNames(tx, g, lookup, DistinctNames(tx, req.entities, {}), mint.entities), {})
  }

  function PlannedLinks(tx: Codec, g: Graph, scope: Scope, lookup: set<Scope>, ty: string, req: Request, mint: Mint): seq<Link>
    requires Enough(mint, req)
  {
    LinkAll(g, scope, MemoryFor(tx, g, scope, req, mint), ty, Dedups(tx, g, scope, req),
            KeptEntities(tx, g, lookup, req, mint), mint.edges)
  }

  function CreateMemoryOps(tx: Codec, g: Graph, scope: Scope, req: Request, mint: Mint, props: Props): seq<Op> {
    if Dedups(tx, g, scope, req) then [] else [CreateNode(mint.memory, scope, MEMORY, props)]
  }

  function RememberPlan(tx: Codec, g: Graph, scope: Scope, lookup: set<Scope>, now: int, req: Request, mint: Mint): Result<Plan, Refusal>
    requires Enough(mint, req)
  {
    var ty := Validate(tx, req);
    if ty.Err? then Err(BadRequest(ty.error)) else
    var props := NewMemoryProps(tx, req);
    if props.Err? then Err(BadRequest(props.error)) else
    var bad := FirstBadId(tx, req.supersedes);
    if bad.Some? then Err(BadId(bad.value)) else
    var retire := RetirePlan(tx, g, scope, Supersede, req.supersedes, now);
    if retire.Err? then Err(retire.error) else
    var dedup := Dedups(tx, g, scope, req);
    var memory := MemoryFor(tx, g, scope, req, mint);
    var links := PlannedLinks(tx, g, scope, lookup, ty.value, req, mint);
    Ok(Plan(CreateMemoryOps(tx, g, scope, req, mint, props.value) + AllLinkOps(scope, memory, ty.value, links) + retire.value.ops,
            memory, dedup, if dedup then None else Some(req.content),
            Entities(links), EdgeIds(links), retire.value.marked))
  }
}
