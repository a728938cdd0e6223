/** `remember` twice is `remember` once. */
module Idempotence {
  import opened Text
  import opened Store
  import opened Json
  import opened Compose
  import opened Effects
  import opened Remember

  // ----- reading the graph a remember leaves behind -----

  function Marks(tx: Codec, g: Graph, scope: Scope, ids: seq<string>, now: int): set<NodeId>
    requires RetireAll(tx, g, scope, Supersede, ids, {}, now).Ok?
  {
    Elements(RetireAll(tx, g, scope, Supersede, ids, {}, now).value.marked)
  }

  /** Everything a successful plan and its fresh ids give about one request. */
  ghost predicate Planning(tx: Codec, g: Graph, scope: Scope, lookup: set<Scope>, now: int, req: Request, mint: Mint) {
    && WellFormed(g) && Enough(mint, req) && Fresh(mint, g) && scope in lookup
    && RememberPlan(tx, g, scope, lookup, now, req, mint).Ok?
  }

  function Links(tx: Codec, g: Graph, scope: Scope, lookup: set<Scope>, req: Request, mint: Mint): seq<Link>
    requires Enough(mint, req) && Validate(tx, req).Ok?
  {
    PlannedLinks(tx, g, scope, lookup, Validate(tx, req).value, req, mint)
  }

  lemma MarksAre(tx: Codec, g: Graph, scope: Scope, ids: seq<string>, now: int)
    requires RetireAll(tx, g, scope, Supersede, ids, {}, now).Ok?
    ensures forall id | id in Marks(tx, g, scope, ids, now) ::
              && id in g.nodes && g.nodes[id].tag == MEMORY && g.nodes[id].scope == scope
              && SUPERSEDED_AT !in g.nodes[id].props && id in ParsedIds(tx, ids)
    ensures forall id | id in ParsedIds(tx, ids) ::
              && id in g.nodes && g.nodes[id].tag == MEMORY && g.nodes[id].scope == scope
              && (id in Marks(tx, g, scope, ids, now) || SUPERSEDED_AT in g.nodes[id].props)
  {
    MarkedExactly(tx, g, scope, Supersede, ids, {}, now);
  }

  /** A remember seen as a difference between two graphs. */
  datatype Delta = Delta(
    scope: Scope,
    memory: NodeId,
    props: Option<Props>,
    ty: string,
    links: seq<Link>,
    marks: set<NodeId>,
    now: int,
    w: int)

  ghost predicate IsCreated(d: Delta, id: NodeId) {
    exists l :: l in d.links && l.entity.created && l.entity.id == id
  }

  ghost predicate IsNewEdge(d: Delta, e: EdgeId) {
    exists l :: l in d.links && l.isNew && l.edge == e
  }

  ghost predicate NodesBecame(g: Graph, g': Graph, d: Delta) {
    && (forall id :: id in g'.nodes <==> id in g.nodes || (d.props.Some? && id == d.memory) || IsCreated(d, id))
    && (forall id | id in g.nodes :: g'.nodes[id] == if id in d.marks then Stamped(g.nodes[id], SUPERSEDED_AT, d.now) else g.nodes[id])
    && (d.props.Some? ==> d.memory !in g.nodes && g'.nodes[d.memory] == Node(d.scope, MEMORY, d.props.value))
    && (forall l | l in d.links && l.entity.created ::
          l.entity.id !in g.nodes && l.entity.id in g'.nodes && g'.nodes[l.entity.id] == NewEntity(d.scope, l))
    && (forall id | id in d.marks :: id in g.nodes && g.nodes[id].tag == MEMORY)
    && d.memory in g'.nodes && g'.nodes[d.memory].tag == MEMORY && g'.nodes[d.memory].scope == d.scope
  }

  ghost predicate EdgesBecame(g: Graph, g': Graph, d: Delta) {
    && (forall e :: e in g'.edges <==> e in g.edges || IsNewEdge(d, e))
    && (forall e | e in g.edges :: g'.edges[e] ==
          if e in OpenFrom(g, d.scope, d.marks) then Closed(g.edges[e], d.w, d.w) else g.edges[e])
    && (forall l | l in d.links && l.isNew ::
          l.edge !in g.edges && l.edge in g'.edges && g'.edges[l.edge] == NewEdge(d.scope, d.memory, d.ty, l, d.w))
  }

  function DeltaOf(tx: Codec, g: Graph, scope: Scope, lookup: set<Scope>, now: int, req: Request, mint: Mint, w: int): Delta
    requires Enough(mint, req) && RememberPlan(tx, g, scope, lookup, now, req, mint).Ok?
  {
    Delta(scope, MemoryFor(tx, g, scope, req, mint),
          if Dedups(tx, g, scope, req) then None else Some(NewMemoryProps(tx, req).value),
          Validate(tx, req).value, Links(tx, g, scope, lookup, req, mint),
          Marks(tx, g, scope, req.supersedes, now), now, w)
  }

  ghost predicate MemoryPlaced(g: Graph, gm: Graph, d: Delta) {
    if d.props.Some? then d.memory !in g.nodes && gm.nodes == g.nodes[d.memory := Node(d.scope, MEMORY, d.props.value)]
    else gm.nodes == g.nodes && d.memory in g.nodes && g.nodes[d.memory].tag == MEMORY && g.nodes[d.memory].scope == d.scope
  }

  lemma NodesCompose(g: Graph, gm: Graph, h: Graph, g': Graph, d: Delta)
    requires MemoryPlaced(g, gm, d)
    requires forall id | id in d.marks :: id in g.nodes && g.nodes[id].tag == MEMORY
    requires forall id :: id in h.nodes <==> id in gm.nodes || IsCreated(d, id)
    requires forall id | id in gm.nodes :: h.nodes[id] == gm.nodes[id]
    requires forall l | l in d.links && l.entity.created ::
               l.entity.id !in gm.nodes && l.entity.id in h.nodes && h.nodes[l.entity.id] == NewEntity(d.scope, l)
    requires g'.nodes.Keys == h.nodes.Keys
    requires forall id | id in h.nodes :: g'.nodes[id] == if id in d.marks then Stamped(h.nodes[id], SUPERSEDED_AT, d.now) else h.nodes[id]
    ensures NodesBecame(g, g', d)
  {
  }

  lemma NodesAfterRetiring(g: Graph, gm: Graph, d: Delta)
    requires GoodLinks(gm, d.links) && MemoryPlaced(g, gm, d)
    requires forall id | id in d.marks :: id in g.nodes && g.nodes[id].tag == MEMORY
    ensures NodesBecame(g, Retired(AddLinks(gm, d.scope, d.memory, d.ty, d.links, d.w), d.marks, OpenFrom(g, d.scope, d.marks), Supersede, d.now, d.w), d)
  {
    var h := AddLinks(gm, d.scope, d.memory, d.ty, d.links, d.w);
    var es := OpenFrom(g, d.scope, d.marks);
    AddedNodes(gm, d.scope, d.memory, d.ty, d.links, d.w);
    StampedNodes(h, d.marks, es, d.now, d.w);
    NodesCompose(g, gm, h, Retired(h, d.marks, es, Supersede, d.now, d.w), d);
  }

  lemma StampedNodes(h: Graph, marks: set<NodeId>, es: set<EdgeId>, now: int, w: int)
    ensures var g' := Retired(h, marks, es, Supersede, now, w);
            && g'.nodes.Keys == h.nodes.Keys
            && (forall id | id in h.nodes :: g'.nodes[id] == if id in marks then Stamped(h.nodes[id], SUPERSEDED_AT, now) else h.nodes[id])
  {
  }

  lemma EdgesAfterRetiring(g: Graph, gm: Graph, d: Delta)
    requires GoodLinks(gm, d.links) && gm.edges == g.edges
    ensures EdgesBecame(g, Retired(AddLinks(gm, d.scope, d.memory, d.ty, d.links, d.w), d.marks, OpenFrom(g, d.scope, d.marks), Supersede, d.now, d.w), d)
  {
    AddedEdges(gm, d.scope, d.memory, d.ty, d.links, d.w);
  }

  /** A committed remember is exactly its delta. */
  lemma RememberedIs(tx: Codec, g: Graph, scope: Scope, lookup: set<Scope>, now: int, req: Request, mint: Mint, w: int)
    requires Planning(tx, g, scope, lookup, now, req, mint)
    ensures var g' := Remembered(tx, g, scope, lookup, now, req, mint, w);
            var d := DeltaOf(tx, g, scope, lookup, now, req, mint, w);
            NodesBecame(g, g', d) && EdgesBecame(g, g', d)
  {
    var d := DeltaOf(tx, g, scope, lookup, now, req, mint, w);
    var gm := WithMemory(tx, g, scope, req, mint);
    LinksAreGood(tx, g, scope, lookup, d.ty, req, mint);
    MarksAre(tx, g, scope, req.supersedes, now);
    if Dedups(tx, g, scope, req) { DedupTarget(tx, g, scope, req.content); }
    NodesAfterRetiring(g, gm, d);
    EdgesAfterRetiring(g, gm, d);
  }

  // ----- the memory -----

  /** A new memory is live, stamped and holds its content. */
  lemma NewMemoryIs(tx: Codec, req: Request)
    requires NewMemoryProps(tx, req).Ok?
    ensures var props := NewMemoryProps(tx, req).value;
            && SUPERSEDED_AT !in props && FORGOTTEN_AT !in props
            && CONTENT in props && props[CONTENT] == Str(req.content)
            && CONTENT_HASH in props && props[CONTENT_HASH] == Str(ContentHash(tx, req.content))
  {
    MergeRequiredExact(CONTENT, Str(req.content), req.props);
  }

  predicate IsMatch(tx: Codec, n: Node, scope: Scope, content: string) {
    && n.tag == MEMORY && n.scope == scope
    && CONTENT_HASH in n.props && n.props[CONTENT_HASH] == Str(ContentHash(tx, content))
    && Live(n) && HasContent(n, Collapse(content))
  }

  lemma MatchesAre(tx: Codec, g: Graph, scope: Scope, content: string)
    ensures forall id :: id in Matches(tx, g, scope, content) <==> id in g.nodes && IsMatch(tx, g.nodes[id], scope, content)
  {
  }

  /** The live matches after a remember: those it did not supersede, and its own if new. */
  lemma MatchesAfter(tx: Codec, g: Graph, scope: Scope, lookup: set<Scope>, now: int, req: Request, mint: Mint, g': Graph, d: Delta, content: string)
    requires Planning(tx, g, scope, lookup, now, req, mint)
    requires d == DeltaOf(tx, g, scope, lookup, now, req, mint, d.w) && NodesBecame(g, g', d)
    requires Collapse(content) == Collapse(req.content)
    ensures Matches(tx, g', scope, content) ==
            (Matches(tx, g, scope, req.content) - ParsedIds(tx, req.supersedes)) + (if d.props.Some? then {d.memory} else {})
    ensures d.memory !in ParsedIds(tx, req.supersedes)
  {
    MarksAre(tx, g, scope, req.supersedes, now);
    NewMemoryIs(tx, req);
    MatchesOfDelta(tx, g, g', d, req.content, content, ParsedIds(tx, req.supersedes));
  }

  lemma MatchesOfDelta(tx: Codec, g: Graph, g': Graph, d: Delta, was: string, content: string, superseded: set<NodeId>)
    requires NodesBecame(g, g', d) && Collapse(content) == Collapse(was)
    requires d.marks <= superseded
    requires forall id | id in superseded :: id in d.marks || (id in g.nodes && SUPERSEDED_AT in g.nodes[id].props)
    requires d.props.Some? ==> IsMatch(tx, Node(d.scope, MEMORY, d.props.value), d.scope, was)
    ensures Matches(tx, g', d.scope, content) ==
            (Matches(tx, g, d.scope, was) - superseded) + (if d.props.Some? then {d.memory} else {})
  {
    MatchesAre(tx, g, d.scope, was);
    MatchesAre(tx, g', d.scope, content);
    forall id ensures id in Matches(tx, g', d.scope, content) <==>
                      (id in Matches(tx, g, d.scope, was) && id !in superseded) || (d.props.Some? && id == d.memory)
    {
      if id in g.nodes {
        OldMatch(tx, g, g', d, d.scope, was, content, id);
      }
    }
  }

  /** A node that was there before matches now exactly if it matched and was not marked. */
  lemma OldMatch(tx: Codec, g: Graph, g': Graph, d: Delta, scope: Scope, was: string, content: string, id: NodeId)
    requires NodesBecame(g, g', d) && id in g.nodes && Collapse(content) == Collapse(was)
    ensures id in g'.nodes && (IsMatch(tx, g'.nodes[id], scope, content) <==> IsMatch(tx, g.nodes[id], scope, was) && id !in d.marks)
  {
    assert id in d.marks ==> !Live(g'.nodes[id]);
    assert id !in d.marks ==> g'.nodes[id] == g.nodes[id];
  }

  /** The request dedups, or every live match older than its new memory is superseded by it.
      With at most one live memory per content this always holds. */
  predicate FindsOwn(tx: Codec, g: Graph, scope: Scope, req: Request, mint: Mint) {
    || Dedups(tx, g, scope, req)
    || forall y | y in Matches(tx, g, scope, req.content) - ParsedIds(tx, req.supersedes) :: mint.memory < y
  }

  lemma UniqueFindsOwn(tx: Codec, g: Graph, scope: Scope, req: Request, mint: Mint)
    requires forall a, b | a in Matches(tx, g, scope, req.content) && b in Matches(tx, g, scope, req.content) :: a == b
    ensures FindsOwn(tx, g, scope, req, mint)
  {
  }

  /** What a caller can check beforehand, ULIDs growing with time: a request finds its own
      memory again exactly when the oldest live match survives it or none does. */
  lemma NewestFindsOwn(tx: Codec, g: Graph, scope: Scope, req: Request, mint: Mint)
    requires forall id | id in g.nodes :: id < mint.memory
    ensures FindsOwn(tx, g, scope, req, mint) <==>
            Dedups(tx, g, scope, req) || Matches(tx, g, scope, req.content) <= ParsedIds(tx, req.supersedes)
  {
    var hits, superseded := Matches(tx, g, scope, req.content), ParsedIds(tx, req.supersedes);
    assert forall y | y in hits :: y in g.nodes;
    if forall y | y in hits - superseded :: mint.memory < y {
      forall y | y in hits ensures y in superseded {
        assert y in hits - superseded ==> mint.memory < y < mint.memory;
      }
    }
  }

  // ----- the superseded ids -----

  lemma {:induction false} NothingToRetire(tx: Codec, g: Graph, scope: Scope, ids: seq<string>, seen: set<NodeId>, now: int)
    requires forall raw | raw in ids :: tx.parseId(raw).Some?
    requires forall id | id in ParsedIds(tx, ids) ::
               id in g.nodes && g.nodes[id].scope == scope && g.nodes[id].tag == MEMORY && SUPERSEDED_AT in g.nodes[id].props
    ensures RetireAll(tx, g, scope, Supersede, ids, seen, now) == Ok(Retirement([], []))
    decreases |ids|
  {
    if ids != [] {
      assert ids[0] in ids;
      var id := tx.parseId(ids[0]).value;
      assert id in ParsedIds(tx, ids);
      assert forall raw | raw in ids[1..] :: raw in ids;
      NothingToRetire(tx, g, scope, ids[1..], if id in seen then seen else seen + {id}, now);
    }
  }

  // ----- the entities -----

  lemma {:induction false} RetainsAll(rs: seq<Planned>, seen: set<NodeId>, r: Planned)
    requires r in rs && r.id !in seen
    ensures exists k :: k in RetainFirst(rs, seen) && k.id == r.id
  {
    if rs[0].id in seen {
      RetainsAll(rs[1..], seen, r);
    } else if rs[0].id == r.id {
      assert RetainFirst(rs, seen)[0].id == r.id;
    } else {
      RetainsAll(rs[1..], seen + {rs[0].id}, r);
      var k :| k in RetainFirst(rs[1..], seen + {rs[0].id}) && k.id == r.id;
      assert k in RetainFirst(rs, seen);
    }
  }

  lemma NamedAfter(tx: Codec, g: Graph, g': Graph, d: Delta, lookup: set<Scope>, tag: string, name: string)
    requires NodesBecame(g, g', d) && d.scope in lookup && tag != MEMORY
    ensures forall id :: id in NodesByKey(tx, g', lookup, tag, NAME, Str(name)) <==>
              || id in NodesByKey(tx, g, lookup, tag, NAME, Str(name))
              || (tag == ENTITY && exists l :: l in d.links && l.entity.created && l.entity.id == id
                                               && NameKey(tx, l.entity.name) == NameKey(tx, name))
  {
  }

  lemma AliasEdgesAfter(g: Graph, g': Graph, d: Delta, lookup: set<Scope>, aliases: set<NodeId>)
    requires WellFormed(g) && NodesBecame(g, g', d) && EdgesBecame(g, g', d)
    requires forall a | a in aliases :: a in g.nodes && g.nodes[a].tag == ALIAS
    ensures forall e :: e in g'.edges && IsAliasEdge(g', lookup, aliases, g'.edges[e]) <==>
                        e in g.edges && IsAliasEdge(g, lookup, aliases, g.edges[e])
    ensures forall e | e in g.edges :: g'.edges[e].to == g.edges[e].to
  {
  }

  /** Aliases and entities that were there still resolve as before, and only created
      entities with the same key are added. */
  lemma FoundAfter(tx: Codec, g: Graph, g': Graph, d: Delta, lookup: set<Scope>, name: string)
    requires WellFormed(g) && NodesBecame(g, g', d) && EdgesBecame(g, g', d) && d.scope in lookup
    ensures forall id :: id in FindEntities(tx, g', lookup, name) <==>
              || id in FindEntities(tx, g, lookup, name)
              || exists l :: l in d.links && l.entity.created && l.entity.id == id && NameKey(tx, l.entity.name) == NameKey(tx, name)
  {
    NamedAfter(tx, g, g', d, lookup, ENTITY, name);
    NamedAfter(tx, g, g', d, lookup, ALIAS, name);
    var aliases := NodesByKey(tx, g, lookup, ALIAS, NAME, Str(name));
    assert NodesByKey(tx, g', lookup, ALIAS, NAME, Str(name)) == aliases;
    AliasEdgesAfter(g, g', d, lookup, aliases);
  }

  /** Where each distinct name of a request resolves, before duplicates by id collapse. */
  function Resolutions(tx: Codec, g: Graph, lookup: set<Scope>, req: Request, mint: Mint): seq<Planned>
    requires Enough(mint, req)
  {
    ResolveNames(tx, g, lookup, DistinctNames(tx, req.entities, {}), mint.entities)
  }

  /** Where in the resolutions each planned link comes from. */
  lemma LinkOrigins(tx: Codec, g: Graph, scope: Scope, lookup: set<Scope>, ty: string, req: Request, mint: Mint) returns (at: seq<nat>)
    requires Enough(mint, req)
    ensures var rs := Resolutions(tx, g, lookup, req, mint);
            var ls := PlannedLinks(tx, g, scope, lookup, ty, req, mint);
            && DistinctKeys(tx, rs)
            && |at| == |ls| && forall j | 0 <= j < |ls| :: at[j] < |rs| && ls[j].entity == rs[at[j]]
  {
    ResolutionsApart(tx, g, lookup, req, mint, Resolutions(tx, g, lookup, req, mint));
    PlannedLinksAre(tx, g, scope, lookup, ty, req, mint);
    at := OriginsOf(Resolutions(tx, g, lookup, req, mint), KeptEntities(tx, g, lookup, req, mint), PlannedLinks(tx, g, scope, lookup, ty, req, mint));
  }

  lemma ResolutionsApart(tx: Codec, g: Graph, lookup: set<Scope>, req: Request, mint: Mint, rs: seq<Planned>)
    requires Enough(mint, req) && rs == Resolutions(tx, g, lookup, req, mint)
    ensures DistinctKeys(tx, rs)
  {
    var names := DistinctNames(tx, req.entities, {});
    DistinctNamesIs(tx, req.entities, {});
    forall i | 0 <= i < |rs| ensures rs[i].name == names[i] {
      assert rs[i] == ResolveName(tx, g, lookup, names[i], mint.entities[i]);
    }
    SameKeys(tx, names, rs);
  }

  lemma SameKeys(tx: Codec, names: seq<string>, rs: seq<Planned>)
    requires |names| == |rs| && forall i | 0 <= i < |rs| :: rs[i].name == names[i]
    requires forall i, j | 0 <= i < j < |names| :: NameKey(tx, names[i]) != NameKey(tx, names[j])
    ensures DistinctKeys(tx, rs)
  {
  }

  lemma OriginsOf(rs: seq<Planned>, ks: seq<Planned>, ls: seq<Link>) returns (at: seq<nat>)
    requires ks == RetainFirst(rs, {}) && |ls| == |ks| && forall j | 0 <= j < |ls| :: ls[j].entity == ks[j]
    ensures |at| == |ls| && forall j | 0 <= j < |ls| :: at[j] < |rs| && ls[j].entity == rs[at[j]]
  {
    at := RetainFirstIs(rs, {});
  }

  /** A created link is the one created for its own name. */
  lemma CreatedLinkIsOwn(tx: Codec, g: Graph, scope: Scope, lookup: set<Scope>, ty: string, req: Request, mint: Mint, i: nat, l: Link)
    requires Enough(mint, req) && i < |Resolutions(tx, g, lookup, req, mint)|
    requires l in PlannedLinks(tx, g, scope, lookup, ty, req, mint)
    requires NameKey(tx, l.entity.name) == NameKey(tx, Resolutions(tx, g, lookup, req, mint)[i].name)
    ensures l.entity == Resolutions(tx, g, lookup, req, mint)[i]
  {
    var at := LinkOrigins(tx, g, scope, lookup, ty, req, mint);
    var ls := PlannedLinks(tx, g, scope, lookup, ty, req, mint);
    var j :| 0 <= j < |ls| && ls[j] == l;
    assert at[j] == i;
  }

  /** Each created name has its link. */
  lemma CreatedIsLinked(tx: Codec, g: Graph, scope: Scope, lookup: set<Scope>, ty: string, req: Request, mint: Mint, i: nat)
    requires Enough(mint, req) && Fresh(mint, g) && i < |Resolutions(tx, g, lookup, req, mint)|
    requires Resolutions(tx, g, lookup, req, mint)[i].created
    ensures exists l :: l in PlannedLinks(tx, g, scope, lookup, ty, req, mint) && l.entity == Resolutions(tx, g, lookup, req, mint)[i]
  {
    var rs := Resolutions(tx, g, lookup, req, mint);
    var ks := KeptEntities(tx, g, lookup, req, mint);
    var ls := PlannedLinks(tx, g, scope, lookup, ty, req, mint);
    var at := LinkOrigins(tx, g, scope, lookup, ty, req, mint);
    RetainsAll(rs, {}, rs[i]);
    var k :| k in ks && k.id == rs[i].id;
    var j :| 0 <= j < |ks| && ks[j] == k;
    assert ls[j].entity == k;
    CreatedIdIsOwn(tx, g, lookup, req, mint, i, at[j]);
    assert ls[j] in ls;
  }

  lemma CreatedIdIsOwn(tx: Codec, g: Graph, lookup: set<Scope>, req: Request, mint: Mint, i: nat, j: nat)
    requires Enough(mint, req) && Fresh(mint, g)
    requires i < |Resolutions(tx, g, lookup, req, mint)| && j < |Resolutions(tx, g, lookup, req, mint)|
    requires var rs := Resolutions(tx, g, lookup, req, mint); rs[i].created && rs[j].id == rs[i].id
    ensures i == j
  {
    var names := DistinctNames(tx, req.entities, {});
    var rs := Resolutions(tx, g, lookup, req, mint);
    assert rs[i] == ResolveName(tx, g, lookup, names[i], mint.entities[i]);
    assert rs[j] == ResolveName(tx, g, lookup, names[j], mint.entities[j]);
    assert mint.entities[i] in mint.entities;
  }

  /** Every name resolves, after the remember, to the id the plan reported for it. */
  lemma SameResolution(tx: Codec, g: Graph, g': Graph, d: Delta, scope: Scope, lookup: set<Scope>, req: Request, mint: Mint, mint2: Mint, i: nat)
    requires Enough(mint, req) && Fresh(mint, g) && Enough(mint2, req) && scope in lookup && WellFormed(g)
    requires NodesBecame(g, g', d) && EdgesBecame(g, g', d) && d.scope == scope
    requires d.links == PlannedLinks(tx, g, scope, lookup, d.ty, req, mint)
    requires i < |Resolutions(tx, g, lookup, req, mint)|
    ensures var r := Resolutions(tx, g, lookup, req, mint)[i];
            Resolutions(tx, g', lookup, req, mint2)[i] == Planned(r.name, r.id, false)
  {
    var name := DistinctNames(tx, req.entities, {})[i];
    var r := Resolutions(tx, g, lookup, req, mint)[i];
    assert r == ResolveName(tx, g, lookup, name, mint.entities[i]);
    FoundAfter(tx, g, g', d, lookup, name);
    forall l | l in d.links && l.entity.created && NameKey(tx, l.entity.name) == NameKey(tx, name) ensures l.entity == r {
      CreatedLinkIsOwn(tx, g, scope, lookup, d.ty, req, mint, i, l);
    }
    if r.created { CreatedIsLinked(tx, g, scope, lookup, d.ty, req, mint, i); }
    StillFound(tx, FindEntities(tx, g, lookup, name), FindEntities(tx, g', lookup, name), d, r, name);
  }

  lemma StillFound(tx: Codec, hits: set<NodeId>, hits': set<NodeId>, d: Delta, r: Planned, name: string)
    requires r.created <==> hits == {}
    requires hits != {} ==> r.id == Least(hits)
    requires r.created ==> exists l :: l in d.links && l.entity == r
    requires r.name == name
    requires forall l | l in d.links && l.entity.created && NameKey(tx, l.entity.name) == NameKey(tx, name) :: l.entity == r
    requires forall id :: id in hits' <==>
               id in hits || exists l :: l in d.links && l.entity.created && l.entity.id == id && NameKey(tx, l.entity.name) == NameKey(tx, name)
    ensures hits' != {} && Least(hits') == r.id
  {
    if r.created {
      var l :| l in d.links && l.entity == r;
      assert hits' == {r.id};
    } else {
      assert hits' == hits;
    }
  }

  ghost predicate SameNamesAndIds(a: seq<Planned>, b: seq<Planned>) {
    |a| == |b| && forall i | 0 <= i < |a| :: a[i].name == b[i].name && a[i].id == b[i].id
  }

  lemma {:induction false} SameRetained(a: seq<Planned>, b: seq<Planned>, seen: set<NodeId>)
    requires SameNamesAndIds(a, b)
    ensures SameNamesAndIds(RetainFirst(a, seen), RetainFirst(b, seen))
    ensures forall k | k in RetainFirst(b, seen) :: k in b
  {
    if a != [] {
      SameRetained(a[1..], b[1..], if a[0].id in seen then seen else seen + {a[0].id});
    }
  }

  lemma SameKept(tx: Codec, g: Graph, g': Graph, d: Delta, scope: Scope, lookup: set<Scope>, req: Request, mint: Mint, mint2: Mint)
    requires Enough(mint, req) && Fresh(mint, g) && Enough(mint2, req) && scope in lookup && WellFormed(g)
    requires NodesBecame(g, g', d) && EdgesBecame(g, g', d) && d.scope == scope
    requires d.links == PlannedLinks(tx, g, scope, lookup, d.ty, req, mint)
    ensures SameNamesAndIds(KeptEntities(tx, g, lookup, req, mint), KeptEntities(tx, g', lookup, req, mint2))
    ensures forall k | k in KeptEntities(tx, g', lookup, req, mint2) :: !k.created
  {
    var a, b := Resolutions(tx, g, lookup, req, mint), Resolutions(tx, g', lookup, req, mint2);
    forall i | 0 <= i < |a| ensures b[i] == Planned(a[i].name, a[i].id, false) {
      SameResolution(tx, g, g', d, scope, lookup, req, mint, mint2, i);
    }
    SameRetained(a, b, {});
  }

  // ----- the edges -----

  /** Each reported edge is, after the remember, the open edge found for its entity. */
  lemma LinkedAfter(g: Graph, g': Graph, d: Delta, dedup: bool, minted: EdgeId, i: nat)
    requires WellFormed(g) && EdgesBecame(g, g', d) && i < |d.links|
    requires forall a, b | 0 <= a < b < |d.links| :: d.links[a].entity.id != d.links[b].entity.id
    requires d.links[i] == LinkOne(g, d.scope, d.memory, d.ty, dedup, d.links[i].entity, minted)
    requires d.memory !in d.marks && (!dedup ==> d.memory !in g.nodes)
    ensures LinkedEdge(g', d.scope, d.memory, d.ty, d.links[i].entity.id) == Some(d.links[i].edge)
  {
    var l := d.links[i];
    var to := l.entity.id;
    var S := OpenTo(g, d, to);
    var S' := OpenTo(g', d, to);
    OpenToAfter(g, g', d, i);
    if l.isNew {
      NoneLinked(g, d, dedup, to);
      assert S' == {l.edge};
      SortedOne(l.edge);
      assert Sorted(S') == [l.edge];
    } else {
      assert S' == S;
      assert LinkedEdge(g, d.scope, d.memory, d.ty, to) == Some(l.edge);
      assert Sorted(S') == Sorted(S);
    }
  }

  /** The open edges of the type from the memory to `to`. */
  function OpenTo(g: Graph, d: Delta, to: NodeId): set<EdgeId> {
    set e | e in OpenOutOfType(g, {d.scope}, d.memory, d.ty) && g.edges[e].to == to
  }

  lemma OpenToAfter(g: Graph, g': Graph, d: Delta, i: nat)
    requires EdgesBecame(g, g', d) && i < |d.links| && d.memory !in d.marks
    requires forall a, b | 0 <= a < b < |d.links| :: d.links[a].entity.id != d.links[b].entity.id
    ensures var l := d.links[i];
            OpenTo(g', d, l.entity.id) == OpenTo(g, d, l.entity.id) + (if l.isNew then {l.edge} else {})
  {
    var l := d.links[i];
    var S, S' := OpenTo(g, d, l.entity.id), OpenTo(g', d, l.entity.id);
    assert l in d.links;
    forall e | e in S' && e !in g.edges ensures e == l.edge && l.isNew {
      var x :| x in d.links && x.isNew && x.edge == e;
      var j :| 0 <= j < |d.links| && d.links[j] == x;
      assert x.entity.id == l.entity.id;
    }
    forall e | e in g.edges ensures e in S' <==> e in S {
      assert g.edges[e].from == d.memory ==> e !in OpenFrom(g, d.scope, d.marks);
    }
  }

  lemma NoneLinked(g: Graph, d: Delta, dedup: bool, to: NodeId)
    requires WellFormed(g)
    requires if dedup then LinkedEdge(g, d.scope, d.memory, d.ty, to).None? else d.memory !in g.nodes
    ensures OpenTo(g, d, to) == {}
  {
    var S := OpenTo(g, d, to);
    assert dedup ==> forall e :: e in S <==> e in Sorted(S);
  }

  lemma SortedOne(x: nat)
    ensures Sorted({x}) == [x]
  {
    assert {x} - {x} == {};
  }

  lemma {:induction false} NothingToLink(scope: Scope, memory: NodeId, ty: string, ls: seq<Link>)
    requires forall l | l in ls :: !l.isNew && !l.entity.created
    ensures AllLinkOps(scope, memory, ty, ls) == []
  {
    if ls != [] {
      assert ls[0] in ls;
      NothingToLink(scope, memory, ty, ls[1..]);
    }
  }

  lemma PlannedLinksAre(tx: Codec, g: Graph, scope: Scope, lookup: set<Scope>, ty: string, req: Request, mint: Mint)
    requires Enough(mint, req)
    ensures var ls := PlannedLinks(tx, g, scope, lookup, ty, req, mint);
            var ks := KeptEntities(tx, g, lookup, req, mint);
            && |ls| == |ks|
            && (forall i | 0 <= i < |ls| :: ls[i].entity == ks[i] && ls[i] ==
                  LinkOne(g, scope, MemoryFor(tx, g, scope, req, mint), ty, Dedups(tx, g, scope, req), ks[i], mint.edges[i]))
            && (forall a, b | 0 <= a < b < |ls| :: ls[a].entity.id != ls[b].entity.id)
  {
    KeptIs(tx, g, lookup, req, mint);
  }

  lemma SameLinks(tx: Codec, g: Graph, g': Graph, d: Delta, lookup: set<Scope>, req: Request, mint: Mint, req2: Request, mint2: Mint)
    requires WellFormed(g) && Enough(mint, req) && Fresh(mint, g) && Enough(mint2, req) && d.scope in lookup
    requires NodesBecame(g, g', d) && EdgesBecame(g, g', d)
    requires d.links == PlannedLinks(tx, g, d.scope, lookup, d.ty, req, mint)
    requires d.memory == MemoryFor(tx, g, d.scope, req, mint)
    requires d.memory !in d.marks && (!Dedups(tx, g, d.scope, req) ==> d.memory !in g.nodes)
    requires req2.entities == req.entities && Dedups(tx, g', d.scope, req2) && MemoryFor(tx, g', d.scope, req2, mint2) == d.memory
    ensures var ls2 := PlannedLinks(tx, g', d.scope, lookup, d.ty, req2, mint2);
            && EdgeIds(ls2) == EdgeIds(d.links) && SameNamesAndIds(Entities(d.links), Entities(ls2))
            && forall l | l in ls2 :: !l.isNew && !l.entity.created
  {
    var ks, ks2 := KeptEntities(tx, g, lookup, req, mint), KeptEntities(tx, g', lookup, req2, mint2);
    assert ks2 == KeptEntities(tx, g', lookup, req, mint2);
    SameKept(tx, g, g', d, d.scope, lookup, req, mint, mint2);
    PlannedLinksAre(tx, g, d.scope, lookup, d.ty, req, mint);
    PlannedLinksAre(tx, g', d.scope, lookup, d.ty, req2, mint2);
    ghost var ls2 := PlannedLinks(tx, g', d.scope, lookup, d.ty, req2, mint2);
    forall i | 0 <= i < |ls2| ensures ls2[i] == Link(ks2[i], d.links[i].edge, false) && !ks2[i].created && d.links[i].entity == ks[i] {
      assert ks2[i] in ks2;
      LinkedAfter(g, g', d, Dedups(tx, g, d.scope, req), mint.edges[i], i);
    }
    LinksAgree(d.links, ls2, ks, ks2);
  }

  lemma LinksAgree(ls: seq<Link>, ls2: seq<Link>, ks: seq<Planned>, ks2: seq<Planned>)
    requires |ls| == |ls2| == |ks| == |ks2| && SameNamesAndIds(ks, ks2)
    requires forall i | 0 <= i < |ls2| :: ls2[i] == Link(ks2[i], ls[i].edge, false) && !ks2[i].created && ls[i].entity == ks[i]
    ensures EdgeIds(ls2) == EdgeIds(ls) && SameNamesAndIds(Entities(ls), Entities(ls2))
    ensures forall l | l in ls2 :: !l.isNew && !l.entity.created
  {
  }

  /** A request that dedups, links nothing new and retires nothing plans an empty batch. */
  lemma EmptyPlan(tx: Codec, g: Graph, scope: Scope, lookup: set<Scope>, now: int, req: Request, mint: Mint)
    requires Enough(mint, req) && Validate(tx, req).Ok? && NewMemoryProps(tx, req).Ok? && FirstBadId(tx, req.supersedes).None?
    requires RetireAll(tx, g, scope, Supersede, req.supersedes, {}, now) == Ok(Retirement([], []))
    requires Dedups(tx, g, scope, req)
    requires forall l | l in Links(tx, g, scope, lookup, req, mint) :: !l.isNew && !l.entity.created
    ensures var ls := Links(tx, g, scope, lookup, req, mint);
            RememberPlan(tx, g, scope, lookup, now, req, mint) ==
            Ok(Plan([], MemoryFor(tx, g, scope, req, mint), true, None, Entities(ls), EdgeIds(ls), []))
  {
    NothingToLink(scope, MemoryFor(tx, g, scope, req, mint), Validate(tx, req).value, Links(tx, g, scope, lookup, req, mint));
  }

  lemma SameRequest(tx: Codec, req: Request, content: string)
    requires NewMemoryProps(tx, req).Ok?
    ensures NewMemoryProps(tx, req.(content := content)).Ok?
    ensures Validate(tx, req.(content := content)) == Validate(tx, req)
  {
    MergeRequiredExact(CONTENT, Str(req.content), req.props);
    MergeRequiredExact(CONTENT, Str(content), req.props);
  }

  /** After the first remember the request has nothing left to retire. */
  lemma NothingLeft(tx: Codec, g: Graph, scope: Scope, lookup: set<Scope>, now: int, req: Request, mint: Mint, g': Graph, d: Delta, now2: int)
    requires Planning(tx, g, scope, lookup, now, req, mint)
    requires d == DeltaOf(tx, g, scope, lookup, now, req, mint, d.w) && NodesBecame(g, g', d)
    ensures RetireAll(tx, g', scope, Supersede, req.supersedes, {}, now2) == Ok(Retirement([], []))
  {
    MarksAre(tx, g, scope, req.supersedes, now);
    MarkedExactly(tx, g, scope, Supersede, req.supersedes, {}, now);
    AllSuperseded(g, g', d, ParsedIds(tx, req.supersedes));
    NothingToRetire(tx, g', scope, req.supersedes, {}, now2);
  }

  lemma AllSuperseded(g: Graph, g': Graph, d: Delta, ids: set<NodeId>)
    requires NodesBecame(g, g', d)
    requires forall id | id in ids :: id in g.nodes && g.nodes[id].tag == MEMORY && g.nodes[id].scope == d.scope
                                      && (id in d.marks || SUPERSEDED_AT in g.nodes[id].props)
    ensures forall id | id in ids ::
              id in g'.nodes && g'.nodes[id].scope == d.scope && g'.nodes[id].tag == MEMORY && SUPERSEDED_AT in g'.nodes[id].props
  {
  }

  lemma OldestIsOwn(hits: set<nat>, superseded: set<nat>, minted: nat, dedup: bool)
    requires minted !in hits && minted !in superseded
    requires dedup <==> hits != {} && Least(hits) !in superseded
    ensures var memory := if dedup then Least(hits) else minted;
            var after := (hits - superseded) + (if dedup then {} else {minted});
            && after != {} && Least(after) !in superseded
            && (Least(after) == memory <==> dedup || forall y | y in hits - superseded :: minted < y)
  {
    var after := (hits - superseded) + (if dedup then {} else {minted});
    if dedup { assert Least(hits) in after; } else { assert minted in after; }
  }

  /** After the first remember the request dedups, to its own memory exactly under `FindsOwn`. */
  lemma FindsItsMemory(tx: Codec, g: Graph, scope: Scope, lookup: set<Scope>, now: int, req: Request, mint: Mint, g': Graph, d: Delta, content: string, mint2: Mint)
    requires Planning(tx, g, scope, lookup, now, req, mint) && Enough(mint2, req)
    requires d == DeltaOf(tx, g, scope, lookup, now, req, mint, d.w) && NodesBecame(g, g', d)
    requires Collapse(content) == Collapse(req.content)
    ensures var req2 := req.(content := content);
            && Dedups(tx, g', scope, req2)
            && (MemoryFor(tx, g', scope, req2, mint2) == d.memory <==> FindsOwn(tx, g, scope, req, mint))
    ensures d.memory !in d.marks && (!Dedups(tx, g, scope, req) ==> d.memory !in g.nodes)
  {
    MarksAre(tx, g, scope, req.supersedes, now);
    MatchesAfter(tx, g, scope, lookup, now, req, mint, g', d, content);
    OldestIsOwn(Matches(tx, g, scope, req.content), ParsedIds(tx, req.supersedes), mint.memory, Dedups(tx, g, scope, req));
  }

  /** `again` is accepted, deduplicated and retires nothing; it reports the same memory exactly
      if `own`, and then it writes nothing and reports the same entities and edges. */
  ghost predicate Repeats(memory: NodeId, entities: seq<Planned>, edgeIds: seq<EdgeId>, again: Result<Plan, Refusal>, own: bool) {
    && again.Ok? && again.value.deduplicated && again.value.superseded == [] && again.value.newMemory.None?
    && (again.value.memory == memory <==> own)
    && (again.value.memory == memory ==>
          && again.value.ops == [] && again.value.edgeIds == edgeIds && SameNamesAndIds(entities, again.value.entities))
  }

  lemma PlanFields(tx: Codec, g: Graph, scope: Scope, lookup: set<Scope>, now: int, req: Request, mint: Mint)
    requires Enough(mint, req) && RememberPlan(tx, g, scope, lookup, now, req, mint).Ok?
    ensures var plan := RememberPlan(tx, g, scope, lookup, now, req, mint).value;
            var ls := Links(tx, g, scope, lookup, req, mint);
            && plan.memory == MemoryFor(tx, g, scope, req, mint)
            && plan.entities == Entities(ls) && plan.edgeIds == EdgeIds(ls)
  {
  }

  /** Remembering again what was just remembered, up to white space, plans successfully; it
      reports the same memory exactly when no older live duplicate survived the first call,
      and then it plans nothing and reports the same entities and edges - also when the first
      call superseded the very memory it would have deduplicated to. */
  lemma RememberIdempotent(tx: Codec, g: Graph, scope: Scope, lookup: set<Scope>, now: int, req: Request, mint: Mint, w: int, content: string, now2: int, mint2: Mint)
    requires WellFormed(g) && Enough(mint, req) && Fresh(mint, g) && scope in lookup
    requires RememberPlan(tx, g, scope, lookup, now, req, mint).Ok?
    requires Commit(tx, g, RememberPlan(tx, g, scope, lookup, now, req, mint).value.ops, w).Ok?
    requires Collapse(content) == Collapse(req.content) && Enough(mint2, req)
    ensures var first := RememberPlan(tx, g, scope, lookup, now, req, mint).value;
            var g' := Commit(tx, g, first.ops, w).value.graph;
            Repeats(first.memory, first.entities, first.edgeIds,
                    RememberPlan(tx, g', scope, lookup, now2, req.(content := content), mint2),
                    FindsOwn(tx, g, scope, req, mint))
  {
    PlanFields(tx, g, scope, lookup, now, req, mint);
    RememberCommits(tx, g, scope, lookup, now, req, mint, w);
    RememberedIs(tx, g, scope, lookup, now, req, mint, w);
    RememberAgain(tx, g, scope, lookup, now, req, mint, Remembered(tx, g, scope, lookup, now, req, mint, w),
                  DeltaOf(tx, g, scope, lookup, now, req, mint, w), content, now2, mint2);
  }

  /** The second plan, made on a graph that differs from the first one's by its delta. */
  lemma RememberAgain(tx: Codec, g: Graph, scope: Scope, lookup: set<Scope>, now: int, req: Request, mint: Mint, g': Graph, d: Delta, content: string, now2: int, mint2: Mint)
    requires Planning(tx, g, scope, lookup, now, req, mint) && Enough(mint2, req)
    requires d == DeltaOf(tx, g, scope, lookup, now, req, mint, d.w) && NodesBecame(g, g', d) && EdgesBecame(g, g', d)
    requires Collapse(content) == Collapse(req.content)
    ensures Repeats(d.memory, Entities(d.links), EdgeIds(d.links),
                    RememberPlan(tx, g', scope, lookup, now2, req.(content := content), mint2),
                    FindsOwn(tx, g, scope, req, mint))
  {
    var req2 := req.(content := content);
    FindsItsMemory(tx, g, scope, lookup, now, req, mint, g', d, content, mint2);
    NothingLeft(tx, g, scope, lookup, now, req, mint, g', d, now2);
    SameRequest(tx, req, content);
    if FindsOwn(tx, g, scope, req, mint) {
      SameLinks(tx, g, g', d, lookup, req, mint, req2, mint2);
      EmptyPlan(tx, g', scope, lookup, now2, req2, mint2);
    }
  }

  // ----- a request that does not find its own memory -----

  /** Two live memories with the same content, as two racing writers may leave behind. */
  function Doubled(tx: Codec): Graph {
    var n := Node(Shared, MEMORY, map[CONTENT := Str("a"), CONTENT_HASH := Str(ContentHash(tx, "a"))]);
    Graph(map[1 := n, 2 := n], map[])
  }

  /** Replaces the older of them. */
  function Replacing(tx: Codec): Request {
    Request("a", ["x"], None, [tx.showId(1)], None, None)
  }

  const REPLACEMENT := Mint(3, [4], [5])

  lemma PlannedWhen(tx: Codec, g: Graph, scope: Scope, lookup: set<Scope>, now: int, req: Request, mint: Mint)
    requires Enough(mint, req)
    ensures RememberPlan(tx, g, scope, lookup, now, req, mint).Ok? <==>
            Validate(tx, req).Ok? && NewMemoryProps(tx, req).Ok? && FirstBadId(tx, req.supersedes).None?
            && RetireAll(tx, g, scope, Supersede, req.supersedes, {}, now).Ok?
  {
  }

  lemma ReplacingIsValid(tx: Codec)
    requires RoundTrips(tx) && EdgeType(tx, "about").Ok?
    ensures Validate(tx, Replacing(tx)).Ok? && NewMemoryProps(tx, Replacing(tx)).Ok?
  {
    assert Words(IsSpace, "x") != [];
  }

  lemma OneParsed(tx: Codec, id: nat)
    requires RoundTrips(tx)
    ensures FirstBadId(tx, [tx.showId(id)]).None? && ParsedIds(tx, [tx.showId(id)]) == {id}
  {
    assert tx.parseId(tx.showId(id)) == Some(id);
  }

  lemma ReplacingRetires(tx: Codec, now: int)
    requires RoundTrips(tx)
    ensures RetireAll(tx, Doubled(tx), Shared, Supersede, Replacing(tx).supersedes, {}, now).Ok?
  {
    var ids := Replacing(tx).supersedes;
    assert tx.parseId(ids[0]) == Some(1) && ids[1..] == [];
    assert Judge(Doubled(tx), Shared, Supersede, 1) == Ok(true);
    assert RetireAll(tx, Doubled(tx), Shared, Supersede, ids[1..], {} + {1}, now) == Ok(Retirement([], []));
  }

  lemma ReplacingLeavesOne(tx: Codec)
    requires RoundTrips(tx)
    ensures !FindsOwn(tx, Doubled(tx), Shared, Replacing(tx), REPLACEMENT)
  {
    var g := Doubled(tx);
    MatchesAre(tx, g, Shared, "a");
    OneParsed(tx, 1);
    var hits, superseded := Matches(tx, g, Shared, "a"), ParsedIds(tx, Replacing(tx).supersedes);
    assert hits == {1, 2} && superseded == {1};
    assert Least(hits) == 1;
    assert 2 in hits - superseded;
  }

  /** Within the shared scope no edge can cross projects, so every plan commits. */
  lemma SharedCommits(tx: Codec, g: Graph, lookup: set<Scope>, now: int, req: Request, mint: Mint, w: int)
    requires Planning(tx, g, Shared, lookup, now, req, mint)
    ensures Commit(tx, g, RememberPlan(tx, g, Shared, lookup, now, req, mint).value.ops, w).Ok?
  {
    var ty := Validate(tx, req).value;
    LinksAreGood(tx, g, Shared, lookup, ty, req, mint);
    NothingCrosses(WithMemory(tx, g, Shared, req, mint), PlannedLinks(tx, g, Shared, lookup, ty, req, mint));
    RememberCommits(tx, g, Shared, lookup, now, req, mint, w);
  }

  lemma NothingCrosses(g: Graph, ls: seq<Link>)
    requires GoodLinks(g, ls)
    ensures NoCrossing(g, Shared, ls)
  {
  }

  /** The request is planned and committed, and asking again finds another memory. */
  ghost predicate LandsElsewhere(tx: Codec, g: Graph, scope: Scope, lookup: set<Scope>, now: int, req: Request, mint: Mint, w: int, now2: int, mint2: Mint)
    requires Enough(mint, req) && Enough(mint2, req)
  {
    var first := RememberPlan(tx, g, scope, lookup, now, req, mint);
    first.Ok? &&
    var r := Commit(tx, g, first.value.ops, w);
    r.Ok? &&
    var again := RememberPlan(tx, r.value.graph, scope, lookup, now2, req, mint2);
    again.Ok? && again.value.deduplicated && again.value.memory != first.value.memory
  }

  lemma LandsElsewhereUnless(tx: Codec, g: Graph, scope: Scope, lookup: set<Scope>, now: int, req: Request, mint: Mint, w: int, now2: int, mint2: Mint)
    requires Planning(tx, g, scope, lookup, now, req, mint) && Enough(mint2, req)
    requires Commit(tx, g, RememberPlan(tx, g, scope, lookup, now, req, mint).value.ops, w).Ok?
    ensures LandsElsewhere(tx, g, scope, lookup, now, req, mint, w, now2, mint2) <==> !FindsOwn(tx, g, scope, req, mint)
  {
    RememberIdempotent(tx, g, scope, lookup, now, req, mint, w, req.content, now2, mint2);
    assert req.(content := req.content) == req;
  }

  lemma ReplacingIsPlanned(tx: Codec, now: int)
    requires RoundTrips(tx) && EdgeType(tx, "about").Ok?
    ensures RememberPlan(tx, Doubled(tx), Shared, {Shared}, now, Replacing(tx), REPLACEMENT).Ok?
  {
    ReplacingIsValid(tx);
    OneParsed(tx, 1);
    ReplacingRetires(tx, now);
    PlannedWhen(tx, Doubled(tx), Shared, {Shared}, now, Replacing(tx), REPLACEMENT);
  }

  lemma DoubledIsFresh(tx: Codec)
    ensures WellFormed(Doubled(tx)) && Fresh(REPLACEMENT, Doubled(tx))
  {
  }

  /** For every codec that reads back the ids it prints. */
  lemma SecondCallLandsElsewhere(tx: Codec, now: int, w: int, now2: int, mint2: Mint)
    requires RoundTrips(tx) && EdgeType(tx, "about").Ok? && Enough(mint2, Replacing(tx))
    ensures LandsElsewhere(tx, Doubled(tx), Shared, {Shared}, now, Replacing(tx), REPLACEMENT, w, now2, mint2)
  {
    ReplacingIsPlanned(tx, now);
    DoubledIsFresh(tx);
    ReplacingLeavesOne(tx);
    SharedCommits(tx, Doubled(tx), {Shared}, now, Replacing(tx), REPLACEMENT, w);
    LandsElsewhereUnless(tx, Doubled(tx), Shared, {Shared}, now, Replacing(tx), REPLACEMENT, w, now2, mint2);
  }
}
