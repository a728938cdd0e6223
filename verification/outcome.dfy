/** The composed verbs in terms of stored fields alone: which requests are accepted, and what
    the graph holds afterwards. */
module Outcome {
  import opened Text
  import opened Json
  import opened Store
  import opened Compose
  import opened Effects
  import opened Remember
  import opened Idempotence
  import opened Lifecycle

  // ----- supersede and forget -----

  function StampKey(verb: Verb): string {
    if verb == Forget then "forgotten_at" else "superseded_at"
  }

  predicate Asked(tx: Codec, ids: seq<string>, id: NodeId) {
    exists raw :: raw in ids && tx.parseId(raw) == Some(id)
  }

  /** An id that a retirement may name. */
  predicate Retirable(tx: Codec, g: Graph, scope: Scope, verb: Verb, raw: string) {
    var id := tx.parseId(raw);
    && id.Some? && id.value in g.nodes && g.nodes[id.value].scope == scope && g.nodes[id.value].tag == "Memory"
    && (verb == Forget ==> "forgotten_at" !in g.nodes[id.value].props && "superseded_at" !in g.nodes[id.value].props)
  }

  lemma {:induction false} AllRetirable(tx: Codec, g: Graph, scope: Scope, verb: Verb, ids: seq<string>, seen: set<NodeId>, now: int)
    requires forall raw | raw in ids && tx.parseId(raw).Some? && tx.parseId(raw).value in seen :: Retirable(tx, g, scope, verb, raw)
    ensures RetireAll(tx, g, scope, verb, ids, seen, now).Ok? <==> forall raw | raw in ids :: Retirable(tx, g, scope, verb, raw)
    decreases |ids|
  {
    if ids != [] {
      assert forall raw :: raw in ids <==> raw == ids[0] || raw in ids[1..];
      var id := tx.parseId(ids[0]);
      if id.Some? && id.value in seen {
        assert Retirable(tx, g, scope, verb, ids[0]);
        AllRetirable(tx, g, scope, verb, ids[1..], seen, now);
      } else if id.Some? && Judge(g, scope, verb, id.value).Ok? {
        assert Retirable(tx, g, scope, verb, ids[0]);
        AllRetirable(tx, g, scope, verb, ids[1..], seen + {id.value}, now);
      } else {
        assert !Retirable(tx, g, scope, verb, ids[0]);
      }
    }
  }

  /** Supersede accepts exactly memories of the write scope; forget exactly live ones, and at
      least one. */
  lemma RetirementAccepted(tx: Codec, g: Graph, scope: Scope, verb: Verb, ids: seq<string>, now: int)
    ensures RetirePlan(tx, g, scope, verb, ids, now).Ok? <==>
            (verb == Forget ==> ids != []) && forall raw | raw in ids :: Retirable(tx, g, scope, verb, raw)
  {
    AllRetirable(tx, g, scope, verb, ids, {}, now);
  }

  /** An asked memory without the verb's stamp gets it, and its open edges of the write scope
      are closed on both axes at the write instant; nothing else changes. */
  lemma RetirementOnFields(tx: Codec, g: Graph, scope: Scope, verb: Verb, ids: seq<string>, now: int, w: int)
    requires RetirePlan(tx, g, scope, verb, ids, now).Ok?
    ensures var r := Commit(tx, g, RetirePlan(tx, g, scope, verb, ids, now).value.ops, w);
            r.Ok? && RetiredOnFields(tx, g, r.value.graph, scope, verb, ids, now, w)
  {
    RetireCommits(tx, g, scope, verb, ids, now, w);
    MarkedExactly(tx, g, scope, verb, ids, {}, now);
    var marks := Elements(RetirePlan(tx, g, scope, verb, ids, now).value.marked);
    forall id | id in g.nodes ensures id in marks <==> Asked(tx, ids, id) && StampKey(verb) !in g.nodes[id].props {
      assert id in ParsedIds(tx, ids) <==> Asked(tx, ids, id);
    }
  }

  ghost predicate RetiredOnFields(tx: Codec, g: Graph, g': Graph, scope: Scope, verb: Verb, ids: seq<string>, now: int, w: int) {
    && g'.nodes.Keys == g.nodes.Keys && g'.edges.Keys == g.edges.Keys
    && (forall id | id in g.nodes ::
          && g'.nodes[id].scope == g.nodes[id].scope && g'.nodes[id].tag == g.nodes[id].tag
          && g'.nodes[id].props == if Asked(tx, ids, id) && StampKey(verb) !in g.nodes[id].props
                                   then g.nodes[id].props[StampKey(verb) := Int(now)] else g.nodes[id].props)
    && (forall e | e in g.edges ::
          var x := g.edges[e];
          g'.edges[e] == if x.from in g.nodes && Asked(tx, ids, x.from) && StampKey(verb) !in g.nodes[x.from].props
                            && x.scope == scope && x.validTo.None?
                         then x.(validTo := Some(w), supersededAt := Some(w)) else x)
  }

  // ----- purge -----

  /** A memory whose stamp of either kind is an integer before the cutoff. */
  predicate Expired(n: Node, scopes: set<Scope>, cutoff: int) {
    && n.tag == "Memory" && n.scope in scopes
    && (|| ("superseded_at" in n.props && n.props["superseded_at"].Int? && n.props["superseded_at"].i < cutoff)
        || ("forgotten_at" in n.props && n.props["forgotten_at"].Int? && n.props["forgotten_at"].i < cutoff))
  }

  /** A purge takes exactly the expired memories and the edges that touch them, and asks for a
      positive cutoff. */
  lemma PurgeOnFields(tx: Codec, g: Graph, scopes: set<Scope>, cutoff: int, w: int)
    ensures PurgePlan(g, scopes, cutoff).Ok? <==> cutoff > 0
    ensures cutoff > 0 ==>
              var r := Commit(tx, g, PurgePlan(g, scopes, cutoff).value.ops, w);
              r.Ok? &&
              var g' := r.value.graph;
              && (forall id :: id in g'.nodes <==> id in g.nodes && !Expired(g.nodes[id], scopes, cutoff))
              && (forall id | id in g'.nodes :: g'.nodes[id] == g.nodes[id])
              && (forall e :: e in g'.edges <==>
                    (&& e in g.edges
                     && !(g.edges[e].from in g.nodes && Expired(g.nodes[g.edges[e].from], scopes, cutoff))
                     && !(g.edges[e].to in g.nodes && Expired(g.nodes[g.edges[e].to], scopes, cutoff))))
              && (forall e | e in g'.edges :: g'.edges[e] == g.edges[e])
  {
    if cutoff > 0 {
      PurgeExact(tx, g, scopes, cutoff, w);
      assert forall id :: id in Doomed(g, scopes, cutoff) <==> id in g.nodes && Expired(g.nodes[id], scopes, cutoff);
    }
  }

  // ----- which memory a content is -----

  /** A live memory of the scope, stamped with the hash of its content, that says the same up
      to white space. */
  predicate Remembers(tx: Codec, n: Node, scope: Scope, content: string) {
    && n.tag == "Memory" && n.scope == scope && "superseded_at" !in n.props && "forgotten_at" !in n.props
    && "content" in n.props && n.props["content"].Str? && Collapse(n.props["content"].s) == Collapse(content)
    && "content_hash" in n.props && n.props["content_hash"] == Str(tx.hash(Collapse(content)))
  }

  lemma DedupOnFields(tx: Codec, g: Graph, scope: Scope, content: string)
    ensures forall x :: ExistingMemory(tx, g, scope, content) == Some(x) <==>
              x in g.nodes && Remembers(tx, g.nodes[x], scope, content)
              && forall y | y in g.nodes && Remembers(tx, g.nodes[y], scope, content) :: x <= y
    ensures ExistingMemory(tx, g, scope, content).None? <==> forall y | y in g.nodes :: !Remembers(tx, g.nodes[y], scope, content)
  {
    assert forall y :: y in Matches(tx, g, scope, content) <==> y in g.nodes && Remembers(tx, g.nodes[y], scope, content);
  }

  // ----- which requests are accepted -----

  /** The properties a caller may add: scalars, under names the write path does not keep. */
  predicate MayAdd(extra: Option<Json>) {
    extra.None? || (extra.value.Object? && forall k | k in extra.value.fields ::
      k !in {"content", "content_hash", "superseded_at", "forgotten_at", "kind"} && IsScalar(extra.value.fields[k]))
  }

  /** Some character is not a separator. */
  predicate HasWord(sep: char -> bool, s: string) {
    exists c :: c in s && !sep(c)
  }

  lemma {:induction false} WordsWhen(sep: char -> bool, s: string)
    ensures Words(sep, s) != [] <==> HasWord(sep, s)
  {
    if s != [] {
      if sep(s[0]) {
        WordsWhen(sep, s[1..]);
        assert forall c :: c in s <==> c == s[0] || c in s[1..];
      } else {
        assert s[0] in s;
      }
    }
  }

  lemma TypeWhen(tx: Codec, raw: string)
    ensures EdgeType(tx, raw).Ok? <==> HasWord(IsTypeSeparator, tx.lower(raw))
  {
    var ws := Words(IsTypeSeparator, tx.lower(raw));
    WordsWhen(IsTypeSeparator, tx.lower(raw));
    if ws != [] { assert ws[0] in ws; }
  }

  lemma ValidWhen(tx: Codec, req: Request)
    ensures Validate(tx, req).Ok? <==>
            && HasWord(IsTypeSeparator, tx.lower(if req.edgeType.Some? then req.edgeType.value else "about"))
            && req.entities != [] && (forall n | n in req.entities :: HasWord(IsSpace, n))
            && (req.kind.Some? ==> req.kind.value in {"episodic", "semantic", "procedural", "decision"})
  {
    TypeWhen(tx, if req.edgeType.Some? then req.edgeType.value else "about");
    forall n | n in req.entities ensures Words(IsSpace, n) != [] <==> HasWord(IsSpace, n) {
      WordsWhen(IsSpace, n);
    }
  }

  /** The properties of a new memory: the caller's, its content, the hash of that, its kind. */
  ghost predicate MemoryOnFields(tx: Codec, req: Request, props: Props) {
    && "content" in props && props["content"] == Str(req.content)
    && "content_hash" in props && props["content_hash"] == Str(tx.hash(Collapse(req.content)))
    && (if req.kind.Some? then "kind" in props && props["kind"] == Str(req.kind.value) else "kind" !in props)
    && (forall k | k in props && k !in {"content", "content_hash", "kind"} ::
          req.props.Some? && req.props.value.Object? && k in req.props.value.fields && Ok(props[k]) == ToValue(req.props.value.fields[k]))
    && (req.props.Some? && req.props.value.Object? ==> req.props.value.fields.Keys <= props.Keys)
  }

  lemma Apart(a: set<string>, b: set<string>)
    ensures a * b == {} <==> forall k | k in a :: k !in b
  {
    forall k | k in a && k in b ensures a * b != {} {
      assert k in a * b;
    }
  }

  lemma NewMemoryOnFields(tx: Codec, req: Request)
    ensures NewMemoryProps(tx, req).Ok? <==> MayAdd(req.props)
    ensures NewMemoryProps(tx, req).Ok? ==> MemoryOnFields(tx, req, NewMemoryProps(tx, req).value)
  {
    MergeRequiredExact(CONTENT, Str(req.content), req.props);
    if req.props.Some? && req.props.value.Object? {
      Apart(req.props.value.fields.Keys, RESERVED);
    }
  }

  lemma {:induction false} NoBadId(tx: Codec, raws: seq<string>)
    ensures FirstBadId(tx, raws).None? <==> forall raw | raw in raws :: tx.parseId(raw).Some?
  {
    if raws != [] {
      NoBadId(tx, raws[1..]);
      assert forall raw :: raw in raws <==> raw == raws[0] || raw in raws[1..];
    }
  }

  /** A remember is planned exactly if its edge type has a word, it names at least one entity
      and none blank, its kind is one of the four, its extra properties are scalars under free
      names, and what it supersedes are memories of the write scope. */
  lemma RememberAccepted(tx: Codec, g: Graph, scope: Scope, lookup: set<Scope>, now: int, req: Request, mint: Mint)
    requires Enough(mint, req)
    ensures RememberPlan(tx, g, scope, lookup, now, req, mint).Ok? <==>
            && HasWord(IsTypeSeparator, tx.lower(if req.edgeType.Some? then req.edgeType.value else "about"))
            && req.entities != [] && (forall n | n in req.entities :: HasWord(IsSpace, n))
            && (req.kind.Some? ==> req.kind.value in {"episodic", "semantic", "procedural", "decision"})
            && MayAdd(req.props) && forall raw | raw in req.supersedes :: Retirable(tx, g, scope, Supersede, raw)
  {
    PlannedWhen(tx, g, scope, lookup, now, req, mint);
    ValidWhen(tx, req);
    NewMemoryOnFields(tx, req);
    NoBadId(tx, req.supersedes);
    AllRetirable(tx, g, scope, Supersede, req.supersedes, {}, now);
  }

  // ----- what a remember writes and reports -----

  /** The request finds a live memory of its content that it does not itself supersede. */
  predicate FindsOne(tx: Codec, g: Graph, scope: Scope, req: Request, x: NodeId) {
    && x in g.nodes && Remembers(tx, g.nodes[x], scope, req.content) && !Asked(tx, req.supersedes, x)
    && forall y | y in g.nodes && Remembers(tx, g.nodes[y], scope, req.content) :: x <= y
  }

  /** The report: deduplicated onto the oldest live match unless that is superseded, a new
      memory under its own id otherwise; and the stamped ids, each once. */
  lemma RememberReport(tx: Codec, g: Graph, scope: Scope, lookup: set<Scope>, now: int, req: Request, mint: Mint)
    requires Enough(mint, req) && RememberPlan(tx, g, scope, lookup, now, req, mint).Ok?
    ensures var plan := RememberPlan(tx, g, scope, lookup, now, req, mint).value;
            && (plan.deduplicated <==> exists x :: FindsOne(tx, g, scope, req, x))
            && (if plan.deduplicated then FindsOne(tx, g, scope, req, plan.memory) && plan.newMemory.None?
                else plan.memory == mint.memory && plan.newMemory == Some(req.content))
            && Distinct(plan.superseded)
            && forall id :: id in plan.superseded <==> id in g.nodes && Asked(tx, req.supersedes, id) && "superseded_at" !in g.nodes[id].props
  {
    DedupOnFields(tx, g, scope, req.content);
    MarkedExactly(tx, g, scope, Supersede, req.supersedes, {}, now);
    forall id ensures id in ParsedIds(tx, req.supersedes) <==> Asked(tx, req.supersedes, id) {
    }
    var existing := ExistingMemory(tx, g, scope, req.content);
    if existing.Some? {
      assert Dedups(tx, g, scope, req) ==> FindsOne(tx, g, scope, req, existing.value);
    }
    ReportFields(tx, g, scope, lookup, now, req, mint);
  }

  lemma ReportFields(tx: Codec, g: Graph, scope: Scope, lookup: set<Scope>, now: int, req: Request, mint: Mint)
    requires Enough(mint, req) && RememberPlan(tx, g, scope, lookup, now, req, mint).Ok?
    ensures var plan := RememberPlan(tx, g, scope, lookup, now, req, mint).value;
            && plan.deduplicated == Dedups(tx, g, scope, req) && plan.memory == MemoryFor(tx, g, scope, req, mint)
            && plan.newMemory == (if plan.deduplicated then None else Some(req.content))
            && plan.superseded == RetireAll(tx, g, scope, Supersede, req.supersedes, {}, now).value.marked
  {
  }

  /** An open edge of this type from the memory to the entity, in the scope. */
  predicate Joins(e: Edge, scope: Scope, memory: NodeId, ty: string, to: NodeId) {
    e.from == memory && e.to == to && e.ty == ty && e.scope == scope && e.validTo.None?
  }

  lemma LinkedWhen(g: Graph, scope: Scope, memory: NodeId, ty: string, to: NodeId)
    ensures forall e :: LinkedEdge(g, scope, memory, ty, to) == Some(e) <==>
              e in g.edges && Joins(g.edges[e], scope, memory, ty, to)
              && forall f | f in g.edges && Joins(g.edges[f], scope, memory, ty, to) :: f <= e
    ensures LinkedEdge(g, scope, memory, ty, to).None? <==> forall f | f in g.edges :: !Joins(g.edges[f], scope, memory, ty, to)
  {
    var S := set e | e in OpenOutOfType(g, {scope}, memory, ty) && g.edges[e].to == to;
    var es := Sorted(S);
    forall f ensures f in es <==> f in g.edges && Joins(g.edges[f], scope, memory, ty, to) {
    }
    if es != [] {
      assert es[|es| - 1] in es;
      forall f | f in es ensures f <= es[|es| - 1] {
        var i :| 0 <= i < |es| && es[i] == f;
      }
    } else {
      assert forall f | f in g.edges :: f !in es;
    }
  }

  /** One reported entity and its edge. */
  ghost predicate LinkOnFields(g: Graph, g': Graph, scope: Scope, memory: NodeId, ty: string, dedup: bool, k: Planned, e: EdgeId, w: int) {
    && e in g'.edges && Joins(g'.edges[e], scope, memory, ty, k.id)
    && (e !in g.edges ==> g'.edges[e].props == map[] && g'.edges[e].validFrom == w && g'.edges[e].recordedAt == w && g'.edges[e].supersededAt.None?)
    && (e in g.edges <==> dedup && exists f :: f in g.edges && Joins(g.edges[f], scope, memory, ty, k.id))
    && (e in g.edges ==> g'.edges[e] == g.edges[e] && forall f | f in g.edges && Joins(g.edges[f], scope, memory, ty, k.id) :: f <= e)
    && k.id in g'.nodes
    && (k.created ==> k.id !in g.nodes && g'.nodes[k.id] == Node(scope, "Entity", map["name" := Str(k.name)]))
  }

  lemma LinkFields(g: Graph, g': Graph, d: Delta, dedup: bool, minted: EdgeId, i: nat)
    requires WellFormed(g) && NodesBecame(g, g', d) && EdgesBecame(g, g', d) && i < |d.links|
    requires forall a, b | 0 <= a < b < |d.links| :: d.links[a].entity.id != d.links[b].entity.id
    requires d.links[i] == LinkOne(g, d.scope, d.memory, d.ty, dedup, d.links[i].entity, minted)
    requires d.memory !in d.marks && (!dedup ==> d.memory !in g.nodes) && minted !in g.edges
    requires WellFormed(g')
    ensures LinkOnFields(g, g', d.scope, d.memory, d.ty, dedup, d.links[i].entity, d.links[i].edge, d.w)
  {
    var l := d.links[i];
    assert l in d.links;
    LinkedAfter(g, g', d, dedup, minted, i);
    LinkedWhen(g', d.scope, d.memory, d.ty, l.entity.id);
    LinkedWhen(g, d.scope, d.memory, d.ty, l.entity.id);
  }

  /** What a committed remember left behind, field by field. */
  ghost predicate Wrote(tx: Codec, g: Graph, g': Graph, scope: Scope, now: int, req: Request, plan: Plan, ty: string, w: int) {
    && plan.memory in g'.nodes && g'.nodes[plan.memory].tag == "Memory" && g'.nodes[plan.memory].scope == scope
    && (!plan.deduplicated ==> plan.memory !in g.nodes && MemoryOnFields(tx, req, g'.nodes[plan.memory].props))
    && |plan.entities| == |plan.edgeIds|
    && (forall i | 0 <= i < |plan.entities| :: LinkOnFields(g, g', scope, plan.memory, ty, plan.deduplicated, plan.entities[i], plan.edgeIds[i], w))
    && (forall id | id in g.nodes ::
          && id in g'.nodes && g'.nodes[id].scope == g.nodes[id].scope && g'.nodes[id].tag == g.nodes[id].tag
          && g'.nodes[id].props == if id in plan.superseded then g.nodes[id].props["superseded_at" := Int(now)] else g.nodes[id].props)
    && (forall id | id in g'.nodes && id !in g.nodes ::
          (id == plan.memory && !plan.deduplicated) || exists k :: k in plan.entities && k.created && k.id == id)
    && (forall e | e in g.edges ::
          var x := g.edges[e];
          && e in g'.edges
          && g'.edges[e] == if x.from in plan.superseded && x.scope == scope && x.validTo.None?
                            then x.(validTo := Some(w), supersededAt := Some(w)) else x)
    && (forall e | e in g'.edges && e !in g.edges :: e in plan.edgeIds)
  }

  lemma RememberOnFields(tx: Codec, g: Graph, scope: Scope, lookup: set<Scope>, now: int, req: Request, mint: Mint, w: int)
    requires Planning(tx, g, scope, lookup, now, req, mint)
    requires Commit(tx, g, RememberPlan(tx, g, scope, lookup, now, req, mint).value.ops, w).Ok?
    ensures var plan := RememberPlan(tx, g, scope, lookup, now, req, mint).value;
            var ty := EdgeType(tx, if req.edgeType.Some? then req.edgeType.value else "about");
            ty.Ok? && Wrote(tx, g, Commit(tx, g, plan.ops, w).value.graph, scope, now, req, plan, ty.value, w)
  {
    var plan := RememberPlan(tx, g, scope, lookup, now, req, mint).value;
    RememberCommits(tx, g, scope, lookup, now, req, mint, w);
    CommitKeepsWellFormed(tx, g, plan.ops, w);
    DeltaOnFields(tx, g, scope, lookup, now, req, mint, w, plan);
  }

  lemma DeltaOnFields(tx: Codec, g: Graph, scope: Scope, lookup: set<Scope>, now: int, req: Request, mint: Mint, w: int, plan: Plan)
    requires Planning(tx, g, scope, lookup, now, req, mint) && plan == RememberPlan(tx, g, scope, lookup, now, req, mint).value
    requires WellFormed(Remembered(tx, g, scope, lookup, now, req, mint, w))
    ensures var d := DeltaOf(tx, g, scope, lookup, now, req, mint, w);
            Wrote(tx, g, Remembered(tx, g, scope, lookup, now, req, mint, w), scope, now, req, plan, d.ty, w)
  {
    var d := DeltaOf(tx, g, scope, lookup, now, req, mint, w);
    var g' := Remembered(tx, g, scope, lookup, now, req, mint, w);
    RememberedIs(tx, g, scope, lookup, now, req, mint, w);
    DeltaIsWrote(tx, g, scope, lookup, now, req, mint, d, g', plan);
  }

  lemma DeltaIsWrote(tx: Codec, g: Graph, scope: Scope, lookup: set<Scope>, now: int, req: Request, mint: Mint, d: Delta, g': Graph, plan: Plan)
    requires Planning(tx, g, scope, lookup, now, req, mint) && d == DeltaOf(tx, g, scope, lookup, now, req, mint, d.w)
    requires plan == RememberPlan(tx, g, scope, lookup, now, req, mint).value
    requires NodesBecame(g, g', d) && EdgesBecame(g, g', d) && WellFormed(g')
    ensures Wrote(tx, g, g', d.scope, d.now, req, plan, d.ty, d.w)
  {
    ReportIsDelta(tx, g, scope, lookup, now, req, mint, d, plan);
    LinksWrote(tx, g, scope, lookup, now, req, mint, d, g');
    DeltaWrote(tx, g, g', d, req, plan);
  }

  lemma ReportIsDelta(tx: Codec, g: Graph, scope: Scope, lookup: set<Scope>, now: int, req: Request, mint: Mint, d: Delta, plan: Plan)
    requires Planning(tx, g, scope, lookup, now, req, mint) && d == DeltaOf(tx, g, scope, lookup, now, req, mint, d.w)
    requires plan == RememberPlan(tx, g, scope, lookup, now, req, mint).value
    ensures plan.memory == d.memory && plan.deduplicated == d.props.None? && (forall id :: id in plan.superseded <==> id in d.marks)
    ensures plan.deduplicated == Dedups(tx, g, scope, req)
    ensures d.props.Some? ==> MemoryOnFields(tx, req, d.props.value)
    ensures plan.entities == Entities(d.links) && plan.edgeIds == EdgeIds(d.links)
  {
    ReportFields(tx, g, scope, lookup, now, req, mint);
    PlanFields(tx, g, scope, lookup, now, req, mint);
    NewMemoryOnFields(tx, req);
  }

  lemma LinksWrote(tx: Codec, g: Graph, scope: Scope, lookup: set<Scope>, now: int, req: Request, mint: Mint, d: Delta, g': Graph)
    requires Planning(tx, g, scope, lookup, now, req, mint) && d == DeltaOf(tx, g, scope, lookup, now, req, mint, d.w)
    requires NodesBecame(g, g', d) && EdgesBecame(g, g', d) && WellFormed(g')
    ensures forall i | 0 <= i < |d.links| :: LinkOnFields(g, g', scope, d.memory, d.ty, Dedups(tx, g, scope, req), d.links[i].entity, d.links[i].edge, d.w)
  {
    OwnNotMarked(tx, g, scope, lookup, now, req, mint, d);
    PlannedLinksAre(tx, g, scope, lookup, d.ty, req, mint);
    forall i | 0 <= i < |d.links|
      ensures LinkOnFields(g, g', scope, d.memory, d.ty, Dedups(tx, g, scope, req), d.links[i].entity, d.links[i].edge, d.w)
    {
      assert mint.edges[i] in mint.edges;
      LinkFields(g, g', d, Dedups(tx, g, scope, req), mint.edges[i], i);
    }
  }

  lemma OwnNotMarked(tx: Codec, g: Graph, scope: Scope, lookup: set<Scope>, now: int, req: Request, mint: Mint, d: Delta)
    requires Planning(tx, g, scope, lookup, now, req, mint) && d == DeltaOf(tx, g, scope, lookup, now, req, mint, d.w)
    ensures d.memory !in d.marks && (!Dedups(tx, g, scope, req) ==> d.memory !in g.nodes)
  {
    MarksAre(tx, g, scope, req.supersedes, now);
  }

  lemma DeltaWrote(tx: Codec, g: Graph, g': Graph, d: Delta, req: Request, plan: Plan)
    requires NodesBecame(g, g', d) && EdgesBecame(g, g', d) && WellFormed(g)
    requires plan.memory == d.memory && plan.deduplicated == d.props.None? && (forall id :: id in plan.superseded <==> id in d.marks)
    requires d.props.Some? ==> MemoryOnFields(tx, req, d.props.value)
    requires plan.entities == Entities(d.links) && plan.edgeIds == EdgeIds(d.links)
    requires forall i | 0 <= i < |d.links| :: LinkOnFields(g, g', d.scope, d.memory, d.ty, plan.deduplicated, d.links[i].entity, d.links[i].edge, d.w)
    ensures Wrote(tx, g, g', d.scope, d.now, req, plan, d.ty, d.w)
  {
    ReportsItsOwn(g, g', d, plan);
    assert forall i | 0 <= i < |d.links| :: plan.entities[i] == d.links[i].entity && plan.edgeIds[i] == d.links[i].edge;
  }

  /** Every node and edge that appears is reported. */
  lemma ReportsItsOwn(g: Graph, g': Graph, d: Delta, plan: Plan)
    requires NodesBecame(g, g', d) && EdgesBecame(g, g', d)
    requires plan.memory == d.memory && plan.deduplicated == d.props.None?
    requires plan.entities == Entities(d.links) && plan.edgeIds == EdgeIds(d.links)
    ensures forall id | id in g'.nodes && id !in g.nodes ::
              (id == plan.memory && !plan.deduplicated) || exists k :: k in plan.entities && k.created && k.id == id
    ensures forall e | e in g'.edges && e !in g.edges :: e in plan.edgeIds
  {
    forall id | id in g'.nodes && id !in g.nodes
      ensures (id == plan.memory && !plan.deduplicated) || exists k :: k in plan.entities && k.created && k.id == id
    {
      if IsCreated(d, id) {
        var l :| l in d.links && l.entity.created && l.entity.id == id;
        var i :| 0 <= i < |d.links| && d.links[i] == l;
        assert plan.entities[i] in plan.entities;
      }
    }
    forall e | e in g'.edges && e !in g.edges ensures e in plan.edgeIds {
      var l :| l in d.links && l.isNew && l.edge == e;
      var i :| 0 <= i < |d.links| && d.links[i] == l;
      assert plan.edgeIds[i] in plan.edgeIds;
    }
  }

  /** It commits exactly unless some entity it newly links is of another project than the
      write scope. */
  lemma RememberCommitsWhen(tx: Codec, g: Graph, scope: Scope, lookup: set<Scope>, now: int, req: Request, mint: Mint, w: int)
    requires Planning(tx, g, scope, lookup, now, req, mint)
    ensures var plan := RememberPlan(tx, g, scope, lookup, now, req, mint).value;
            Commit(tx, g, plan.ops, w).Ok? <==>
            forall i | 0 <= i < |plan.entities| && i < |plan.edgeIds| && !plan.entities[i].created && plan.edgeIds[i] !in g.edges ::
              && plan.entities[i].id in g.nodes
              && (scope == Shared || g.nodes[plan.entities[i].id].scope == Shared || g.nodes[plan.entities[i].id].scope == scope)
  {
    var plan := RememberPlan(tx, g, scope, lookup, now, req, mint).value;
    var ls := Links(tx, g, scope, lookup, req, mint);
    RememberCommits(tx, g, scope, lookup, now, req, mint, w);
    PlanFields(tx, g, scope, lookup, now, req, mint);
    NewIsFresh(tx, g, scope, lookup, req, mint);
    CrossingByIndex(g, scope, ls);
  }

  lemma CrossingByIndex(g: Graph, scope: Scope, ls: seq<Link>)
    requires forall i | 0 <= i < |ls| :: ls[i].isNew <==> ls[i].edge !in g.edges
    ensures NoCrossing(g, scope, ls) <==>
            forall i | 0 <= i < |Entities(ls)| && i < |EdgeIds(ls)| && !Entities(ls)[i].created && EdgeIds(ls)[i] !in g.edges ::
              && Entities(ls)[i].id in g.nodes
              && (scope == Shared || g.nodes[Entities(ls)[i].id].scope == Shared || g.nodes[Entities(ls)[i].id].scope == scope)
  {
    if NoCrossing(g, scope, ls) {
      assert forall i | 0 <= i < |ls| :: ls[i] in ls && Entities(ls)[i] == ls[i].entity && EdgeIds(ls)[i] == ls[i].edge;
    } else {
      var l :| l in ls && l.isNew && !l.entity.created && !(l.entity.id in g.nodes && !CrossesProjects(scope, g.nodes[l.entity.id].scope));
      var i :| 0 <= i < |ls| && ls[i] == l;
      assert Entities(ls)[i] == l.entity && EdgeIds(ls)[i] == l.edge;
    }
  }

  lemma NewIsFresh(tx: Codec, g: Graph, scope: Scope, lookup: set<Scope>, req: Request, mint: Mint)
    requires WellFormed(g) && Enough(mint, req) && Fresh(mint, g) && Validate(tx, req).Ok?
    ensures var ls := Links(tx, g, scope, lookup, req, mint); forall i | 0 <= i < |ls| :: ls[i].isNew <==> ls[i].edge !in g.edges
  {
    var ls := Links(tx, g, scope, lookup, req, mint);
    PlannedLinksAre(tx, g, scope, lookup, Validate(tx, req).value, req, mint);
    forall i | 0 <= i < |ls| ensures ls[i].isNew <==> ls[i].edge !in g.edges {
      assert mint.edges[i] in mint.edges;
      LinkedWhen(g, scope, MemoryFor(tx, g, scope, req, mint), Validate(tx, req).value, ls[i].entity.id);
    }
  }
}
