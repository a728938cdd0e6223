/** Which entity a name stands for, read off the graph, and what a remember reports for it. */
module Resolution {
  import opened Text
  import opened Store
  import opened Compose
  import opened Remember
  import opened Idempotence

  /** A node with this label and scope and, up to case and white space, this name. */
  predicate Bears(tx: Codec, n: Node, lookup: set<Scope>, tag: string, name: string) {
    && n.tag == tag && n.scope in lookup && "name" in n.props && n.props["name"].Str?
    && tx.lower(Collapse(n.props["name"].s)) == tx.lower(Collapse(name))
  }

  /** An open visible `alias_of` edge leads from a visible alias of that name to `x`. */
  ghost predicate Aliased(tx: Codec, g: Graph, lookup: set<Scope>, name: string, x: NodeId) {
    exists e :: e in g.edges && g.edges[e].to == x && g.edges[e].ty == "alias_of" && g.edges[e].scope in lookup
      && g.edges[e].validTo.None? && g.edges[e].from in g.nodes && Bears(tx, g.nodes[g.edges[e].from], lookup, "Alias", name)
  }

  /** `x` is a visible entity of that name, or one an alias of that name stands for. */
  ghost predicate StandsFor(tx: Codec, g: Graph, lookup: set<Scope>, name: string, x: NodeId) {
    && x in g.nodes && g.nodes[x].tag == "Entity" && g.nodes[x].scope in lookup
    && (Bears(tx, g.nodes[x], lookup, "Entity", name) || Aliased(tx, g, lookup, name, x))
  }

  lemma BearsIsKey(tx: Codec, g: Graph, lookup: set<Scope>, tag: string, name: string, id: NodeId)
    ensures id in NodesByKey(tx, g, lookup, tag, NAME, Str(name)) <==> id in g.nodes && Bears(tx, g.nodes[id], lookup, tag, name)
  {
  }

  lemma FoundStandsFor(tx: Codec, g: Graph, lookup: set<Scope>, name: string, x: NodeId)
    ensures x in FindEntities(tx, g, lookup, name) <==> StandsFor(tx, g, lookup, name, x)
  {
    BearsIsKey(tx, g, lookup, ENTITY, name, x);
    forall a ensures a in NodesByKey(tx, g, lookup, ALIAS, NAME, Str(name)) <==> a in g.nodes && Bears(tx, g.nodes[a], lookup, "Alias", name) {
      BearsIsKey(tx, g, lookup, ALIAS, name, a);
    }
  }

  /** A name resolves to the oldest entity it stands for, through aliases too, and to nothing
      exactly if it stands for none. */
  lemma ResolvesToOldest(tx: Codec, g: Graph, lookup: set<Scope>, name: string)
    ensures forall x :: FindExisting(tx, g, lookup, name) == Some(x) <==>
                        StandsFor(tx, g, lookup, name, x) && forall y | StandsFor(tx, g, lookup, name, y) :: x <= y
    ensures FindExisting(tx, g, lookup, name).None? <==> forall y :: !StandsFor(tx, g, lookup, name, y)
  {
    forall x ensures x in FindEntities(tx, g, lookup, name) <==> StandsFor(tx, g, lookup, name, x) {
      FoundStandsFor(tx, g, lookup, name, x);
    }
  }

  predicate SameName(tx: Codec, a: string, b: string) {
    tx.lower(Collapse(a)) == tx.lower(Collapse(b))
  }

  lemma SameNameSameAnswers(tx: Codec, g: Graph, lookup: set<Scope>, a: string, b: string)
    requires SameName(tx, a, b)
    ensures FindExisting(tx, g, lookup, a) == FindExisting(tx, g, lookup, b)
  {
    assert NodesByKey(tx, g, lookup, ENTITY, NAME, Str(a)) == NodesByKey(tx, g, lookup, ENTITY, NAME, Str(b));
    assert NodesByKey(tx, g, lookup, ALIAS, NAME, Str(a)) == NodesByKey(tx, g, lookup, ALIAS, NAME, Str(b));
  }

  lemma {:induction false} EveryNameCounts(tx: Codec, names: seq<string>, seen: set<string>, n: string)
    requires n in names && NameKey(tx, n) !in seen
    ensures exists m :: m in DistinctNames(tx, names, seen) && SameName(tx, m, n)
  {
    var rest := DistinctNames(tx, names[1..], if NameKey(tx, names[0]) in seen then seen else seen + {NameKey(tx, names[0])});
    if NameKey(tx, names[0]) == NameKey(tx, n) {
      assert DistinctNames(tx, names, seen)[0] == names[0];
      assert names[0] in DistinctNames(tx, names, seen) && SameName(tx, names[0], n);
    } else {
      EveryNameCounts(tx, names[1..], if NameKey(tx, names[0]) in seen then seen else seen + {NameKey(tx, names[0])}, n);
      var m :| m in rest && SameName(tx, m, n);
      assert m in DistinctNames(tx, names, seen);
    }
  }

  lemma NameHasResolution(tx: Codec, g: Graph, lookup: set<Scope>, req: Request, mint: Mint, n: string) returns (i: nat)
    requires Enough(mint, req) && n in req.entities
    ensures i < |Resolutions(tx, g, lookup, req, mint)|
    ensures var r := Resolutions(tx, g, lookup, req, mint)[i];
            && SameName(tx, r.name, n) && r.created == FindExisting(tx, g, lookup, n).None?
            && (r.created ==> r.id in mint.entities) && (!r.created ==> FindExisting(tx, g, lookup, n) == Some(r.id))
  {
    EveryNameCounts(tx, req.entities, {}, n);
    var names := DistinctNames(tx, req.entities, {});
    var m :| m in names && SameName(tx, m, n);
    i :| 0 <= i < |names| && names[i] == m;
    assert Resolutions(tx, g, lookup, req, mint)[i] == ResolveName(tx, g, lookup, m, mint.entities[i]);
    SameNameSameAnswers(tx, g, lookup, m, n);
  }

  lemma ReportedAreKept(tx: Codec, g: Graph, scope: Scope, lookup: set<Scope>, now: int, req: Request, mint: Mint)
    requires Enough(mint, req) && RememberPlan(tx, g, scope, lookup, now, req, mint).Ok?
    ensures RememberPlan(tx, g, scope, lookup, now, req, mint).value.entities == KeptEntities(tx, g, lookup, req, mint)
  {
    PlanFields(tx, g, scope, lookup, now, req, mint);
    PlannedLinksAre(tx, g, scope, lookup, Validate(tx, req).value, req, mint);
  }

  lemma KeptForName(tx: Codec, g: Graph, lookup: set<Scope>, req: Request, mint: Mint, n: string)
    requires Enough(mint, req) && Fresh(mint, g) && n in req.entities
    ensures exists k :: k in KeptEntities(tx, g, lookup, req, mint) && k.created == FindExisting(tx, g, lookup, n).None?
                        && (if k.created then SameName(tx, k.name, n) else FindExisting(tx, g, lookup, n) == Some(k.id))
  {
    var i := NameHasResolution(tx, g, lookup, req, mint, n);
    var rs := Resolutions(tx, g, lookup, req, mint);
    RetainsAll(rs, {}, rs[i]);
    var k :| k in KeptEntities(tx, g, lookup, req, mint) && k.id == rs[i].id;
    KeptIs(tx, g, lookup, req, mint);
    ResolvesToOldest(tx, g, lookup, k.name);
    ResolvesToOldest(tx, g, lookup, n);
    if rs[i].created {
      var at := RetainFirstIs(rs, {});
      var j :| 0 <= j < |at| && KeptEntities(tx, g, lookup, req, mint)[j] == k;
      CreatedIdIsOwn(tx, g, lookup, req, mint, i, at[j]);
    }
  }

  /** What the upserts of a plan create: kept entities that no name resolved to. */
  lemma UpsertsAreCreated(tx: Codec, g: Graph, scope: Scope, lookup: set<Scope>, now: int, req: Request, mint: Mint, op: Op)
    requires Enough(mint, req) && RememberPlan(tx, g, scope, lookup, now, req, mint).Ok?
    requires op in RememberPlan(tx, g, scope, lookup, now, req, mint).value.ops && op.UpsertNode?
    ensures exists k :: k in KeptEntities(tx, g, lookup, req, mint) && k.created && op.id == k.id && op.props == map["name" := Str(k.name)]
  {
    var plan := RememberPlan(tx, g, scope, lookup, now, req, mint).value;
    var ls := Links(tx, g, scope, lookup, req, mint);
    PlanShape(tx, g, scope, lookup, now, req, mint);
    LinkOpsAre(scope, plan.memory, Validate(tx, req).value, ls);
    RetireOpsAre(tx, g, scope, Supersede, req.supersedes, {}, now);
    assert op in AllLinkOps(scope, plan.memory, Validate(tx, req).value, ls);
    var l :| l in ls && l.entity.created && op.id == l.entity.id && op.props == EntityProps(l.entity.name);
    PlannedLinksAre(tx, g, scope, lookup, Validate(tx, req).value, req, mint);
    var i :| 0 <= i < |ls| && ls[i] == l;
    assert KeptEntities(tx, g, lookup, req, mint)[i] == l.entity;
  }

  /** A requested name that stands for an entity, under its own name or an alias, is reported
      as the oldest such entity, and nothing is created under that name; a name that stands
      for none is reported created. */
  lemma RememberReports(tx: Codec, g: Graph, scope: Scope, lookup: set<Scope>, now: int, req: Request, mint: Mint, n: string)
    requires Enough(mint, req) && Fresh(mint, g) && RememberPlan(tx, g, scope, lookup, now, req, mint).Ok? && n in req.entities
    ensures forall x | StandsFor(tx, g, lookup, n, x) && (forall y | StandsFor(tx, g, lookup, n, y) :: x <= y) ::
              var plan := RememberPlan(tx, g, scope, lookup, now, req, mint).value;
              && (exists k :: k in plan.entities && k.id == x && !k.created)
              && forall op | op in plan.ops && op.UpsertNode? ::
                   "name" in op.props && op.props["name"].Str? && !SameName(tx, op.props["name"].s, n)
    ensures (forall y :: !StandsFor(tx, g, lookup, n, y)) ==>
              exists k :: k in RememberPlan(tx, g, scope, lookup, now, req, mint).value.entities && k.created && SameName(tx, k.name, n)
  {
    var plan := RememberPlan(tx, g, scope, lookup, now, req, mint).value;
    ReportedAreKept(tx, g, scope, lookup, now, req, mint);
    ResolvesToOldest(tx, g, lookup, n);
    KeptForName(tx, g, lookup, req, mint, n);
    KeptIs(tx, g, lookup, req, mint);
    if FindExisting(tx, g, lookup, n).Some? {
      forall op | op in plan.ops && op.UpsertNode?
        ensures "name" in op.props && op.props["name"].Str? && !SameName(tx, op.props["name"].s, n)
      {
        UpsertsAreCreated(tx, g, scope, lookup, now, req, mint, op);
        var k :| k in KeptEntities(tx, g, lookup, req, mint) && k.created && op.id == k.id && op.props == map["name" := Str(k.name)];
        if SameName(tx, k.name, n) {
          SameNameSameAnswers(tx, g, lookup, k.name, n);
        }
      }
    }
  }
}
