/** The past does not change: no remember, supersede or forget alters which edges were
    live, or believed, at an instant before it was written. */
module History {
  import opened Text
  import opened Store
  import opened Compose
  import opened Effects
  import opened Remember
  import opened Idempotence
  import opened Lifecycle

  datatype Fact = Fact(scope: Scope, ty: string, from: NodeId, to: NodeId, props: Props)

  function FactOf(e: Edge): Fact {
    Fact(e.scope, e.ty, e.from, e.to, e.props)
  }

  /** The graph as of world time `t`. */
  function LiveView(g: Graph, t: int): map<EdgeId, Fact> {
    map e | e in g.edges && LiveAt(g.edges[e], t) :: FactOf(g.edges[e])
  }

  /** The graph as it was believed at `t`. */
  function BelievedView(g: Graph, t: int): map<EdgeId, Fact> {
    map e | e in g.edges && BelievedAt(g.edges[e], t) :: FactOf(g.edges[e])
  }

  ghost predicate SamePast(g: Graph, g': Graph, t: int) {
    LiveView(g', t) == LiveView(g, t) && BelievedView(g', t) == BelievedView(g, t)
  }

  /** Closing some open edges at `w` and adding edges recorded at `w` leaves every earlier
      instant as it was. */
  lemma PastKept(g: Graph, g': Graph, closed: set<EdgeId>, w: int, t: int)
    requires WellFormed(g) && t < w
    requires g.edges.Keys <= g'.edges.Keys
    requires forall e | e in g.edges :: g'.edges[e] == if e in closed then Closed(g.edges[e], w, w) else g.edges[e]
    requires forall e | e in closed :: e in g.edges && g.edges[e].validTo.None?
    requires forall e | e in g'.edges && e !in g.edges :: g'.edges[e].validFrom == w && g'.edges[e].recordedAt == w
    ensures SamePast(g, g', t)
  {
    forall e ensures e in LiveView(g', t) <==> e in LiveView(g, t) {}
    forall e ensures e in BelievedView(g', t) <==> e in BelievedView(g, t) {}
  }

  lemma RememberKeepsPast(tx: Codec, g: Graph, scope: Scope, lookup: set<Scope>, now: int, req: Request, mint: Mint, w: int, t: int)
    requires Planning(tx, g, scope, lookup, now, req, mint) && t < w
    ensures SamePast(g, Remembered(tx, g, scope, lookup, now, req, mint, w), t)
  {
    RememberedIs(tx, g, scope, lookup, now, req, mint, w);
    DeltaKeepsPast(g, Remembered(tx, g, scope, lookup, now, req, mint, w), DeltaOf(tx, g, scope, lookup, now, req, mint, w), t);
  }

  lemma DeltaKeepsPast(g: Graph, g': Graph, d: Delta, t: int)
    requires WellFormed(g) && EdgesBecame(g, g', d) && t < d.w
    ensures SamePast(g, g', t)
  {
    forall e | e in g'.edges && e !in g.edges ensures g'.edges[e].validFrom == d.w && g'.edges[e].recordedAt == d.w {
      var l :| l in d.links && l.isNew && l.edge == e;
    }
    PastKept(g, g', OpenFrom(g, d.scope, d.marks), d.w, t);
  }

  lemma CallKeepsPast(tx: Codec, s: World, c: Call, t: int)
    requires WellFormed(s.graph) && Allowed(s, c) && !c.act.Purging? && t < c.w
    ensures SamePast(s.graph, Next(tx, s, c).graph, t)
  {
    var g := s.graph;
    match c.act {
      case Remembering(scope, lookup, req, mint) =>
        var plan := RememberPlan(tx, g, scope, lookup, c.now, req, mint);
        if plan.Ok? && Commit(tx, g, plan.value.ops, c.w).Ok? {
          RememberCommits(tx, g, scope, lookup, c.now, req, mint, c.w);
          RememberKeepsPast(tx, g, scope, lookup, c.now, req, mint, c.w, t);
        }
      case Retiring(verb, scope, ids) =>
        var plan := RetirePlan(tx, g, scope, verb, ids, c.now);
        if plan.Ok? {
          RetireCommits(tx, g, scope, verb, ids, c.now, c.w);
          var marks := Elements(plan.value.marked);
          PastKept(g, Retired(g, marks, OpenFrom(g, scope, marks), verb, c.now, c.w), OpenFrom(g, scope, marks), c.w, t);
        }
    }
  }

  /** Over every run of the three verbs written after `t`, both axes at `t` stay as they were. */
  lemma {:induction false} HistoryImmutable(tx: Codec, s: World, cs: seq<Call>, t: int)
    requires WellFormed(s.graph) && AllowedRun(tx, s, cs)
    requires forall c | c in cs :: !c.act.Purging? && t < c.w
    ensures SamePast(s.graph, After(tx, s, cs).graph, t)
    decreases |cs|
  {
    if cs != [] {
      assert cs[0] in cs;
      CallKeepsPast(tx, s, cs[0], t);
      NextKeepsWellFormed(tx, s, cs[0]);
      assert forall c | c in cs[1..] :: c in cs;
      HistoryImmutable(tx, Next(tx, s, cs[0]), cs[1..], t);
    }
  }
}
