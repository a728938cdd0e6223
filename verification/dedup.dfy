/** The content-hash index against a full scan, and what a retirement leaves connected. */
module Dedup {
  import opened Text
  import opened Store
  import opened Compose
  import opened Effects
  import opened Remember
  import opened Idempotence
  import opened Lifecycle

  /** Live memories of the scope with equal normalized content, hash or no hash. */
  function Scan(g: Graph, scope: Scope, content: string): set<NodeId> {
    set id | id in g.nodes && g.nodes[id].tag == MEMORY && g.nodes[id].scope == scope
             && Live(g.nodes[id]) && HasContent(g.nodes[id], Collapse(content))
  }

  /** Every memory with text carries the hash of that text. */
  ghost predicate AllStamped(tx: Codec, g: Graph) {
    forall id | id in g.nodes && g.nodes[id].tag == MEMORY && CONTENT in g.nodes[id].props && g.nodes[id].props[CONTENT].Str? ::
      CONTENT_HASH in g.nodes[id].props && g.nodes[id].props[CONTENT_HASH] == Str(ContentHash(tx, g.nodes[id].props[CONTENT].s))
  }

  /** For every hash function, even a constant one, the bucket lookup is the scan restricted
      to correctly stamped memories; when all are stamped it finds the oldest of the scan. */
  lemma BucketIsScan(tx: Codec, g: Graph, scope: Scope, content: string)
    ensures Matches(tx, g, scope, content) ==
            set id | id in Scan(g, scope, content) && IsStampedLive(tx, g.nodes[id])
    ensures AllStamped(tx, g) ==>
            ExistingMemory(tx, g, scope, content) ==
            if Scan(g, scope, content) == {} then None else Some(Least(Scan(g, scope, content)))
  {
    MatchesAre(tx, g, scope, content);
    if AllStamped(tx, g) { assert Matches(tx, g, scope, content) == Scan(g, scope, content); }
  }

  lemma CallKeepsStamped(tx: Codec, s: World, c: Call)
    requires Grounded(s) && Allowed(s, c) && AllStamped(tx, s.graph)
    ensures AllStamped(tx, Next(tx, s, c).graph)
  {
    var g, g' := s.graph, Next(tx, s, c).graph;
    CallStep(tx, s, c);
    forall id | id in g'.nodes && g'.nodes[id].tag == MEMORY && id !in g.nodes
      ensures CONTENT in g'.nodes[id].props && CONTENT_HASH in g'.nodes[id].props
      ensures g'.nodes[id].props[CONTENT].Str? && g'.nodes[id].props[CONTENT_HASH] == Str(ContentHash(tx, g'.nodes[id].props[CONTENT].s))
    {
      NewNodesStamped(tx, s, c, id);
    }
    forall id | id in g'.nodes && id in g.nodes && CONTENT in g'.nodes[id].props
      ensures Aged(g.nodes[id], g'.nodes[id]) && CONTENT in g.nodes[id].props
    {
      assert CONTENT in g'.nodes[id].props.Keys - {SUPERSEDED_AT, FORGOTTEN_AT};
    }
  }

  lemma NewNodesStamped(tx: Codec, s: World, c: Call, id: NodeId)
    requires WellFormed(s.graph) && Allowed(s, c)
    requires id in Next(tx, s, c).graph.nodes && id !in s.graph.nodes && Next(tx, s, c).graph.nodes[id].tag == MEMORY
    ensures var n := Next(tx, s, c).graph.nodes[id];
            CONTENT in n.props && CONTENT_HASH in n.props && n.props[CONTENT].Str?
            && n.props[CONTENT_HASH] == Str(ContentHash(tx, n.props[CONTENT].s))
  {
    var g := s.graph;
    if c.act.Remembering? {
      var Remembering(scope, lookup, req, mint) := c.act;
      RememberCommits(tx, g, scope, lookup, c.now, req, mint, c.w);
      RememberedIs(tx, g, scope, lookup, c.now, req, mint, c.w);
      NewMemoryIs(tx, req);
    } else if c.act.Retiring? {
      RetireCommits(tx, g, c.act.scope, c.act.verb, c.act.ids, c.now, c.w);
    } else {
      PurgeExact(tx, g, c.act.scopes, c.act.cutoff, c.w);
    }
  }

  /** Over every run of the verbs, every memory stays stamped, so the lookup stays exact. */
  lemma {:induction false} StampedRun(tx: Codec, s: World, cs: seq<Call>)
    requires Grounded(s) && AllowedRun(tx, s, cs) && AllStamped(tx, s.graph)
    ensures AllStamped(tx, After(tx, s, cs).graph)
    decreases |cs|
  {
    if cs != [] {
      CallKeepsStamped(tx, s, cs[0]);
      CallStep(tx, s, cs[0]);
      StampedRun(tx, Next(tx, s, cs[0]), cs[1..]);
    }
  }

  /** A retired memory has no open out-edge left in the write scope; it has none left at all
      exactly when it had none outside that scope. */
  lemma RetireDisconnects(tx: Codec, g: Graph, scope: Scope, verb: Verb, ids: seq<string>, now: int, w: int, id: NodeId)
    requires RetirePlan(tx, g, scope, verb, ids, now).Ok?
    requires id in RetirePlan(tx, g, scope, verb, ids, now).value.marked
    ensures var r := Commit(tx, g, RetirePlan(tx, g, scope, verb, ids, now).value.ops, w);
            r.Ok? &&
            var g' := r.value.graph;
            && OpenOut(g', {scope}, id) == {}
            && ((forall e | e in g'.edges && g'.edges[e].from == id :: g'.edges[e].validTo.Some?) <==>
                (forall e | e in g.edges && g.edges[e].from == id && g.edges[e].validTo.None? :: g.edges[e].scope == scope))
  {
    RetireCommits(tx, g, scope, verb, ids, now, w);
    var marks := Elements(RetirePlan(tx, g, scope, verb, ids, now).value.marked);
    var es := OpenFrom(g, scope, marks);
    var g' := Retired(g, marks, es, verb, now, w);
    assert id in marks;
    assert forall e | e in g.edges :: e in g'.edges && g'.edges[e] == if e in es then Closed(g.edges[e], w, w) else g.edges[e];
  }
}
