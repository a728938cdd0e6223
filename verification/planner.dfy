/** The imperative planner: `plan_remember` with its loops, and edge-type normalization. */
module Planner {
  import opened Text
  import opened Store
  import opened Compose

  lemma {:induction false} LinkOpsSnoc(scope: Scope, memory: NodeId, ty: string, ls: seq<Link>, l: Link)
    ensures AllLinkOps(scope, memory, ty, ls + [l]) == AllLinkOps(scope, memory, ty, ls) + LinkOps(scope, memory, ty, l)
  {
    if ls == [] {
      assert ls + [l] == [l] && [l][1..] == [];
    } else {
      assert (ls + [l])[1..] == ls[1..] + [l];
      LinkOpsSnoc(scope, memory, ty, ls[1..], l);
    }
  }

  /** Parse every superseded id; the first bad one refuses the call. */
  method ParseSupersedes(tx: Codec, raws: seq<string>) returns (bad: Option<string>, ids: set<NodeId>)
    ensures bad == FirstBadId(tx, raws)
    ensures bad.None? ==> ids == ParsedIds(tx, raws)
  {
    ids := {};
    assert raws[0..] == raws;
    for i := 0 to |raws|
      invariant FirstBadId(tx, raws) == FirstBadId(tx, raws[i..])
      invariant ids == ParsedIds(tx, raws[..i])
    {
      assert raws[i..][0] == raws[i] && raws[i..][1..] == raws[i + 1..];
      var parsed := tx.parseId(raws[i]);
      if parsed.None? { return Some(raws[i]), ids; }
      assert raws[..i + 1] == raws[..i] + [raws[i]];
      ids := ids + {parsed.value};
    }
    assert raws[..|raws|] == raws;
    bad := None;
  }

  lemma OneMore(done: seq<string>, x: string, rest: seq<string>)
    ensures done + ([x] + rest) == (done + [x]) + rest
  {
  }

  lemma ResolveOneMore(tx: Codec, g: Graph, lookup: set<Scope>, done: seq<string>, x: string, minted: seq<NodeId>)
    requires |done| < |minted|
    ensures ResolveNames(tx, g, lookup, done + [x], minted) ==
            ResolveNames(tx, g, lookup, done, minted) + [ResolveName(tx, g, lookup, x, minted[|done|])]
  {
  }

  /** Resolve each distinct name, minting an id for a name that resolves to nothing. */
  method ResolveEntities(tx: Codec, g: Graph, lookup: set<Scope>, names: seq<string>, minted: seq<NodeId>) returns (resolved: seq<Planned>)
    requires |names| <= |minted|
    ensures resolved == ResolveNames(tx, g, lookup, DistinctNames(tx, names, {}), minted)
  {
    resolved := [];
    var seen: set<string> := {};
    ghost var done: seq<string> := [];
    assert names[0..] == names;
    assert [] + DistinctNames(tx, names, {}) == DistinctNames(tx, names, {});
    for i := 0 to |names|
      invariant |done| <= i && resolved == ResolveNames(tx, g, lookup, done, minted)
      invariant DistinctNames(tx, names, {}) == done + DistinctNames(tx, names[i..], seen)
    {
      assert names[i..][0] == names[i] && names[i..][1..] == names[i + 1..];
      var key := NameKey(tx, names[i]);
      if key !in seen {
        seen := seen + {key};
        OneMore(done, names[i], DistinctNames(tx, names[i + 1..], seen));
        ResolveOneMore(tx, g, lookup, done, names[i], minted);
        resolved := resolved + [ResolveName(tx, g, lookup, names[i], minted[|resolved|])];
        done := done + [names[i]];
      }
    }
    assert done + [] == done;
  }

  /** `resolved.retain`: keep the first name of each resolved id. */
  method RetainEntities(resolved: seq<Planned>) returns (kept: seq<Planned>)
    ensures kept == RetainFirst(resolved, {})
  {
    kept := [];
    var seen: set<NodeId> := {};
    assert resolved[0..] == resolved;
    assert [] + RetainFirst(resolved, {}) == RetainFirst(resolved, {});
    for i := 0 to |resolved|
      invariant RetainFirst(resolved, {}) == kept + RetainFirst(resolved[i..], seen)
    {
      var r := resolved[i];
      assert resolved[i..][0] == r && resolved[i..][1..] == resolved[i + 1..];
      if r.id !in seen {
        seen := seen + {r.id};
        assert kept + ([r] + RetainFirst(resolved[i + 1..], seen)) == (kept + [r]) + RetainFirst(resolved[i + 1..], seen);
        kept := kept + [r];
      }
    }
    assert kept + [] == kept;
  }

  /** One edge per kept entity: the existing one on a dedup hit, else a new one. */
  method LinkEntities(g: Graph, scope: Scope, memory: NodeId, ty: string, dedup: bool, kept: seq<Planned>, minted: seq<EdgeId>)
    returns (ops: seq<Op>, entities: seq<Planned>, edgeIds: seq<EdgeId>)
    requires |kept| <= |minted|
    ensures var links := LinkAll(g, scope, memory, ty, dedup, kept, minted);
            ops == AllLinkOps(scope, memory, ty, links) && entities == Entities(links) && edgeIds == EdgeIds(links)
  {
    ops, entities, edgeIds := [], [], [];
    ghost var links := LinkAll(g, scope, memory, ty, dedup, kept, minted);
    for i := 0 to |kept|
      invariant ops == AllLinkOps(scope, memory, ty, links[..i])
      invariant entities == Entities(links[..i]) && edgeIds == EdgeIds(links[..i])
    {
      var l := LinkOne(g, scope, memory, ty, dedup, kept[i], minted[i]);
      assert links[..i + 1] == links[..i] + [l];
      LinkOpsSnoc(scope, memory, ty, links[..i], l);
      ops := ops + LinkOps(scope, memory, ty, l);
      edgeIds := edgeIds + [l.edge];
      entities := entities + [l.entity];
    }
    assert links[..|kept|] == links;
  }

  /** `plan_remember`. */
  method PlanRemember(tx: Codec, g: Graph, scope: Scope, lookup: set<Scope>, now: int, req: Request, mint: Mint)
    returns (r: Result<Plan, Refusal>)
    requires Enough(mint, req)
    ensures r == RememberPlan(tx, g, scope, lookup, now, req, mint)
  {
    var ty := Validate(tx, req);
    if ty.Err? { return Err(BadRequest(ty.error)); }
    var props := NewMemoryProps(tx, req);
    if props.Err? { return Err(BadRequest(props.error)); }
    var bad, supersedes := ParseSupersedes(tx, req.supersedes);
    if bad.Some? { return Err(BadId(bad.value)); }
    var existing := ExistingMemory(tx, g, scope, req.content);
    var dedup := existing.Some? && existing.value !in supersedes;
    var memory := if dedup then existing.value else mint.memory;
    var retire := PlanRetire(tx, g, scope, Supersede, req.supersedes, now);
    if retire.Err? { return Err(retire.error); }
    var resolved := ResolveEntities(tx, g, lookup, req.entities, mint.entities);
    var kept := RetainEntities(resolved);
    var create := if dedup then [] else [CreateNode(memory, scope, MEMORY, props.value)];
    var links, entities, edgeIds := LinkEntities(g, scope, memory, ty.value, dedup, kept, mint.edges);
    r := Ok(Plan(create + links + retire.value.ops, memory, dedup, if dedup then None else Some(req.content),
                 entities, edgeIds, retire.value.marked));
  }

  /** The words of a text cut at `i`, when its last word is still being read. */
  lemma {:induction false} WordsCut(sep: char -> bool, s: string, c: char)
    ensures sep(c) ==> Words(sep, s + [c]) == Words(sep, s)
    ensures !sep(c) && (s == [] || sep(s[|s| - 1])) ==> Words(sep, s + [c]) == Words(sep, s) + [[c]]
    ensures !sep(c) && s != [] && !sep(s[|s| - 1]) ==>
            var ws := Words(sep, s);
            ws != [] && Words(sep, s + [c]) == ws[..|ws| - 1] + [ws[|ws| - 1] + [c]]
    decreases |s|
  {
    var t := s + [c];
    if s == [] {
      assert t == [c];
      if !sep(c) {
        FirstWordOf(sep, [c], "");
        assert [c] + "" == [c];
      }
    } else if sep(s[0]) {
      assert t[1..] == s[1..] + [c];
      WordsCut(sep, s[1..], c);
    } else {
      var w := FirstWord(sep, s);
      var rest := s[|w|..];
      assert s == w + rest;
      WordsCut(sep, rest, c);
      WordAhead(sep, w, rest, c);
      assert w + rest + [c] == t;
      GrowBehind(w, Words(sep, rest), Words(sep, rest + [c]), c);
    }
  }

  lemma GrowBehind(w: string, ws: seq<string>, ws': seq<string>, c: char)
    ensures ws != [] && ws' == ws[..|ws| - 1] + [ws[|ws| - 1] + [c]] ==>
            [w] + ws' == ([w] + ws)[..|ws|] + [([w] + ws)[|ws|] + [c]]
    ensures [w] + (ws + [[c]]) == ([w] + ws) + [[c]]
  {
  }

  /** A word in front of a text read so far and of the text with one more character. */
  lemma WordAhead(sep: char -> bool, w: string, rest: string, c: char)
    requires w != "" && (forall x | x in w :: !sep(x)) && (rest == "" || sep(rest[0]))
    ensures Words(sep, w + rest) == [w] + Words(sep, rest)
    ensures Words(sep, w + rest + [c]) == if rest == "" && !sep(c) then [w + [c]] else [w] + Words(sep, rest + [c])
  {
    FirstWordOf(sep, w, rest);
    assert (w + rest)[|w|..] == rest;
    if rest == "" && !sep(c) {
      assert w + rest + [c] == (w + [c]) + "";
      FirstWordOf(sep, w + [c], "");
      assert ((w + [c]) + "")[|w + [c]|..] == "";
    } else {
      assert w + rest + [c] == w + (rest + [c]);
      FirstWordOf(sep, w, rest + [c]);
      assert (w + (rest + [c]))[|w|..] == rest + [c];
    }
  }

  /** How one more character changes the joined words. */
  lemma TypeStep(s: string, c: char)
    ensures var out, out' := Join(Words(IsTypeSeparator, s), "_"), Join(Words(IsTypeSeparator, s + [c]), "_");
            out' == if IsTypeSeparator(c) then out
                    else if s != [] && IsTypeSeparator(s[|s| - 1]) && out != "" then out + "_" + [c]
                    else out + [c]
  {
    WordsCut(IsTypeSeparator, s, c);
    if !IsTypeSeparator(c) {
      JoinStep(Words(IsTypeSeparator, s), Words(IsTypeSeparator, s + [c]), c, s == [] || IsTypeSeparator(s[|s| - 1]));
    }
    if s == [] {
      assert Words(IsTypeSeparator, s) == [];
    }
  }

  lemma JoinStep(ws: seq<string>, ws': seq<string>, c: char, begins: bool)
    requires forall w | w in ws :: w != []
    requires begins ==> ws' == ws + [[c]]
    requires !begins ==> ws != [] && ws' == ws[..|ws| - 1] + [ws[|ws| - 1] + [c]]
    ensures Join(ws', "_") == if begins && Join(ws, "_") != "" then Join(ws, "_") + "_" + [c] else Join(ws, "_") + [c]
  {
    if begins {
      JoinSnoc(ws, [c], "_");
      JoinEmpty(ws);
    } else {
      GrowLast(ws, c);
    }
  }

  /** `normalize_edge_type`: one pass with a pending separator. */
  method NormalizeEdgeType(tx: Codec, raw: string) returns (r: Result<string, string>)
    ensures r == EdgeType(tx, raw)
  {
    var lowered := tx.lower(raw);
    var out := "";
    var pending := false;
    for i := 0 to |lowered|
      invariant out == Join(Words(IsTypeSeparator, lowered[..i]), "_")
      invariant pending <==> out != "" && i > 0 && IsTypeSeparator(lowered[i - 1])
    {
      var c := lowered[i];
      var s := lowered[..i];
      assert lowered[..i + 1] == s + [c];
      TypeStep(s, c);
      if IsTypeSeparator(c) {
        if out != "" { pending := true; }
      } else {
        if pending {
          out := out + "_";
          pending := false;
        }
        out := out + [c];
      }
    }
    assert lowered[..|lowered|] == lowered;
    if out == "" {
      r := Err("edge type is empty once normalized");
    } else {
      r := Ok(out);
    }
  }

  lemma JoinEmpty(ws: seq<string>)
    requires forall w | w in ws :: w != []
    ensures Join(ws, "_") == "" <==> ws == []
  {
    if ws != [] { assert ws[0] in ws; }
  }

  lemma GrowLast(ws: seq<string>, c: char)
    requires ws != []
    ensures Join(ws[..|ws| - 1] + [ws[|ws| - 1] + [c]], "_") == Join(ws, "_") + [c]
  {
    var front, last := ws[..|ws| - 1], ws[|ws| - 1];
    FrontAndLast(ws);
    GrowSnoc(front, last, c);
  }

  lemma FrontAndLast(ws: seq<string>)
    requires ws != []
    ensures ws[..|ws| - 1] + [ws[|ws| - 1]] == ws
  {
  }

  lemma GrowSnoc(front: seq<string>, last: string, c: char)
    ensures Join(front + [last + [c]], "_") == Join(front + [last], "_") + [c]
  {
    JoinSnoc(front, last, "_");
    JoinSnoc(front, last + [c], "_");
  }
}
