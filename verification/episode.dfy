/** The session recorder's episode batch, and what it compiles to. */
module Episode {
  import opened Text
  import opened Store
  import opened Json
  import opened Batch

  datatype Hit = Hit(id: string, rank: Json, score: Json)

  datatype Retrieval = Retrieval(query: Json, at: Json, channel: Json, returned: seq<Hit>)

  datatype Episode = Episode(
    outcome: Json,
    startedAt: Json,
    endedAt: Json,
    failure: Json,
    reason: Json,
    usageJudged: Json,
    retrievals: seq<Retrieval>,
    used: map<nat, seq<string>>)

  function UsedBy(ep: Episode, i: nat): seq<string> {
    if i in ep.used then ep.used[i] else []
  }

  function EpisodeProps(ep: Episode): Json {
    Object(map[
      "goal" := Quote(""), "strategy" := Quote(""), "outcome" := ep.outcome,
      "started_at" := ep.startedAt, "ended_at" := ep.endedAt, "turns" := Integer(|ep.retrievals|),
      "tokens" := Integer(0), "confidence" := Decimal(0.5), "failure" := ep.failure,
      "reason" := ep.reason, "usage_judged" := ep.usageJudged])
  }

  function NodeCmd(tag: string, props: Json): Json {
    Object(map["op" := Quote("create_node"), "label" := Quote(tag), "props" := props])
  }

  function EventProps(r: Retrieval): Json {
    Object(map["query" := r.query, "at" := r.at])
  }

  /** A link command before it is written down. */
  datatype Arrow = Arrow(from: string, to: string, ty: string, props: Option<Json>)

  function LinkCmd(a: Arrow): Json {
    var base := map["op" := Quote("link"), "from" := Quote(a.from), "to" := Quote(a.to), "type" := Quote(a.ty)];
    Object(if a.props.Some? then base["props" := a.props.value] else base)
  }

  function LinkCmds(arrows: seq<Arrow>): seq<Json> {
    seq(|arrows|, i requires 0 <= i < |arrows| => LinkCmd(arrows[i]))
  }

  function Ref(n: nat): string {
    "#" + ToDecimal(n)
  }

  function HitProps(r: Retrieval, h: Hit): Json {
    Object(map["rank" := h.rank, "score" := h.score, "channel" := r.channel])
  }

  function ReturnedArrows(r: Retrieval, at: nat): seq<Arrow> {
    seq(|r.returned|, i requires 0 <= i < |r.returned| => Arrow(Ref(at), r.returned[i].id, "RETURNED", Some(HitProps(r, r.returned[i]))))
  }

  function UsedArrows(used: seq<string>, at: nat): seq<Arrow> {
    seq(|used|, i requires 0 <= i < |used| => Arrow(Ref(at), used[i], "USED", None))
  }

  /** The links of the retrieval whose event is command `at`. */
  function Arrows(r: Retrieval, used: seq<string>, at: nat): seq<Arrow> {
    IssuedArrow(at) + ReturnedArrows(r, at) + UsedArrows(used, at)
  }

  function RetrievalCmds(r: Retrieval, used: seq<string>, at: nat): seq<Json> {
    [NodeCmd("RetrievalEvent", EventProps(r))] + LinkCmds(Arrows(r, used, at))
  }

  function CmdsFrom(ep: Episode, i: nat, at: nat): seq<Json>
    requires i <= |ep.retrievals|
    decreases |ep.retrievals| - i
  {
    if i == |ep.retrievals| then []
    else
      var cmds := RetrievalCmds(ep.retrievals[i], UsedBy(ep, i), at);
      cmds + CmdsFrom(ep, i + 1, at + |cmds|)
  }

  function EpisodeCmds(ep: Episode): seq<Json> {
    [NodeCmd("Episode", EpisodeProps(ep))] + CmdsFrom(ep, 0, 1)
  }

  lemma LinkCmdsSnoc(arrows: seq<Arrow>, k: nat)
    requires k < |arrows|
    ensures LinkCmds(arrows[..k + 1]) == LinkCmds(arrows[..k]) + [LinkCmd(arrows[k])]
  {
  }

  /** The commands one retrieval pushes when its event is command `at`. */
  method PushRetrieval(r: Retrieval, used: seq<string>, at: nat) returns (cmds: seq<Json>)
    ensures cmds == RetrievalCmds(r, used, at)
  {
    ghost var arrows := Arrows(r, used, at);
    var event := Object(map[
      "op" := Quote("create_node"), "label" := Quote("RetrievalEvent"), "props" := Object(map["query" := r.query, "at" := r.at])]);
    cmds := [event, Object(map["op" := Quote("link"), "from" := Quote("#0"), "to" := Quote(Ref(at)), "type" := Quote("ISSUED")])];
    assert Ref(0) == "#0" && arrows[..1] == [Arrow("#0", Ref(at), "ISSUED", None)];
    for j := 0 to |r.returned|
      invariant cmds == [event] + LinkCmds(arrows[..1 + j])
    {
      LinkCmdsSnoc(arrows, 1 + j);
      assert arrows[1 + j] == ReturnedArrows(r, at)[j];
      var h := r.returned[j];
      cmds := cmds + [Object(map["op" := Quote("link"), "from" := Quote(Ref(at)), "to" := Quote(h.id), "type" := Quote("RETURNED"),
                                 "props" := Object(map["rank" := h.rank, "score" := h.score, "channel" := r.channel])])];
    }
    ghost var n := 1 + |r.returned|;
    for j := 0 to |used|
      invariant cmds == [event] + LinkCmds(arrows[..n + j])
    {
      LinkCmdsSnoc(arrows, n + j);
      assert arrows[n + j] == UsedArrows(used, at)[j];
      cmds := cmds + [Object(map["op" := Quote("link"), "from" := Quote(Ref(at)), "to" := Quote(used[j]), "type" := Quote("USED")])];
    }
    assert arrows[..n + |used|] == arrows;
  }

  /** `buildEpisodeBatch`: push commands, using the running length as the next reference. */
  method BuildEpisodeBatch(ep: Episode) returns (cmds: seq<Json>)
    ensures cmds == EpisodeCmds(ep)
  {
    var props := Object(map[
      "goal" := Quote(""), "strategy" := Quote(""), "outcome" := ep.outcome,
      "started_at" := ep.startedAt, "ended_at" := ep.endedAt, "turns" := Integer(|ep.retrievals|),
      "tokens" := Integer(0), "confidence" := Decimal(0.5), "failure" := ep.failure,
      "reason" := ep.reason, "usage_judged" := ep.usageJudged]);
    cmds := [Object(map["op" := Quote("create_node"), "label" := Quote("Episode"), "props" := props])];
    for i := 0 to |ep.retrievals|
      invariant EpisodeCmds(ep) == cmds + CmdsFrom(ep, i, |cmds|)
    {
      var these := PushRetrieval(ep.retrievals[i], UsedBy(ep, i), |cmds|);
      ghost var rest := CmdsFrom(ep, i + 1, |cmds| + |these|);
      assert cmds + (these + rest) == (cmds + these) + rest;
      cmds := cmds + these;
    }
    assert cmds + [] == cmds;
  }

  // ----- what it compiles to -----

  /** Ids given literally, metadata scalar, type names that do not vanish in lower case. */
  predicate Literal(tx: Codec, id: string) {
    (id == [] || id[0] != '#') && tx.parseId(id).Some?
  }

  predicate Recordable(tx: Codec, ep: Episode) {
    && IsScalar(ep.outcome) && IsScalar(ep.startedAt) && IsScalar(ep.endedAt)
    && IsScalar(ep.failure) && IsScalar(ep.reason) && IsScalar(ep.usageJudged) && |ep.retrievals| <= MAX_I64
    && EdgeType(tx, "ISSUED").Ok? && EdgeType(tx, "RETURNED").Ok? && EdgeType(tx, "USED").Ok?
    && (forall r | r in ep.retrievals :: RecordableRetrieval(tx, r))
    && (forall i | 0 <= i < |ep.retrievals| :: forall id | id in UsedBy(ep, i) :: Literal(tx, id))
  }

  predicate RecordableRetrieval(tx: Codec, r: Retrieval) {
    && IsScalar(r.query) && IsScalar(r.at)
    && forall h | h in r.returned :: Literal(tx, h.id) && IsScalar(h.rank) && IsScalar(h.score) && IsScalar(r.channel)
  }

  function PropsOf(j: Json): Props {
    match ToProps(j) case Ok(p) => p case Err(_) => map[]
  }

  function TypeOf(tx: Codec, raw: string): string {
    match EdgeType(tx, raw) case Ok(ty) => ty case Err(_) => ""
  }

  function IdOf(tx: Codec, raw: string): nat {
    match tx.parseId(raw) case Some(id) => id case None => 0
  }

  /** The edges of one retrieval: the episode issued the event, the event returned and used
      memories. `at` is the command index of the event, `ids` the ids the batch draws. */
  function EdgeOps(tx: Codec, r: Retrieval, used: seq<string>, at: nat, default: Scope, ids: seq<nat>): seq<Op>
    requires at + 2 + |r.returned| + |used| <= |ids|
  {
    IssuedEdge(tx, at, default, ids) + ReturnedEdges(tx, r, at, default, ids) + UsedEdges(tx, used, at, at + 2 + |r.returned|, default, ids)
  }

  function ReturnedEdges(tx: Codec, r: Retrieval, at: nat, default: Scope, ids: seq<nat>): seq<Op>
    requires at + 2 + |r.returned| <= |ids|
  {
    seq(|r.returned|, i requires 0 <= i < |r.returned| =>
      CreateEdge(ids[at + 2 + i], default, TypeOf(tx, "RETURNED"), ids[at], IdOf(tx, r.returned[i].id), PropsOf(HitProps(r, r.returned[i])), None))
  }

  function UsedEdges(tx: Codec, used: seq<string>, at: nat, first: nat, default: Scope, ids: seq<nat>): seq<Op>
    requires at < |ids| && first + |used| <= |ids|
  {
    seq(|used|, i requires 0 <= i < |used| =>
      CreateEdge(ids[first + i], default, TypeOf(tx, "USED"), ids[at], IdOf(tx, used[i]), map[], None))
  }

  function RetrievalOps(tx: Codec, r: Retrieval, used: seq<string>, at: nat, default: Scope, ids: seq<nat>): seq<Op>
    requires at + 2 + |r.returned| + |used| <= |ids|
  {
    [CreateNode(ids[at], default, "RetrievalEvent", PropsOf(EventProps(r)))] + EdgeOps(tx, r, used, at, default, ids)
  }

  function OpsFrom(tx: Codec, ep: Episode, i: nat, at: nat, default: Scope, ids: seq<nat>): seq<Op>
    requires i <= |ep.retrievals| && at + |CmdsFrom(ep, i, at)| <= |ids|
    decreases |ep.retrievals| - i
  {
    if i == |ep.retrievals| then []
    else
      var (r, used) := (ep.retrievals[i], UsedBy(ep, i));
      RetrievalOps(tx, r, used, at, default, ids) + OpsFrom(tx, ep, i + 1, at + |RetrievalCmds(r, used, at)|, default, ids)
  }

  function EpisodeOps(tx: Codec, ep: Episode, default: Scope, ids: seq<nat>): seq<Op>
    requires |EpisodeCmds(ep)| <= |ids|
  {
    [CreateNode(ids[0], default, "Episode", PropsOf(EpisodeProps(ep)))] + OpsFrom(tx, ep, 0, 1, default, ids)
  }

  lemma NodeCmdCompiles(tx: Codec, tag: string, props: Json, default: Scope, produced: seq<Option<Produced>>, minted: nat)
    requires tag == "Episode" || tag == "RetrievalEvent"
    requires ToProps(props).Ok?
    ensures CompileCommand(tx, NodeCmd(tag, props), default, produced, minted) ==
            Ok(Compiled(CreateNode(minted, default, tag, PropsOf(props)), Some(Produced(tx.showId(minted), NodeId_))))
  {
    var o := NodeCmd(tag, props).fields;
    assert TextField(o, "op") == Ok("create_node");
    assert TextField(o, "label") == Ok(tag);
    assert "scope" !in o && o["props"] == props;
  }

  predicate ArrowOk(tx: Codec, a: Arrow, produced: seq<Option<Produced>>) {
    && ResolveId(tx, a.from, NodeId_, produced).Ok? && ResolveId(tx, a.to, NodeId_, produced).Ok?
    && EdgeType(tx, a.ty).Ok? && (a.props.Some? ==> ToProps(a.props.value).Ok?)
  }

  function Target(tx: Codec, raw: string, produced: seq<Option<Produced>>): nat {
    match ResolveId(tx, raw, NodeId_, produced) case Ok(id) => id case Err(_) => 0
  }

  function ArrowOp(tx: Codec, a: Arrow, produced: seq<Option<Produced>>, default: Scope, minted: nat): Op {
    CreateEdge(minted, default, TypeOf(tx, a.ty), Target(tx, a.from, produced), Target(tx, a.to, produced),
               if a.props.Some? then PropsOf(a.props.value) else map[], None)
  }

  function ArrowOps(tx: Codec, arrows: seq<Arrow>, produced: seq<Option<Produced>>, default: Scope, ids: seq<nat>, at: nat): seq<Op>
    requires at + |arrows| <= |ids|
  {
    seq(|arrows|, i requires 0 <= i < |arrows| => ArrowOp(tx, arrows[i], produced, default, ids[at + i]))
  }

  lemma LinkCmdCompiles(tx: Codec, a: Arrow, default: Scope, produced: seq<Option<Produced>>, minted: nat)
    requires ArrowOk(tx, a, produced)
    ensures CompileCommand(tx, LinkCmd(a), default, produced, minted) ==
            Ok(Compiled(ArrowOp(tx, a, produced, default, minted), Some(Produced(tx.showId(minted), EdgeId_))))
  {
    LinkCmdReads(tx, a, default);
    OrderOfChecks(tx, LinkCmd(a), default, produced, minted);
  }

  lemma LinkCmdReads(tx: Codec, a: Arrow, default: Scope)
    requires EdgeType(tx, a.ty).Ok? && (a.props.Some? ==> ToProps(a.props.value).Ok?)
    ensures ReadCommand(tx, LinkCmd(a), default) ==
            Ok(NewEdge(a.from, a.to, TypeOf(tx, a.ty), default, if a.props.Some? then PropsOf(a.props.value) else map[], None))
  {
    var o := LinkCmd(a).fields;
    assert TextField(o, "op") == Ok("link");
    assert TextField(o, "from") == Ok(a.from) && TextField(o, "to") == Ok(a.to) && TextField(o, "type") == Ok(a.ty);
    assert "scope" !in o && "valid_from" !in o;
    assert a.props.Some? ==> o["props"] == a.props.value;
    assert a.props.None? ==> "props" !in o;
  }

  lemma ArrowStays(tx: Codec, a: Arrow, produced: seq<Option<Produced>>, p: Option<Produced>)
    requires ArrowOk(tx, a, produced)
    ensures ArrowOk(tx, a, produced + [p])
    ensures Target(tx, a.from, produced + [p]) == Target(tx, a.from, produced)
    ensures Target(tx, a.to, produced + [p]) == Target(tx, a.to, produced)
  {
  }

  lemma ArrowsStay(tx: Codec, arrows: seq<Arrow>, produced: seq<Option<Produced>>, p: Option<Produced>, default: Scope, ids: seq<nat>, at: nat)
    requires at + |arrows| <= |ids| && AllOk(tx, arrows, produced)
    ensures AllOk(tx, arrows, produced + [p])
    ensures ArrowOps(tx, arrows, produced + [p], default, ids, at) == ArrowOps(tx, arrows, produced, default, ids, at)
  {
    forall a | a in arrows
      ensures ArrowOk(tx, a, produced + [p]) && Target(tx, a.from, produced + [p]) == Target(tx, a.from, produced)
              && Target(tx, a.to, produced + [p]) == Target(tx, a.to, produced)
    {
      ArrowStays(tx, a, produced, p);
    }
    forall i | 0 <= i < |arrows|
      ensures ArrowOps(tx, arrows, produced + [p], default, ids, at)[i] == ArrowOps(tx, arrows, produced, default, ids, at)[i]
    {
      assert arrows[i] in arrows;
    }
  }

  function EdgesProduced(tx: Codec, n: nat, at: nat, ids: seq<nat>): seq<Option<Produced>>
    requires at + n <= |ids|
  {
    if n == 0 then [] else [Some(Produced(tx.showId(ids[at]), EdgeId_))] + EdgesProduced(tx, n - 1, at + 1, ids)
  }

  lemma ResolveHead(tx: Codec, cmds: seq<Json>, default: Scope, produced: seq<Option<Produced>>, ids: seq<nat>, c: Compiled)
    requires cmds != [] && |produced| + |cmds| <= |ids|
    requires CompileCommand(tx, cmds[0], default, produced, ids[|produced|]) == Ok(c)
    ensures ResolveFrom(tx, cmds, default, produced, ids) == Then([c.op], ResolveFrom(tx, cmds[1..], default, produced + [c.produced], ids))
  {
  }

  lemma ArrowOpsHead(tx: Codec, arrows: seq<Arrow>, produced: seq<Option<Produced>>, default: Scope, ids: seq<nat>, at: nat)
    requires arrows != [] && at + |arrows| <= |ids|
    ensures ArrowOps(tx, arrows, produced, default, ids, at) ==
            [ArrowOp(tx, arrows[0], produced, default, ids[at])] + ArrowOps(tx, arrows[1..], produced, default, ids, at + 1)
  {
  }

  lemma ResolveCons(tx: Codec, cmds: seq<Json>, default: Scope, produced: seq<Option<Produced>>, ids: seq<nat>, c: Compiled, rest: Resolved)
    requires cmds != [] && |produced| + |cmds| <= |ids|
    requires CompileCommand(tx, cmds[0], default, produced, ids[|produced|]) == Ok(c)
    requires ResolveFrom(tx, cmds[1..], default, produced + [c.produced], ids) == Ok(rest)
    ensures ResolveFrom(tx, cmds, default, produced, ids) == Ok(Resolved([c.op] + rest.ops, rest.produced))
  {
    ResolveHead(tx, cmds, default, produced, ids, c);
  }

  ghost predicate AllOk(tx: Codec, arrows: seq<Arrow>, produced: seq<Option<Produced>>) {
    forall a | a in arrows :: ArrowOk(tx, a, produced)
  }

  lemma AllOkParts(tx: Codec, arrows: seq<Arrow>, produced: seq<Option<Produced>>)
    requires arrows != [] && AllOk(tx, arrows, produced)
    ensures ArrowOk(tx, arrows[0], produced) && AllOk(tx, arrows[1..], produced)
  {
    assert arrows[0] in arrows;
    assert forall x | x in arrows[1..] :: x in arrows;
  }

  lemma LinkCmdsHead(tx: Codec, arrows: seq<Arrow>, default: Scope, produced: seq<Option<Produced>>, minted: nat)
    requires arrows != [] && ArrowOk(tx, arrows[0], produced)
    ensures |LinkCmds(arrows)| == |arrows| && LinkCmds(arrows)[1..] == LinkCmds(arrows[1..])
    ensures CompileCommand(tx, LinkCmds(arrows)[0], default, produced, minted) ==
            Ok(Compiled(ArrowOp(tx, arrows[0], produced, default, minted), Some(Produced(tx.showId(minted), EdgeId_))))
  {
    LinkCmdCompiles(tx, arrows[0], default, produced, minted);
  }

  lemma EdgesProducedHead(tx: Codec, n: nat, produced: seq<Option<Produced>>, ids: seq<nat>)
    requires n > 0 && |produced| + n <= |ids|
    ensures var p := Some(Produced(tx.showId(ids[|produced|]), EdgeId_));
            (produced + [p]) + EdgesProduced(tx, n - 1, |produced| + 1, ids) == produced + EdgesProduced(tx, n, |produced|, ids)
  {
  }

  ghost predicate LinksCompile(tx: Codec, arrows: seq<Arrow>, default: Scope, produced: seq<Option<Produced>>, ids: seq<nat>)
    requires |produced| + |arrows| <= |ids|
  {
    ResolveFrom(tx, LinkCmds(arrows), default, produced, ids) ==
    Ok(Resolved(ArrowOps(tx, arrows, produced, default, ids, |produced|), produced + EdgesProduced(tx, |arrows|, |produced|, ids)))
  }

  lemma LinkStep(tx: Codec, arrows: seq<Arrow>, default: Scope, produced: seq<Option<Produced>>, ids: seq<nat>, p: Option<Produced>, op: Op)
    requires arrows != [] && |produced| + |arrows| <= |ids| && p == Some(Produced(tx.showId(ids[|produced|]), EdgeId_))
    requires CompileCommand(tx, LinkCmds(arrows)[0], default, produced, ids[|produced|]) == Ok(Compiled(op, p))
    requires LinkCmds(arrows)[1..] == LinkCmds(arrows[1..])
    requires LinksCompile(tx, arrows[1..], default, produced + [p], ids)
    requires ArrowOps(tx, arrows, produced, default, ids, |produced|) ==
             [op] + ArrowOps(tx, arrows[1..], produced + [p], default, ids, |produced| + 1)
    ensures LinksCompile(tx, arrows, default, produced, ids)
  {
    var rest := ResolveFrom(tx, LinkCmds(arrows[1..]), default, produced + [p], ids).value;
    EdgesProducedHead(tx, |arrows|, produced, ids);
    ResolveCons(tx, LinkCmds(arrows), default, produced, ids, Compiled(op, p), rest);
  }

  lemma {:induction false} LinkCmdsCompile(tx: Codec, arrows: seq<Arrow>, default: Scope, produced: seq<Option<Produced>>, ids: seq<nat>)
    requires |produced| + |arrows| <= |ids| && AllOk(tx, arrows, produced)
    ensures LinksCompile(tx, arrows, default, produced, ids)
    decreases |arrows|
  {
    if arrows == [] {
      assert LinkCmds(arrows) == [] && produced + [] == produced;
      assert ArrowOps(tx, arrows, produced, default, ids, |produced|) == [];
    } else {
      var at := |produced|;
      var p := Some(Produced(tx.showId(ids[at]), EdgeId_));
      AllOkParts(tx, arrows, produced);
      ArrowsStay(tx, arrows[1..], produced, p, default, ids, at + 1);
      ArrowOpsHead(tx, arrows, produced, default, ids, at);
      LinkCmdsHead(tx, arrows, default, produced, ids[at]);
      LinkCmdsCompile(tx, arrows[1..], default, produced + [p], ids);
      LinkStep(tx, arrows, default, produced, ids, p, ArrowOp(tx, arrows[0], produced, default, ids[at]));
    }
  }

  lemma ThenThen(a: seq<Op>, b: seq<Op>, r: Result<Resolved, string>)
    ensures Then(a, Then(b, r)) == Then(a + b, r)
    ensures Then([], r) == r
  {
    if r.Ok? {
      assert a + (b + r.value.ops) == (a + b) + r.value.ops;
      assert [] + r.value.ops == r.value.ops;
    }
  }

  lemma {:induction false} ConcatWith(f: Compiler, a: seq<Json>, b: seq<Json>, produced: seq<Option<Produced>>, mint: seq<nat>)
    requires |produced| + |a| + |b| <= |mint| && ResolveWith(f, a, produced, mint).Ok?
    ensures var r := ResolveWith(f, a, produced, mint).value;
            && |r.produced| == |produced| + |a|
            && ResolveWith(f, a + b, produced, mint) == Then(r.ops, ResolveWith(f, b, r.produced, mint))
    decreases |a|
  {
    if a == [] {
      assert a + b == b;
      ThenThen([], [], ResolveWith(f, b, produced, mint));
    } else {
      assert (a + b)[0] == a[0] && (a + b)[1..] == a[1..] + b;
      var c := f(a[0], produced, mint[|produced|]).value;
      ConcatWith(f, a[1..], b, produced + [c.produced], mint);
      var r := ResolveWith(f, a[1..], produced + [c.produced], mint).value;
      ThenThen([c.op], r.ops, ResolveWith(f, b, r.produced, mint));
    }
  }

  lemma ResolveConcat(tx: Codec, a: seq<Json>, b: seq<Json>, default: Scope, produced: seq<Option<Produced>>, ids: seq<nat>)
    requires |produced| + |a| + |b| <= |ids|
    requires ResolveFrom(tx, a, default, produced, ids).Ok?
    ensures var r := ResolveFrom(tx, a, default, produced, ids).value;
            && |r.produced| == |produced| + |a|
            && ResolveFrom(tx, a + b, default, produced, ids) == Then(r.ops, ResolveFrom(tx, b, default, r.produced, ids))
  {
    ConcatWith(OneCommand(tx, default), a, b, produced, ids);
  }

  lemma RefResolves(tx: Codec, n: nat, produced: seq<Option<Produced>>, id: nat)
    requires RoundTrips(tx) && n < |produced| && n <= MAX_USIZE && produced[n] == Some(Produced(tx.showId(id), NodeId_))
    ensures ResolveId(tx, Ref(n), NodeId_, produced) == Ok(id)
  {
    DecimalRoundTrip(n);
    assert Ref(n)[1..] == ToDecimal(n);
  }

  /** An arrow whose ends resolve to known ids is the op between those ids. */
  lemma ArrowBetween(tx: Codec, a: Arrow, produced: seq<Option<Produced>>, default: Scope, minted: nat, from: nat, to: nat)
    requires ResolveId(tx, a.from, NodeId_, produced) == Ok(from) && ResolveId(tx, a.to, NodeId_, produced) == Ok(to)
    requires EdgeType(tx, a.ty).Ok? && (a.props.Some? ==> ToProps(a.props.value).Ok?)
    ensures ArrowOk(tx, a, produced)
    ensures ArrowOp(tx, a, produced, default, minted) ==
            CreateEdge(minted, default, TypeOf(tx, a.ty), from, to, if a.props.Some? then PropsOf(a.props.value) else map[], None)
  {
  }

  lemma LiteralResolves(tx: Codec, id: string, produced: seq<Option<Produced>>)
    requires Literal(tx, id)
    ensures ResolveId(tx, id, NodeId_, produced) == Ok(IdOf(tx, id))
  {
  }

  lemma HitPropsOk(r: Retrieval, h: Hit)
    requires IsScalar(h.rank) && IsScalar(h.score) && IsScalar(r.channel)
    ensures ToProps(HitProps(r, h)).Ok?
  {
    var o := HitProps(r, h).fields;
    assert forall k | k in o :: k == "rank" || k == "score" || k == "channel";
  }

  /** The ops of concatenated arrows are the concatenated ops. */
  lemma ArrowOpsConcat(tx: Codec, a: seq<Arrow>, b: seq<Arrow>, produced: seq<Option<Produced>>, default: Scope, ids: seq<nat>, at: nat)
    requires at + |a| + |b| <= |ids|
    ensures ArrowOps(tx, a + b, produced, default, ids, at) == ArrowOps(tx, a, produced, default, ids, at) + ArrowOps(tx, b, produced, default, ids, at + |a|)
  {
    var all, x, y := ArrowOps(tx, a + b, produced, default, ids, at), ArrowOps(tx, a, produced, default, ids, at), ArrowOps(tx, b, produced, default, ids, at + |a|);
    forall i | 0 <= i < |a| ensures all[i] == x[i] {
      assert (a + b)[i] == a[i];
    }
    forall i | 0 <= i < |b| ensures all[|a| + i] == y[i] {
      assert (a + b)[|a| + i] == b[i];
    }
    Halves(all, x, y);
  }

  lemma Halves(all: seq<Op>, x: seq<Op>, y: seq<Op>)
    requires |all| == |x| + |y|
    requires forall i | 0 <= i < |x| :: all[i] == x[i]
    requires forall i | 0 <= i < |y| :: all[|x| + i] == y[i]
    ensures all == x + y
  {
    forall i | 0 <= i < |all| ensures all[i] == (x + y)[i] {
      if i >= |x| {
        assert all[|x| + (i - |x|)] == y[i - |x|];
      }
    }
  }

  /** These arrows resolve, and to these ops. */
  ghost predicate CompileTo(tx: Codec, arrows: seq<Arrow>, produced: seq<Option<Produced>>, default: Scope, ids: seq<nat>, at: nat, ops: seq<Op>) {
    at + |arrows| <= |ids| && AllOk(tx, arrows, produced) && ArrowOps(tx, arrows, produced, default, ids, at) == ops
  }

  lemma ThreeParts(tx: Codec, a: seq<Arrow>, b: seq<Arrow>, c: seq<Arrow>, produced: seq<Option<Produced>>, default: Scope, ids: seq<nat>, at: nat,
                   x: seq<Op>, y: seq<Op>, z: seq<Op>)
    requires CompileTo(tx, a, produced, default, ids, at, x) && CompileTo(tx, b, produced, default, ids, at + |a|, y)
    requires CompileTo(tx, c, produced, default, ids, at + |a| + |b|, z)
    ensures CompileTo(tx, a + b + c, produced, default, ids, at, x + y + z)
  {
    ArrowOpsConcat(tx, a, b, produced, default, ids, at);
    ArrowOpsConcat(tx, a + b, c, produced, default, ids, at);
  }

  lemma IssuedOps(tx: Codec, at: nat, default: Scope, produced: seq<Option<Produced>>, ids: seq<nat>)
    requires EdgeType(tx, "ISSUED").Ok? && at + 2 <= |ids|
    requires ResolveId(tx, Ref(0), NodeId_, produced) == Ok(ids[0]) && ResolveId(tx, Ref(at), NodeId_, produced) == Ok(ids[at])
    ensures CompileTo(tx, IssuedArrow(at), produced, default, ids, at + 1, IssuedEdge(tx, at, default, ids))
  {
    ArrowBetween(tx, Arrow(Ref(0), Ref(at), "ISSUED", None), produced, default, ids[at + 1], ids[0], ids[at]);
  }

  lemma ReturnedOps(tx: Codec, r: Retrieval, at: nat, default: Scope, produced: seq<Option<Produced>>, ids: seq<nat>)
    requires RecordableRetrieval(tx, r) && EdgeType(tx, "RETURNED").Ok? && at + 2 + |r.returned| <= |ids|
    requires ResolveId(tx, Ref(at), NodeId_, produced) == Ok(ids[at])
    ensures CompileTo(tx, ReturnedArrows(r, at), produced, default, ids, at + 2, ReturnedEdges(tx, r, at, default, ids))
  {
    var ev := Ref(at);
    forall i | 0 <= i < |r.returned|
      ensures ArrowOk(tx, Arrow(ev, r.returned[i].id, "RETURNED", Some(HitProps(r, r.returned[i]))), produced)
      ensures ArrowOp(tx, Arrow(ev, r.returned[i].id, "RETURNED", Some(HitProps(r, r.returned[i]))), produced, default, ids[at + 2 + i]) ==
              CreateEdge(ids[at + 2 + i], default, TypeOf(tx, "RETURNED"), ids[at], IdOf(tx, r.returned[i].id), PropsOf(HitProps(r, r.returned[i])), None)
    {
      ReturnedResolves(tx, r, r.returned[i], ev, default, produced, ids[at + 2 + i], ids[at]);
    }
  }

  lemma UsedOps(tx: Codec, used: seq<string>, at: nat, first: nat, default: Scope, produced: seq<Option<Produced>>, ids: seq<nat>)
    requires EdgeType(tx, "USED").Ok? && at < |ids| && first + |used| <= |ids| && forall id | id in used :: Literal(tx, id)
    requires ResolveId(tx, Ref(at), NodeId_, produced) == Ok(ids[at])
    ensures CompileTo(tx, UsedArrows(used, at), produced, default, ids, first, UsedEdges(tx, used, at, first, default, ids))
  {
    var ev := Ref(at);
    forall i | 0 <= i < |used|
      ensures ArrowOk(tx, Arrow(ev, used[i], "USED", None), produced)
      ensures ArrowOp(tx, Arrow(ev, used[i], "USED", None), produced, default, ids[first + i]) ==
              CreateEdge(ids[first + i], default, TypeOf(tx, "USED"), ids[at], IdOf(tx, used[i]), map[], None)
    {
      LiteralResolves(tx, used[i], produced);
      ArrowBetween(tx, Arrow(ev, used[i], "USED", None), produced, default, ids[first + i], ids[at], IdOf(tx, used[i]));
    }
  }

  lemma ArrowsResolve(tx: Codec, r: Retrieval, used: seq<string>, at: nat, default: Scope, produced: seq<Option<Produced>>, ids: seq<nat>)
    requires RecordableRetrieval(tx, r) && forall id | id in used :: Literal(tx, id)
    requires EdgeType(tx, "ISSUED").Ok? && EdgeType(tx, "RETURNED").Ok? && EdgeType(tx, "USED").Ok?
    requires at + 2 + |r.returned| + |used| <= |ids|
    requires ResolveId(tx, Ref(0), NodeId_, produced) == Ok(ids[0]) && ResolveId(tx, Ref(at), NodeId_, produced) == Ok(ids[at])
    ensures CompileTo(tx, Arrows(r, used, at), produced, default, ids, at + 1, EdgeOps(tx, r, used, at, default, ids))
  {
    IssuedOps(tx, at, default, produced, ids);
    ReturnedOps(tx, r, at, default, produced, ids);
    WithUsed(tx, r, used, at, default, produced, ids);
  }

  lemma WithUsed(tx: Codec, r: Retrieval, used: seq<string>, at: nat, default: Scope, produced: seq<Option<Produced>>, ids: seq<nat>)
    requires EdgeType(tx, "USED").Ok? && forall id | id in used :: Literal(tx, id)
    requires at + 2 + |r.returned| + |used| <= |ids| && ResolveId(tx, Ref(at), NodeId_, produced) == Ok(ids[at])
    requires CompileTo(tx, IssuedArrow(at), produced, default, ids, at + 1, IssuedEdge(tx, at, default, ids))
    requires CompileTo(tx, ReturnedArrows(r, at), produced, default, ids, at + 2, ReturnedEdges(tx, r, at, default, ids))
    ensures CompileTo(tx, Arrows(r, used, at), produced, default, ids, at + 1, EdgeOps(tx, r, used, at, default, ids))
  {
    UsedOps(tx, used, at, at + 2 + |r.returned|, default, produced, ids);
    JoinParts(tx, r, used, at, default, produced, ids);
  }

  function IssuedArrow(at: nat): seq<Arrow> {
    [Arrow(Ref(0), Ref(at), "ISSUED", None)]
  }

  function IssuedEdge(tx: Codec, at: nat, default: Scope, ids: seq<nat>): seq<Op>
    requires at + 1 < |ids|
  {
    [CreateEdge(ids[at + 1], default, TypeOf(tx, "ISSUED"), ids[0], ids[at], map[], None)]
  }

  /** The three groups of arrows, resolved apart, are the retrieval's edges. */
  lemma JoinParts(tx: Codec, r: Retrieval, used: seq<string>, at: nat, default: Scope, produced: seq<Option<Produced>>, ids: seq<nat>)
    requires at + 2 + |r.returned| + |used| <= |ids|
    requires CompileTo(tx, IssuedArrow(at), produced, default, ids, at + 1, IssuedEdge(tx, at, default, ids))
    requires CompileTo(tx, ReturnedArrows(r, at), produced, default, ids, at + 2, ReturnedEdges(tx, r, at, default, ids))
    requires CompileTo(tx, UsedArrows(used, at), produced, default, ids, at + 2 + |r.returned|,
                       UsedEdges(tx, used, at, at + 2 + |r.returned|, default, ids))
    ensures CompileTo(tx, Arrows(r, used, at), produced, default, ids, at + 1, EdgeOps(tx, r, used, at, default, ids))
  {
    ThreeParts(tx, IssuedArrow(at), ReturnedArrows(r, at), UsedArrows(used, at), produced, default, ids, at + 1,
               IssuedEdge(tx, at, default, ids), ReturnedEdges(tx, r, at, default, ids), UsedEdges(tx, used, at, at + 2 + |r.returned|, default, ids));
  }

  lemma ReturnedResolves(tx: Codec, r: Retrieval, h: Hit, ev: string, default: Scope, produced: seq<Option<Produced>>, minted: nat, event: nat)
    requires h in r.returned && RecordableRetrieval(tx, r) && EdgeType(tx, "RETURNED").Ok?
    requires ResolveId(tx, ev, NodeId_, produced) == Ok(event)
    ensures var a := Arrow(ev, h.id, "RETURNED", Some(HitProps(r, h)));
            && ArrowOk(tx, a, produced)
            && ArrowOp(tx, a, produced, default, minted) ==
               CreateEdge(minted, default, TypeOf(tx, "RETURNED"), event, IdOf(tx, h.id), PropsOf(HitProps(r, h)), None)
  {
    LiteralResolves(tx, h.id, produced);
    HitPropsOk(r, h);
    ArrowBetween(tx, Arrow(ev, h.id, "RETURNED", Some(HitProps(r, h))), produced, default, minted, event, IdOf(tx, h.id));
  }

  /** After its event, a retrieval's links compile to its edges. */
  lemma LinksOfRetrieval(tx: Codec, r: Retrieval, used: seq<string>, default: Scope, produced: seq<Option<Produced>>, ids: seq<nat>)
    requires RoundTrips(tx) && RecordableRetrieval(tx, r) && forall id | id in used :: Literal(tx, id)
    requires EdgeType(tx, "ISSUED").Ok? && EdgeType(tx, "RETURNED").Ok? && EdgeType(tx, "USED").Ok?
    requires var at := |produced| - 1;
             0 < at <= MAX_USIZE && at + 2 + |r.returned| + |used| <= |ids|
             && produced[0] == Some(Produced(tx.showId(ids[0]), NodeId_)) && produced[at] == Some(Produced(tx.showId(ids[at]), NodeId_))
    ensures var at := |produced| - 1;
            && LinksCompile(tx, Arrows(r, used, at), default, produced, ids)
            && ArrowOps(tx, Arrows(r, used, at), produced, default, ids, at + 1) == EdgeOps(tx, r, used, at, default, ids)
  {
    var at := |produced| - 1;
    RefResolves(tx, 0, produced, ids[0]);
    RefResolves(tx, at, produced, ids[at]);
    ArrowsResolve(tx, r, used, at, default, produced, ids);
    LinkCmdsCompile(tx, Arrows(r, used, at), default, produced, ids);
  }

  lemma RetrievalCompiles(tx: Codec, r: Retrieval, used: seq<string>, default: Scope, produced: seq<Option<Produced>>, ids: seq<nat>)
    requires RoundTrips(tx) && RecordableRetrieval(tx, r) && forall id | id in used :: Literal(tx, id)
    requires EdgeType(tx, "ISSUED").Ok? && EdgeType(tx, "RETURNED").Ok? && EdgeType(tx, "USED").Ok?
    requires 0 < |produced| <= MAX_USIZE && |produced| + 2 + |r.returned| + |used| <= |ids|
    requires produced[0] == Some(Produced(tx.showId(ids[0]), NodeId_))
    ensures var got := ResolveFrom(tx, RetrievalCmds(r, used, |produced|), default, produced, ids);
            && got.Ok? && got.value.ops == RetrievalOps(tx, r, used, |produced|, default, ids)
            && |got.value.produced| > 0 && got.value.produced[0] == produced[0]
  {
    var at := |produced|;
    var cmds := RetrievalCmds(r, used, at);
    NodeCmdCompiles(tx, "RetrievalEvent", EventProps(r), default, produced, ids[at]);
    var after := produced + [Some(Produced(tx.showId(ids[at]), NodeId_))];
    LinksOfRetrieval(tx, r, used, default, after, ids);
    assert cmds[1..] == LinkCmds(Arrows(r, used, at));
  }

  lemma RecordableAt(tx: Codec, ep: Episode, i: nat)
    requires Recordable(tx, ep) && i < |ep.retrievals|
    ensures RecordableRetrieval(tx, ep.retrievals[i]) && forall id | id in UsedBy(ep, i) :: Literal(tx, id)
  {
    assert ep.retrievals[i] in ep.retrievals;
  }

  lemma {:induction false} CmdsCompileFrom(tx: Codec, ep: Episode, i: nat, default: Scope, produced: seq<Option<Produced>>, ids: seq<nat>)
    requires RoundTrips(tx) && Recordable(tx, ep) && i <= |ep.retrievals|
    requires 0 < |produced| && |produced| + |CmdsFrom(ep, i, |produced|)| <= |ids| <= MAX_USIZE
    requires produced[0] == Some(Produced(tx.showId(ids[0]), NodeId_))
    ensures var got := ResolveFrom(tx, CmdsFrom(ep, i, |produced|), default, produced, ids);
            got.Ok? && got.value.ops == OpsFrom(tx, ep, i, |produced|, default, ids)
    decreases |ep.retrievals| - i
  {
    if i < |ep.retrievals| {
      var r, used, at := ep.retrievals[i], UsedBy(ep, i), |produced|;
      RecordableAt(tx, ep, i);
      var cmds := RetrievalCmds(r, used, at);
      RetrievalCompiles(tx, r, used, default, produced, ids);
      ResolveConcat(tx, cmds, CmdsFrom(ep, i + 1, at + |cmds|), default, produced, ids);
      CmdsCompileFrom(tx, ep, i + 1, default, ResolveFrom(tx, cmds, default, produced, ids).value.produced, ids);
    }
  }

  /** Every episode with literal ids and scalar metadata compiles, and to exactly this: one
      episode node, one event node per retrieval, an edge from the episode to each event, and
      every other edge from its own event to the memory it names. */
  lemma EpisodeCompiles(tx: Codec, ep: Episode, default: Scope, ids: seq<nat>)
    requires RoundTrips(tx) && Recordable(tx, ep) && |EpisodeCmds(ep)| <= |ids| <= MAX_USIZE
    ensures var got := ResolveBatch(tx, Array(EpisodeCmds(ep)), default, ids);
            got.Ok? && got.value.ops == EpisodeOps(tx, ep, default, ids)
  {
    var cmds := EpisodeCmds(ep);
    EpisodePropsOk(tx, ep);
    NodeCmdCompiles(tx, "Episode", EpisodeProps(ep), default, [], ids[0]);
    var produced := [Some(Produced(tx.showId(ids[0]), NodeId_))];
    assert cmds[1..] == CmdsFrom(ep, 0, 1);
    CmdsCompileFrom(tx, ep, 0, default, produced, ids);
    assert [] + produced == produced;
    ResolveCons(tx, cmds, default, [], ids, Compiled(CreateNode(ids[0], default, "Episode", PropsOf(EpisodeProps(ep))), produced[0]),
                ResolveFrom(tx, cmds[1..], default, produced, ids).value);
  }

  lemma EpisodePropsOk(tx: Codec, ep: Episode)
    requires Recordable(tx, ep)
    ensures ToProps(EpisodeProps(ep)).Ok?
  {
    var o := EpisodeProps(ep).fields;
    forall k | k in o ensures IsScalar(o[k]) {
      assert o[k] in {Quote(""), ep.outcome, ep.startedAt, ep.endedAt, Integer(|ep.retrievals|), Integer(0), Decimal(0.5),
                      ep.failure, ep.reason, ep.usageJudged};
    }
  }
}
