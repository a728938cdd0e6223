/** What a batch means, without compiling it; and exactly which batches compile. */
module Meaning {
  import opened Text
  import opened Store
  import opened Json
  import opened Batch
  import Remember

  // ----- direct interpretation -----

  datatype Binding = Binding(id: nat, kind: IdKind)

  /** The id a reference denotes when `#N` is bound to what command N created. */
  function Deref(tx: Codec, raw: string, kind: IdKind, env: seq<Option<Binding>>): Option<nat> {
    if raw == [] || raw[0] != '#' then tx.parseId(raw)
    else
      match ParseUsize(raw[1..])
      case None => None
      case Some(n) =>
        if n < |env| && env[n].Some? && env[n].value.kind == kind then Some(env[n].value.id) else None
  }

  // ----- what a command says, read off its JSON fields -----

  predicate SaysText(o: map<string, Json>, key: string, s: string) {
    key in o && o[key] == Quote(s)
  }

  predicate SaysValue(j: Json, v: Value) {
    match j
    case Quote(s) => v == Str(s)
    case Boolean(b) => v == Bool(b)
    case Integer(i) => i <= 0x7FFF_FFFF_FFFF_FFFF && v == Int(i)
    case Decimal(r) => v == Float(r)
    case _ => false
  }

  predicate SaysProps(j: Json, props: Props) {
    j.Object? && props.Keys == j.fields.Keys && forall k | k in j.fields :: SaysValue(j.fields[k], props[k])
  }

  /** The given properties, or none. */
  predicate SaysOptionalProps(o: map<string, Json>, props: Props) {
    if "props" in o then SaysProps(o["props"], props) else props == map[]
  }

  /** The given properties plus one that they must not name. */
  predicate SaysPropsWith(o: map<string, Json>, key: string, v: Value, props: Props) {
    && key in props && props[key] == v
    && (if "props" in o then o["props"].Object? && key !in o["props"].fields && SaysProps(o["props"], props - {key})
        else props == map[key := v])
  }

  /** `null` removes a key. */
  predicate SaysChanges(j: Json, changes: map<string, Option<Value>>) {
    && j.Object? && changes.Keys == j.fields.Keys
    && forall k | k in j.fields ::
         if j.fields[k].Null? then changes[k].None? else changes[k].Some? && SaysValue(j.fields[k], changes[k].value)
  }

  predicate SaysOptionalInt(o: map<string, Json>, key: string, t: Option<int>) {
    if key !in o || o[key].Null? then t.None?
    else o[key].Integer? && o[key].i <= 0x7FFF_FFFF_FFFF_FFFF && t == Some(o[key].i)
  }

  /** "shared" in any mixture of cases. */
  predicate SaysShared(s: string) {
    |s| == 6 && forall i | 0 <= i < 6 :: s[i] == "shared"[i] || s[i] == "SHARED"[i]
  }

  predicate SaysScope(tx: Codec, o: map<string, Json>, default: Scope, scope: Scope) {
    if "scope" !in o || o["scope"].Null? then scope == default
    else o["scope"].Quote? && if SaysShared(o["scope"].s) then scope == Shared
                              else tx.parseId(o["scope"].s).Some? && scope == Project(tx.parseId(o["scope"].s).value)
  }

  predicate SaysNumber(j: Json, x: real) {
    match j
    case Integer(i) => x == i as real
    case Decimal(r) => x == r
    case _ => false
  }

  predicate SaysVector(tx: Codec, j: Json, v: seq<real>) {
    j.Array? && |v| == |j.items| && forall i | 0 <= i < |v| :: SaysNumber(j.items[i], v[i]) && tx.fitsF32(v[i])
  }

  /** `op` is what the command says, with references read from the environment. */
  predicate Says(tx: Codec, cmd: Json, default: Scope, env: seq<Option<Binding>>, minted: nat, op: Op) {
    cmd.Object? && "op" in cmd.fields && cmd.fields["op"].Quote? &&
    var o := cmd.fields;
    var name := o["op"].s;
    if name == "create_memory" then
      && op.CreateNode? && op.id == minted && op.tag == "Memory" && SaysScope(tx, o, default, op.scope)
      && "content" in o && o["content"].Quote? && SaysPropsWith(o, "content", Str(o["content"].s), op.props)
    else if name == "create_entity" then
      && op.CreateNode? && op.id == minted && op.tag == "Entity" && SaysScope(tx, o, default, op.scope)
      && "name" in o && o["name"].Quote? && SaysPropsWith(o, "name", Str(o["name"].s), op.props)
    else if name == "create_node" then
      && op.CreateNode? && op.id == minted && SaysText(o, "label", op.tag) && op.tag !in {"", "Entity", "Memory"}
      && SaysScope(tx, o, default, op.scope) && SaysOptionalProps(o, op.props)
    else if name == "link" then
      && op.CreateEdge? && op.edge == minted && "type" in o && o["type"].Quote? && EdgeType(tx, o["type"].s) == Ok(op.ty)
      && SaysRef(tx, o, "from", NodeId_, env, op.from) && SaysRef(tx, o, "to", NodeId_, env, op.to)
      && SaysScope(tx, o, default, op.scope) && SaysOptionalProps(o, op.props) && SaysOptionalInt(o, "valid_from", op.validFrom)
    else SaysOfTarget(tx, o, name, env, op)
  }

  /** What the commands that name an existing node or edge say. */
  predicate SaysOfTarget(tx: Codec, o: map<string, Json>, name: string, env: seq<Option<Binding>>, op: Op) {
    if name == "set_node_props" then
      op.SetNodeProps? && SaysRef(tx, o, "id", NodeId_, env, op.id) && "props" in o && SaysChanges(o["props"], op.changes)
    else if name == "remove_node" then
      op.RemoveNode? && SaysRef(tx, o, "id", NodeId_, env, op.id)
    else if name == "close_edge" then
      op.CloseEdge? && SaysRef(tx, o, "id", EdgeId_, env, op.edge) && SaysOptionalInt(o, "valid_to", op.validTo)
    else
      && name == "set_embedding" && op.SetEmbedding? && SaysRef(tx, o, "id", NodeId_, env, op.id)
      && SaysText(o, "model", op.model) && "vector" in o && SaysVector(tx, o["vector"], op.vector)
  }

  predicate SaysRef(tx: Codec, o: map<string, Json>, key: string, kind: IdKind, env: seq<Option<Binding>>, id: nat) {
    key in o && o[key].Quote? && Deref(tx, o[key].s, kind, env) == Some(id)
  }

  /** The kind of id a command produces, from its op name alone. */
  function KindOf(cmd: Json): Option<IdKind> {
    if !cmd.Object? then None
    else
      match TextField(cmd.fields, "op")
      case Err(_) => None
      case Ok(op) =>
        if op in {"create_memory", "create_entity", "create_node"} then Some(NodeId_)
        else if op == "link" then Some(EdgeId_)
        else None
  }

  /** What `#N` is bound to by this command. */
  function Bound(cmd: Json, minted: nat): Option<Binding> {
    if KindOf(cmd).Some? then Some(Binding(minted, KindOf(cmd).value)) else None
  }

  /** Carrying out the commands one after the other leads from `g` to `g'`. */
  ghost predicate Interprets(tx: Codec, g: Graph, cmds: seq<Json>, default: Scope, env: seq<Option<Binding>>, mint: seq<nat>, w: int, g': Graph)
    requires |env| + |cmds| <= |mint|
    decreases |cmds|
  {
    if cmds == [] then g' == g
    else exists op, g1 ::
      && Says(tx, cmds[0], default, env, mint[|env|], op) && ApplyOp(g, op, w) == Ok(g1)
      && Interprets(tx, g1, cmds[1..], default, env + [Bound(cmds[0], mint[|env|])], mint, w, g')
  }

  ghost predicate SameEnv(tx: Codec, env: seq<Option<Binding>>, produced: seq<Option<Produced>>) {
    && |env| == |produced|
    && forall i | 0 <= i < |env| ::
         match env[i]
         case None => produced[i].None?
         case Some(b) => produced[i] == Some(Produced(tx.showId(b.id), b.kind))
  }

  lemma DerefIsResolve(tx: Codec, raw: string, kind: IdKind, env: seq<Option<Binding>>, produced: seq<Option<Produced>>)
    requires RoundTrips(tx) && SameEnv(tx, env, produced)
    ensures match ResolveId(tx, raw, kind, produced)
            case Ok(id) => Deref(tx, raw, kind, env) == Some(id)
            case Err(_) => Deref(tx, raw, kind, env).None?
  {
  }

  lemma ValueSaid(j: Json, v: Value)
    ensures SaysValue(j, v) <==> ToValue(j) == Ok(v)
  {
  }

  lemma PropsSaid(j: Json, props: Props)
    ensures SaysProps(j, props) <==> ToProps(j) == Ok(props)
  {
    if SaysProps(j, props) {
      forall k | k in j.fields ensures ToValue(j.fields[k]) == Ok(props[k]) {
        ValueSaid(j.fields[k], props[k]);
      }
      assert ToProps(j).Ok? && ToProps(j).value == props;
    }
    if ToProps(j) == Ok(props) {
      forall k | k in j.fields ensures SaysValue(j.fields[k], props[k]) {
        assert IsScalar(j.fields[k]);
        ValueSaid(j.fields[k], props[k]);
      }
    }
  }

  lemma PropsWithSaid(o: map<string, Json>, key: string, v: Value, props: Props)
    ensures SaysPropsWith(o, key, v, props) <==> MergeRequired(key, v, ExtraField(o)) == Ok(props)
  {
    if "props" in o {
      PropsSaid(o["props"], props - {key});
      if MergeRequired(key, v, ExtraField(o)) == Ok(props) {
        var base := ToProps(o["props"]).value;
        assert base == props - {key};
      }
      if SaysPropsWith(o, key, v, props) {
        assert (props - {key})[key := v] == props;
      }
    }
  }

  lemma ChangesSaid(j: Json, changes: map<string, Option<Value>>)
    ensures SaysChanges(j, changes) <==> ToChanges(j) == Ok(changes)
  {
    if SaysChanges(j, changes) {
      forall k | k in j.fields && !j.fields[k].Null? ensures ToValue(j.fields[k]) == Ok(changes[k].value) {
        ValueSaid(j.fields[k], changes[k].value);
      }
      assert ToChanges(j).Ok? && ToChanges(j).value == changes;
    }
    if ToChanges(j) == Ok(changes) {
      forall k | k in j.fields && !j.fields[k].Null? ensures changes[k].Some? && SaysValue(j.fields[k], changes[k].value) {
        assert IsScalar(j.fields[k]);
        ValueSaid(j.fields[k], changes[k].value);
      }
    }
  }

  lemma SharedSaid(s: string)
    ensures SaysShared(s) <==> AsciiLower(s) == "shared"
  {
    if |s| == 6 {
      assert forall i | 0 <= i < 6 :: AsciiLower(s)[i] == "shared"[i] <==> (s[i] == "shared"[i] || s[i] == "SHARED"[i]);
    }
  }

  lemma ScopeSaid(tx: Codec, o: map<string, Json>, default: Scope, scope: Scope)
    ensures SaysScope(tx, o, default, scope) <==> ScopeField(tx, o, default) == Ok(scope)
  {
    if "scope" in o && o["scope"].Quote? {
      SharedSaid(o["scope"].s);
    }
  }

  lemma VectorSaid(tx: Codec, j: Json, v: seq<real>)
    ensures SaysVector(tx, j, v) <==> VectorField(tx, j) == Ok(v)
  {
    if SaysVector(tx, j, v) {
      forall x | x in j.items ensures Number(x).Some? && tx.fitsF32(Number(x).value) {
        var i :| 0 <= i < |j.items| && j.items[i] == x;
        assert SaysNumber(j.items[i], v[i]);
      }
      assert VectorField(tx, j).Ok?;
      assert forall i | 0 <= i < |v| :: SaysNumber(j.items[i], v[i]) && v[i] == VectorField(tx, j).value[i];
      assert VectorField(tx, j).value == v;
    }
    if VectorField(tx, j) == Ok(v) {
      forall i | 0 <= i < |v| ensures SaysNumber(j.items[i], v[i]) && tx.fitsF32(v[i]) {
        assert j.items[i] in j.items && v[i] == Number(j.items[i]).value;
      }
    }
  }

  lemma RefSaid(tx: Codec, o: map<string, Json>, key: string, kind: IdKind, env: seq<Option<Binding>>, produced: seq<Option<Produced>>, id: nat)
    requires RoundTrips(tx) && SameEnv(tx, env, produced)
    ensures SaysRef(tx, o, key, kind, env, id) <==> TextField(o, key).Ok? && ResolveId(tx, TextField(o, key).value, kind, produced) == Ok(id)
  {
    if TextField(o, key).Ok? {
      DerefIsResolve(tx, o[key].s, kind, env, produced);
    }
  }

  lemma NodeSaid(tx: Codec, o: map<string, Json>, default: Scope, tag: string, key: string, minted: nat, op: Op)
    ensures (&& op.CreateNode? && op.id == minted && op.tag == tag && SaysScope(tx, o, default, op.scope)
             && key in o && o[key].Quote? && SaysPropsWith(o, key, Str(o[key].s), op.props))
            <==> (op.CreateNode? && op.id == minted && NodeDraft(tx, o, default, tag, key, key) == Ok(NewNode(op.scope, op.tag, op.props)))
  {
    if op.CreateNode? {
      ScopeSaid(tx, o, default, op.scope);
      if key in o && o[key].Quote? {
        PropsWithSaid(o, key, Str(o[key].s), op.props);
      }
    }
  }

  lemma LabelledSaid(tx: Codec, o: map<string, Json>, default: Scope, minted: nat, op: Op)
    ensures (&& op.CreateNode? && op.id == minted && SaysText(o, "label", op.tag) && op.tag !in {"", "Entity", "Memory"}
             && SaysScope(tx, o, default, op.scope) && SaysOptionalProps(o, op.props))
            <==> (op.CreateNode? && op.id == minted && LabelledDraft(tx, o, default) == Ok(NewNode(op.scope, op.tag, op.props)))
  {
    if op.CreateNode? {
      ScopeSaid(tx, o, default, op.scope);
      OptionalPropsSaid(o, op.props);
    }
  }

  lemma OptionalPropsSaid(o: map<string, Json>, props: Props)
    ensures SaysOptionalProps(o, props) <==> PropsField(o) == Ok(props)
  {
    if "props" in o {
      PropsSaid(o["props"], props);
    }
  }

  lemma LinkSaid(tx: Codec, o: map<string, Json>, default: Scope, env: seq<Option<Binding>>, produced: seq<Option<Produced>>, minted: nat, op: Op)
    requires RoundTrips(tx) && SameEnv(tx, env, produced) && op.CreateEdge? && op.edge == minted
    ensures (&& "type" in o && o["type"].Quote? && EdgeType(tx, o["type"].s) == Ok(op.ty)
             && SaysRef(tx, o, "from", NodeId_, env, op.from) && SaysRef(tx, o, "to", NodeId_, env, op.to)
             && SaysScope(tx, o, default, op.scope) && SaysOptionalProps(o, op.props) && SaysOptionalInt(o, "valid_from", op.validFrom))
            <==> (LinkDraft(tx, o, default).Ok? && CompilesTo(tx, LinkDraft(tx, o, default).value, produced, minted, op))
  {
    RefSaid(tx, o, "from", NodeId_, env, produced, op.from);
    RefSaid(tx, o, "to", NodeId_, env, produced, op.to);
    ScopeSaid(tx, o, default, op.scope);
    OptionalPropsSaid(o, op.props);
  }

  predicate CompilesTo(tx: Codec, d: Draft, produced: seq<Option<Produced>>, minted: nat, op: Op) {
    var c := CompileDraft(tx, d, produced, minted);
    c.Ok? && c.value.op == op
  }

  lemma TargetSaid(tx: Codec, o: map<string, Json>, name: string, env: seq<Option<Binding>>, produced: seq<Option<Produced>>, minted: nat, op: Op)
    requires RoundTrips(tx) && SameEnv(tx, env, produced) && name in TARGETED
    ensures SaysOfTarget(tx, o, name, env, op) <==> (TargetDraft(tx, o, name).Ok? && CompilesTo(tx, TargetDraft(tx, o, name).value, produced, minted, op))
  {
    if op.SetNodeProps? {
      RefSaid(tx, o, "id", NodeId_, env, produced, op.id);
      if "props" in o { ChangesSaid(o["props"], op.changes); }
    } else if op.RemoveNode? {
      RefSaid(tx, o, "id", NodeId_, env, produced, op.id);
    } else if op.CloseEdge? {
      RefSaid(tx, o, "id", EdgeId_, env, produced, op.edge);
    } else if op.SetEmbedding? {
      RefSaid(tx, o, "id", NodeId_, env, produced, op.id);
      if "vector" in o { VectorSaid(tx, o["vector"], op.vector); }
    }
  }

  /** The compiler produces exactly the op that a command says. */
  lemma SaysIsCompile(tx: Codec, cmd: Json, default: Scope, env: seq<Option<Binding>>, produced: seq<Option<Produced>>, minted: nat, op: Op)
    requires RoundTrips(tx) && SameEnv(tx, env, produced)
    ensures Says(tx, cmd, default, env, minted, op) <==>
            CompileCommand(tx, cmd, default, produced, minted).Ok? && CompileCommand(tx, cmd, default, produced, minted).value.op == op
  {
    OrderOfChecks(tx, cmd, default, produced, minted);
    SaysIsRead(tx, cmd, default, env, produced, minted, op);
  }

  lemma CreateIsRead(tx: Codec, cmd: Json, name: string, default: Scope, env: seq<Option<Binding>>, produced: seq<Option<Produced>>, minted: nat, op: Op)
    requires cmd.Object? && "op" in cmd.fields && cmd.fields["op"] == Quote(name)
    requires name == "create_memory" || name == "create_entity" || name == "create_node"
    ensures Says(tx, cmd, default, env, minted, op) <==>
            ReadCommand(tx, cmd, default).Ok? && CompilesTo(tx, ReadCommand(tx, cmd, default).value, produced, minted, op)
  {
    if name == "create_memory" {
      NodeSaid(tx, cmd.fields, default, "Memory", "content", minted, op);
    } else if name == "create_entity" {
      NodeSaid(tx, cmd.fields, default, "Entity", "name", minted, op);
    } else {
      LabelledSaid(tx, cmd.fields, default, minted, op);
    }
  }

  lemma SaysIsRead(tx: Codec, cmd: Json, default: Scope, env: seq<Option<Binding>>, produced: seq<Option<Produced>>, minted: nat, op: Op)
    requires RoundTrips(tx) && SameEnv(tx, env, produced)
    ensures Says(tx, cmd, default, env, minted, op) <==>
            ReadCommand(tx, cmd, default).Ok? && CompilesTo(tx, ReadCommand(tx, cmd, default).value, produced, minted, op)
  {
    if cmd.Object? && "op" in cmd.fields && cmd.fields["op"].Quote? {
      var o, name := cmd.fields, cmd.fields["op"].s;
      if name in {"create_memory", "create_entity", "create_node"} {
        CreateIsRead(tx, cmd, name, default, env, produced, minted, op);
      } else if name == "link" {
        if op.CreateEdge? && op.edge == minted { LinkSaid(tx, o, default, env, produced, minted, op); }
      } else if name in TARGETED {
        TargetSaid(tx, o, name, env, produced, minted, op);
      }
    }
  }

  lemma BoundIsProduced(tx: Codec, cmd: Json, default: Scope, env: seq<Option<Binding>>, produced: seq<Option<Produced>>, minted: nat)
    requires SameEnv(tx, env, produced) && CompileCommand(tx, cmd, default, produced, minted).Ok?
    ensures SameEnv(tx, env + [Bound(cmd, minted)], produced + [CompileCommand(tx, cmd, default, produced, minted).value.produced])
  {
    OrderOfChecks(tx, cmd, default, produced, minted);
    DraftKind(tx, cmd, default);
    DraftProduces(tx, ReadCommand(tx, cmd, default).value, produced, minted);
  }

  lemma {:induction false} InterpretsIsRun(tx: Codec, g: Graph, cmds: seq<Json>, default: Scope, env: seq<Option<Binding>>, produced: seq<Option<Produced>>, mint: seq<nat>, w: int, g': Graph)
    requires RoundTrips(tx) && SameEnv(tx, env, produced) && |env| + |cmds| <= |mint|
    ensures Interprets(tx, g, cmds, default, env, mint, w, g') <==>
            var r := ResolveFrom(tx, cmds, default, produced, mint); r.Ok? && Run(g, r.value.ops, w) == Ok(g')
    decreases |cmds|, 1
  {
    if cmds != [] {
      var minted := mint[|env|];
      var c := CompileCommand(tx, cmds[0], default, produced, minted);
      forall op ensures Says(tx, cmds[0], default, env, minted, op) <==> c.Ok? && c.value.op == op {
        SaysIsCompile(tx, cmds[0], default, env, produced, minted, op);
      }
      if c.Ok? {
        BoundIsProduced(tx, cmds[0], default, env, produced, minted);
        StepIsRun(tx, g, cmds, default, env, produced, mint, w, g', c.value);
      }
    }
  }

  lemma {:induction false} StepIsRun(tx: Codec, g: Graph, cmds: seq<Json>, default: Scope, env: seq<Option<Binding>>, produced: seq<Option<Produced>>, mint: seq<nat>, w: int, g': Graph, c: Compiled)
    requires RoundTrips(tx) && |env| == |produced| && |env| + |cmds| <= |mint| && cmds != []
    requires CompileCommand(tx, cmds[0], default, produced, mint[|env|]) == Ok(c)
    requires forall op :: Says(tx, cmds[0], default, env, mint[|env|], op) <==> c.op == op
    requires SameEnv(tx, env + [Bound(cmds[0], mint[|env|])], produced + [c.produced])
    ensures Interprets(tx, g, cmds, default, env, mint, w, g') <==>
            var r := ResolveFrom(tx, cmds, default, produced, mint); r.Ok? && Run(g, r.value.ops, w) == Ok(g')
    decreases |cmds|, 0
  {
    var step := ApplyOp(g, c.op, w);
    var env', produced' := env + [Bound(cmds[0], mint[|env|])], produced + [c.produced];
    var rest := ResolveFrom(tx, cmds[1..], default, produced', mint);
    assert ResolveFrom(tx, cmds, default, produced, mint) == Then([c.op], rest);
    if step.Ok? {
      InterpretsIsRun(tx, step.value, cmds[1..], default, env', produced', mint, w, g');
      assert Interprets(tx, g, cmds, default, env, mint, w, g') <==> Interprets(tx, step.value, cmds[1..], default, env', mint, w, g');
    }
    if rest.Ok? { assert ([c.op] + rest.value.ops)[1..] == rest.value.ops; }
  }

  /** Compiling a batch and running its ops is carrying out what its commands say, with `#N`
      bound to command N's id; a batch that does not compile says nothing that could be
      carried out, and changes nothing. */
  lemma CompilePreservesMeaning(tx: Codec, g: Graph, batch: Json, default: Scope, mint: seq<nat>, w: int, g': Graph)
    requires RoundTrips(tx) && batch.Array? && EnoughIds(batch, mint)
    ensures var r := ResolveBatch(tx, batch, default, mint);
            && (Interprets(tx, g, batch.items, default, [], mint, w, g') <==> r.Ok? && Run(g, r.value.ops, w) == Ok(g'))
            && (r.Ok? && Commit(tx, g, r.value.ops, w).Ok? ==>
                  Interprets(tx, g, batch.items, default, [], mint, w, Commit(tx, g, r.value.ops, w).value.graph))
  {
    InterpretsIsRun(tx, g, batch.items, default, [], [], mint, w, g');
    var r := ResolveBatch(tx, batch, default, mint);
    if r.Ok? {
      forall c, p, m: nat ensures OneCommand(tx, default)(c, p, m).Ok? ==> !OneCommand(tx, default)(c, p, m).value.op.UpsertNode? {
        PlainCommand(tx, c, default, p, m);
      }
      NoUpserts(OneCommand(tx, default), batch.items, [], mint);
      Remember.RewriteWithoutUpserts(tx, g, r.value.ops, map[]);
      if Commit(tx, g, r.value.ops, w).Ok? {
        InterpretsIsRun(tx, g, batch.items, default, [], [], mint, w, Commit(tx, g, r.value.ops, w).value.graph);
      }
    }
  }

  lemma {:induction false} NoUpserts(f: Compiler, cmds: seq<Json>, produced: seq<Option<Produced>>, mint: seq<nat>)
    requires |produced| + |cmds| <= |mint| && ResolveWith(f, cmds, produced, mint).Ok?
    requires forall c, p, m: nat :: f(c, p, m).Ok? ==> !f(c, p, m).value.op.UpsertNode?
    ensures forall op | op in ResolveWith(f, cmds, produced, mint).value.ops :: !op.UpsertNode?
    decreases |cmds|
  {
    if cmds != [] {
      var c := f(cmds[0], produced, mint[|produced|]).value;
      NoUpserts(f, cmds[1..], produced + [c.produced], mint);
    }
  }

  lemma PlainCommand(tx: Codec, cmd: Json, default: Scope, produced: seq<Option<Produced>>, minted: nat)
    ensures var c := CompileCommand(tx, cmd, default, produced, minted); c.Ok? ==> !c.value.op.UpsertNode?
  {
  }

  // ----- which batches compile -----

  /** A literal id, or a reference to an earlier command of the right kind. */
  predicate RefOk(tx: Codec, raw: string, kind: IdKind, before: seq<Json>) {
    if raw == [] || raw[0] != '#' then tx.parseId(raw).Some?
    else
      var n := ParseUsize(raw[1..]);
      n.Some? && n.value < |before| && KindOf(before[n.value]) == Some(kind)
  }

  predicate RefsOk(tx: Codec, d: Draft, before: seq<Json>) {
    match d
    case NewNode(_, _, _) => true
    case NewEdge(from, to, _, _, _, _) => RefOk(tx, from, NodeId_, before) && RefOk(tx, to, NodeId_, before)
    case Change(node, _) => RefOk(tx, node, NodeId_, before)
    case Remove(node) => RefOk(tx, node, NodeId_, before)
    case Close(edge, _) => RefOk(tx, edge, EdgeId_, before)
    case Embed(node, _, _) => RefOk(tx, node, NodeId_, before)
  }

  /** A command whose fields read and whose references are earlier and of the right kind. */
  predicate WellTyped(tx: Codec, cmds: seq<Json>, default: Scope, i: nat)
    requires i < |cmds|
  {
    var d := ReadCommand(tx, cmds[i], default);
    d.Ok? && RefsOk(tx, d.value, cmds[..i])
  }

  ghost predicate ProducedKinds(tx: Codec, before: seq<Json>, produced: seq<Option<Produced>>) {
    && |before| == |produced|
    && forall i | 0 <= i < |before| :: Fits(tx, produced[i], before[i])
  }

  lemma RefOkExact(tx: Codec, raw: string, kind: IdKind, before: seq<Json>, produced: seq<Option<Produced>>)
    requires ProducedKinds(tx, before, produced)
    ensures ResolveId(tx, raw, kind, produced).Ok? <==> RefOk(tx, raw, kind, before)
  {
  }

  lemma CompileExact(tx: Codec, cmd: Json, default: Scope, before: seq<Json>, produced: seq<Option<Produced>>, minted: nat)
    requires ProducedKinds(tx, before, produced)
    ensures CompileCommand(tx, cmd, default, produced, minted).Ok? <==>
            ReadCommand(tx, cmd, default).Ok? && RefsOk(tx, ReadCommand(tx, cmd, default).value, before)
  {
    var d := ReadCommand(tx, cmd, default);
    OrderOfChecks(tx, cmd, default, produced, minted);
    if d.Ok? {
      match d.value
      case NewNode(_, _, _) =>
      case NewEdge(from, to, _, _, _, _) =>
        RefOkExact(tx, from, NodeId_, before, produced);
        RefOkExact(tx, to, NodeId_, before, produced);
      case Change(node, _) => RefOkExact(tx, node, NodeId_, before, produced);
      case Remove(node) => RefOkExact(tx, node, NodeId_, before, produced);
      case Close(edge, _) => RefOkExact(tx, edge, EdgeId_, before, produced);
      case Embed(node, _, _) => RefOkExact(tx, node, NodeId_, before, produced);
    }
  }

  /** What a command produces is what its op name says. */
  lemma ProducesItsKind(tx: Codec, cmd: Json, default: Scope, produced: seq<Option<Produced>>, minted: nat)
    requires RoundTrips(tx) && CompileCommand(tx, cmd, default, produced, minted).Ok?
    ensures Fits(tx, CompileCommand(tx, cmd, default, produced, minted).value.produced, cmd)
  {
    OrderOfChecks(tx, cmd, default, produced, minted);
    DraftKind(tx, cmd, default);
    DraftProduces(tx, ReadCommand(tx, cmd, default).value, produced, minted);
  }

  predicate Fits(tx: Codec, p: Option<Produced>, cmd: Json) {
    match p
    case None => KindOf(cmd).None?
    case Some(p) => KindOf(cmd) == Some(p.kind) && tx.parseId(p.text).Some?
  }

  function KindOfDraft(d: Draft): Option<IdKind> {
    match d
    case NewNode(_, _, _) => Some(NodeId_)
    case NewEdge(_, _, _, _, _, _) => Some(EdgeId_)
    case _ => None
  }

  lemma DraftKind(tx: Codec, cmd: Json, default: Scope)
    requires ReadCommand(tx, cmd, default).Ok?
    ensures KindOfDraft(ReadCommand(tx, cmd, default).value) == KindOf(cmd)
  {
  }

  lemma DraftProduces(tx: Codec, d: Draft, produced: seq<Option<Produced>>, minted: nat)
    requires CompileDraft(tx, d, produced, minted).Ok?
    ensures CompileDraft(tx, d, produced, minted).value.produced ==
            if KindOfDraft(d).Some? then Some(Produced(tx.showId(minted), KindOfDraft(d).value)) else None
  {
  }

  lemma KindsExtend(tx: Codec, before: seq<Json>, cmd: Json, produced: seq<Option<Produced>>, p: Option<Produced>)
    requires ProducedKinds(tx, before, produced) && Fits(tx, p, cmd)
    ensures ProducedKinds(tx, before + [cmd], produced + [p])
  {
  }

  lemma {:induction false} CompilesFrom(tx: Codec, cmds: seq<Json>, default: Scope, at: nat, produced: seq<Option<Produced>>, mint: seq<nat>)
    requires RoundTrips(tx) && at <= |cmds| <= |mint| && ProducedKinds(tx, cmds[..at], produced)
    ensures ResolveFrom(tx, cmds[at..], default, produced, mint).Ok? <==>
            forall i | at <= i < |cmds| :: WellTyped(tx, cmds, default, i)
    decreases |cmds| - at
  {
    if at < |cmds| {
      assert cmds[at..][0] == cmds[at] && cmds[at..][1..] == cmds[at + 1..];
      CompileExact(tx, cmds[at], default, cmds[..at], produced, mint[at]);
      var c := CompileCommand(tx, cmds[at], default, produced, mint[at]);
      if c.Ok? {
        assert cmds[..at + 1] == cmds[..at] + [cmds[at]];
        ProducesItsKind(tx, cmds[at], default, produced, mint[at]);
        KindsExtend(tx, cmds[..at], cmds[at], produced, c.value.produced);
        CompilesFrom(tx, cmds, default, at + 1, produced + [c.value.produced], mint);
      } else {
        assert !WellTyped(tx, cmds, default, at);
      }
    }
  }

  /** A batch compiles exactly when every command reads and every `#N` points backwards to a
      command whose op name produces the kind wanted; one forward or wrong-kind reference
      anywhere and there are no ops at all. */
  lemma CompilesExactly(tx: Codec, batch: Json, default: Scope, mint: seq<nat>)
    requires RoundTrips(tx) && EnoughIds(batch, mint)
    ensures ResolveBatch(tx, batch, default, mint).Ok? <==>
            batch.Array? && forall i | 0 <= i < |batch.items| :: WellTyped(tx, batch.items, default, i)
  {
    if batch.Array? {
      assert batch.items[0..] == batch.items;
      CompilesFrom(tx, batch.items, default, 0, [], mint);
    }
  }
}
