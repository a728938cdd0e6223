/** The batch DSL: a JSON array of commands compiled to ops, with `#N` naming what command N
    produced. */
module Batch {
  import opened Text
  import opened Store
  import opened Json

  datatype IdKind = NodeId_ | EdgeId_

  /** What a command leaves for later references: the printed id and its kind. */
  datatype Produced = Produced(text: string, kind: IdKind)

  const MAX_USIZE := 0xFFFF_FFFF_FFFF_FFFF

  // ----- decimal numbers -----

  predicate IsDigit(c: char) {
    '0' <= c <= '9'
  }

  predicate AllDigits(s: string) {
    forall c | c in s :: IsDigit(c)
  }

  function DigitsValue(s: string): nat
    requires AllDigits(s)
  {
    if s == [] then 0
    else
      assert s[|s| - 1] in s && forall c | c in s[..|s| - 1] :: c in s;
      10 * DigitsValue(s[..|s| - 1]) + (s[|s| - 1] as int - '0' as int)
  }

  /** `str::parse::<usize>`: an optional plus sign, at least one digit, no overflow. */
  function ParseUsize(s: string): Option<nat> {
    var digits := if s != [] && s[0] == '+' then s[1..] else s;
    if digits == [] || !AllDigits(digits) || DigitsValue(digits) > MAX_USIZE then None
    else Some(DigitsValue(digits))
  }

  function ToDecimal(n: nat): (s: string)
    ensures s != [] && AllDigits(s)
  {
    if n < 10 then ['0' + n as char] else ToDecimal(n / 10) + ['0' + (n % 10) as char]
  }

  lemma {:induction false} DecimalValue(n: nat)
    ensures DigitsValue(ToDecimal(n)) == n
  {
    if n < 10 {
      assert ToDecimal(n)[..0] == [];
    } else {
      DecimalValue(n / 10);
      var s := ToDecimal(n);
      assert s[..|s| - 1] == ToDecimal(n / 10);
    }
  }

  /** A printed index is read back, up to the machine word. */
  lemma DecimalRoundTrip(n: nat)
    requires n <= MAX_USIZE
    ensures ParseUsize(ToDecimal(n)) == Some(n)
  {
    DecimalValue(n);
    assert IsDigit(ToDecimal(n)[0]);
  }

  /** What `parse` accepts, and the value: one or more digits, after a plus sign or not, that fit
      the machine word. */
  lemma ParsedWhen(s: string, n: nat)
    ensures ParseUsize(s) == Some(n) <==>
            n <= MAX_USIZE && exists d: string :: d != "" && AllDigits(d) && DigitsValue(d) == n && (s == d || s == "+" + d)
  {
    if s != "" && s[0] == '+' {
      assert s[0] in s && s == "+" + s[1..];
    }
    forall d: string | d != "" && s == "+" + d ensures s[0] == '+' && s[1..] == d {
    }
  }

  // ----- reading a command -----

  /** A command with its own fields read, its references still text. */
  datatype Draft =
    | NewNode(scope: Scope, tag: string, props: Props)
    | NewEdge(from: string, to: string, ty: string, scope: Scope, props: Props, validFrom: Option<int>)
    | Change(node: string, changes: map<string, Option<Value>>)
    | Remove(node: string)
    | Close(edge: string, validTo: Option<int>)
    | Embed(node: string, model: string, vector: seq<real>)

  function TextField(o: map<string, Json>, key: string): Result<string, string> {
    if key in o && o[key].Quote? then Ok(o[key].s) else Err("missing string field")
  }

  function IntField(o: map<string, Json>, key: string): Result<Option<int>, string> {
    if key !in o || o[key].Null? then Ok(None)
    else if o[key].Integer? && o[key].i <= MAX_I64 then Ok(Some(o[key].i))
    else Err("must be an integer")
  }

  function AsciiLower(s: string): string {
    seq(|s|, i requires 0 <= i < |s| => if 'A' <= s[i] <= 'Z' then s[i] - 'A' + 'a' else s[i])
  }

  function ScopeField(tx: Codec, o: map<string, Json>, default: Scope): Result<Scope, string> {
    if "scope" !in o || o["scope"].Null? then Ok(default)
    else if !o["scope"].Quote? then Err("\"scope\" must be a string")
    else if AsciiLower(o["scope"].s) == "shared" then Ok(Shared)
    else
      match tx.parseId(o["scope"].s)
      case Some(id) => Ok(Project(id))
      case None => Err("invalid scope")
  }

  function PropsField(o: map<string, Json>): Result<Props, string> {
    if "props" in o then ToProps(o["props"]) else Ok(map[])
  }

  function ExtraField(o: map<string, Json>): Option<Json> {
    if "props" in o then Some(o["props"]) else None
  }

  function Number(j: Json): Option<real> {
    match j
    case Integer(i) => Some(i as real)
    case Decimal(r) => Some(r)
    case _ => None
  }

  function VectorField(tx: Codec, j: Json): Result<seq<real>, string> {
    if !j.Array? then Err("expected a JSON array of numbers")
    else if exists x | x in j.items :: Number(x).None? || !tx.fitsF32(Number(x).value) then Err("vector element is not a finite number")
    else Ok(seq(|j.items|, i requires 0 <= i < |j.items| =>
      assert j.items[i] in j.items; Number(j.items[i]).value))
  }

  function NodeDraft(tx: Codec, o: map<string, Json>, default: Scope, tag: string, key: string, field: string): Result<Draft, string> {
    match TextField(o, field)
    case Err(e) => Err(e)
    case Ok(text) =>
      match ScopeField(tx, o, default)
      case Err(e) => Err(e)
      case Ok(scope) =>
        match MergeRequired(key, Str(text), ExtraField(o))
        case Err(e) => Err(e)
        case Ok(props) => Ok(NewNode(scope, tag, props))
  }

  function LabelledDraft(tx: Codec, o: map<string, Json>, default: Scope): Result<Draft, string> {
    match TextField(o, "label")
    case Err(e) => Err(e)
    case Ok(tag) =>
      if tag == "" then Err("\"label\" must be non-empty")
      else if tag == ENTITY || tag == MEMORY then Err("label is reserved")
      else
        match ScopeField(tx, o, default)
        case Err(e) => Err(e)
        case Ok(scope) =>
          match PropsField(o)
          case Err(e) => Err(e)
          case Ok(props) => Ok(NewNode(scope, tag, props))
  }

  function LinkDraft(tx: Codec, o: map<string, Json>, default: Scope): Result<Draft, string> {
    var (from, to, raw) := (TextField(o, "from"), TextField(o, "to"), TextField(o, "type"));
    if from.Err? || to.Err? || raw.Err? then Err("missing string field")
    else
      match EdgeType(tx, raw.value)
      case Err(e) => Err(e)
      case Ok(ty) =>
        match ScopeField(tx, o, default)
        case Err(e) => Err(e)
        case Ok(scope) =>
          match PropsField(o)
          case Err(e) => Err(e)
          case Ok(props) =>
            match IntField(o, "valid_from")
            case Err(e) => Err(e)
            case Ok(at) => Ok(NewEdge(from.value, to.value, ty, scope, props, at))
  }

  function TargetDraft(tx: Codec, o: map<string, Json>, op: string): Result<Draft, string> {
    match TextField(o, "id")
    case Err(e) => Err(e)
    case Ok(id) =>
      if op == "set_node_props" then
        if "props" !in o then Err("set_node_props requires \"props\"")
        else (match ToChanges(o["props"]) { case Ok(c) => Ok(Change(id, c)) case Err(e) => Err(e) })
      else if op == "remove_node" then Ok(Remove(id))
      else if op == "close_edge" then
        (match IntField(o, "valid_to") { case Ok(at) => Ok(Close(id, at)) case Err(e) => Err(e) })
      else
        match TextField(o, "model")
        case Err(e) => Err(e)
        case Ok(model) =>
          if "vector" !in o then Err("set_embedding requires \"vector\"")
          else (match VectorField(tx, o["vector"]) { case Ok(v) => Ok(Embed(id, model, v)) case Err(e) => Err(e) })
  }

  const TARGETED := {"set_node_props", "remove_node", "close_edge", "set_embedding"}

  function ReadCommand(tx: Codec, cmd: Json, default: Scope): Result<Draft, string> {
    if !cmd.Object? then Err("expected a JSON object")
    else
      var o := cmd.fields;
      match TextField(o, "op")
      case Err(e) => Err(e)
      case Ok(op) =>
        if op == "create_memory" then NodeDraft(tx, o, default, MEMORY, CONTENT, "content")
        else if op == "create_entity" then NodeDraft(tx, o, default, ENTITY, NAME, "name")
        else if op == "create_node" then LabelledDraft(tx, o, default)
        else if op == "link" then LinkDraft(tx, o, default)
        else if op in TARGETED then TargetDraft(tx, o, op)
        else Err("unknown op")
  }

  // ----- references -----

  /** `resolve_ref`: a literal passes through; `#N` must name an earlier command that
      produced an id of the expected kind. */
  function ResolveRef(raw: string, expected: IdKind, produced: seq<Option<Produced>>): Result<string, string> {
    if raw == [] || raw[0] != '#' then Ok(raw)
    else
      match ParseUsize(raw[1..])
      case None => Err("back-ref is not #<number>")
      case Some(n) =>
        if n >= |produced| then Err("back-ref must point to an earlier command")
        else
          match produced[n]
          case None => Err("back-ref refers to a command that produces no id")
          case Some(p) => if p.kind == expected then Ok(p.text) else Err("back-ref refers to the wrong kind of id")
  }

  function ResolveId(tx: Codec, raw: string, expected: IdKind, produced: seq<Option<Produced>>): Result<nat, string> {
    match ResolveRef(raw, expected, produced)
    case Err(e) => Err(e)
    case Ok(text) => (match tx.parseId(text) { case Some(id) => Ok(id) case None => Err("invalid id") })
  }

  datatype Compiled = Compiled(op: Op, produced: Option<Produced>)

  function CompileDraft(tx: Codec, d: Draft, produced: seq<Option<Produced>>, minted: nat): Result<Compiled, string> {
    match d
    case NewNode(scope, tag, props) =>
      Ok(Compiled(CreateNode(minted, scope, tag, props), Some(Produced(tx.showId(minted), NodeId_))))
    case NewEdge(from, to, ty, scope, props, at) =>
      (match ResolveId(tx, from, NodeId_, produced)
       case Err(e) => Err(e)
       case Ok(a) =>
         match ResolveId(tx, to, NodeId_, produced)
         case Err(e) => Err(e)
         case Ok(b) =>
           Ok(Compiled(CreateEdge(minted, scope, ty, a, b, props, at), Some(Produced(tx.showId(minted), EdgeId_)))))
    case Change(node, changes) =>
      (match ResolveId(tx, node, NodeId_, produced)
       case Err(e) => Err(e)
       case Ok(id) => Ok(Compiled(SetNodeProps(id, changes), None)))
    case Remove(node) =>
      (match ResolveId(tx, node, NodeId_, produced)
       case Err(e) => Err(e)
       case Ok(id) => Ok(Compiled(RemoveNode(id), None)))
    case Close(edge, at) =>
      (match ResolveId(tx, edge, EdgeId_, produced)
       case Err(e) => Err(e)
       case Ok(id) => Ok(Compiled(CloseEdge(id, at), None)))
    case Embed(node, model, vector) =>
      (match ResolveId(tx, node, NodeId_, produced)
       case Err(e) => Err(e)
       case Ok(id) => Ok(Compiled(SetEmbedding(id, model, vector), None)))
  }

  /** A reference and the kind of id it must stand for. */
  datatype Wanted = Wanted(raw: string, kind: IdKind)

  /** The references of a command, with the errors found before any of them is resolved. */
  function ReadRefs(tx: Codec, cmd: Json, default: Scope): Result<seq<Wanted>, string> {
    if !cmd.Object? then Err("expected a JSON object")
    else
      var o := cmd.fields;
      match TextField(o, "op")
      case Err(e) => Err(e)
      case Ok(op) =>
        if op == "link" then
          var (from, to, raw) := (TextField(o, "from"), TextField(o, "to"), TextField(o, "type"));
          if from.Err? || to.Err? || raw.Err? then Err("missing string field")
          else
            match EdgeType(tx, raw.value)
            case Err(e) => Err(e)
            case Ok(_) =>
              match ScopeField(tx, o, default)
              case Err(e) => Err(e)
              case Ok(_) => Ok([Wanted(from.value, NodeId_), Wanted(to.value, NodeId_)])
        else if op in TARGETED then
          match TextField(o, "id")
          case Err(e) => Err(e)
          case Ok(id) => Ok([Wanted(id, if op == "close_edge" then EdgeId_ else NodeId_)])
        else Ok([])
  }

  function FirstBadRef(tx: Codec, refs: seq<Wanted>, produced: seq<Option<Produced>>): Option<string> {
    if refs == [] then None
    else
      match ResolveId(tx, refs[0].raw, refs[0].kind, produced)
      case Err(e) => Some(e)
      case Ok(_) => FirstBadRef(tx, refs[1..], produced)
  }

  /** A command read in full and then compiled. */
  function ReadAndCompile(tx: Codec, cmd: Json, default: Scope, produced: seq<Option<Produced>>, minted: nat): Result<Compiled, string> {
    match ReadCommand(tx, cmd, default)
    case Err(e) => Err(e)
    case Ok(d) => CompileDraft(tx, d, produced, minted)
  }

  /** One command: a bad reference is reported before the fields read after it. */
  function CompileCommand(tx: Codec, cmd: Json, default: Scope, produced: seq<Option<Produced>>, minted: nat): Result<Compiled, string> {
    match ReadRefs(tx, cmd, default)
    case Err(e) => Err(e)
    case Ok(refs) =>
      match FirstBadRef(tx, refs, produced)
      case Some(e) => Err(e)
      case None => ReadAndCompile(tx, cmd, default, produced, minted)
  }

  lemma BadRefIsError(tx: Codec, cmd: Json, default: Scope, produced: seq<Option<Produced>>, minted: nat)
    requires ReadCommand(tx, cmd, default).Ok?
    ensures ReadRefs(tx, cmd, default).Ok?
    ensures var bad := FirstBadRef(tx, ReadRefs(tx, cmd, default).value, produced);
            if bad.Some? then CompileDraft(tx, ReadCommand(tx, cmd, default).value, produced, minted) == Err(bad.value)
            else CompileDraft(tx, ReadCommand(tx, cmd, default).value, produced, minted).Ok?
  {
    var op := TextField(cmd.fields, "op").value;
    if op == "link" {
      LinkRefs(tx, cmd.fields, default, produced, minted);
    } else if op in TARGETED {
      TargetRefs(tx, cmd.fields, op, produced, minted);
    }
  }

  lemma LinkRefs(tx: Codec, o: map<string, Json>, default: Scope, produced: seq<Option<Produced>>, minted: nat)
    requires LinkDraft(tx, o, default).Ok?
    ensures var refs := [Wanted(TextField(o, "from").value, NodeId_), Wanted(TextField(o, "to").value, NodeId_)];
            var r := CompileDraft(tx, LinkDraft(tx, o, default).value, produced, minted);
            var bad := FirstBadRef(tx, refs, produced);
            if bad.Some? then r == Err(bad.value) else r.Ok?
  {
    var refs := [Wanted(TextField(o, "from").value, NodeId_), Wanted(TextField(o, "to").value, NodeId_)];
    assert refs[1..] == [refs[1]];
    OneRef(tx, refs[1], produced);
  }

  lemma TargetRefs(tx: Codec, o: map<string, Json>, op: string, produced: seq<Option<Produced>>, minted: nat)
    requires op in TARGETED && TargetDraft(tx, o, op).Ok?
    ensures var refs := [Wanted(TextField(o, "id").value, if op == "close_edge" then EdgeId_ else NodeId_)];
            var r := CompileDraft(tx, TargetDraft(tx, o, op).value, produced, minted);
            var bad := FirstBadRef(tx, refs, produced);
            if bad.Some? then r == Err(bad.value) else r.Ok?
  {
    OneRef(tx, Wanted(TextField(o, "id").value, if op == "close_edge" then EdgeId_ else NodeId_), produced);
  }

  lemma OneRef(tx: Codec, r: Wanted, produced: seq<Option<Produced>>)
    ensures var id := ResolveId(tx, r.raw, r.kind, produced);
            FirstBadRef(tx, [r], produced) == if id.Err? then Some(id.error) else None
  {
    assert [r][1..] == [];
    assert FirstBadRef(tx, [], produced) == None;
  }

  /** The order of the checks decides which error is reported, not what is accepted. */
  lemma OrderOfChecks(tx: Codec, cmd: Json, default: Scope, produced: seq<Option<Produced>>, minted: nat)
    ensures var a, b := CompileCommand(tx, cmd, default, produced, minted), ReadAndCompile(tx, cmd, default, produced, minted);
            (a.Ok? <==> b.Ok?) && (a.Ok? ==> a == b)
  {
    if ReadCommand(tx, cmd, default).Ok? {
      BadRefIsError(tx, cmd, default, produced, minted);
    }
  }

  datatype Resolved = Resolved(ops: seq<Op>, produced: seq<Option<Produced>>)

  type Compiler = (Json, seq<Option<Produced>>, nat) -> Result<Compiled, string>

  function Then(ops: seq<Op>, rest: Result<Resolved, string>): Result<Resolved, string> {
    if rest.Ok? then Ok(Resolved(ops + rest.value.ops, rest.value.produced)) else rest
  }

  /** Command after command, each seeing what the earlier ones produced. */
  function ResolveWith(f: Compiler, cmds: seq<Json>, produced: seq<Option<Produced>>, mint: seq<nat>): Result<Resolved, string>
    requires |produced| + |cmds| <= |mint|
    decreases |cmds|
  {
    if cmds == [] then Ok(Resolved([], produced))
    else
      match f(cmds[0], produced, mint[|produced|])
      case Err(e) => Err(e)
      case Ok(c) => Then([c.op], ResolveWith(f, cmds[1..], produced + [c.produced], mint))
  }

  function OneCommand(tx: Codec, default: Scope): Compiler {
    (cmd: Json, produced: seq<Option<Produced>>, minted: nat) => CompileCommand(tx, cmd, default, produced, minted)
  }

  function ResolveFrom(tx: Codec, cmds: seq<Json>, default: Scope, produced: seq<Option<Produced>>, mint: seq<nat>): Result<Resolved, string>
    requires |produced| + |cmds| <= |mint|
  {
    ResolveWith(OneCommand(tx, default), cmds, produced, mint)
  }

  predicate EnoughIds(batch: Json, mint: seq<nat>) {
    batch.Array? ==> |batch.items| <= |mint|
  }

  function ResolveBatch(tx: Codec, batch: Json, default: Scope, mint: seq<nat>): Result<Resolved, string>
    requires EnoughIds(batch, mint)
  {
    if !batch.Array? then Err("batch must be a JSON array of command objects")
    else ResolveFrom(tx, batch.items, default, [], mint)
  }

  /** `resolve_batch`: one pass that grows the ops and the produced ids together. */
  method CompileBatch(tx: Codec, batch: Json, default: Scope, mint: seq<nat>) returns (r: Result<Resolved, string>)
    requires EnoughIds(batch, mint)
    ensures r == ResolveBatch(tx, batch, default, mint)
  {
    if !batch.Array? { return Err("batch must be a JSON array of command objects"); }
    var cmds := batch.items;
    var produced: seq<Option<Produced>> := [];
    var ops: seq<Op> := [];
    assert cmds[0..] == cmds;
    ghost var all := ResolveFrom(tx, cmds, default, [], mint);
    assert all.Ok? ==> [] + all.value.ops == all.value.ops;
    for i := 0 to |cmds|
      invariant |produced| == i
      invariant ResolveFrom(tx, cmds, default, [], mint) ==
                match ResolveFrom(tx, cmds[i..], default, produced, mint)
                { case Ok(rest) => Ok(Resolved(ops + rest.ops, rest.produced)) case Err(e) => Err(e) }
    {
      assert cmds[i..][0] == cmds[i] && cmds[i..][1..] == cmds[i + 1..];
      var c := CompileCommand(tx, cmds[i], default, produced, mint[i]);
      if c.Err? { return Err(c.error); }
      ghost var rest := ResolveFrom(tx, cmds[i + 1..], default, produced + [c.value.produced], mint);
      if rest.Ok? {
        assert ops + ([c.value.op] + rest.value.ops) == (ops + [c.value.op]) + rest.value.ops;
      }
      produced := produced + [c.value.produced];
      ops := ops + [c.value.op];
    }
    assert ops + [] == ops;
    r := Ok(Resolved(ops, produced));
  }
}
