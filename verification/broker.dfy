/** The JSON-RPC multiplexer: many client connections share one server by id rewriting,
    cancel translation and per-connection scope stamping (plugins/core/broker.js). */
module Broker {
  import opened Text

  /** A JSON `id` as JavaScript compares it. `Structured` values are objects or arrays: each
      parse makes a new one, so they equal nothing. */
  datatype Id = Absent | Null | Num(value: int) | Word(text: string) | Scalar(text: string) | Structured(text: string)

  predicate SameId(a: Id, b: Id) { a == b && !a.Structured? }

  /** The two scope entries of a hello frame or of a request's `_meta`; either may be missing. */
  datatype Scopes = Scopes(write: Option<string>, read: Option<seq<string>>)

  /** A client line: `requestId` and `scopes` are read from its params, `rest` is all the rest. */
  datatype Request = Request(hello: Option<Scopes>, verb: string, id: Id, requestId: Id, scopes: Scopes, rest: string)

  /** A server line: `failed` and `result` are a truthy `error` and `result`. */
  datatype Answer = Answer(id: Id, failed: bool, result: Option<string>, rest: string)

  datatype Pending = Pending(client: nat, id: Id)

  /** What the broker writes, and to whom. */
  datatype Out =
    | Reply(client: nat, msg: Answer)
    | Broadcast(client: nat, msg: Answer)
    | Cached(client: nat, id: Id, result: Option<string>)
    | Refused(client: nat, id: Id)
    | Up(sent: Request)
    | Initialized
    | KillServer

  datatype Event =
    | Connect(client: nat)
    | ClientLine(client: nat, msg: Request)
    | Drop(client: nat)
    | ServerLine(answer: Answer)  // as the routing reader sees it
    | InitLine(answer: Answer)    // as the handshake reader sees it

  /** `seen` holds every connection ever accepted: a connection object is never reused. */
  datatype State = State(
    clients: seq<nat>,
    pending: map<nat, Pending>,
    next: nat,
    init: Option<string>,
    listening: bool,
    sessions: map<nat, Scopes>,
    seen: set<nat>)

  datatype Outcome = Outcome(state: State, outs: seq<Out>)

  const INITIAL := State([], map[], 1, None, false, map[], {})
  const INITIALIZE := "initialize"
  const INITIALIZED := "notifications/initialized"
  const CANCELLED := "notifications/cancelled"

  function Without(s: seq<nat>, c: nat): (r: seq<nat>)
    ensures forall x :: x in r <==> x in s && x != c
  {
    if s == [] then [] else (if s[0] == c then [] else [s[0]]) + Without(s[1..], c)
  }

  function Keep(pending: map<nat, Pending>, c: nat): map<nat, Pending> {
    map up | up in pending && pending[up].client != c :: pending[up]
  }

  /** The same with the entries from `up` on not looked at yet. */
  function KeepFrom(pending: map<nat, Pending>, c: nat, up: nat): map<nat, Pending> {
    map u | u in pending && (u >= up || pending[u].client != c) :: pending[u]
  }

  lemma KeepStep(pending: map<nat, Pending>, c: nat, up: nat)
    ensures KeepFrom(pending, c, up + 1) ==
            if up in pending && pending[up].client == c then KeepFrom(pending, c, up) - {up} else KeepFrom(pending, c, up)
  {
  }

  lemma KeepEnds(pending: map<nat, Pending>, c: nat, up: nat)
    requires forall u | u in pending :: u < up
    ensures KeepFrom(pending, c, up) == Keep(pending, c)
  {
  }

  predicate IsMatch(pending: map<nat, Pending>, c: nat, rid: Id, up: nat) {
    up in pending && pending[up].client == c && SameId(pending[up].id, rid)
  }

  /** The first match in insertion order, which is id order: ids only grow and are never reused. */
  function FirstMatch(pending: map<nat, Pending>, c: nat, rid: Id, from: nat, next: nat): (r: Option<nat>)
    ensures r.Some? ==> from <= r.value < next && IsMatch(pending, c, rid, r.value)
                        && forall up :: from <= up < r.value ==> !IsMatch(pending, c, rid, up)
    ensures r.None? ==> forall up :: from <= up < next ==> !IsMatch(pending, c, rid, up)
    decreases next - from
  {
    if from >= next then None
    else if IsMatch(pending, c, rid, from) then Some(from)
    else FirstMatch(pending, c, rid, from + 1, next)
  }

  function OrElse<T>(explicit: Option<T>, default: Option<T>): Option<T> {
    if explicit.Some? then explicit else default
  }

  function Stamp(msg: Request, session: Scopes): Request {
    msg.(scopes := Scopes(OrElse(msg.scopes.write, session.write), OrElse(msg.scopes.read, session.read)))
  }

  /** `forward`: stamped and sent on, or refused for want of a hello. */
  function Forward(s: State, c: nat, msg: Request): seq<Out> {
    if c in s.sessions then [Up(Stamp(msg, s.sessions[c]))]
    else if msg.id != Absent then [Refused(c, msg.id)]
    else []
  }

  /** A line that gets an upstream id of its own. */
  predicate IsCall(msg: Request) {
    msg.hello.None? && msg.verb !in {INITIALIZE, INITIALIZED, CANCELLED} && msg.id != Absent
  }

  predicate IsCancel(msg: Request) {
    msg.hello.None? && msg.verb == CANCELLED
  }

  function OnClient(s: State, c: nat, msg: Request): Outcome {
    if msg.hello.Some? then Outcome(s.(sessions := s.sessions[c := msg.hello.value]), [])
    else if msg.verb == INITIALIZE then Outcome(s, [Cached(c, msg.id, s.init)])
    else if msg.verb == INITIALIZED then Outcome(s, [])
    else if msg.verb == CANCELLED then
      var hit := FirstMatch(s.pending, c, msg.requestId, 1, s.next);
      if hit.None? then Outcome(s, [])
      else Outcome(s.(pending := s.pending - {hit.value}), [Up(msg.(requestId := Num(hit.value)))])
    else if msg.id == Absent then Outcome(s, Forward(s, c, msg))
    else
      var s' := s.(next := s.next + 1, pending := s.pending[s.next := Pending(c, msg.id)]);
      Outcome(s', Forward(s', c, msg.(id := Num(s.next))))
  }

  predicate Known(pending: map<nat, Pending>, id: Id) {
    id.Num? && id.value >= 0 && id.value as nat in pending
  }

  function OnServer(s: State, msg: Answer): Outcome {
    if Known(s.pending, msg.id) then
      var up := msg.id.value as nat;
      var p := s.pending[up];
      Outcome(s.(pending := s.pending - {up}), [Reply(p.client, msg.(id := p.id))])
    else if msg.id == Absent then Outcome(s, Everyone(s.clients, msg))
    else Outcome(s, [])
  }

  function Everyone(clients: seq<nat>, msg: Answer): seq<Out> {
    seq(|clients|, i requires 0 <= i < |clients| => Broadcast(clients[i], msg))
  }

  function OnInit(s: State, msg: Answer): Outcome {
    if msg.id != Num(0) then Outcome(s, [])
    else if msg.failed then Outcome(s, [KillServer])
    else if msg.result.None? then Outcome(s, [])
    else Outcome(s.(init := msg.result, listening := true), [Initialized])
  }

  function Next(s: State, ev: Event): Outcome {
    match ev
    case Connect(c) => Outcome(s.(clients := s.clients + [c], seen := s.seen + {c}), [])
    case ClientLine(c, msg) => OnClient(s, c, msg)
    case Drop(c) => Outcome(s.(clients := Without(s.clients, c), pending := Keep(s.pending, c)), [])
    case ServerLine(msg) => OnServer(s, msg)
    case InitLine(msg) => OnInit(s, msg)
  }

  /** Connections arrive only on a listening socket; lines come from open connections; a
      connection may report its end more than once. The handshake reader is detached by its
      first success, so it sees nothing after the read in which listening began. */
  predicate Enabled(s: State, ev: Event) {
    match ev
    case Connect(c) => s.listening && c !in s.seen
    case ClientLine(c, _) => c in s.clients
    case Drop(c) => c in s.seen
    case ServerLine(_) => true
    case InitLine(_) => s.seen == {}
  }

  predicate Valid(s: State) {
    && s.next >= 1
    && (forall up | up in s.pending :: 1 <= up < s.next && s.pending[up].client in s.clients && s.pending[up].id != Absent)
    && (forall c | c in s.clients :: c in s.seen)
    && (s.seen != {} ==> s.listening)
    && (s.listening ==> s.init.Some?)
    && (forall c | c in s.sessions :: c in s.seen)
  }

  lemma NextKeepsValid(s: State, ev: Event)
    requires Valid(s) && Enabled(s, ev)
    ensures Valid(Next(s, ev).state)
  {
  }

  /** The broker's own variables, updated by its event handlers. */
  class Multiplexer {
    var clients: seq<nat>
    var pending: map<nat, Pending>
    var nextUpstreamId: nat
    var initResult: Option<string>
    var listening: bool
    var sessions: map<nat, Scopes>
    ghost var seen: set<nat>

    ghost function Abs(): State
      reads this
    {
      State(clients, pending, nextUpstreamId, initResult, listening, sessions, seen)
    }

    constructor ()
      ensures Abs() == INITIAL
    {
      clients, pending, nextUpstreamId, initResult, listening, sessions := [], map[], 1, None, false, map[];
      seen := {};
    }

    method OnConnect(c: nat)
      modifies this
      ensures Abs() == Next(old(Abs()), Connect(c)).state
    {
      clients := clients + [c];
      seen := seen + {c};
    }

    /** The connection's end: forget it and everything it was waiting for. */
    method OnDrop(c: nat)
      requires Valid(Abs())
      modifies this
      ensures Abs() == Next(old(Abs()), Drop(c)).state
    {
      clients := Without(clients, c);
      var up := 1;
      assert pending == KeepFrom(pending, c, 1);
      while up < nextUpstreamId
        invariant 1 <= up <= nextUpstreamId
        invariant nextUpstreamId == old(nextUpstreamId)
        invariant pending == KeepFrom(old(pending), c, up)
        invariant Abs() == old(Abs()).(clients := clients, pending := pending) && clients == Without(old(clients), c)
      {
        KeepStep(old(pending), c, up);
        if up in pending && pending[up].client == c {
          pending := pending - {up};
        }
        up := up + 1;
      }
      KeepEnds(old(pending), c, up);
    }

    /** Finds this connection's oldest request with that id, forgets it and cancels it upstream. */
    method Cancel(c: nat, msg: Request) returns (outs: seq<Out>)
      requires Valid(Abs()) && IsCancel(msg)
      modifies this`pending
      ensures Outcome(Abs(), outs) == OnClient(old(Abs()), c, msg)
    {
      outs := [];
      var up := 1;
      while up < nextUpstreamId
        invariant 1 <= up <= nextUpstreamId && pending == old(pending)
        invariant FirstMatch(pending, c, msg.requestId, 1, nextUpstreamId) == FirstMatch(pending, c, msg.requestId, up, nextUpstreamId)
      {
        if IsMatch(pending, c, msg.requestId, up) {
          pending := pending - {up};
          outs := [Up(msg.(requestId := Num(up)))];
          return;
        }
        up := up + 1;
      }
    }

    method OnClientLine(c: nat, msg: Request) returns (outs: seq<Out>)
      requires Valid(Abs())
      modifies this
      ensures Outcome(Abs(), outs) == Next(old(Abs()), ClientLine(c, msg))
    {
      outs := [];
      if msg.hello.Some? {
        sessions := sessions[c := msg.hello.value];
      } else if msg.verb == INITIALIZE {
        outs := [Cached(c, msg.id, initResult)];
      } else if msg.verb == INITIALIZED {
      } else if msg.verb == CANCELLED {
        outs := Cancel(c, msg);
      } else if msg.id == Absent {
        outs := ForwardLine(c, msg);
      } else {
        var up := nextUpstreamId;
        nextUpstreamId := nextUpstreamId + 1;
        pending := pending[up := Pending(c, msg.id)];
        outs := ForwardLine(c, msg.(id := Num(up)));
      }
    }

    method ForwardLine(c: nat, msg: Request) returns (outs: seq<Out>)
      ensures outs == Forward(Abs(), c, msg)
    {
      if c !in sessions {
        return if msg.id != Absent then [Refused(c, msg.id)] else [];
      }
      var write, read := msg.scopes.write, msg.scopes.read;
      if write.None? {
        write := sessions[c].write;
      }
      if read.None? {
        read := sessions[c].read;
      }
      outs := [Up(msg.(scopes := Scopes(write, read)))];
    }

    method OnServerLine(msg: Answer) returns (outs: seq<Out>)
      modifies this`pending
      ensures Outcome(Abs(), outs) == Next(old(Abs()), ServerLine(msg))
    {
      outs := [];
      if Known(pending, msg.id) {
        var up := msg.id.value as nat;
        var p := pending[up];
        pending := pending - {up};
        outs := [Reply(p.client, msg.(id := p.id))];
      } else if msg.id == Absent {
        for i := 0 to |clients|
          invariant outs == Everyone(clients[..i], msg)
        {
          outs := outs + [Broadcast(clients[i], msg)];
        }
        assert clients[..|clients|] == clients;
      }
    }

    method OnInitLine(msg: Answer) returns (outs: seq<Out>)
      modifies this`initResult, this`listening
      ensures Outcome(Abs(), outs) == Next(old(Abs()), InitLine(msg))
    {
      outs := [];
      if msg.id != Num(0) {
        return;
      }
      if msg.failed {
        outs := [KillServer];
        return;
      }
      if msg.result.Some? {
        initResult := msg.result;
        outs := [Initialized];
        listening := true;
      }
    }
  }
}
