/** Properties of every run of the multiplexer, against a server and clients that may send
    anything in any order (plugins/core/broker.js). */
module Routing {
  import opened Text
  import opened Broker

  ghost predicate IsRun(evs: seq<Event>, run: seq<State>) {
    && |run| == |evs| + 1 && run[0] == INITIAL
    && forall i :: 0 <= i < |evs| ==> StepAt(evs, run, i)
  }

  ghost predicate StepAt(evs: seq<Event>, run: seq<State>, i: nat)
    requires i < |evs| && i + 1 < |run|
  {
    Enabled(run[i], evs[i]) && run[i + 1] == Next(run[i], evs[i]).state
  }

  function OutsAt(evs: seq<Event>, run: seq<State>, i: nat): seq<Out>
    requires i < |evs| && i < |run|
  {
    Next(run[i], evs[i]).outs
  }

  lemma {:induction false} RunValid(evs: seq<Event>, run: seq<State>, i: nat)
    requires IsRun(evs, run) && i < |run|
    ensures Valid(run[i])
  {
    if i > 0 {
      RunValid(evs, run, i - 1);
      assert StepAt(evs, run, i - 1);
      NextKeepsValid(run[i - 1], evs[i - 1]);
    }
  }

  /** Event `j` is client `c`'s call with its own id `id`, and it is given upstream id `up`. */
  predicate AllocatedAt(evs: seq<Event>, run: seq<State>, j: nat, up: nat, c: nat, id: Id) {
    j < |evs| && j < |run| && evs[j].ClientLine? && evs[j].client == c && IsCall(evs[j].msg)
    && evs[j].msg.id == id && run[j].next == up
  }

  /** Event `k` ends the wait for `up` by client `c`: the server answers it, the client goes
      away, or the client cancels it. Said of the trace alone, not of the table. */
  predicate EndsAt(evs: seq<Event>, run: seq<State>, k: nat, up: nat, c: nat)
    requires k < |evs| && k < |run|
  {
    || (evs[k].ServerLine? && evs[k].answer.id == Num(up))
    || evs[k] == Drop(c)
    || (evs[k].ClientLine? && IsCancel(evs[k].msg) && exists o :: o in OutsAt(evs, run, k) && o.Up? && o.sent.requestId == Num(up))
  }

  /** Before event `i`, `up` stands for client `c`'s call `id` and nothing has ended it. */
  ghost predicate Outstanding(evs: seq<Event>, run: seq<State>, i: nat, up: nat, c: nat, id: Id)
    requires i <= |evs| && i <= |run|
  {
    exists j :: 0 <= j < i && AllocatedAt(evs, run, j, up, c, id) && NoneEnds(evs, run, j + 1, i, up, c)
  }

  ghost predicate NoneEnds(evs: seq<Event>, run: seq<State>, j: nat, i: nat, up: nat, c: nat)
    requires i <= |evs| && i <= |run|
  {
    forall k :: j <= k < i ==> !EndsAt(evs, run, k, up, c)
  }

  lemma {:induction false} NextGrows(evs: seq<Event>, run: seq<State>, j: nat, i: nat)
    requires IsRun(evs, run) && j <= i < |run|
    ensures run[j].next <= run[i].next
    decreases i
  {
    if j < i {
      NextGrows(evs, run, j, i - 1);
      assert StepAt(evs, run, i - 1);
    }
  }

  /** An upstream id is handed out once in a whole run. */
  lemma IdsAreUnique(evs: seq<Event>, run: seq<State>, j: nat, j': nat, up: nat, c: nat, c': nat, id: Id, id': Id)
    requires IsRun(evs, run)
    requires AllocatedAt(evs, run, j, up, c, id) && AllocatedAt(evs, run, j', up, c', id')
    ensures j == j' && c == c' && id == id'
  {
    assert StepAt(evs, run, j) && StepAt(evs, run, j');
    if j < j' {
      NextGrows(evs, run, j + 1, j');
    } else if j' < j {
      NextGrows(evs, run, j' + 1, j);
    }
  }

  lemma CancelEffect(s: State, c: nat, msg: Request)
    requires Valid(s) && IsCancel(msg)
    ensures var r := OnClient(s, c, msg);
            (forall o :: o in r.outs ==> o.Up? && o.sent.requestId.Num?
                                         && o.sent.requestId.value >= 0 && IsMatch(s.pending, c, msg.requestId, o.sent.requestId.value))
            && (forall up :: up in s.pending ==>
                              (up in r.state.pending <==> !exists o :: o in r.outs && o.Up? && o.sent.requestId == Num(up)))
            && (forall up :: up in r.state.pending ==> up in s.pending && r.state.pending[up] == s.pending[up])
  {
    var hit := FirstMatch(s.pending, c, msg.requestId, 1, s.next);
    if hit.Some? {
      var o := Up(msg.(requestId := Num(hit.value)));
      assert OnClient(s, c, msg).outs == [o];
      assert o in OnClient(s, c, msg).outs;
    }
  }

  /** One event seen from one table entry: it survives unless the event ends it, and the only
      entry that appears is the one a call allocates. */
  lemma EntryStep(evs: seq<Event>, run: seq<State>, i: nat, up: nat)
    requires IsRun(evs, run) && i < |evs|
    ensures up in run[i].pending ==>
              var p := run[i].pending[up];
              if EndsAt(evs, run, i, up, p.client) then up !in run[i + 1].pending
              else up in run[i + 1].pending && run[i + 1].pending[up] == p
    ensures up !in run[i].pending && up in run[i + 1].pending ==>
              AllocatedAt(evs, run, i, up, run[i + 1].pending[up].client, run[i + 1].pending[up].id)
  {
    RunValid(evs, run, i);
    assert StepAt(evs, run, i);
    var s, ev := run[i], evs[i];
    if ev.ClientLine? && IsCancel(ev.msg) {
      CancelEffect(s, ev.client, ev.msg);
    }
  }

  lemma {:induction false} OutstandingOf(evs: seq<Event>, run: seq<State>, i: nat, up: nat)
    requires IsRun(evs, run) && i < |run| && up in run[i].pending
    ensures Outstanding(evs, run, i, up, run[i].pending[up].client, run[i].pending[up].id)
  {
    assert i > 0;
    var p := run[i].pending[up];
    EntryStep(evs, run, i - 1, up);
    if up in run[i - 1].pending {
      OutstandingOf(evs, run, i - 1, up);
      var j :| 0 <= j < i - 1 && AllocatedAt(evs, run, j, up, p.client, p.id) && NoneEnds(evs, run, j + 1, i - 1, up, p.client);
      assert NoneEnds(evs, run, j + 1, i, up, p.client);
    } else {
      assert NoneEnds(evs, run, i, i, up, p.client);
    }
  }

  lemma {:induction false} EntryOf(evs: seq<Event>, run: seq<State>, j: nat, i: nat, up: nat, c: nat, id: Id)
    requires IsRun(evs, run) && j < i < |run|
    requires AllocatedAt(evs, run, j, up, c, id) && NoneEnds(evs, run, j + 1, i, up, c)
    ensures up in run[i].pending && run[i].pending[up] == Pending(c, id)
    decreases i
  {
    assert StepAt(evs, run, j);
    if j + 1 < i {
      EntryOf(evs, run, j, i - 1, up, c, id);
      EntryStep(evs, run, i - 1, up);
      assert !EndsAt(evs, run, i - 1, up, c);
    }
  }

  /** The `pending` table is exactly the calls in flight, as the trace alone defines them. */
  lemma PendingIsOutstanding(evs: seq<Event>, run: seq<State>, i: nat, up: nat, c: nat, id: Id)
    requires IsRun(evs, run) && i < |run|
    ensures (up in run[i].pending && run[i].pending[up] == Pending(c, id)) <==> Outstanding(evs, run, i, up, c, id)
  {
    if up in run[i].pending && run[i].pending[up] == Pending(c, id) {
      OutstandingOf(evs, run, i, up);
    }
    if Outstanding(evs, run, i, up, c, id) {
      var j :| 0 <= j < i && AllocatedAt(evs, run, j, up, c, id) && NoneEnds(evs, run, j + 1, i, up, c);
      EntryOf(evs, run, j, i, up, c, id);
    }
  }

  /** A reply reaches client `c` exactly when the server answers an upstream id that stands for
      a call of `c` not yet answered, cancelled or dropped; it is the server's message under
      the id that `c` gave the call, and the only thing written. */
  lemma ReplyRouting(evs: seq<Event>, run: seq<State>, i: nat, c: nat, m: Answer)
    requires IsRun(evs, run) && i < |evs|
    ensures Reply(c, m) in OutsAt(evs, run, i) <==>
            (evs[i].ServerLine? && evs[i].answer.id.Num? && evs[i].answer.id.value >= 0
             && Outstanding(evs, run, i, evs[i].answer.id.value, c, m.id) && m == evs[i].answer.(id := m.id))
    ensures Reply(c, m) in OutsAt(evs, run, i) ==> OutsAt(evs, run, i) == [Reply(c, m)]
  {
    if evs[i].ServerLine? && evs[i].answer.id.Num? && evs[i].answer.id.value >= 0 {
      PendingIsOutstanding(evs, run, i, evs[i].answer.id.value, c, m.id);
    }
  }

  /** No call is answered twice, and none after its cancel or its client's end: once event `k`
      ended the wait for `up`, no later server line with that id reaches anyone. */
  lemma AtMostOnce(evs: seq<Event>, run: seq<State>, j: nat, k: nat, i: nat, up: nat, c: nat, id: Id)
    requires IsRun(evs, run) && AllocatedAt(evs, run, j, up, c, id) && j < k < i < |evs|
    requires EndsAt(evs, run, k, up, c) && evs[i].ServerLine? && evs[i].answer.id == Num(up)
    ensures OutsAt(evs, run, i) == []
  {
    if up in run[i].pending {
      OutstandingOf(evs, run, i, up);
      var p := run[i].pending[up];
      var j' :| 0 <= j' < i && AllocatedAt(evs, run, j', up, p.client, p.id) && NoneEnds(evs, run, j' + 1, i, up, p.client);
      IdsAreUnique(evs, run, j, j', up, c, p.client, id, p.id);
    }
  }

  /** A cancel sends upstream the oldest of the canceller's own calls in flight under the id it
      names, and nothing when it has none: never an untranslated id, never another's call. */
  lemma CancelIsolation(evs: seq<Event>, run: seq<State>, i: nat)
    requires IsRun(evs, run) && i < |evs| && evs[i].ClientLine? && evs[i].msg.hello.None? && evs[i].msg.verb == "notifications/cancelled"
    ensures var c, msg, outs := evs[i].client, evs[i].msg, OutsAt(evs, run, i);
            if !msg.requestId.Structured? && exists up: nat :: Outstanding(evs, run, i, up, c, msg.requestId)
            then exists up: nat :: outs == [Up(msg.(requestId := Num(up)))] && Outstanding(evs, run, i, up, c, msg.requestId)
                                   && forall u: nat :: Outstanding(evs, run, i, u, c, msg.requestId) ==> up <= u
            else outs == []
  {
    RunValid(evs, run, i);
    var c, msg := evs[i].client, evs[i].msg;
    var hit := FirstMatch(run[i].pending, c, msg.requestId, 1, run[i].next);
    forall u: nat | !msg.requestId.Structured? && Outstanding(evs, run, i, u, c, msg.requestId)
      ensures IsMatch(run[i].pending, c, msg.requestId, u) && hit.Some? && hit.value <= u
    {
      PendingIsOutstanding(evs, run, i, u, c, msg.requestId);
      assert IsMatch(run[i].pending, c, msg.requestId, u);
    }
    if hit.Some? {
      PendingIsOutstanding(evs, run, i, hit.value, c, msg.requestId);
      assert OutsAt(evs, run, i) == [Up(msg.(requestId := Num(hit.value)))];
      assert Outstanding(evs, run, i, hit.value, c, msg.requestId);
    }
  }

  /** The scopes of `c`'s last hello before event `i`. */
  function LastHello(evs: seq<Event>, i: nat, c: nat): Option<Scopes>
    requires i <= |evs|
    decreases i
  {
    if i == 0 then None
    else if evs[i - 1].ClientLine? && evs[i - 1].client == c && evs[i - 1].msg.hello.Some? then evs[i - 1].msg.hello
    else LastHello(evs, i - 1, c)
  }

  lemma {:induction false} SessionIsLastHello(evs: seq<Event>, run: seq<State>, i: nat, c: nat)
    requires IsRun(evs, run) && i < |run|
    ensures (if c in run[i].sessions then Some(run[i].sessions[c]) else None) == LastHello(evs, i, c)
  {
    if i > 0 {
      SessionIsLastHello(evs, run, i - 1, c);
      assert StepAt(evs, run, i - 1);
    }
  }

  /** What one client line makes the broker write, field by field. A hello and an
      `initialized` are swallowed, an `initialize` is answered from the cache. Anything else
      but a cancel goes upstream with the scopes the client itself set and, for those it did
      not, those of that same connection's last hello; a call travels under its new upstream
      id, and everything else in it is the client's. Without a hello nothing goes upstream and
      a call is refused. */
  lemma ScopeIsolation(evs: seq<Event>, run: seq<State>, i: nat)
    requires IsRun(evs, run) && i < |evs| && evs[i].ClientLine?
    ensures var c, msg, outs, hello := evs[i].client, evs[i].msg, OutsAt(evs, run, i), LastHello(evs, i, evs[i].client);
            if msg.hello.Some? || msg.verb == "notifications/initialized" then outs == []
            else if msg.verb == "initialize" then outs == [Cached(c, msg.id, run[i].init)]
            else if msg.verb == "notifications/cancelled" then
              outs == [] || exists up: nat :: outs == [Up(msg.(requestId := Num(up)))]
            else if hello.None? then outs == if msg.id == Absent then [] else [Refused(c, Num(1 + CallsBefore(evs, i)))]
            else
              |outs| == 1 && outs[0].Up? &&
              var sent := outs[0].sent;
              && sent.id == (if msg.id == Absent then Absent else Num(1 + CallsBefore(evs, i)))
              && sent.scopes.write == (if msg.scopes.write.Some? then msg.scopes.write else hello.value.write)
              && sent.scopes.read == (if msg.scopes.read.Some? then msg.scopes.read else hello.value.read)
              && sent.hello == msg.hello && sent.verb == msg.verb && sent.requestId == msg.requestId && sent.rest == msg.rest
  {
    SessionIsLastHello(evs, run, i, evs[i].client);
    NextIsCount(evs, run, i);
    if evs[i].msg.hello.None? && evs[i].msg.verb == CANCELLED {
      var hit := FirstMatch(run[i].pending, evs[i].client, evs[i].msg.requestId, 1, run[i].next);
      assert hit.Some? ==> OutsAt(evs, run, i) == [Up(evs[i].msg.(requestId := Num(hit.value)))];
    }
  }

  /** Nothing goes upstream but for a client's line or the handshake. */
  lemma UpstreamOrigin(evs: seq<Event>, run: seq<State>, i: nat, o: Out)
    requires IsRun(evs, run) && i < |evs| && o in OutsAt(evs, run, i) && (o.Up? || o.Initialized? || o.KillServer?)
    ensures if o.Up? then evs[i].ClientLine? else evs[i].InitLine?
  {
  }

  /** The calls made before event `i`. */
  function CallsBefore(evs: seq<Event>, i: nat): nat
    requires i <= |evs|
    decreases i
  {
    if i == 0 then 0
    else CallsBefore(evs, i - 1) + if evs[i - 1].ClientLine? && IsCall(evs[i - 1].msg) then 1 else 0
  }

  /** Upstream ids count the calls, from one; zero is the handshake's. */
  lemma {:induction false} NextIsCount(evs: seq<Event>, run: seq<State>, i: nat)
    requires IsRun(evs, run) && i < |run|
    ensures run[i].next == 1 + CallsBefore(evs, i)
  {
    if i > 0 {
      NextIsCount(evs, run, i - 1);
      assert StepAt(evs, run, i - 1);
    }
  }

  /** `c` was accepted before event `i` and has not ended. */
  ghost predicate IsOpen(evs: seq<Event>, i: nat, c: nat)
    requires i <= |evs|
  {
    exists j :: 0 <= j < i && evs[j] == Connect(c) && forall k :: j < k < i ==> evs[k] != Drop(c)
  }

  lemma {:induction false} ClientsAreOpen(evs: seq<Event>, run: seq<State>, i: nat, c: nat)
    requires IsRun(evs, run) && i < |run|
    ensures c in run[i].clients <==> IsOpen(evs, i, c)
    ensures c in run[i].seen <==> exists j :: 0 <= j < i && evs[j] == Connect(c)
  {
    if i > 0 {
      ClientsAreOpen(evs, run, i - 1, c);
      assert StepAt(evs, run, i - 1);
      if evs[i - 1] == Connect(c) {
        assert IsOpen(evs, i, c);
      } else if evs[i - 1] != Drop(c) && IsOpen(evs, i - 1, c) {
        var j :| 0 <= j < i - 1 && evs[j] == Connect(c) && forall k :: j < k < i - 1 ==> evs[k] != Drop(c);
        assert IsOpen(evs, i, c);
      }
    }
  }

  /** A message of the server without an id reaches exactly the open connections, as it is. */
  lemma BroadcastReaches(evs: seq<Event>, run: seq<State>, i: nat, c: nat, m: Answer)
    requires IsRun(evs, run) && i < |evs|
    ensures Broadcast(c, m) in OutsAt(evs, run, i) <==> evs[i] == ServerLine(m) && m.id == Absent && IsOpen(evs, i, c)
  {
    ClientsAreOpen(evs, run, i, c);
    if evs[i] == ServerLine(m) && m.id == Absent && c in run[i].clients {
      var k :| 0 <= k < |run[i].clients| && run[i].clients[k] == c;
      assert OutsAt(evs, run, i)[k] == Broadcast(c, m);
    }
  }

  /** A line of the handshake reader that opens the socket. */
  predicate Answered(ev: Event) {
    ev.InitLine? && ev.answer.id == Num(0) && !ev.answer.failed && ev.answer.result.Some?
  }

  /** The handshake: an error under id zero kills the server, a result opens the socket, which
      is open exactly from then on, and is what every `initialize` is answered with. */
  lemma {:induction false} Handshake(evs: seq<Event>, run: seq<State>, i: nat)
    requires IsRun(evs, run) && i < |run|
    ensures run[i].listening <==> exists j :: 0 <= j < i && Answered(evs[j])
    ensures run[i].init.Some? ==> exists j :: 0 <= j < i && Answered(evs[j]) && evs[j].answer.result == run[i].init
    ensures i < |evs| && evs[i].InitLine? ==>
              OutsAt(evs, run, i) == if evs[i].answer.id != Num(0) then []
                                     else if evs[i].answer.failed then [KillServer]
                                     else if evs[i].answer.result.Some? then [Initialized] else []
  {
    if i > 0 {
      Handshake(evs, run, i - 1);
      assert StepAt(evs, run, i - 1);
    }
  }

  function Addressee(o: Out): Option<nat> {
    match o
    case Reply(c, _) => Some(c)
    case Broadcast(c, _) => Some(c)
    case Cached(c, _, _) => Some(c)
    case Refused(c, _) => Some(c)
    case _ => None
  }

  lemma {:induction false} GoneStaysGone(evs: seq<Event>, run: seq<State>, k: nat, i: nat, c: nat)
    requires IsRun(evs, run) && k < i < |run| && evs[k] == Drop(c)
    ensures c !in run[i].clients && c in run[i].seen
    decreases i
  {
    assert StepAt(evs, run, i - 1);
    if k + 1 < i {
      GoneStaysGone(evs, run, k, i - 1, c);
    }
  }

  /** Everything written to a client goes to an open connection: nothing follows its end. */
  lemma SilentAfterDrop(evs: seq<Event>, run: seq<State>, k: nat, i: nat, c: nat, o: Out)
    requires IsRun(evs, run) && k < i < |evs| && evs[k] == Drop(c) && o in OutsAt(evs, run, i)
    ensures Addressee(o) != Some(c)
  {
    GoneStaysGone(evs, run, k, i, c);
    assert StepAt(evs, run, i);
    RunValid(evs, run, i);
  }

  lemma {:induction false} InitFixed(evs: seq<Event>, run: seq<State>, j: nat, i: nat)
    requires IsRun(evs, run) && j <= i < |run| && run[j].seen != {}
    ensures run[i].init == run[j].init && run[i].seen != {}
    decreases i
  {
    if j < i {
      InitFixed(evs, run, j, i - 1);
      assert StepAt(evs, run, i - 1);
    }
  }

  /** Every `initialize` is answered from the cache, after the handshake, with one and the same
      result for every client. */
  lemma OneInitializeResult(evs: seq<Event>, run: seq<State>, j: nat, i: nat, c: nat, c': nat, id: Id, id': Id,
                            r: Option<string>, r': Option<string>)
    requires IsRun(evs, run) && j <= i < |evs|
    requires Cached(c, id, r) in OutsAt(evs, run, j) && Cached(c', id', r') in OutsAt(evs, run, i)
    ensures r == r' && r.Some? && evs[j].ClientLine? && evs[j].client == c && evs[j].msg.id == id
    ensures exists k :: 0 <= k < j && Answered(evs[k]) && evs[k].answer.result == r
  {
    Handshake(evs, run, j);
    RunValid(evs, run, j);
    assert StepAt(evs, run, j);
    InitFixed(evs, run, j, i);
  }
}
