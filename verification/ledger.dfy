/** The `located_in` interval ledger and the plain location history it has to agree with
    (benchmarks/embodied/emb/ingest.py, store.py and world.py). */
module Ledger {
  import opened Text

  const LOCATED := "located_in"

  datatype Edge = Edge(source: string, target: string, kind: string, validFrom: int, validTo: Option<int>)

  const ABOUT := "about"

  datatype Op =
    | Observe(obj: Option<string>, place: Option<string>)
    | Move(obj: Option<string>, src: Option<string>, dest: Option<string>)
    | Instruct(person: Option<string>, refs: seq<string>)
    | Act(place: Option<string>, obj: Option<string>, person: Option<string>)

  datatype Event = Event(t: int, op: Op)

  datatype Stop = Stop(place: string, since: int)

  predicate LiveAt(e: Edge, t: int) {
    e.validFrom <= t && (e.validTo.None? || e.validTo.value > t)
  }

  predicate Sees(ev: Event, obj: string) {
    (ev.op.Observe? && ev.op.obj == Some(obj) && ev.op.place.Some?) || (ev.op.Move? && ev.op.obj == Some(obj) && ev.op.dest.Some?)
  }

  function PlaceOf(ev: Event): string
    requires exists obj :: Sees(ev, obj)
  {
    if ev.op.Observe? then ev.op.place.value else ev.op.dest.value
  }

  /** The specification: the place of the last sighting of `obj` at or before `t`. */
  function LastSeen(evs: seq<Event>, obj: string, t: int): Option<string> {
    if evs == [] then None
    else
      var ev := evs[|evs| - 1];
      if Sees(ev, obj) && ev.t <= t then Some(PlaceOf(ev)) else LastSeen(evs[..|evs| - 1], obj, t)
  }

  /** The changes of place of `obj`, sightings where it already was left out. */
  function Trail(evs: seq<Event>, obj: string): seq<Stop> {
    if evs == [] then []
    else Extend(Trail(evs[..|evs| - 1], obj), evs[|evs| - 1], obj)
  }

  function Extend(trail: seq<Stop>, ev: Event, obj: string): seq<Stop> {
    if Sees(ev, obj) && Current(trail) != Some(PlaceOf(ev)) then trail + [Stop(PlaceOf(ev), ev.t)] else trail
  }

  function Current(trail: seq<Stop>): Option<string> {
    if trail == [] then None else Some(trail[|trail| - 1].place)
  }

  /** Consecutive intervals, the last one open. */
  function Intervals(obj: string, trail: seq<Stop>): seq<Edge> {
    seq(|trail|, i requires 0 <= i < |trail| =>
      Edge(obj, trail[i].place, LOCATED, trail[i].since, if i + 1 < |trail| then Some(trail[i + 1].since) else None))
  }

  predicate IsOf(e: Edge, node: string, kind: string) {
    e.source == node && e.kind == kind
  }

  predicate IsOpenTo(e: Edge, node: string, target: string, kind: string) {
    IsOf(e, node, kind) && e.target == target && e.validTo.None?
  }

  /** A node's edges of one kind, in store order. */
  function Of(edges: seq<Edge>, node: string, kind: string): (r: seq<Edge>)
    ensures forall e | e in r :: IsOf(e, node, kind)
  {
    if edges == [] then [] else (if IsOf(edges[0], node, kind) then [edges[0]] else []) + Of(edges[1..], node, kind)
  }

  /** The two filters of `edges_from`: still open, and live at an instant. */
  predicate Keeps(e: Edge, openOnly: bool, asOf: Option<int>) {
    (openOnly ==> e.validTo.None?) && (asOf.Some? ==> LiveAt(e, asOf.value))
  }

  function Select(edges: seq<Edge>, openOnly: bool, asOf: Option<int>): seq<Edge> {
    if edges == [] then []
    else (if Keeps(edges[0], openOnly, asOf) then [edges[0]] else []) + Select(edges[1..], openOnly, asOf)
  }

  /** The store after closing the first open matching edge, if there is one. */
  function CloseFirst(edges: seq<Edge>, node: string, target: string, kind: string, t: int): seq<Edge> {
    if edges == [] then []
    else if IsOpenTo(edges[0], node, target, kind) then [edges[0].(validTo := Some(t))] + edges[1..]
    else [edges[0]] + CloseFirst(edges[1..], node, target, kind, t)
  }

  lemma {:induction false} OfConcat(a: seq<Edge>, b: seq<Edge>, node: string, kind: string)
    ensures Of(a + b, node, kind) == Of(a, node, kind) + Of(b, node, kind)
  {
    if a == [] {
      assert a + b == b;
    } else {
      assert (a + b)[1..] == a[1..] + b;
      OfConcat(a[1..], b, node, kind);
    }
  }

  lemma {:induction false} OfClosed(edges: seq<Edge>, node: string, target: string, t: int)
    ensures Of(CloseFirst(edges, node, target, LOCATED, t), node, LOCATED) == CloseFirst(Of(edges, node, LOCATED), node, target, LOCATED, t)
  {
    if edges != [] {
      var e, rest := edges[0], edges[1..];
      assert edges == [e] + rest;
      OfCons(e, rest, node);
      if IsOpenTo(e, node, target, LOCATED) {
        OfCons(e.(validTo := Some(t)), rest, node);
      } else {
        OfClosed(rest, node, target, t);
        OfCons(e, CloseFirst(rest, node, target, LOCATED, t), node);
        if !IsOf(e, node, LOCATED) {
          assert Of(edges, node, LOCATED) == Of(rest, node, LOCATED);
        }
      }
    }
  }

  lemma {:induction false} OthersKept(edges: seq<Edge>, node: string, target: string, t: int, other: string)
    requires other != node
    ensures Of(CloseFirst(edges, node, target, LOCATED, t), other, LOCATED) == Of(edges, other, LOCATED)
  {
    if edges != [] {
      var e, rest := edges[0], edges[1..];
      assert edges == [e] + rest;
      OfCons(e, rest, other);
      if IsOpenTo(e, node, target, LOCATED) {
        OfCons(e.(validTo := Some(t)), rest, other);
      } else {
        OthersKept(rest, node, target, t, other);
        OfCons(e, CloseFirst(rest, node, target, LOCATED, t), other);
      }
    }
  }

  lemma OfCons(e: Edge, rest: seq<Edge>, node: string)
    ensures Of([e] + rest, node, LOCATED) == (if IsOf(e, node, LOCATED) then [e] else []) + Of(rest, node, LOCATED)
    ensures Of([e] + rest, node, LOCATED) != [] && IsOf(e, node, LOCATED) ==> Of([e] + rest, node, LOCATED)[1..] == Of(rest, node, LOCATED)
  {
    assert ([e] + rest)[1..] == rest;
  }

  lemma {:induction false} CloseOnlyOpen(a: seq<Edge>, e: Edge, t: int)
    requires (forall x | x in a :: x.validTo.Some?) && e.validTo.None?
    ensures CloseFirst(a + [e], e.source, e.target, e.kind, t) == a + [e.(validTo := Some(t))]
  {
    if a == [] {
      assert a + [e] == [e];
    } else {
      assert (a + [e])[0] == a[0] && a[0] in a && (a + [e])[1..] == a[1..] + [e];
      CloseOnlyOpen(a[1..], e, t);
    }
  }

  /** Closing the open interval and opening the next is one more stop on the trail. */
  lemma IntervalsExtend(obj: string, trail: seq<Stop>, s: Stop)
    ensures Intervals(obj, trail + [s]) ==
            (if trail == [] then [] else CloseFirst(Intervals(obj, trail), obj, Current(trail).value, LOCATED, s.since))
            + [Edge(obj, s.place, LOCATED, s.since, None)]
  {
    if trail != [] {
      var all := Intervals(obj, trail);
      var n := |trail| - 1;
      assert all == all[..n] + [all[n]];
      CloseOnlyOpen(all[..n], all[n], s.since);
    }
  }

  lemma CloseStep(edges: seq<Edge>, i: nat, node: string, target: string, kind: string, t: int)
    requires i < |edges|
    ensures edges[..i] + CloseFirst(edges[i..], node, target, kind, t) ==
            if IsOpenTo(edges[i], node, target, kind) then edges[i := edges[i].(validTo := Some(t))]
            else edges[..i + 1] + CloseFirst(edges[i + 1..], node, target, kind, t)
  {
    var rest := edges[i + 1..];
    assert edges[i..] == [edges[i]] + rest && edges[i..][1..] == rest;
    assert edges == edges[..i] + [edges[i]] + rest;
  }

  /** The embodied store: an edge list that links append to and closes update in place. */
  class EmbodiedStore {
    var edges: seq<Edge>

    constructor ()
      ensures edges == []
    {
      edges := [];
    }

    method Link(source: string, target: string, kind: string, validFrom: int)
      modifies this
      ensures edges == old(edges) + [Edge(source, target, kind, validFrom, None)]
    {
      edges := edges + [Edge(source, target, kind, validFrom, None)];
    }

    method CloseEdge(source: string, target: string, kind: string, validTo: int)
      modifies this
      ensures edges == CloseFirst(old(edges), source, target, kind, validTo)
    {
      var i := 0;
      while i < |edges|
        invariant i <= |edges| && edges == old(edges)
        invariant CloseFirst(edges, source, target, kind, validTo) == edges[..i] + CloseFirst(edges[i..], source, target, kind, validTo)
      {
        CloseStep(edges, i, source, target, kind, validTo);
        if IsOpenTo(edges[i], source, target, kind) {
          edges := edges[i := edges[i].(validTo := Some(validTo))];
          return;
        }
        i := i + 1;
      }
      assert edges[..i] == edges;
    }

    method EdgesFrom(node: string, kind: string, openOnly: bool, asOf: Option<int>) returns (out: seq<Edge>)
      ensures out == Select(Of(edges, node, kind), openOnly, asOf)
    {
      var found := Of(edges, node, kind);
      if asOf.None? {
        return Select(found, openOnly, None);
      }
      out := FilterLive(found, openOnly, asOf.value);
    }

    /** The open place now, or the place live at an instant. */
    method LocatedIn(obj: string, asOf: Option<int>) returns (r: Option<string>)
      ensures r == First(Select(Of(edges, obj, LOCATED), asOf.None?, asOf))
    {
      var found := EdgesFrom(obj, LOCATED, asOf.None?, asOf);
      r := if found != [] then Some(found[0].target) else None;
    }
  }

  /** The filter loop of `edges_from` with an instant. */
  method FilterLive(found: seq<Edge>, openOnly: bool, t: int) returns (out: seq<Edge>)
    ensures out == Select(found, openOnly, Some(t))
  {
    out := [];
    for i := 0 to |found|
      invariant Select(found, openOnly, Some(t)) == out + Select(found[i..], openOnly, Some(t))
    {
      SelectStep(found, i, openOnly, Some(t), out);
      if LiveAt(found[i], t) && (!openOnly || found[i].validTo.None?) {
        out := out + [found[i]];
      }
    }
  }

  lemma SelectStep(found: seq<Edge>, i: nat, openOnly: bool, asOf: Option<int>, out: seq<Edge>)
    requires i < |found|
    ensures out + Select(found[i..], openOnly, asOf)
            == (out + if Keeps(found[i], openOnly, asOf) then [found[i]] else []) + Select(found[i + 1..], openOnly, asOf)
  {
    assert found[i..][1..] == found[i + 1..];
  }

  function First(found: seq<Edge>): Option<string> {
    if found == [] then None else Some(found[0].target)
  }

  predicate Ordered(evs: seq<Event>) {
    forall i, j :: 0 <= i < j < |evs| ==> evs[i].t <= evs[j].t
  }

  lemma {:induction false} NoneLocated(es: seq<Edge>, obj: string)
    requires forall e | e in es :: e.kind != LOCATED
    ensures Of(es, obj, LOCATED) == []
  {
    if es != [] {
      NoneLocated(es[1..], obj);
    }
  }

  /** `set_location` for one object leaves every other object's intervals alone. */
  function SetLocation(edges: seq<Edge>, cur: Option<string>, obj: string, place: string, t: int): seq<Edge> {
    if cur == Some(place) then edges
    else (if cur.Some? then CloseFirst(edges, obj, cur.value, LOCATED, t) else edges) + [Edge(obj, place, LOCATED, t, None)]
  }

  lemma SetLocationExtends(edges: seq<Edge>, obj: string, place: string, t: int, trail: seq<Stop>)
    requires Of(edges, obj, LOCATED) == Intervals(obj, trail) && Current(trail) != Some(place)
    ensures Of(SetLocation(edges, Current(trail), obj, place, t), obj, LOCATED) == Intervals(obj, trail + [Stop(place, t)])
  {
    var closed := if trail == [] then edges else CloseFirst(edges, obj, Current(trail).value, LOCATED, t);
    var e := Edge(obj, place, LOCATED, t, None);
    OfConcat(closed, [e], obj, LOCATED);
    OfCons(e, [], obj);
    assert [e] + [] == [e];
    if trail != [] {
      OfClosed(edges, obj, Current(trail).value, t);
    }
    IntervalsExtend(obj, trail, Stop(place, t));
  }

  lemma SetLocationElsewhere(edges: seq<Edge>, cur: Option<string>, obj: string, place: string, t: int, other: string)
    requires other != obj
    ensures Of(SetLocation(edges, cur, obj, place, t), other, LOCATED) == Of(edges, other, LOCATED)
  {
    if cur != Some(place) {
      var closed := if cur.None? then edges else CloseFirst(edges, obj, cur.value, LOCATED, t);
      var e := Edge(obj, place, LOCATED, t, None);
      OfConcat(closed, [e], other, LOCATED);
      OfCons(e, [], other);
      assert [e] + [] == [e];
      if cur.Some? {
        OthersKept(edges, obj, cur.value, t, other);
      }
    }
  }

  /** The object whose place an event tells. */
  function Subject(ev: Event): (r: Option<string>)
    ensures r.Some? ==> Sees(ev, r.value)
    ensures forall obj :: Sees(ev, obj) ==> r == Some(obj)
  {
    match ev.op
    case Observe(obj, place) => if place.Some? then obj else None
    case Move(obj, _, dest) => if dest.Some? then obj else None
    case _ => None
  }

  /** What an event's memory is about; a move without a source takes the open place. */
  function Mentions(ev: Event, open: map<string, string>): seq<Option<string>> {
    match ev.op
    case Observe(obj, place) => [obj, place]
    case Move(obj, src, dest) => [obj, if src.Some? then src else if obj.Some? then OpenAt(open, obj.value) else None, dest]
    case Instruct(person, refs) => [person] + seq(|refs|, i requires 0 <= i < |refs| => Some(refs[i]))
    case Act(place, obj, person) => [place, obj, person]
  }

  function OpenAt(open: map<string, string>, obj: string): Option<string> {
    if obj in open then Some(open[obj]) else None
  }

  /** One `about` edge per mentioned known id. */
  function AboutEdges(memory: string, mentions: seq<Option<string>>, known: set<string>, now: int): (r: seq<Edge>)
    ensures forall e | e in r :: e.kind == ABOUT
  {
    if mentions == [] then []
    else
      var m := mentions[|mentions| - 1];
      AboutEdges(memory, mentions[..|mentions| - 1], known, now) +
      if m.Some? && m.value in known then [Edge(memory, m.value, ABOUT, now, None)] else []
  }

  datatype Book = Book(edges: seq<Edge>, open: map<string, string>)

  /** The ids a run draws: known entities, the memory of each event and when it was written. */
  datatype Ids = Ids(known: set<string>, memory: nat -> string, clock: nat -> int)

  /** One event, the `i`-th: its memory's edges, then the object's place if it tells one. An
      object or place that is not an entity is an error. */
  function Record(b: Book, ev: Event, ids: Ids, i: nat): Result<Book, string> {
    var edges := b.edges + AboutEdges(ids.memory(i), Mentions(ev, b.open), ids.known, ids.clock(i));
    var subject := Subject(ev);
    if subject.None? then Ok(Book(edges, b.open))
    else
      var obj, place, cur := subject.value, PlaceOf(ev), OpenAt(b.open, subject.value);
      if cur == Some(place) then Ok(Book(edges, b.open))
      else if obj !in ids.known then Err(obj)
      else if place !in ids.known then Err(place)
      else Ok(Book(SetLocation(edges, cur, obj, place, ev.t), b.open[obj := place]))
  }

  function RecordAll(edges: seq<Edge>, evs: seq<Event>, ids: Ids): Result<Book, string> {
    if evs == [] then Ok(Book(edges, map[]))
    else
      var n := |evs| - 1;
      match RecordAll(edges, evs[..n], ids)
      case Err(e) => Err(e)
      case Ok(b) => Record(b, evs[n], ids, n)
  }

  /** `about`: links a memory to what it mentions. */
  method LinkAbout(store: EmbodiedStore, memory: string, mentions: seq<Option<string>>, known: set<string>, now: int)
    modifies store
    ensures store.edges == old(store.edges) + AboutEdges(memory, mentions, known, now)
  {
    for j := 0 to |mentions|
      invariant store.edges == old(store.edges) + AboutEdges(memory, mentions[..j], known, now)
    {
      assert mentions[..j + 1][..j] == mentions[..j];
      if mentions[j].Some? && mentions[j].value in known {
        store.Link(memory, mentions[j].value, ABOUT, now);
      }
    }
    assert mentions[..|mentions|] == mentions;
  }

  /** The ingest loop over an event stream, into any store. */
  method Ingest(store: EmbodiedStore, evs: seq<Event>, ids: Ids) returns (r: Result<map<string, string>, string>)
    modifies store
    ensures var book := RecordAll(old(store.edges), evs, ids);
            if book.Ok? then r == Ok(book.value.open) && store.edges == book.value.edges else r == Err(book.error)
  {
    var open: map<string, string> := map[];
    for i := 0 to |evs|
      invariant RecordAll(old(store.edges), evs[..i], ids) == Ok(Book(store.edges, open))
    {
      var ev := evs[i];
      PrefixErr(old(store.edges), evs, ids, i + 1);
      assert evs[..i + 1][..i] == evs[..i];
      match ev.op {
        case Observe(obj, place) =>
          LinkAbout(store, ids.memory(i), [obj, place], ids.known, ids.clock(i));
        case Move(obj, src, dest) =>
          var from := src;
          if src.None? && obj.Some? && obj.value in open {
            from := Some(open[obj.value]);
          }
          LinkAbout(store, ids.memory(i), [obj, from, dest], ids.known, ids.clock(i));
        case Instruct(person, refs) =>
          LinkAbout(store, ids.memory(i), [person] + seq(|refs|, i requires 0 <= i < |refs| => Some(refs[i])), ids.known, ids.clock(i));
        case Act(place, obj, person) =>
          LinkAbout(store, ids.memory(i), [place, obj, person], ids.known, ids.clock(i));
      }
      var subject := Subject(ev);
      if subject.Some? {
        var obj, place := subject.value, PlaceOf(ev);
        var cur := OpenAt(open, obj);
        if cur != Some(place) {
          if obj !in ids.known { return Err(obj); }
          if cur.Some? {
            store.CloseEdge(obj, cur.value, LOCATED, ev.t);
          }
          if place !in ids.known { return Err(place); }
          store.Link(obj, place, LOCATED, ev.t);
          open := open[obj := place];
        }
      }
    }
    assert evs[..|evs|] == evs;
    r := Ok(open);
  }

  lemma {:induction false} PrefixErr(edges: seq<Edge>, evs: seq<Event>, ids: Ids, n: nat)
    requires n <= |evs|
    ensures RecordAll(edges, evs[..n], ids).Err? ==> RecordAll(edges, evs, ids) == RecordAll(edges, evs[..n], ids)
    decreases |evs| - n
  {
    if n == |evs| {
      assert evs[..n] == evs;
    } else {
      PrefixErr(edges, evs, ids, n + 1);
      assert evs[..n + 1][..n] == evs[..n];
    }
  }

  /** Everything an event places somewhere is an entity, and so is the place. */
  predicate AllKnown(evs: seq<Event>, known: set<string>) {
    forall i :: 0 <= i < |evs| ==> IsKnown(evs[i], known)
  }

  predicate IsKnown(ev: Event, known: set<string>) {
    var subject := Subject(ev);
    subject.Some? ==> subject.value in known && PlaceOf(ev) in known
  }

  /** What the writer holds open is where the object's trail ends, all of it known. */
  lemma {:induction false} OpenIsCurrent(edges: seq<Edge>, evs: seq<Event>, ids: Ids, obj: string)
    requires RecordAll(edges, evs, ids).Ok?
    ensures OpenAt(RecordAll(edges, evs, ids).value.open, obj) == Current(Trail(evs, obj))
    ensures var open := RecordAll(edges, evs, ids).value.open; obj in open ==> obj in ids.known && open[obj] in ids.known
  {
    if evs != [] {
      OpenIsCurrent(edges, evs[..|evs| - 1], ids, obj);
    }
  }

  /** Ingesting fails exactly on a sighting that names something unknown. */
  lemma {:induction false} IngestSucceeds(edges: seq<Edge>, evs: seq<Event>, ids: Ids)
    ensures RecordAll(edges, evs, ids).Ok? <==> AllKnown(evs, ids.known)
  {
    if evs != [] {
      var n := |evs| - 1;
      IngestSucceeds(edges, evs[..n], ids);
      assert AllKnown(evs, ids.known) <==> AllKnown(evs[..n], ids.known) && IsKnown(evs[n], ids.known);
      if Subject(evs[n]).Some? && RecordAll(edges, evs[..n], ids).Ok? {
        OpenIsCurrent(edges, evs[..n], ids, Subject(evs[n]).value);
      }
    }
  }

  /** One event, seen from one object. */
  lemma RecordFollows(b: Book, ev: Event, ids: Ids, i: nat, obj: string, trail: seq<Stop>)
    requires Record(b, ev, ids, i).Ok? && OpenAt(b.open, obj) == Current(trail)
    ensures var edges := Record(b, ev, ids, i).value.edges;
            && |Of(edges, obj, LOCATED)| - |Of(b.edges, obj, LOCATED)| == |Extend(trail, ev, obj)| - |trail|
            && (Of(b.edges, obj, LOCATED) == Intervals(obj, trail) ==> Of(edges, obj, LOCATED) == Intervals(obj, Extend(trail, ev, obj)))
  {
    var about := AboutEdges(ids.memory(i), Mentions(ev, b.open), ids.known, ids.clock(i));
    OfConcat(b.edges, about, obj, LOCATED);
    NoneLocated(about, obj);
    var subject := Subject(ev);
    if subject.Some? {
      var who, place, cur := subject.value, PlaceOf(ev), OpenAt(b.open, subject.value);
      if cur != Some(place) {
        if who != obj {
          SetLocationElsewhere(b.edges + about, cur, who, place, ev.t, obj);
        } else {
          SetLocationGrows(b.edges + about, cur, obj, place, ev.t);
          if Of(b.edges, obj, LOCATED) == Intervals(obj, trail) {
            SetLocationExtends(b.edges + about, obj, place, ev.t, trail);
          }
        }
      }
    }
  }

  lemma SetLocationGrows(edges: seq<Edge>, cur: Option<string>, obj: string, place: string, t: int)
    requires cur != Some(place)
    ensures |Of(SetLocation(edges, cur, obj, place, t), obj, LOCATED)| == |Of(edges, obj, LOCATED)| + 1
  {
    var closed := if cur.None? then edges else CloseFirst(edges, obj, cur.value, LOCATED, t);
    var e := Edge(obj, place, LOCATED, t, None);
    OfConcat(closed, [e], obj, LOCATED);
    OfCons(e, [], obj);
    assert [e] + [] == [e];
    if cur.Some? {
      OfClosed(edges, obj, cur.value, t);
      CloseKeepsLength(Of(edges, obj, LOCATED), obj, cur.value, t);
    }
  }

  lemma {:induction false} CloseKeepsLength(edges: seq<Edge>, node: string, target: string, t: int)
    ensures |CloseFirst(edges, node, target, LOCATED, t)| == |edges|
  {
    if edges != [] {
      CloseKeepsLength(edges[1..], node, target, t);
    }
  }

  lemma {:induction false} RecordAllFollows(edges: seq<Edge>, evs: seq<Event>, ids: Ids, obj: string)
    requires RecordAll(edges, evs, ids).Ok?
    ensures var after := RecordAll(edges, evs, ids).value.edges;
            && |Of(after, obj, LOCATED)| == |Of(edges, obj, LOCATED)| + |Trail(evs, obj)|
            && (Of(edges, obj, LOCATED) == [] ==> Of(after, obj, LOCATED) == Intervals(obj, Trail(evs, obj)))
  {
    if evs != [] {
      var n := |evs| - 1;
      RecordAllFollows(edges, evs[..n], ids, obj);
      OpenIsCurrent(edges, evs[..n], ids, obj);
      RecordFollows(RecordAll(edges, evs[..n], ids).value, evs[n], ids, n, obj, Trail(evs[..n], obj));
    }
  }

  /** After ingesting, an object's edges are the consecutive intervals between its changes of
      place, the last one open, exactly if the store held none of its edges before. */
  lemma LedgerFollowsTrail(edges: seq<Edge>, evs: seq<Event>, ids: Ids, obj: string)
    requires RecordAll(edges, evs, ids).Ok?
    ensures Of(RecordAll(edges, evs, ids).value.edges, obj, LOCATED) == Intervals(obj, Trail(evs, obj)) <==> Of(edges, obj, LOCATED) == []
  {
    RecordAllFollows(edges, evs, ids, obj);
  }

  predicate InOrder(trail: seq<Stop>) {
    forall i, j :: 0 <= i < j < |trail| ==> trail[i].since <= trail[j].since
  }

  lemma {:induction false} TrailInOrder(evs: seq<Event>, obj: string)
    requires Ordered(evs)
    ensures InOrder(Trail(evs, obj))
    ensures forall s | s in Trail(evs, obj) :: s.since <= (if evs == [] then s.since else evs[|evs| - 1].t)
  {
    if evs != [] {
      TrailInOrder(evs[..|evs| - 1], obj);
    }
  }

  /** The place of the last stop at or before `t`. */
  function LastStop(trail: seq<Stop>, t: int): Option<string> {
    if trail == [] then None
    else if trail[|trail| - 1].since <= t then Some(trail[|trail| - 1].place)
    else LastStop(trail[..|trail| - 1], t)
  }

  lemma {:induction false} TrailTellsLastSeen(evs: seq<Event>, obj: string, t: int)
    requires Ordered(evs)
    ensures LastStop(Trail(evs, obj), t) == LastSeen(evs, obj, t)
  {
    if evs != [] {
      var before, ev := evs[..|evs| - 1], evs[|evs| - 1];
      TrailTellsLastSeen(before, obj, t);
      TrailInOrder(evs, obj);
      var trail := Trail(before, obj);
      assert (trail + [Stop("", 0)])[..|trail|] == trail;
      if Sees(ev, obj) {
        if Current(trail) != Some(PlaceOf(ev)) {
          assert Trail(evs, obj)[..|trail|] == trail;
        } else {
          assert trail[|trail| - 1] in Trail(evs, obj);
        }
      }
    }
  }

  lemma {:induction false} SelectNone(edges: seq<Edge>, openOnly: bool, asOf: Option<int>)
    requires forall i :: 0 <= i < |edges| ==> !Keeps(edges[i], openOnly, asOf)
    ensures Select(edges, openOnly, asOf) == []
  {
    if edges != [] {
      SelectNone(edges[1..], openOnly, asOf);
    }
  }

  lemma {:induction false} SelectOne(edges: seq<Edge>, openOnly: bool, asOf: Option<int>, k: nat)
    requires k < |edges| && forall i :: 0 <= i < |edges| ==> (Keeps(edges[i], openOnly, asOf) <==> i == k)
    ensures Select(edges, openOnly, asOf) == [edges[k]]
  {
    if k == 0 {
      SelectNone(edges[1..], openOnly, asOf);
    } else {
      SelectOne(edges[1..], openOnly, asOf, k - 1);
    }
  }

  lemma {:induction false} LastStopAt(trail: seq<Stop>, t: int) returns (k: nat)
    requires InOrder(trail)
    ensures k <= |trail| && LastStop(trail, t) == if k == 0 then None else Some(trail[k - 1].place)
    ensures forall i :: 0 <= i < |trail| ==> (trail[i].since <= t <==> i < k)
  {
    if trail == [] || trail[|trail| - 1].since <= t {
      k := |trail|;
    } else {
      k := LastStopAt(trail[..|trail| - 1], t);
    }
  }

  /** At every instant an object has at most one live `located_in` edge, and it leads where the
      object was last seen at or before that instant; now, it is the last place of all. */
  lemma LedgerTellsLastSeen(edges: seq<Edge>, evs: seq<Event>, obj: string, t: int)
    requires Ordered(evs) && Of(edges, obj, LOCATED) == Intervals(obj, Trail(evs, obj))
    ensures var live := Select(Of(edges, obj, LOCATED), false, Some(t)); |live| <= 1 && First(live) == LastSeen(evs, obj, t)
    ensures var now := Select(Of(edges, obj, LOCATED), true, None); |now| <= 1 && First(now) == Current(Trail(evs, obj))
  {
    var trail := Trail(evs, obj);
    TrailInOrder(evs, obj);
    TrailTellsLastSeen(evs, obj, t);
    OneIntervalLive(obj, trail, t);
    OneIntervalOpen(obj, trail);
  }

  lemma OneIntervalLive(obj: string, trail: seq<Stop>, t: int)
    requires InOrder(trail)
    ensures var live := Select(Intervals(obj, trail), false, Some(t)); |live| <= 1 && First(live) == LastStop(trail, t)
  {
    var k := LastStopAt(trail, t);
    if k == 0 {
      SelectNone(Intervals(obj, trail), false, Some(t));
    } else {
      SelectOne(Intervals(obj, trail), false, Some(t), k - 1);
    }
  }

  lemma OneIntervalOpen(obj: string, trail: seq<Stop>)
    ensures var now := Select(Intervals(obj, trail), true, None); |now| <= 1 && First(now) == Current(trail)
  {
    if trail == [] {
      SelectNone(Intervals(obj, trail), true, None);
    } else {
      SelectOne(Intervals(obj, trail), true, None, |trail| - 1);
    }
  }

  /** Ingest any stream in time order into an empty store, then ask: the answer is the last
      sighting. */
  method IngestThenLocate(evs: seq<Event>, ids: Ids, obj: string, t: int) returns (r: Result<Option<string>, string>)
    requires Ordered(evs)
    ensures r.Ok? <==> AllKnown(evs, ids.known)
    ensures r.Ok? ==> r.value == LastSeen(evs, obj, t)
  {
    var store := new EmbodiedStore();
    var open := Ingest(store, evs, ids);
    IngestSucceeds([], evs, ids);
    if open.Err? { return Err(open.error); }
    var place := store.LocatedIn(obj, Some(t));
    LedgerFollowsTrail([], evs, ids, obj);
    LedgerTellsLastSeen(store.edges, evs, obj, t);
    r := Ok(place);
  }

  function InsertByStart(e: Edge, rows: seq<Edge>): seq<Edge> {
    if rows == [] || e.validFrom <= rows[0].validFrom then [e] + rows else [rows[0]] + InsertByStart(e, rows[1..])
  }

  /** Stable sort on `valid_from`. */
  function SortByStart(rows: seq<Edge>): seq<Edge> {
    if rows == [] then [] else InsertByStart(rows[0], SortByStart(rows[1..]))
  }

  predicate Ascending(rows: seq<Edge>) {
    forall i, j :: 0 <= i < j < |rows| ==> rows[i].validFrom <= rows[j].validFrom
  }

  /** The rows with one `valid_from`, in order. */
  function StartingAt(rows: seq<Edge>, t: int): seq<Edge> {
    if rows == [] then [] else (if rows[0].validFrom == t then [rows[0]] else []) + StartingAt(rows[1..], t)
  }

  lemma {:induction false} InsertKeepsRows(e: Edge, rows: seq<Edge>)
    ensures multiset(InsertByStart(e, rows)) == multiset([e]) + multiset(rows)
    ensures forall x | x in InsertByStart(e, rows) :: x == e || x in rows
  {
    if rows != [] && e.validFrom > rows[0].validFrom {
      InsertKeepsRows(e, rows[1..]);
      assert rows == [rows[0]] + rows[1..];
    }
  }

  lemma {:induction false} InsertAscends(e: Edge, rows: seq<Edge>)
    requires Ascending(rows)
    ensures Ascending(InsertByStart(e, rows))
  {
    if rows != [] && e.validFrom > rows[0].validFrom {
      var rest := InsertByStart(e, rows[1..]);
      InsertAscends(e, rows[1..]);
      InsertKeepsRows(e, rows[1..]);
      forall k | 0 <= k < |rest| ensures rows[0].validFrom <= rest[k].validFrom {
        assert rest[k] in rest;
      }
    }
  }

  lemma {:induction false} InsertIsStable(e: Edge, rows: seq<Edge>, t: int)
    requires Ascending(rows)
    ensures StartingAt(InsertByStart(e, rows), t) == (if e.validFrom == t then [e] else []) + StartingAt(rows, t)
  {
    if rows == [] || e.validFrom <= rows[0].validFrom {
      StartingCons(e, rows, t);
    } else {
      InsertIsStable(e, rows[1..], t);
      var rest := InsertByStart(e, rows[1..]);
      assert InsertByStart(e, rows) == [rows[0]] + rest;
      StartingCons(rows[0], rest, t);
      StartingCons(rows[0], rows[1..], t);
      assert rows == [rows[0]] + rows[1..];
      assert rows[0].validFrom == t ==> e.validFrom != t;
    }
  }

  lemma StartingCons(e: Edge, rows: seq<Edge>, t: int)
    ensures StartingAt([e] + rows, t) == (if e.validFrom == t then [e] else []) + StartingAt(rows, t)
  {
    assert ([e] + rows)[1..] == rows;
  }

  /** The sort yields the same rows, ascending by `valid_from`, ties in their old order. */
  lemma {:induction false} SortedByStart(rows: seq<Edge>)
    ensures var r := SortByStart(rows);
            Ascending(r) && multiset(r) == multiset(rows) && forall t :: StartingAt(r, t) == StartingAt(rows, t)
  {
    if rows != [] {
      SortedByStart(rows[1..]);
      var rest := SortByStart(rows[1..]);
      InsertAscends(rows[0], rest);
      InsertKeepsRows(rows[0], rest);
      forall t ensures StartingAt(SortByStart(rows), t) == StartingAt(rows, t) {
        InsertIsStable(rows[0], rest, t);
      }
      assert rows == [rows[0]] + rows[1..];
    }
  }

  lemma {:induction false} SortedStays(rows: seq<Edge>)
    requires Ascending(rows)
    ensures SortByStart(rows) == rows
  {
    if rows != [] {
      SortedStays(rows[1..]);
    }
  }

  /** `location_history`: an object's edges, whatever the store, ascending by `valid_from`,
      ties in store order. */
  method LocationHistory(store: EmbodiedStore, obj: string) returns (rows: seq<Edge>)
    ensures rows == SortByStart(Of(store.edges, obj, LOCATED))
    ensures Ascending(rows) && multiset(rows) == multiset(Of(store.edges, obj, LOCATED))
    ensures forall t :: StartingAt(rows, t) == StartingAt(Of(store.edges, obj, LOCATED), t)
  {
    rows := store.EdgesFrom(obj, LOCATED, false, None);
    SelectAll(Of(store.edges, obj, LOCATED));
    SortedByStart(rows);
    rows := SortByStart(rows);
  }

  /** After ingesting a stream in time order these are the change points, oldest first, each
      ending where the next begins. */
  lemma HistoryOfLedger(edges: seq<Edge>, evs: seq<Event>, obj: string)
    requires Ordered(evs) && Of(edges, obj, LOCATED) == Intervals(obj, Trail(evs, obj))
    ensures SortByStart(Of(edges, obj, LOCATED)) == Intervals(obj, Trail(evs, obj)) && Chronological(Intervals(obj, Trail(evs, obj)))
  {
    TrailInOrder(evs, obj);
    IntervalsChronological(obj, Trail(evs, obj));
    SortedStays(Of(edges, obj, LOCATED));
  }

  predicate Chronological(rows: seq<Edge>) {
    forall i, j :: 0 <= i < j < |rows| ==>
      rows[i].validFrom <= rows[j].validFrom && rows[i].validTo.Some? && rows[i].validTo.value <= rows[j].validFrom
  }

  lemma IntervalsChronological(obj: string, trail: seq<Stop>)
    requires InOrder(trail)
    ensures Chronological(Intervals(obj, trail))
  {
    var rows := Intervals(obj, trail);
    forall i, j | 0 <= i < j < |rows|
      ensures rows[i].validFrom <= rows[j].validFrom && rows[i].validTo.Some? && rows[i].validTo.value <= rows[j].validFrom
    {
      assert i + 1 == j || trail[i + 1].since <= trail[j].since;
    }
  }

  lemma {:induction false} SelectAll(edges: seq<Edge>)
    ensures Select(edges, false, None) == edges
  {
    if edges != [] {
      SelectAll(edges[1..]);
    }
  }

  // ----- what the memories are about -----

  /** Whether the `i`-th event has to do with `x`; a move without a source starts where the
      object was last seen. */
  predicate Concerns(evs: seq<Event>, i: nat, x: string)
    requires i < |evs|
  {
    match evs[i].op
    case Observe(obj, place) => obj == Some(x) || place == Some(x)
    case Move(obj, src, dest) =>
      || obj == Some(x) || dest == Some(x) || src == Some(x)
      || (src.None? && obj.Some? && Current(Trail(evs[..i], obj.value)) == Some(x))
    case Instruct(person, refs) => person == Some(x) || x in refs
    case Act(place, obj, person) => place == Some(x) || obj == Some(x) || person == Some(x)
  }

  predicate HasAbout(edges: seq<Edge>, m: string, x: string) {
    exists e | e in edges :: e.source == m && e.target == x && e.kind == ABOUT
  }

  lemma HasAboutConcat(a: seq<Edge>, b: seq<Edge>, m: string, x: string)
    ensures HasAbout(a + b, m, x) <==> HasAbout(a, m, x) || HasAbout(b, m, x)
  {
    assert forall e :: e in a + b <==> e in a || e in b;
  }

  lemma {:induction false} AboutEdgesAre(memory: string, mentions: seq<Option<string>>, known: set<string>, now: int, m: string, x: string)
    ensures HasAbout(AboutEdges(memory, mentions, known, now), m, x) <==> m == memory && Some(x) in mentions && x in known
  {
    if mentions != [] {
      var init, last := mentions[..|mentions| - 1], mentions[|mentions| - 1];
      AboutEdgesAre(memory, init, known, now, m, x);
      var es := if last.Some? && last.value in known then [Edge(memory, last.value, ABOUT, now, None)] else [];
      HasAboutConcat(AboutEdges(memory, init, known, now), es, m, x);
      assert mentions == init + [last];
      assert last.Some? && last.value in known ==> es[0] in es;
    }
  }

  lemma {:induction false} CloseKeepsAbout(edges: seq<Edge>, node: string, target: string, t: int, m: string, x: string)
    ensures HasAbout(CloseFirst(edges, node, target, LOCATED, t), m, x) <==> HasAbout(edges, m, x)
  {
    if edges != [] {
      var rest := edges[1..];
      CloseKeepsAbout(rest, node, target, t, m, x);
      assert edges == [edges[0]] + rest;
      HasAboutConcat([edges[0]], rest, m, x);
      var closed := edges[0].(validTo := Some(t));
      HasAboutConcat([closed], rest, m, x);
      HasAboutConcat([edges[0]], CloseFirst(rest, node, target, LOCATED, t), m, x);
      if edges[0].kind == LOCATED {
        assert !HasAbout([edges[0]], m, x) && !HasAbout([closed], m, x);
      }
    }
  }

  lemma SetLocationKeepsAbout(edges: seq<Edge>, cur: Option<string>, obj: string, place: string, t: int, m: string, x: string)
    ensures HasAbout(SetLocation(edges, cur, obj, place, t), m, x) <==> HasAbout(edges, m, x)
  {
    if cur != Some(place) {
      var closed := if cur.None? then edges else CloseFirst(edges, obj, cur.value, LOCATED, t);
      if cur.Some? {
        CloseKeepsAbout(edges, obj, cur.value, t, m, x);
      }
      HasAboutConcat(closed, [Edge(obj, place, LOCATED, t, None)], m, x);
    }
  }

  lemma RecordIsAbout(b: Book, ev: Event, ids: Ids, i: nat, m: string, x: string)
    requires Record(b, ev, ids, i).Ok?
    ensures HasAbout(Record(b, ev, ids, i).value.edges, m, x) <==>
            HasAbout(b.edges, m, x) || (m == ids.memory(i) && Some(x) in Mentions(ev, b.open) && x in ids.known)
  {
    var about := AboutEdges(ids.memory(i), Mentions(ev, b.open), ids.known, ids.clock(i));
    AboutEdgesAre(ids.memory(i), Mentions(ev, b.open), ids.known, ids.clock(i), m, x);
    HasAboutConcat(b.edges, about, m, x);
    var subject := Subject(ev);
    if subject.Some? {
      SetLocationKeepsAbout(b.edges + about, OpenAt(b.open, subject.value), subject.value, PlaceOf(ev), ev.t, m, x);
    }
  }

  lemma MentionedIsConcerned(evs: seq<Event>, i: nat, open: map<string, string>, x: string)
    requires i < |evs| && forall obj :: OpenAt(open, obj) == Current(Trail(evs[..i], obj))
    ensures Some(x) in Mentions(evs[i], open) <==> Concerns(evs, i, x)
  {
    if evs[i].op.Instruct? {
      var refs := evs[i].op.refs;
      var named := seq(|refs|, i requires 0 <= i < |refs| => Some(refs[i]));
      assert forall j | 0 <= j < |refs| :: named[j] == Some(refs[j]);
      assert Some(x) in named <==> x in refs;
    }
  }

  /** Some event that memory `m` was written for has to do with `x`. */
  ghost predicate Told(evs: seq<Event>, ids: Ids, m: string, x: string) {
    exists i: nat :: i < |evs| && ids.memory(i) == m && Concerns(evs, i, x)
  }

  lemma ToldStep(evs: seq<Event>, ids: Ids, m: string, x: string)
    requires evs != []
    ensures var n := |evs| - 1; Told(evs, ids, m, x) <==> Told(evs[..n], ids, m, x) || (m == ids.memory(n) && Concerns(evs, n, x))
  {
    var n := |evs| - 1;
    forall i: nat | i < n ensures Concerns(evs[..n], i, x) <==> Concerns(evs, i, x) {
      assert evs[..n][..i] == evs[..i];
    }
  }

  /** After ingesting, a memory is about a known thing exactly if it was so before or some event
      it was written for has to do with it. */
  lemma {:induction false} AboutIsConcerned(edges: seq<Edge>, evs: seq<Event>, ids: Ids, m: string, x: string)
    requires RecordAll(edges, evs, ids).Ok?
    ensures HasAbout(RecordAll(edges, evs, ids).value.edges, m, x) <==>
            HasAbout(edges, m, x) || (x in ids.known && Told(evs, ids, m, x))
  {
    if evs != [] {
      var n := |evs| - 1;
      var b := RecordAll(edges, evs[..n], ids).value;
      AboutIsConcerned(edges, evs[..n], ids, m, x);
      forall obj ensures OpenAt(b.open, obj) == Current(Trail(evs[..n], obj)) {
        OpenIsCurrent(edges, evs[..n], ids, obj);
      }
      MentionedIsConcerned(evs, n, b.open, x);
      RecordIsAbout(b, evs[n], ids, n, m, x);
      ToldStep(evs, ids, m, x);
    }
  }
}
