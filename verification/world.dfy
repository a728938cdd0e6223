/** The synthetic world: its generator, its own location history, and the ledger's agreement
    with it (benchmarks/embodied/emb/world.py). */
module World {
  import opened Text
  import opened Ledger

  /** The generator's own history: the first observation of an object and its moves. */
  function History(evs: seq<Event>, obj: string): seq<Stop> {
    if evs == [] then []
    else
      var before, ev := History(evs[..|evs| - 1], obj), evs[|evs| - 1];
      if Sees(ev, obj) && (ev.op.Move? || before == []) then before + [Stop(PlaceOf(ev), ev.t)] else before
  }

  /** What the generator emits: an object is observed where it is, and moves elsewhere. */
  ghost predicate Generated(evs: seq<Event>) {
    evs == [] ||
    var before, ev := evs[..|evs| - 1], evs[|evs| - 1];
    Generated(before) && forall obj :: Sees(ev, obj) ==>
      var here := Current(History(before, obj));
      if ev.op.Move? then here.Some? && here != Some(PlaceOf(ev)) else here.None? || here == Some(PlaceOf(ev))
  }

  /** On generated worlds the ledger's change points are exactly the generator's history. */
  lemma {:induction false} HistoryIsTrail(evs: seq<Event>, obj: string)
    requires Generated(evs)
    ensures History(evs, obj) == Trail(evs, obj)
  {
    if evs != [] {
      HistoryIsTrail(evs[..|evs| - 1], obj);
    }
  }

  /** `loc_as_of`: scan the history up to the first entry past `t`. */
  method LocAsOf(history: seq<Stop>, t: int) returns (found: Option<string>)
    requires InOrder(history)
    ensures found == LastStop(history, t)
  {
    found := None;
    var i := 0;
    while i < |history|
      invariant i <= |history| && found == LastStop(history[..i], t)
      invariant forall j :: 0 <= j < i ==> history[j].since <= t
    {
      if history[i].since > t {
        LateStops(history, i, |history|, t);
        assert history[..|history|] == history;
        return;
      }
      assert history[..i + 1][i] == history[i];
      found := Some(history[i].place);
      i := i + 1;
    }
    assert history[..i] == history;
  }

  lemma {:induction false} LateStops(history: seq<Stop>, i: nat, n: nat, t: int)
    requires InOrder(history) && i <= n <= |history| && (i < n ==> history[i].since > t)
    ensures LastStop(history[..n], t) == LastStop(history[..i], t)
    decreases n
  {
    if i < n {
      assert history[n - 1].since > t;
      LateStops(history, i, n - 1, t);
      assert history[..n][..n - 1] == history[..n - 1];
    }
  }

  // ----- the generator -----

  /** The seeded random source: any stream of draws. */
  class Random {
    const draws: nat -> nat
    var next: nat

    constructor (draws: nat -> nat)
      ensures this.draws == draws && next == 0
    {
      this.draws := draws;
      next := 0;
    }

    method Choice(xs: seq<string>) returns (x: string)
      requires xs != []
      modifies this
      ensures x in xs
    {
      x := xs[draws(next) % |xs|];
      next := next + 1;
    }

    method Between(lo: int, hi: int) returns (n: int)
      requires lo <= hi
      modifies this
      ensures lo <= n <= hi
    {
      n := lo + draws(next) % (hi - lo + 1);
      next := next + 1;
    }
  }

  datatype Kind = Moving | Observing | Instructing | Acting

  /** `history` as the generator's dictionary has it; an absent object has none. */
  function At(history: map<string, seq<Stop>>, obj: string): seq<Stop> {
    if obj in history then history[obj] else []
  }

  predicate Rising(evs: seq<Event>, clock: int) {
    && (forall i, j :: 0 <= i < j < |evs| ==> evs[i].t < evs[j].t)
    && (forall i :: 0 <= i < |evs| ==> evs[i].t <= clock)
  }

  /** What the generator keeps: the stream so far is a generated one, in strictly rising time
      and about known things only, and the dictionary is its history. */
  ghost predicate Consistent(evs: seq<Event>, history: map<string, seq<Stop>>, clock: int, known: set<string>) {
    && Generated(evs) && Rising(evs, clock) && AllKnown(evs, known)
    && forall obj :: At(history, obj) == History(evs, obj)
  }

  lemma SightingKeeps(evs: seq<Event>, history: map<string, seq<Stop>>, clock: int, known: set<string>, ev: Event, obj: string, history': map<string, seq<Stop>>)
    requires Consistent(evs, history, clock, known) && Sees(ev, obj) && ev.t > clock && IsKnown(ev, known)
    requires var here := Current(At(history, obj));
             if ev.op.Move? then here.Some? && here != Some(PlaceOf(ev)) else here.None? || here == Some(PlaceOf(ev))
    requires history' == if ev.op.Move? || At(history, obj) == [] then history[obj := At(history, obj) + [Stop(PlaceOf(ev), ev.t)]] else history
    ensures Consistent(evs + [ev], history', ev.t, known)
  {
    assert (evs + [ev])[..|evs|] == evs;
    assert forall other :: Sees(ev, other) ==> other == obj;
  }

  lemma OtherKeeps(evs: seq<Event>, history: map<string, seq<Stop>>, clock: int, known: set<string>, ev: Event)
    requires Consistent(evs, history, clock, known) && Subject(ev).None? && ev.t > clock
    ensures Consistent(evs + [ev], history, ev.t, known)
  {
    assert (evs + [ev])[..|evs|] == evs;
  }

  /** The places an object may move to. */
  function Elsewhere(places: seq<string>, current: string): (r: seq<string>)
    ensures forall p :: p in r <==> p in places && p != current
  {
    if places == [] then [] else (if places[0] != current then [places[0]] else []) + Elsewhere(places[1..], current)
  }

  /** The objects with at least, or fewer than, two entries. */
  function Moved(objects: seq<string>, history: map<string, seq<Stop>>): seq<string> {
    if objects == [] then []
    else (if |At(history, objects[0])| >= 2 then [objects[0]] else []) + Moved(objects[1..], history)
  }

  function Stationary(objects: seq<string>, history: map<string, seq<Stop>>): (r: seq<string>)
    ensures forall o :: o in r <==> o in objects && |At(history, o)| < 2
  {
    if objects == [] then []
    else (if |At(history, objects[0])| < 2 then [objects[0]] else []) + Stationary(objects[1..], history)
  }

  predicate Distinct(xs: seq<string>) {
    forall i, j :: 0 <= i < j < |xs| ==> xs[i] != xs[j]
  }

  ghost function Known(places: seq<string>, objects: seq<string>): set<string> {
    (set p | p in places) + (set o | o in objects)
  }

  /** What every loop of the generator keeps once each object has been observed. */
  ghost predicate Tracked(evs: seq<Event>, history: map<string, seq<Stop>>, clock: int, places: seq<string>, objects: seq<string>) {
    && Consistent(evs, history, clock, Known(places, objects))
    && forall o | o in objects :: At(history, o) != []
  }

  /** A move of `obj` to a place other than its own. */
  method MoveObject(rng: Random, obj: string, places: seq<string>, ghost objects: seq<string>,
                    evs: seq<Event>, history: map<string, seq<Stop>>, clock: int)
    returns (evs': seq<Event>, history': map<string, seq<Stop>>, clock': int)
    requires Distinct(places) && |places| >= 2 && obj in objects && Tracked(evs, history, clock, places, objects)
    modifies rng
    ensures Tracked(evs', history', clock', places, objects)
    ensures exists s :: history' == history[obj := At(history, obj) + [s]]
  {
    var current := Current(At(history, obj)).value;
    var candidates := Elsewhere(places, current);
    assert places[0] in places && places[1] in places;
    assert places[0] in candidates || places[1] in candidates;
    var dest := rng.Choice(candidates);
    var tick := rng.Between(500, 5000);
    clock' := clock + tick;
    var ev := Event(clock', Move(Some(obj), Some(current), Some(dest)));
    evs' := evs + [ev];
    history' := history[obj := At(history, obj) + [Stop(dest, clock')]];
    SightingKeeps(evs, history, clock, Known(places, objects), ev, obj, history');
  }

  /** Observes every object once, somewhere. */
  method FirstSightings(rng: Random, places: seq<string>, objects: seq<string>, start: int)
    returns (evs: seq<Event>, history: map<string, seq<Stop>>, clock: int)
    requires places != [] && Distinct(objects)
    modifies rng
    ensures Tracked(evs, history, clock, places, objects)
  {
    evs, history, clock := [], map[], start;
    for i := 0 to |objects|
      invariant Consistent(evs, history, clock, Known(places, objects))
      invariant forall o :: o in objects[..i] <==> At(history, o) != []
    {
      var obj := objects[i];
      assert obj in objects && obj !in objects[..i] && objects[..i + 1] == objects[..i] + [obj];
      var place := rng.Choice(places);
      var tick := rng.Between(500, 5000);
      var ev := Event(clock + tick, Observe(Some(obj), Some(place)));
      assert At(history, obj) == [] && [] + [Stop(place, clock + tick)] == [Stop(place, clock + tick)];
      SightingKeeps(evs, history, clock, Known(places, objects), ev, obj, history[obj := [Stop(place, clock + tick)]]);
      clock := clock + tick;
      evs := evs + [ev];
      history := history[obj := [Stop(place, clock)]];
    }
    assert objects[..|objects|] == objects;
  }

  /** One planned step of the timeline. */
  method TimelineStep(rng: Random, kind: Kind, places: seq<string>, objects: seq<string>, people: seq<string>,
                      evs: seq<Event>, history: map<string, seq<Stop>>, clock: int)
    returns (evs': seq<Event>, history': map<string, seq<Stop>>, clock': int)
    requires Distinct(places) && |places| >= 2 && objects != [] && people != [] && Tracked(evs, history, clock, places, objects)
    modifies rng
    ensures Tracked(evs', history', clock', places, objects)
  {
    if kind == Moving {
      var obj := rng.Choice(objects);
      evs', history', clock' := MoveObject(rng, obj, places, objects, evs, history, clock);
      return;
    }
    history' := history;
    if kind == Observing {
      var obj := rng.Choice(objects);
      var tick := rng.Between(500, 5000);
      clock' := clock + tick;
      var ev := Event(clock', Observe(Some(obj), Current(At(history, obj))));
      HereIsKnown(evs, history, clock, Known(places, objects), obj);
      SightingKeeps(evs, history, clock, Known(places, objects), ev, obj, history);
      evs' := evs + [ev];
    } else {
      var person := rng.Choice(people);
      var obj := rng.Choice(objects);
      var place := rng.Choice(places);
      var usesPlace := rng.Between(0, 1);
      var tick := rng.Between(500, 5000);
      clock' := clock + tick;
      var ev := Event(clock', if kind == Instructing then Instruct(Some(person), [obj] + if usesPlace == 1 then [place] else [])
                              else Act(Some(place), None, None));
      OtherKeeps(evs, history, clock, Known(places, objects), ev);
      evs' := evs + [ev];
    }
  }

  lemma {:induction false} HistoryKnown(evs: seq<Event>, known: set<string>, obj: string)
    requires AllKnown(evs, known)
    ensures forall s | s in History(evs, obj) :: obj in known && s.place in known
  {
    if evs != [] {
      HistoryKnown(evs[..|evs| - 1], known, obj);
      assert IsKnown(evs[|evs| - 1], known);
    }
  }

  lemma HereIsKnown(evs: seq<Event>, history: map<string, seq<Stop>>, clock: int, known: set<string>, obj: string)
    requires Consistent(evs, history, clock, known) && At(history, obj) != []
    ensures obj in known && Current(At(history, obj)).value in known
  {
    HistoryKnown(evs, known, obj);
    assert At(history, obj) == History(evs, obj);
    assert At(history, obj)[|At(history, obj)| - 1] in History(evs, obj);
  }

  /** The generator: first sightings, a timeline of any plan, then moves until three objects
      have moved or none is left to. */
  method Generate(rng: Random, places: seq<string>, objects: seq<string>, people: seq<string>, plan: seq<Kind>)
    returns (evs: seq<Event>, history: map<string, seq<Stop>>)
    requires Distinct(places) && |places| >= 2 && Distinct(objects) && objects != [] && people != []
    modifies rng
    ensures exists clock :: Tracked(evs, history, clock, places, objects)
    ensures |Moved(objects, history)| >= 3 || Stationary(objects, history) == []
  {
    var clock := rng.Between(500, 2000);
    evs, history, clock := FirstSightings(rng, places, objects, clock);
    for i := 0 to |plan|
      invariant Tracked(evs, history, clock, places, objects)
    {
      evs, history, clock := TimelineStep(rng, plan[i], places, objects, people, evs, history, clock);
    }
    while |Moved(objects, history)| < 3
      invariant Tracked(evs, history, clock, places, objects)
      decreases |Still(objects, history)|
    {
      var stationary := Stationary(objects, history);
      if stationary == [] { break; }
      ghost var before := history;
      assert stationary[0] in stationary;
      evs, history, clock := MoveObject(rng, stationary[0], places, objects, evs, history, clock);
      OneFewer(objects, before, history, stationary[0]);
    }
  }

  ghost function Still(objects: seq<string>, history: map<string, seq<Stop>>): set<string> {
    set o | o in objects && |At(history, o)| < 2
  }

  lemma OneFewer(objects: seq<string>, before: map<string, seq<Stop>>, after: map<string, seq<Stop>>, obj: string)
    requires obj in objects && |At(before, obj)| == 1 && exists s :: after == before[obj := At(before, obj) + [s]]
    ensures |Still(objects, after)| < |Still(objects, before)|
  {
    assert Still(objects, after) == Still(objects, before) - {obj};
  }

  /** On every generated world, whatever the draws, ledger and generator give the same answer
      for every object at every instant. */
  method LedgerAgreesWithWorld(rng: Random, places: seq<string>, objects: seq<string>, people: seq<string>, plan: seq<Kind>,
                               ids: Ids, obj: string, t: int)
    returns (ledger: Result<Option<string>, string>, world: Option<string>)
    requires Distinct(places) && |places| >= 2 && Distinct(objects) && people != [] && obj in objects
    requires ids.known == (set p | p in places) + (set o | o in objects) + (set p | p in people)
    modifies rng
    ensures ledger == Ok(world)
  {
    var evs, history := Generate(rng, places, objects, people, plan);
    ghost var clock :| Tracked(evs, history, clock, places, objects);
    KnownMore(evs, Known(places, objects), ids.known);
    ledger := IngestThenLocate(evs, ids, obj, t);
    HistoryIsTrail(evs, obj);
    TrailInOrder(evs, obj);
    assert At(history, obj) == History(evs, obj);
    world := LocAsOf(history[obj], t);
    TrailTellsLastSeen(evs, obj, t);
  }

  lemma KnownMore(evs: seq<Event>, known: set<string>, more: set<string>)
    requires AllKnown(evs, known) && known <= more
    ensures AllKnown(evs, more)
  {
    forall i | 0 <= i < |evs| ensures IsKnown(evs[i], more) {
      assert IsKnown(evs[i], known);
    }
  }
}
