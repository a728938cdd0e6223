# TopoDB: verified models of its hardest behaviour

TopoDB is an embedded graph memory for coding agents. Agents share one database file: a
planner turns each request into one atomic batch over a bitemporal graph, a resident daemon
elected by the file lock serves it, and a broker multiplexes many JSON-RPC sessions onto one
server. This project models those parts, and the small algorithms they rest on, and proves what
they are for.

| file | models |
|---|---|
| `text.dfy`, `json.dfy`, `store.dfy` | text normalization, JSON properties, and the applier: graph, op batches, upsert rewriting, commit |
| `applier.dfy`, `axes.dfy` | each op read on the stored fields, what a batch is checked for, and the two time axes over runs of batches |
| `compose.dfy`, `planner.dfy` | `remember`, `supersede`, `forget`: plans as functions, and the loops that compute them |
| `effects.dfy`, `remember.dfy`, `outcome.dfy`, `resolution.dfy` | what a committed plan does to the graph, the verbs read on the stored fields, and which entity a name stands for |
| `idempotence.dfy`, `lifecycle.dfy`, `history.dfy`, `dedup.dfy`, `entities.dfy`, `race.dfy` | properties of plan and commit over single calls, whole runs and concurrent writers |
| `batch.dfy`, `meaning.dfy`, `episode.dfy` | the `#N` batch compiler, its meaning, and the recorder's episode batches |
| `daemon_loop.dfy`, `election.dfy` | the accept loop with its connection tasks, and many daemon processes that may crash |
| `broker.dfy`, `routing.dfy` | the multiplexer, and its properties over every run |
| `calendar.dfy`, `temporal.dfy`, `iso.dfy`, `iso_forms.dfy` | Gregorian day arithmetic, periods and bounds, the instant printer and parser |
| `hops.dfy` | breadth-first hop labels |
| `ledger.dfy`, `world.dfy` | the `located_in` interval ledger, and the world generator with the plain history it has to agree with |
| `ulid.dfy`, `framing.dfy` | ULID text and minting, newline framing |

Platform pieces are parameters of the model: Unicode lower-casing, the content hash and the
ULID text codec (`Text.Codec`), freshly minted ids (`Compose.Mint`), clocks and random bytes.
Nothing is assumed of the hash and the lower-casing, so the deduplication results hold for every
hash function. `dafny verify dfyconfig.toml` checks the whole project.

Where code and comments disagree the model follows the code:

- The comment at `crates/topodb-mcp/src/daemon.rs:488-489` says that dropping `base` and `db`
  releases the lock. The hygiene task of lines 212-236 keeps a clone of the database, so the
  lock is held until the process ends. `Election` therefore releases it at process exit.
- The comment at `crates/topodb-mcp/src/daemon.rs:369-370` calls a live socket at the lock winner's
  endpoint anomalous. It is reachable, and only in one way: the kernel frees a crashed daemon's
  lock before it closes its listener (`Election.AlreadyServedOnlyByDying`,
  `Election.UnlockFirstCanTurnAwayAWinner`).
- `days_from_civil` divides with truncation. It is the Gregorian day number exactly from
  0000-03-01 on and, earlier, in the twelve months that begin with March of a leap year;
  everywhere else it is one too high (`Calendar.DaysFromCivilExact`). No caller reaches that
  half: the patterns admit the years 1970 to 2099, and the end of a period adds one.
- Remembering a content twice can land on another memory: with two live memories of one
  content, a request that supersedes the older one creates a third, and asking again finds the
  second (`Idempotence.SecondCallLandsElsewhere`). With ids that grow over time it finds its own
  exactly when the oldest live match survives the request or none does
  (`Idempotence.NewestFindsOwn`), so always when a content has at most one live memory.

## Model

| member | source | states |
|---|---|---|
| `Text.CollapseIdempotent` | crates/topodb-json/src/compose.rs:55-57 | normalizing normalized content changes nothing |
| `Text.CollapseIsWords` | crates/topodb-json/src/compose.rs:55-57 | two texts have one normal form exactly if they have the same words, and the normal form has those words |
| `Text.WordsSplit` | crates/topodb-json/src/compose.rs:55-57 | a separator parts the words before it from the words after it |
| `Text.CollapsedIsTidy` | crates/topodb-json/src/compose.rs:55-57 | white space in a normal form is single blanks between other characters |
| `Text.TrimCuts` | plugins/core/ipc.js:67-78 | trimming takes white space off both ends, all of it and nothing else |
| `Store.RunKeepsWellFormed` | crates/topodb/src/storage.rs:3084-3537 | a batch that runs never leaves an edge with a missing endpoint |
| `Store.CommitKeepsWellFormed` | crates/topodb/src/storage.rs:1526-1612 | nor does a committed batch, after upsert collapse and id remapping |
| `Store.RunConcat` | crates/topodb/src/storage.rs:3084-3537 | running two batches in turn is running their concatenation, errors included |
| `Applier.OpAccepted` | crates/topodb/src/storage.rs:3084-3537 | an op is refused exactly if a node or edge it names is missing, its edge would join two projects, or the edge it closes is closed |
| `Applier.NodesAfter` | crates/topodb/src/storage.rs:3084-3537 | the nodes after an op: one created, one changed key by key, one removed, all others as they were |
| `Applier.EdgesAfter` | crates/topodb/src/storage.rs:3084-3537 | the edges after an op: one created with its own or the write instant, one closed on both axes, those of a removed node gone, all others as they were |
| `Applier.CommitChecks` | crates/topodb/src/validate.rs:51-143 | a committed batch creates new nodes, each once, and each edge it makes has a scope that fits the nodes it joins, wherever these were created |
| `Json.MergeRequiredExact` | crates/topodb-json/src/lib.rs:490-507 | accepted exactly when the extra fields are scalars and none is the required key; then the result is the required field plus exactly those fields with their own values |
| `Compose.PlanRetire` | crates/topodb-json/src/compose.rs:212-327 | the one-pass loop with its `seen` set computes the specified supersede or forget plan or refusal |
| `Effects.MarkedExactly` | crates/topodb-json/src/compose.rs:212-327 | an accepted plan marks, once each, exactly the requested memories without that tombstone; every requested id is a memory of the write scope |
| `Effects.RetireRuns` | crates/topodb-json/src/compose.rs:243-260 | executing the planned ops one by one equals stamping all marked memories and closing all their open edges of the scope at once, interleaving and repetition notwithstanding |
| `Outcome.RetirementAccepted` | crates/topodb-json/src/compose.rs:212-327 | supersede accepts exactly lists of memories of the write scope, forget exactly non-empty lists of live ones |
| `Outcome.RetirementOnFields` | crates/topodb-json/src/compose.rs:212-327 | read on stored fields: the asked memories without `superseded_at` or `forgotten_at` get it, their open edges of the scope end on both axes, nothing else changes |
| `Lifecycle.RetireCommits` | crates/topodb-json/src/compose.rs:212-327 | every accepted supersede or forget plan commits, with exactly that effect |
| `Planner.ParseSupersedes` | crates/topodb-json/src/compose.rs:413-422 | the loop finds the first unparsable id or the set of all parsed ids |
| `Planner.ResolveEntities` | crates/topodb-json/src/compose.rs:440-481 | one pass resolves each distinct name once, in order, minting for those that resolve to nothing |
| `Planner.RetainEntities` | crates/topodb-json/src/compose.rs:495-497 | the in-place retain keeps the first name of each resolved node |
| `Planner.LinkEntities` | crates/topodb-json/src/compose.rs:499-548 | the link loop reuses an open edge or plans a new one, for each kept entity |
| `Planner.PlanRemember` | crates/topodb-json/src/compose.rs:397-560 | the whole planner computes the specified plan or refusal |
| `Planner.NormalizeEdgeType` | crates/topodb-json/src/lib.rs:312-335 | the one-pass loop with a pending separator yields the lower-cased words joined by single underscores, and refuses exactly what has no word |
| `Remember.RetainFirstIs` | crates/topodb-json/src/compose.rs:495-497 | what is retained has distinct ids and comes from the resolved names |
| `Remember.RunLinks` | crates/topodb-json/src/compose.rs:499-548 | running the planned link ops adds exactly the planned entities and edges, or is rejected exactly when one edge would cross projects |
| `Remember.PlanRewrites` | crates/topodb/src/storage.rs:1526-1612 | with no writer in between, the applier's pre-pass accepts the batch and turns every planned upsert into a create |
| `Remember.RememberCommits` | crates/topodb-json/src/compose.rs:397-560 | a planned remember commits exactly when no planned edge crosses projects, and then the graph is the specified one: memory added unless deduplicated, entities and edges added, superseded memories stamped and closed |
| `Outcome.RememberAccepted` | crates/topodb-json/src/compose.rs:397-560 | a remember is planned exactly if its edge type has a word, it names entities and none blank, its kind is one of four, its extras are scalars under free names, and what it supersedes are memories of the write scope |
| `Outcome.NewMemoryOnFields` | crates/topodb-json/src/compose.rs:78-109 | the properties of a new memory are exactly its content, the hash of that, its kind and the extras with their own values |
| `Outcome.DedupOnFields` | crates/topodb-json/src/compose.rs:181-205 | the match of a content is the oldest live memory of the scope stamped with its hash that says the same, and there is none exactly if no memory is such |
| `Outcome.RememberReport` | crates/topodb-json/src/compose.rs:397-560 | the report: deduplicated onto that match unless it is superseded, else a new memory; and exactly the ids stamped, each once |
| `Outcome.LinkedWhen` | crates/topodb-json/src/compose.rs:499-548 | the edge reused is the newest open one of that type, scope and ends, and none is exactly if there is none |
| `Outcome.RememberOnFields` | crates/topodb-json/src/compose.rs:397-560 | read on stored fields: which nodes and edges a committed remember adds, with which scopes, labels, properties and instants, and which it stamps and closes; everything else is as it was |
| `Outcome.RememberCommitsWhen` | crates/topodb-json/src/compose.rs:397-560 | it commits exactly if no new edge joins nodes of two projects |
| `Resolution.ResolvesToOldest` | crates/topodb-json/src/compose.rs:126-174 | a name resolves to the oldest visible entity that bears it or that an open visible `alias_of` edge from a visible alias bearing it leads to, and to nothing exactly if there is none |
| `Resolution.RememberReports` | crates/topodb-json/src/compose.rs:440-548 | a requested name that stands for an entity, by alias too, is reported as the oldest such one and creates nothing; one that stands for none is reported created |
| `Idempotence.RememberedIs` | crates/topodb-json/src/compose.rs:397-560 | the committed graph differs from the old one by exactly the plan's new memory, entities and edges, stamps and closes, node by node and edge by edge |
| `Idempotence.MatchesAfter` | crates/topodb-json/src/compose.rs:181-205 | after a remember the live matches of its content are the earlier ones it did not supersede, plus its own memory if new |
| `Idempotence.FoundAfter` | crates/topodb-json/src/compose.rs:126-174 | a name resolves after the commit to what it resolved to in the plan, aliases included |
| `Idempotence.LinkedAfter` | crates/topodb-json/src/compose.rs:499-548 | after the commit the one open edge from memory to entity is the planned one |
| `Idempotence.EmptyPlan` | crates/topodb-json/src/compose.rs:413-560 | a request that dedups, retires nothing and finds all links in place plans an empty batch |
| `Idempotence.RememberIdempotent` | crates/topodb-json/src/compose.rs:397-560 | remembering again, under any spelling with the same normal form, is accepted, deduplicated and supersedes nothing; it finds the same memory if and only if `FindsOwn`, and then its batch is empty and the edge and entity ids are the same, self-supersede included |
| `Idempotence.NewestFindsOwn` | crates/topodb-json/src/compose.rs:424-431 | when ids grow over time, `FindsOwn` holds exactly if the request dedups or supersedes every live match, which a caller can check before the call |
| `Idempotence.LandsElsewhereUnless` | crates/topodb-json/src/compose.rs:424-431 | a committed request asked again lands on another memory exactly without `FindsOwn` |
| `Idempotence.SecondCallLandsElsewhere` | crates/topodb-json/src/compose.rs:424-431 | a graph and a request, with printed ids, for which it does |
| `Idempotence.UniqueFindsOwn` | crates/topodb-json/src/compose.rs:181-205 | at most one live memory per content suffices for `FindsOwn` |
| `Lifecycle.PlanPurge` | crates/topodb-json/src/lifecycle.rs:165-188 | the purge loop and the sort of its hits compute the specified plan from any listing of the scopes' memories |
| `Lifecycle.PurgeExact` | crates/topodb-json/src/lifecycle.rs:165-188 | a purge commits and removes exactly the memories of its scopes tombstoned strictly before the cutoff, never a live one; purging again plans nothing |
| `Outcome.PurgeOnFields` | crates/topodb-json/src/lifecycle.rs:165-188 | read on stored fields: with a positive cutoff, and only then, a purge takes exactly the memories whose `superseded_at` or `forgotten_at` is an integer below it, and the edges that touch them |
| `Lifecycle.CallStep` | crates/topodb-json/src/compose.rs:397-560 | from any graph, a call advances each id's life by at most one stage and only ages what stays; where each scope and content had at most one live stamped memory it still has |
| `Lifecycle.LifecycleRun` | crates/topodb-json/src/compose.rs:397-560 | over every run of remember, supersede, forget and purge, from any graph, no tombstoned or removed memory comes back and nodes keep their scope, label and properties; and at most one live stamped memory per scope and content stays at most one |
| `History.PastKept` | crates/topodb-json/src/lib.rs:573-586 | closing edges at the write instant and adding edges from it on leaves both time axes unchanged at every earlier instant |
| `History.HistoryImmutable` | crates/topodb-json/src/compose.rs:212-327 | over every run of the three verbs, from any well-formed graph, the edges live at, and believed at, any instant before the writes stay the same, edges and contents |
| `Axes.EdgeOnBothAxes` | crates/topodb-json/src/lib.rs:573-586 | over any run of batches, an edge is live at t exactly if its `valid_from` (or write instant) is at most t and it was never closed or its `valid_to` (or closing instant) is after t; and believed at t exactly by the write instants alone |
| `Dedup.BucketIsScan` | crates/topodb-json/src/compose.rs:181-205 | for any hash, the bucket lookup finds exactly the stamped live memories with equal normalized content; with every memory stamped it returns the oldest a full scan would |
| `Dedup.StampedRun` | crates/topodb-json/src/compose.rs:78-109 | if every memory is stamped, it stays so over every run of the composed verbs |
| `Dedup.RetireDisconnects` | crates/topodb-json/src/compose.rs:243-260 | a retired memory has no open edge of the write scope left, and none at all exactly when all its open edges were of that scope |
| `Entities.RewriteSafe` | crates/topodb/src/storage.rs:1526-1612 | the pre-pass rewrites any batch of upserts to creates whose names are neither taken in the graph nor by each other |
| `Entities.PlanSafe` | crates/topodb-json/src/compose.rs:440-549 | every remember plan, made on any stale snapshot, touches entities only through such upserts |
| `Entities.WritersNeverFragment` | crates/topodb-json/src/compose.rs:459-466 | any sequence of plans made on arbitrary stale snapshots and committed later loses no entity and adds none beside another of its scope and name: two of one name afterwards were both there before |
| `Entities.ReportedEntitiesExist` | crates/topodb-json/src/compose.rs:571-582 | after the remap, each entity reported as created exists and bears its name; any other one of that name was there before, and so was it |
| `Entities.ApplyUpsertRemap` | crates/topodb-json/src/compose.rs:571-582 | the in-place correction rewrites exactly the collapsed entities, in every slot |
| `Races.UpsertsLand` | crates/topodb/src/storage.rs:1526-1612 | an upsert lands on the oldest committed node that holds its key, else on the first upsert of the batch like it; a new one becomes a create with its own fields |
| `Races.EdgesFollow` | crates/topodb/src/storage.rs:2568-2605 | the pre-pass keeps exactly the edges of the batch, their ends following the collapsed upserts |
| `Races.RacedEdges` | crates/topodb-json/src/compose.rs:499-548 | after a raced commit every new edge of the plan leads from its memory to the entity that the corrected report names |
| `Batch.DecimalRoundTrip` | crates/topodb-json/src/batch.rs:78-107 | a printed `#N` index parses back to N |
| `Batch.ParsedWhen` | crates/topodb-json/src/batch.rs:78-107 | an index is read exactly from one or more digits, after a plus sign or not, that fit the machine word |
| `Batch.CompileBatch` | crates/topodb-json/src/batch.rs:117-301 | the compile loop with its growing table computes the specified ops or the first error, a command's references being checked before the fields read after them |
| `Batch.OrderOfChecks` | crates/topodb-json/src/batch.rs:199-292 | which check comes first decides the error, never what is accepted |
| `Meaning.CompilePreservesMeaning` | crates/topodb-json/src/batch.rs:117-301 | running the compiled ops equals interpreting the commands one by one, their fields read from the JSON itself, with `#N` bound to the id command N produced; a batch that does not compile means nothing and yields no ops |
| `Meaning.SaysIsCompile` | crates/topodb-json/src/batch.rs:137-292 | per op name: label, required property and extras of the three creates, scope, the fields of `link`, `close_edge`, `set_node_props` with `null` removing a key, and `set_embedding` are what the compiled op carries |
| `Meaning.CompilesExactly` | crates/topodb-json/src/batch.rs:78-301 | a batch compiles if and only if it is an array whose every command is well formed and refers only to earlier commands of the right kind |
| `Episode.PushRetrieval` | plugins/core/recorder.js:236-256 | the pushes for one retrieval are its event, the issuing link, and a link per returned and used memory |
| `Episode.BuildEpisodeBatch` | plugins/core/recorder.js:215-258 | using the running length as reference makes every `#N` name its own event |
| `Episode.EpisodeCompiles` | plugins/core/recorder.js:215-258 | every episode with literal ids and scalar metadata compiles, to one episode, one event per retrieval, an edge from the episode to each event and every other edge from its own event |
| `DaemonLoop.StepKeeps` | crates/topodb-mcp/src/daemon.rs:428-499 | every atomic action of loop and tasks keeps the count exact, the wakeups stored or on their way, and at most one late accept |
| `DaemonLoop.FlagIsRequest` | crates/topodb-mcp/src/daemon.rs:589-594 | the durable flag is set in a state of a run exactly if a shutdown request was taken up before |
| `DaemonLoop.NoWakeupLost` | crates/topodb-mcp/src/daemon.rs:411-482 | in every reachable state a loop parked with work to see, a requested shutdown or the last connection gone, has its permit stored or a task about to post it |
| `DaemonLoop.ServedOnlyWhenQuiet` | crates/topodb-mcp/src/daemon.rs:428-499 | `Served` only after every accepted connection's handler ended and its count was given back; at most one accept after the request; the rebind branch is unreachable |
| `DaemonLoop.ShutdownCompletes` | crates/topodb-mcp/src/daemon.rs:433-442 | once shutdown is requested and the connections are over, every schedule of loop actions has at most five of them, and one is enabled until `Served` |
| `DaemonLoop.ShutdownBounded` | crates/topodb-mcp/src/daemon.rs:428-499 | once shutdown was requested, every continuation has a bounded number of actions of loop and tasks, the loop's at most 13 and 2 for each wakeup still to post, and one is enabled until `Served` or a failed accept |
| `DaemonLoop.IdleRearms` | crates/topodb-mcp/src/daemon.rs:444-499 | without shutdown, once the connections are over every schedule of loop actions is short and comes to rest only in a select with the idle branch armed, or in `Served` |
| `DaemonLoop.TaskCanAct` | crates/topodb-mcp/src/daemon.rs:459-467 | a connection task that is not done has an action of its own |
| `DaemonLoop.AcceptServes` | crates/topodb-mcp/src/daemon.rs:452-467 | a waiting connection can be taken by a listening select, and then is counted and served |
| `DaemonLoop.IdleExits` | crates/topodb-mcp/src/daemon.rs:481-495 | at rest in an armed select, the idle timer leads to `Served` with the listener closed |
| `Election.StepKeeps` | crates/topodb-mcp/src/daemon.rs:154-171 | every step of every process, crashes included, keeps the ownership invariant of lock, file and listener |
| `Election.OnlyLockHolderTouchesSocket` | crates/topodb-mcp/src/daemon.rs:372-396 | whoever binds or unlinks the socket holds the lock; a file removed was its own, or that of a crashed or ended process nobody can reach |
| `Election.OneDaemon` | crates/topodb-mcp/src/daemon.rs:154-171 | at most one process is between winning the lock and leaving, and a serving one answers at the endpoint |
| `Election.AlreadyServedOnlyByDying` | crates/topodb-mcp/src/daemon.rs:379-386 | the "already served" refusal happens exactly when the listener belongs to a crashed process still being torn down |
| `Election.NeverAlreadyServed` | crates/topodb-mcp/src/daemon.rs:379-386 | and never where a crash closes the listener no later than it frees the lock |
| `Election.UnlockFirstCanTurnAwayAWinner` | crates/topodb-mcp/src/daemon.rs:379-386 | a run with the other order, in which a lock winner quits |
| `Election.CrashIsRecoverable` | crates/topodb-mcp/src/daemon.rs:372-396 | from every reachable state with a free lock and no half-closed listener, a waiting process serves after at most eight steps of its own, whatever file is left |
| `Election.RemovesOwnFile` | crates/topodb-mcp/src/daemon.rs:433-442 | a daemon that closes its listener and leaves takes its own socket file with it |
| `Election.ClosedGoesOn` | crates/topodb-mcp/src/daemon.rs:478-494 | the next step of a daemon that closed its listener is to remove its file, to bind again or a crash: it does not just leave |
| `Broker.Multiplexer.OnClientLine` | plugins/core/broker.js:244-300 | hello, cached initialize, cancel, notification and call, in that order, as the transition specifies |
| `Broker.Multiplexer.Cancel` | plugins/core/broker.js:270-291 | the scan of `pending` cancels this connection's oldest call under that id, or nothing |
| `Broker.Multiplexer.OnDrop` | plugins/core/broker.js:303-309 | the deletion loop forgets exactly the dropped connection's calls |
| `Broker.Multiplexer.OnServerLine` | plugins/core/broker.js:90-111 | a known id is answered once under the client's own id, a message without id goes to every client, anything else nowhere |
| `Broker.Multiplexer.OnInitLine` | plugins/core/broker.js:140-165 | only a result with the handshake id opens the socket, and an error with it kills the server |
| `Broker.FirstMatch` | plugins/core/broker.js:282-290 | the match found is the oldest one, and none is found only if there is none |
| `Routing.PendingIsOutstanding` | plugins/core/broker.js:77-111 | in every run the table holds exactly the calls that the trace shows allocated and not yet answered, cancelled or dropped |
| `Routing.IdsAreUnique` | plugins/core/broker.js:297-299 | an upstream id is handed out at most once in a run |
| `Routing.ReplyRouting` | plugins/core/broker.js:90-111 | against any server, a reply reaches a client if and only if the server answers an upstream id of one of that client's outstanding calls, and it carries the client's own id |
| `Routing.AtMostOnce` | plugins/core/broker.js:90-111 | after an answer, a cancel or the client's end, that upstream id reaches nobody again |
| `Routing.CancelIsolation` | plugins/core/broker.js:270-291 | a cancel names upstream the oldest outstanding call of the canceller under that id and never another's, or nothing is sent |
| `Routing.ScopeIsolation` | plugins/core/broker.js:216-242 | what any client line makes the broker send, field by field: upstream go the client's own scopes where it set them and otherwise those of that connection's last hello, the rest is the client's under its new id; without a hello nothing is sent and a call is refused |
| `Routing.UpstreamOrigin` | plugins/core/broker.js:216-242 | nothing goes upstream but for a client's line or the handshake |
| `Routing.NextIsCount` | plugins/core/broker.js:297-299 | upstream ids count the calls, from one |
| `Routing.BroadcastReaches` | plugins/core/broker.js:90-111 | a server message without id reaches exactly the open connections, as it is |
| `Routing.Handshake` | plugins/core/broker.js:140-165 | the socket is open exactly after the server answered id zero with a result, which is what every `initialize` is answered with |
| `Routing.SilentAfterDrop` | plugins/core/broker.js:303-309 | nothing at all is written to a connection after its end |
| `Routing.OneInitializeResult` | plugins/core/broker.js:140-165 | every client's initialize gets one and the same result, that of the server's handshake answer |
| `Calendar.NextCivilDay` | crates/topodb-json/src/temporal.rs:161-174 | the Gregorian day number grows by one from each day to the next, in every year |
| `Calendar.DaysFromCivilExact` | crates/topodb-json/src/temporal.rs:151-159 | `days_from_civil` is that number exactly if the March-based year is not negative or is a leap year, and one more otherwise |
| `Calendar.NextDayAddsOne` | crates/topodb-json/src/temporal.rs:151-174 | so it grows by one from a day to the next exactly when it is right on both or on neither, hence on every day of the common era |
| `Calendar.DaysCountEachDay` | crates/topodb-json/src/temporal.rs:151-159 | `days_from_civil` equals counting days one by one from 0001-01-01 |
| `Calendar.CivilInverse` | crates/topodb-cli/src/output.rs:92-106 | the printer's conversion undoes the parser's exactly where the latter is right, and gives the next day elsewhere |
| `Calendar.CivilCountsEachDay` | crates/topodb-cli/src/output.rs:92-106 | the printer's conversion is the day-by-day calendar too |
| `Calendar.OrderPreserved` | crates/topodb-json/src/temporal.rs:151-159 | day numbers order dates as the calendar does |
| `Calendar.CivilOfDays` | crates/topodb-cli/src/output.rs:92-106 | the printer's conversion inverts the Gregorian day number in every year |
| `Temporal.PeriodIsItsDates` | crates/topodb-json/src/temporal.rs:128-146 | a day, month or year interval holds exactly the instants whose calendar date lies in it: days partition months, months years, years time |
| `Temporal.PeriodsTile` | crates/topodb-json/src/temporal.rs:128-146 | each period ends where the next begins and none is empty |
| `Temporal.ReadWhen` | crates/topodb-json/src/temporal.rs:107-126 | a captured year is that year; with a month that month, with a day that day, exactly if they exist |
| `Temporal.BothBoundsNonEmpty` | crates/topodb-json/src/temporal.rs:191-234 | every rewrite with both bounds denotes a non-empty interval |
| `Temporal.DatedBounds` | crates/topodb-json/src/temporal.rs:191-234 | the bounds of a dated phrase select exactly the calendar days it speaks of |
| `Temporal.RelativeBounds` | crates/topodb-json/src/temporal.rs:202-226 | "today" and "yesterday" select exactly those calendar dates, "last N days" exactly the days no more than N back, week and month being 7 and 30 |
| `Temporal.BetweenRefusal` | crates/topodb-json/src/temporal.rs:192-199 | `between` is refused exactly when it would leave no day |
| `Temporal.RewrittenWhen` | crates/topodb-json/src/temporal.rs:191-234 | which phrases are rewritten, a bare year only behind a preposition, and which side each leaves open |
| `Iso.YearsOfRange` | crates/topodb-cli/src/output.rs:92-106 | the printed year is in 1970 to 2099 exactly for the instants from 0 to 4102444800000 |
| `Iso.PrintParse` | crates/topodb-json/src/temporal.rs:273-294 | parsing a printed instant gives it rounded down to the second if it is in 1970 to 2099, and nothing otherwise |
| `IsoForms.ParsedExactly` | crates/topodb-json/src/temporal.rs:273-294 | a text is read as an instant if and only if, white space around it aside, it is a year, a month, a day or a day with a time of day, in 1970 to 2099, that exists, and the instant is its first millisecond |
| `Hops.BuildAdjacency` | crates/topodb-json/src/graph.rs:308-319 | the lists relate exactly the nodes some edge joins, both ways |
| `Hops.HopsFrom` | crates/topodb-json/src/graph.rs:294-336 | terminates on every edge list; labels exactly the nodes some walk reaches from a seed, each with the length of a shortest walk |
| `Hops.ShortestHopsUnique` | crates/topodb-json/src/graph.rs:294-336 | which determines the labels |
| `Ledger.EmbodiedStore.CloseEdge` | benchmarks/embodied/emb/store.py:192-201 | closes the first open edge to that target and nothing else |
| `Ledger.EmbodiedStore.EdgesFrom` | benchmarks/embodied/emb/store.py:112-134 | exactly the node's edges of the kind that pass both filters, in order |
| `Ledger.EmbodiedStore.LocatedIn` | benchmarks/embodied/emb/store.py:204-211 | the first open or live target |
| `Ledger.LinkAbout` | benchmarks/embodied/emb/ingest.py:131-134 | one edge per mentioned known id, in order |
| `Ledger.Ingest` | benchmarks/embodied/emb/ingest.py:117-163 | from any store, the loop records the stream as specified or stops at the first unknown id |
| `Ledger.IngestSucceeds` | benchmarks/embodied/emb/ingest.py:121-129 | it stops exactly if some sighting names an object or a place that is no entity |
| `Ledger.AboutIsConcerned` | benchmarks/embodied/emb/ingest.py:131-175 | afterwards a memory is about a known thing exactly if it was before or an event it was written for has to do with it, a move without source with the place where its object was last seen |
| `Ledger.LedgerFollowsTrail` | benchmarks/embodied/emb/ingest.py:121-129 | after it an object's edges are the consecutive intervals between its changes of place, the last one open, exactly if the store held none of that object before |
| `Ledger.LedgerTellsLastSeen` | benchmarks/embodied/emb/store.py:57-64 | with times in order, at most one `located_in` edge of an object is live at any instant, and it leads where the object was last seen by then |
| `Ledger.IngestThenLocate` | benchmarks/embodied/emb/ingest.py:117-163 | ingesting and asking gives the last sighting |
| `Ledger.LocationHistory` | benchmarks/embodied/emb/store.py:213-222 | from any store, the object's edges, each once, ascending by start, ties in store order |
| `Ledger.HistoryOfLedger` | benchmarks/embodied/emb/store.py:213-222 | after ingesting a stream in time order these are the change points, each closed no later than the next opens |
| `World.MoveObject` | benchmarks/embodied/emb/world.py:165-174 | a move goes to another place and keeps stream and history consistent |
| `World.Generate` | benchmarks/embodied/emb/world.py:130-216 | whatever the draws and the plan, the stream rises strictly in time, observes objects where they are and moves them elsewhere, the dictionary is its history, and three objects have moved or all have |
| `World.HistoryIsTrail` | benchmarks/embodied/emb/world.py:148-180 | on such streams the ledger's change points are the generator's history |
| `World.LocAsOf` | benchmarks/embodied/emb/world.py:139-146 | the scan with early exit finds the last entry at or before the instant |
| `World.LedgerAgreesWithWorld` | benchmarks/embodied/emb/world.py:139-216 | on every generated world, ledger and generator agree for every object at every instant |
| `Ulid.EncodeUlid` | plugins/core/scope-id.js:19-35 | sixteen bytes give the 26 base-32 digits of their big-endian value, any other length is refused |
| `Ulid.EncodingOrder` | plugins/core/scope-id.js:19-35 | texts compare exactly as the byte strings do, and are equal only for equal bytes |
| `Ulid.FirstCharAtMost7` | plugins/core/scope-id.js:25-29 | no text begins above '7' |
| `Ulid.AlphabetIsCrockford` | plugins/core/scope-id.js:17 | the alphabet is the digits and capital letters without I, L, O and U |
| `Ulid.NewUlid` | plugins/core/warehouse-spool.js:98-104 | the array filled from the clock and the random bytes encodes the low 48 clock bits followed by them |
| `Ulid.MintedOrder` | plugins/core/warehouse-spool.js:98-104 | minted ids sort by the clock modulo 2^48, then by their random bytes, and only so |
| `Ulid.EarlierSortsFirst` | plugins/core/warehouse-spool.js:98-104 | below 2^48 an earlier millisecond sorts first, whatever the random bytes |
| `Ulid.OrderBreaksAtWrap` | plugins/core/warehouse-spool.js:98-104 | at 2^48 it no longer does |
| `Framing.LineReader.Feed` | plugins/core/ipc.js:67-78 | a chunk emits the trimmed non-empty lines it completes and keeps the unterminated end |
| `Framing.SegmentsOfStream` | plugins/core/ipc.js:67-78 | the segments and the remainder of a stream are the only such cut |
| `Framing.ChunkingIrrelevant` | plugins/core/ipc.js:67-78 | however a stream is cut into chunks, the same lines come out and the same end is held |
| `Framing.FeedAll` | plugins/core/ipc.js:67-78 | feeding a reader chunk by chunk gives the lines of the whole stream |
| `Framing.SentIsReceived` | plugins/core/ipc.js:67-78 | messages sent one a line, ended by a line feed with or without a carriage return, blank lines between them, are exactly what the reader emits, however the stream is cut, and nothing is held back |

## Left out

- Storage, indexes on disk, MVCC, full-text and vector search and traversal of the engine: only the abstract graph and the batch applier are modelled.
- Embeddings: a `set_embedding` command compiles but changes nothing in the modelled graph, and vector dimensions are not checked.
- The body of the content hash and Unicode lower-casing are parameters; every result holds for any choice.
- Texts of error messages; which error is reported first is modelled, its wording is not.
- Two planners racing on the same memory content: deduplication is proved for sequential runs, entity uniqueness also for concurrent ones.
- Raw property writes, node removals and unstamped memories inside lifecycle runs: they bypass the composed verbs.
- DaemonLoop: the biased order of `select!` is not modelled; any ready branch may win, which admits more runs than the code has. A timed-out peek consumes nothing and connection tasks do not panic.
- The Windows accept loop, the daemon client and the hygiene tick itself.
- Broker idle exit, handshake timeout and listen retry; upstream ids beyond 2^53; lines that parse to `null`, on which the broker throws.
- Broker.Forward: a connection without hello gets a refusal that carries the upstream id and its call stays in the table; modelled as written, nothing is claimed of that id.
- Pattern matching in `parse_temporal_query`: the captured phrase is the input of `Temporal.BoundsOf`; the residual query is not modelled.
- Hops.HopsFrom: hop counts are unbounded, the 32-bit counter is not modelled.
- Ledger.Ingest: entities are identified with their names, of an event's memory only its `about` edges are kept, and the alternative spellings of event fields are not modelled.
- Ledger.EmbodiedStore.EdgesFrom: edges come in insertion order.
- World.Generate: the pools the names are drawn from, the texts and the queries are not modelled; the plan of step kinds is a parameter.
- Staleness scores, recency ranking, rendering, CLI dispatch, configuration, installation, bindings, hooks and benchmark reports.
