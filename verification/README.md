# ServerGlass core: a verified model

ServerGlass watches remote hosts: it keeps one session per host, asks one batch of questions per
refresh, turns the answers into gauges, and lets a person run commands and pair devices. This project
models that core in Dafny and proves what the code is for. `dafny verify dfyconfig.toml` checks all of it.

The model follows the repository's own structure.

- **Lifecycle** (`Lifecycle*.dfy`, `Target.dfy`). One target as a transition system: UI threads inside
  `start`, `stop` and `run_command`, and every poll loop ever spawned, aborted ones included. A step is
  one critical section or one stretch of a loop between two awaits, and a run is any interleaving. Each
  accepted command is tagged with the run and the session that accepted it, and the model logs what is
  handed to a session. A command counts as handed over once its loop has found its caller still waiting
  (`crates/sg-ffi/src/lib.rs:403`); the write (`crates/sg-transport/src/session.rs:262-282`) comes after
  that and may fail, so handed over means committed to that session, not run by the host.
  `LifecycleControl`, `LifecycleJobs` and `LifecycleRetry` hold the inductive invariants and
  `LifecycleTheorems` what follows for every run. `LifecycleOutcomes` and `LifecycleStory` tell replies,
  traces and screens from the steps alone, `LifecycleReach` says what can always happen next, and
  `LifecycleScreens` what the screens of a run show when its loops read the store of their own runtime.
  `Target.dfy` is the same code as a class whose methods mutate the shared fields, each proved to be a
  path of the transition system.
- **Collection** (`Request`, `Collector`, `Batching`, `Rate`, `Store`, `Runtime`). Classes with the
  source's fields; every method is tied to a specification function, and the theorems are about those:
  the merged batch against one fetch per source, one remembered reading against the full history, the
  bounded window against the unbounded log.
- **Screens** (`Plain`, `View`, `ViewTheorems`). The verdict cascade against seven independent
  judgements, and the headline grid and detail groups against the store they are built from.
- **Pairing** (`Merge`, `Pairing`, `Base64`, `Transfer`). Left-biased merge of hosts and host key pins,
  the text of a pairing code, the handshake and the length-prefixed sealed transfer. Key agreement, key
  derivation and the cipher are function parameters with the laws of section 6.1 of RFC 7748 and
  section 2.8 of RFC 8439; base64 (section 5 of RFC 4648, unpadded) is written out.
- **Processes** (`Process`, `Decimal`, `Text`, `Sorting`). Parsing `/proc/<pid>/stat`, whose second
  field may hold spaces and parentheses.

Doubles are exact reals with infinities and NaN. Unsigned and signed 64-bit quantities are bounded, and
saturation and wrap-around are written out. Strings are sequences of characters; where the code works
on UTF-8 bytes (request hashing, the size limit of a pairing code) the model does too.

Where the code and its documentation disagree, the model follows the code:

- `crates/sg-model/src/request.rs:79` calls the hash FNV-1a, but the multiplier on line 85 is not that
  hash's 64-bit prime. It is odd, which is what the proofs need.
- `crates/sg-model/src/request.rs:70` calls ids collision-resistant. Distinct requests can have the same
  encoding, hence the same id: `Request.EncodingsAgree` says for any two requests when, and
  `Request.TwinIff` for which requests there is another one. Requests a batch has a command for are
  among them (`Request.ServedIdsCollide`); `Batching.TruthfulIffNoCollisions` says what that does to a
  batch. Requests to the host without NUL bytes are safe (`Request.EncodingIsInjective`).
- `crates/sg-sync/src/pairing.rs:76` measures the pairing code in bytes, not characters.

## Model

| member | source | states |
|---|---|---|
| LifecycleTheorems.ReachableInv | crates/sg-ffi/src/lib.rs:144-447 | in every interleaving of UI threads, current and aborted poll loops, generations, slot, inboxes, the log of handed-over commands and retry traces stay consistent |
| LifecycleTheorems.NoCommandCrossesSessions | crates/sg-ffi/src/lib.rs:192-216 | whatever command is handed to a session, it is the session that accepted it, in the run that accepted it |
| LifecycleTheorems.QueuedCommandsAreCurrent | crates/sg-ffi/src/lib.rs:428-436 | a queued command belongs to the session its loop is in, or is about to be refused |
| LifecycleTheorems.AcceptanceIsSound | crates/sg-ffi/src/lib.rs:204-215 | with the locks held, an Online snapshot means the loop in the slot is in a session, so the send cannot fail |
| LifecycleTheorems.AtMostOnceInOrder | crates/sg-ffi/src/lib.rs:396-424 | no command is handed over twice, and the commands of one run are handed over in acceptance order |
| LifecycleTheorems.WithdrawnIsNeverHandedOver | crates/sg-ffi/src/lib.rs:401-403 | in every run, a command not yet handed to its session when its caller times out, or is told anything, is not handed over for the rest of the run |
| LifecycleTheorems.ResolutionIsFinalAndTrue | crates/sg-ffi/src/lib.rs:221-240 | a caller is resolved in exactly one way for the rest of the run, and whether its command was handed to its session no longer changes: after an answer it was, after a transport failure it was and may or may not have run, after a refusal it was not, and after a timeout or a dropped connection it is not unless it already had been |
| LifecycleTheorems.UnansweredMeansHeld | crates/sg-ffi/src/lib.rs:396-436 | an unanswered command is held by the run that accepted it and by no other, which has not returned |
| LifecycleTheorems.RunExtends | crates/sg-ffi/src/lib.rs:144-447 | along any run the log of handed-over commands only grows, and no reply or caller outcome is ever revised |
| LifecycleTheorems.AtMostOneCurrentTask | crates/sg-ffi/src/lib.rs:155-164 | two poll loops never carry the same generation |
| LifecycleTheorems.OnlyTheCurrentLoopPublishes | crates/sg-ffi/src/lib.rs:314-319 | a loop step that changes the snapshot is one of the current generation's loop, the one in the slot |
| LifecycleTheorems.IdleFromStopToStart | crates/sg-ffi/src/lib.rs:244-256 | from the end of `stop` until the next `start` publishes, the state is Idle, though aborted loops keep stepping |
| LifecycleTheorems.EveryPublishedSnapshotIsConsistent | crates/sg-ffi/src/view.rs:233-245 | in every reachable state the published verdict is the one its own state and gauges deserve |
| LifecycleTheorems.FirstTickIsHeldBack | crates/sg-ffi/src/lib.rs:357-378 | in every run a tick is only published after a connect; the first one since leaves the readings on screen as they were and only announces Online, each later one shows its own readings |
| LifecycleTheorems.LoopsRememberTheRun | crates/sg-ffi/src/lib.rs:339-362 | the session number of a loop is the number of connects in its past, and its first-tick flag says whether it has published since the last of them |
| LifecycleTheorems.LookingGoodMeansConnected | crates/sg-ffi/src/view.rs:234-245 | in every reachable state a host shown as doing well is online with the current loop in a session, and one is shown as offline exactly while its connection is lost or has failed |
| LifecycleTheorems.RetryLadder | crates/sg-ffi/src/lib.rs:339-353 | the wait after the first failure since the last connect is 1 s, then 2, 5, 10 and 20 s, and 30 s from the sixth on; a lost session waits what it announced, every later attempt follows a wait, and nothing follows an unrecoverable error |
| LifecycleTheorems.RetryWaitsGrow | crates/sg-core/src/runtime.rs:16-25 | within a streak of failures waits never shrink and last between 1 and 30 seconds |
| LifecycleTheorems.ScreenShowsTheRealWait | crates/sg-ffi/src/lib.rs:379-384 | while the screen announces a retry in r, the current loop is serving, or about to serve, a wait of exactly r |
| LifecycleOutcomes.CallersHearTheHost | crates/sg-ffi/src/lib.rs:404-415 | in every run, an output a caller was given is the one the host gave to that very command, while the loop that accepted it awaited it; a failure it was given is the one that broke it off |
| LifecycleOutcomes.RepliesAreWhatHappened | crates/sg-ffi/src/lib.rs:396-436 | a command has been answered in some way exactly if the step that does so was taken for it: answered or broken off in the hands of its loop, refused by the drain, dropped as withdrawn or with an aborted loop |
| LifecycleOutcomes.CallersEndAsTheyDid | crates/sg-ffi/src/lib.rs:221-240 | a caller has timed out, or was told this very reply, exactly if it did or read it |
| LifecycleOutcomes.OnlyStopAborts | crates/sg-ffi/src/lib.rs:244-256 | a loop is told to end exactly if a `stop` found it in the slot, and stays told |
| LifecycleStory.TracesRetellTheRun | crates/sg-ffi/src/lib.rs:328-446 | the trace of a loop is the story its steps tell: every failure it met, whether it could be retried, every connect, and every wait with the length the failures since the last connect call for |
| LifecycleStory.SessionsAreStretches | crates/sg-ffi/src/lib.rs:355-386 | a loop is in a session exactly from each connect until it reports a loss or is cancelled |
| LifecycleStory.CommandsWaitForTheGap | crates/sg-ffi/src/lib.rs:386-424 | in every run a loop takes up commands only between two refreshes, after the first tick of its session has been published |
| LifecycleStory.AtMostOneLiveLoop | crates/sg-ffi/src/lib.rs:144-166 | however often `start` and `stop` are called, at most one loop is at work that has not been told to end |
| LifecycleStory.ScreenTellsTheRun | crates/sg-ffi/src/lib.rs:314-384 | in every reachable state the screen says where the current loop is: Connecting, Online from the first tick of a session, the coming attempt after a loss, and after a failed connect what its error said and whether it is tried again |
| LifecycleReach.CommandsGetThrough | crates/sg-ffi/src/lib.rs:144-424 | from a target just added, a start, a connect and a tick lead to a state in which any command is accepted, handed over, answered, and its caller told the output |
| LifecycleReach.CommandsAreServed | crates/sg-ffi/src/lib.rs:396-415 | whenever the running loop is between refreshes with nothing queued, a command is served in four steps that change nothing else |
| LifecycleReach.RefreshesGoRound | crates/sg-ffi/src/lib.rs:364-394 | from every refresh after the first, the tick's own readings go on screen and the loop comes round to the next |
| LifecycleReach.LoopsConnect | crates/sg-ffi/src/lib.rs:330-378 | a loop about to connect can be online four steps on, its failure count reset and the readings on screen as they were |
| LifecycleReach.AbortedLoopsEnd | crates/sg-ffi/src/lib.rs:244-256 | wherever an aborted loop is, it can end, and drops exactly the commands it holds |
| LifecycleReach.EndedTargetsRestart | crates/sg-ffi/src/lib.rs:144-166 | a target whose loop has ended can be started again, with a fresh loop of a new generation |
| LifecycleControl.StepKeepsControl | crates/sg-ffi/src/lib.rs:144-166 | every step keeps generations increasing, the slot and lock discipline, and a live session of the current loop behind every Online state |
| LifecycleControl.LoopKeepsOnline | crates/sg-ffi/src/lib.rs:379-384 | every session loss of the current loop leaves Online before anything is drained |
| LifecycleJobs.StepKeepsJobs | crates/sg-ffi/src/lib.rs:192-216 | every step keeps inboxes to pending jobs of the loop's current session and the log in step with acceptance |
| LifecycleJobs.AcceptedWhileInSession | crates/sg-ffi/src/lib.rs:197-216 | a command can only be accepted while the loop in the slot is in a session |
| LifecycleJobs.AbandonKeepsJobs | crates/sg-ffi/src/lib.rs:228-232 | a loop that ends or is aborted resolves every command it still holds, by dropping its reply channel |
| LifecycleRetry.StepKeepsRetry | crates/sg-ffi/src/lib.rs:328-355 | every step keeps the failure count and the trace of connects, losses and sleeps in step |
| LifecycleRetry.WaitsNeverShrink | crates/sg-core/src/runtime.rs:20-25 | two waits of a well-formed trace with no connect between them: the later is at least as long |
| LifecycleScreens.NoSeriesTwiceOnScreen | crates/sg-ffi/src/view.rs:428-488 | in every reachable state of every run whose loops read their own stores, no series is on screen twice, across headline and groups |
| LifecycleScreens.ChartsTheSession | crates/sg-core/src/runtime.rs:161-164 | every gauge of a newly published screen charts the last `window` finite values its series was given since the loop last connected and it last appeared, and reads the last of them |
| LifecycleScreens.NoChartReachesBack | crates/sg-core/src/runtime.rs:161-164 | every value on a newly published chart is a finite sample of its series, brought by a refresh of the same loop with no connect since |
| LifecycleScreens.PublishedReadsItsSession | crates/sg-ffi/src/lib.rs:364-378 | whatever happens between a refresh and its publication, what is published is the store of the session the loop is in |
| LifecycleScreens.RefreshOpsRefresh | crates/sg-core/src/runtime.rs:194-206 | the store operations a session is made of are, refresh by refresh, those of the runtime's tick |
| Connection.BackoffNeverShrinks | crates/sg-core/src/runtime.rs:22-25 | the schedule is non-decreasing in the number of failures |
| Connection.BackoffSchedule | crates/sg-core/src/runtime.rs:20-25 | 1, 2, 5, 10, 20 seconds for the first five failures in a row, 30 from then on |
| Target.Target.constructor | crates/sg-ffi/src/lib.rs:125-138 | a freshly added target is idle, has no task, and satisfies the invariant of every run |
| Target.Target.Start | crates/sg-ffi/src/lib.rs:144-166 | does nothing while a task runs; otherwise takes the four steps of a start, and leaves a new current loop with an empty inbox in the slot and Connecting on screen |
| Target.Target.Stop | crates/sg-ffi/src/lib.rs:244-256 | takes the two steps of a stop: the task is aborted and removed, no loop is current, and the state is Idle |
| Target.Target.Accept | crates/sg-ffi/src/lib.rs:196-216 | enqueues exactly one job at the back of the running loop's inbox, tagged with its session, if and only if the checks pass |
| Target.Target.PublishTick | crates/sg-ffi/src/lib.rs:367-378 | the first tick of a session only announces it; later ones replace the snapshot, if the generation is still current |
| Target.Target.ServeNext | crates/sg-ffi/src/lib.rs:396-424 | a withdrawn command is dropped; any other is handed to the session and answered with what came back: the host's output, or the failure, which ends the session |
| Target.Target.LoseSession | crates/sg-ffi/src/lib.rs:379-446 | publishes the loss with the retry it announces, then refuses every queued command in order, then sleeps or ends; the inbox is empty and a current loop is no longer Online |
| Target.Target.Drain | crates/sg-ffi/src/lib.rs:430-436 | the drain loop refuses exactly the queued commands and leaves the rest of the loop alone |
| Target.Target.FailConnect | crates/sg-ffi/src/lib.rs:339-353 | a failed connect is published, then slept on if transient and final otherwise |
| Target.PathsKeepInv | crates/sg-ffi/src/lib.rs:144-447 | whatever path a call takes, the invariant of every run survives it |
| Batching.BatchingPreservesTheTick | crates/sg-core/src/collector.rs:93-141 | for any host and sources that read only what they declared, the merged batch gives the tick that separate fetches would, if no two declared requests share an id unless the host serves neither |
| Batching.TruthfulIffNoCollisions | crates/sg-transport/src/frame.rs:64-107 | for every host the merged batch answers each declared request the host can serve as the host would, and the others not at all, exactly when no two declared requests share an id unless the host serves neither |
| Batching.ParsersSeeSuccesses | crates/sg-model/src/request.rs:164-174 | without collisions a parser sees, of each request its source declared, the body of the host's own answer if the host serves it with exit code 0, and nothing otherwise |
| Batching.CollisionsExist | crates/sg-transport/src/frame.rs:85-92 | the condition is not idle: there are two requests a batch has a command for, and a host, such that the merged batch gives one the answer to the other |
| Batching.MergedListIsMinimal | crates/sg-core/src/collector.rs:88-106 | the merged list covers every declared id, repeats none and keeps first-seen order |
| Collector.WantedIsGathered | crates/sg-core/src/collector.rs:93-106 | what a refresh wants is what each source asks for, source by source |
| Batching.FailureCostsOnlyItself | crates/sg-core/src/collector.rs:113-125 | a tick with failing parsers is the tick of the working ones, plus one error for each that failed |
| Collector.Collector.Requests | crates/sg-core/src/collector.rs:93-106 | the nested loops compute the first-seen list of what the applicable sources want |
| Collector.ApplicableIff | crates/sg-core/src/collector.rs:73-86 | a source is asked exactly if it is switched on and the host meets its requirements |
| Collector.ApplicableConcat | crates/sg-core/src/collector.rs:73-86 | leaving sources out keeps the order of the others |
| Collector.Collector.Collect | crates/sg-core/src/collector.rs:109-141 | the tick holds what every parser that succeeded produced, counters as rates, an error per parser that failed; the engine remembers the new readings |
| Collector.TickHoldsEverything | crates/sg-core/src/collector.rs:109-141 | a tick holds, source by source, every series and sample the parsers that succeeded returned, their entities merged, and exactly the errors of the others |
| Collector.DedupEntities | crates/sg-core/src/collector.rs:153-171 | the map-and-order loop computes the merged entity list |
| Collector.DedupKeepsEverything | crates/sg-core/src/collector.rs:149-171 | each reported id appears once, where and as first reported, with every label anybody gave it, later ones winning |
| Rate.RateEngine.Process | crates/sg-core/src/rate.rs:44-96 | evicts, remembers and emits what the fold over the samples says |
| Rate.RateEngine.Reset | crates/sg-core/src/rate.rs:98-102 | no baseline survives |
| Rate.BaselineIsLatestReading | crates/sg-core/src/rate.rs:52-79 | over any run the remembered reading of a series is its latest since it was last undeclared, not a counter, or reset |
| Rate.OneReadingIsEnough | crates/sg-core/src/rate.rs:33-96 | over any run each tick's output is what the full history dictates: a rate exactly when an earlier reading exists, time advanced and the counter did not go back |
| Rate.RateIsHonest | crates/sg-core/src/rate.rs:73-92 | a rate is given exactly when time advanced and the counter did not go back, and over the measured seconds it accounts for the scaled increase |
| Rate.RateIsPerSecond | crates/sg-core/src/rate.rs:73-92 | a rate times the milliseconds between its readings is a thousand times the scaled increase, for any span a difference of timestamps can hold |
| Rate.FirstTickHasNoRates | crates/sg-ffi/src/lib.rs:357-362 | with nothing remembered, as after every connect, a tick with one reading per counter carries its other samples and no rate, which is why it is held back |
| Rate.EmittedAreTheRates | crates/sg-core/src/rate.rs:73-92 | a continuously declared counter yields the rates between its consecutive readings and nothing else |
| Rate.RatesConserveTheCounter | crates/sg-core/src/rate.rs:73-92 | emitted values times measured seconds over scale add up to the last raw reading minus the first |
| Rate.RatesConserveTheSamples | crates/sg-core/src/rate.rs:69-92 | over a run that samples a counter in natural numbers, signed or not, the emitted rates add up to the last number sampled minus the first |
| Model.CountersAreNaturals | crates/sg-model/src/series.rs:48-55 | the readings that count are the unsigned ones and the signed ones that are not negative, each as the number it charts as |
| Model.NumbersChart | crates/sg-model/src/series.rs:35-46 | a reading charts as a number exactly if it stands for it: doubles, integers, truth values, never text |
| Model.LastDeclarationWins | crates/sg-core/src/rate.rs:44-50 | of several declarations of a series in one tick the last is in force |
| Store.PushBounded | crates/sg-core/src/store.rs:73-80 | push and pop-front leave the last `window` points |
| Store.LiveStore.constructor | crates/sg-core/src/store.rs:44-52 | an empty store with a window of at least one |
| Store.LiveStore.Ingest | crates/sg-core/src/store.rs:58-89 | entities and descriptors are upserted and samples recorded, as the specification step says |
| Store.LiveStore.RetainSeries | crates/sg-core/src/store.rs:93-98 | series not declared are forgotten in all three maps |
| Store.LiveStore.RetainEntities | crates/sg-core/src/store.rs:104-119 | absent entities go, and with them the descriptor, history and text of their series |
| Store.LiveStore.Clear | crates/sg-core/src/store.rs:194-199 | nothing is left |
| Store.HistoryIsWindowOfLog | crates/sg-core/src/store.rs:58-119 | after any operations each history is the last `window` finite values, oldest first, of the log kept since the series last appeared |
| Store.DeclarationsAgree | crates/sg-core/src/store.rs:67-69 | the stored descriptor of a series is the declaration still in force |
| Store.EntityIsLastReport | crates/sg-core/src/store.rs:58-66 | after any operations an entity is held exactly while it is reported, as it was last reported |
| Store.NumbersArePoints | crates/sg-core/src/store.rs:71-81 | a sample becomes a point exactly if it stands for a finite number, with that number, at its own time |
| Store.WindowIsAHardCap | crates/sg-core/src/store.rs:8-10 | no history ever exceeds the window |
| Store.TextIsLatest | crates/sg-core/src/store.rs:82-86 | after any operations the text of a series is the last it was given since it last appeared, and there is one exactly if it was given any |
| Store.NoLeftovers | crates/sg-core/src/runtime.rs:194-206 | after a refresh descriptors are exactly this tick's whose entity is the host or was reported, history and text only for those, entities only the host and those reported |
| Runtime.TargetRuntime.Connect | crates/sg-core/src/runtime.rs:120-170 | success forgets all baselines and points; each kind of failure leaves its own state, and the screen's data alone |
| Runtime.TargetRuntime.Tick | crates/sg-core/src/runtime.rs:176-209 | one round trip, or none when the host serves nothing that is wanted; the tick is the assembled one and the store holds nothing else; a failure costs session and baselines but not the data |
| Runtime.TargetRuntime.Take | crates/sg-core/src/runtime.rs:194-206 | the answers are parsed against the remembered baselines, the store takes the tick and keeps nothing else, and session and state are untouched |
| Runtime.TargetRuntime.Fetch | crates/sg-core/src/runtime.rs:182-192 | one batch on the open session: its answers, or the loss of session and baselines |
| Runtime.SendBatch | crates/sg-transport/src/session.rs:262-268 | a batch of requests none of which the host serves costs no round trip and answers nothing |
| Runtime.TargetRuntime.SetSourceEnabled | crates/sg-core/src/runtime.rs:88-90 | a source switched off is asked nothing, whatever the host can do |
| Runtime.TargetRuntime.RunCommand | crates/sg-core/src/runtime.rs:224-259 | one round trip, nothing else touched; a transport failure costs the session |
| Runtime.TargetRuntime.OnDisconnect | crates/sg-core/src/runtime.rs:274-290 | no session, no baselines; a transient error announces the schedule's wait for the new failure count, others are final |
| Request.Feed | crates/sg-model/src/request.rs:82-87 | the byte loop computes the fold of xor and odd multiply modulo 2^64 |
| Request.Id | crates/sg-model/src/request.rs:78-119 | feeding the parts one after another is hashing the whole encoding |
| Request.IdDeterminesHash | crates/sg-model/src/request.rs:118 | an id is 16 lower-case hex digits that read back as the hash; ids agree exactly when hashes do |
| Request.ScrambleInjective | crates/sg-model/src/request.rs:85 | multiplying by the constant modulo 2^64 loses nothing |
| Request.OneByteDifferenceIsSeen | crates/sg-model/src/request.rs:82-87 | equal-length encodings that differ in exactly one byte never hash alike |
| Request.ByteGoesInLow | crates/sg-model/src/request.rs:84 | a byte is mixed into the low eight bits bit by bit, and the others are left alone |
| Request.EncodingsAgree | crates/sg-model/src/request.rs:88-117 | any two requests are encoded alike exactly when they are equal up to the boundaries the encoding does not mark: between arguments at NUL bytes, and all of them in an HTTP request |
| Request.TwinIff | crates/sg-model/src/request.rs:88-117 | some other request has a request's encoding exactly when it is HTTP, has two or more arguments, or has a NUL byte in its only one |
| Request.HttpAgreeIffEqual | crates/sg-model/src/request.rs:104-116 | HTTP requests whose methods and headers are equally long, piece by piece, are encoded alike only if they are equal |
| Request.ServedIdsCollide | crates/sg-model/src/request.rs:97-103 | two different requests a batch has a command for have one id |
| Request.Responses.Text | crates/sg-model/src/request.rs:164-174 | there is text exactly for a request answered with exit code 0, and it is that answer's body |
| Request.EncodingIsInjective | crates/sg-model/src/request.rs:88-117 | on remote requests without NUL bytes the encoding is injective |
| Request.HttpEncodingsCollide | crates/sg-model/src/request.rs:104-116 | two HTTP requests whose method and URL run together have one id |
| Merge.Merge | crates/sg-sync/src/merge.rs:44-84 | the two loops compute the specified merge |
| Merge.MergeIsUnion | crates/sg-sync/src/merge.rs:51-81 | merged hosts and pins are the left-biased unions by identity and by pinned host |
| Merge.MergeIsAssociative | crates/sg-sync/src/merge.rs:44-84 | three payloads give the same host and pin lists whichever pair merges first |
| Merge.MergeIsIdempotent | crates/sg-sync/src/merge.rs:44-84 | merging the same payload again adds nothing and reports the same conflicts |
| Merge.PinsAreLeftBiased | crates/sg-sync/src/merge.rs:62-80 | existing lines stay a prefix, no held answer changes, and new hosts answer as the first usable incoming line |
| Merge.EverythingIsAccountedFor | crates/sg-sync/src/merge.rs:51-81 | every incoming host is added or kept; the usable pin lines are the added ones, the reported conflicts and the repetitions of a line already held |
| Merge.PinFields | crates/sg-sync/src/merge.rs:33-42 | a pin line is its host, a whitespace character, and a key that is all the rest but the space around it |
| Merge.ConflictIffKeysDiffer | crates/sg-sync/src/merge.rs:62-80 | a key for a held host is a conflict naming both lines exactly if it differs from the one held; the key of another host is added |
| Merge.CommentsAreIgnored | crates/sg-sync/src/merge.rs:62-66 | blank lines and comments, indented or not, change nothing |
| Merge.HostsAreOneIff | crates/sg-sync/src/merge.rs:51-60 | two hosts are one exactly if address, port and user agree, and the held one is kept |
| Pairing.OfferRoundTrip | crates/sg-sync/src/pairing.rs:62-132 | decoding what was encoded returns the offer exactly when it has 1 to 32 non-empty, trimmed, comma-free addresses and fits in 4096 bytes |
| Pairing.DecodeIsStable | crates/sg-sync/src/pairing.rs:73-132 | whatever decodes re-encodes to text that decodes to the same offer |
| Pairing.FutureVersionsAreNamed | crates/sg-sync/src/pairing.rs:80-90 | a code is refused by naming a version exactly when it is of that version and not this one |
| Pairing.BothSidesAgree | crates/sg-sync/src/pairing.rs:180-225 | both roles of a handshake derive the same key and code, or fail alike |
| Pairing.HandshakeDerives | crates/sg-sync/src/pairing.rs:180-225 | a handshake succeeds exactly if the peer's key contributes and both derivations yield; key and six-digit code come from the shared secret, salted with the offerer's key before the accepter's |
| Pairing.TranscriptReadsBack | crates/sg-sync/src/pairing.rs:197-201 | the transcript is the version, the offerer's key, the accepter's key and the nonce, in that order |
| Pairing.TranscriptsTellExchangesApart | crates/sg-sync/src/pairing.rs:191-201 | two exchanges have one transcript only if they are the same, and swapping the roles makes another |
| Pairing.ShownIsTheCode | crates/sg-sync/src/pairing.rs:235-239 | the shown text is two groups of three digits that read back as the code |
| Pairing.SameScreenSameCode | crates/sg-sync/src/pairing.rs:235-239 | two screens show the same text exactly when they hold the same code |
| Pairing.OpenInvertsSeal | crates/sg-sync/src/pairing.rs:241-267 | what one side seals the other opens, and sealing costs 28 bytes |
| Pairing.OpensIff | crates/sg-sync/src/pairing.rs:256-267 | what opens is a nonce of 12 bytes and a body that decrypts under it; anything shorter is refused as cut off |
| Base64.DecodeEncode | crates/sg-sync/src/pairing.rs:63-68 | decoding what was encoded returns the bytes |
| Base64.EncodeDecode | crates/sg-sync/src/pairing.rs:103-112 | only the canonical text of some bytes decodes: re-encoding gives the text back |
| Base64.StandardExamples | crates/sg-sync/src/pairing.rs:63-68 | examples of section 10 of RFC 4648, unpadded, and the URL-safe characters |
| Transfer.BigEndianRoundTrip | crates/sg-sync/src/transfer.rs:223-227 | the length prefix is exact |
| Transfer.ByteStream.ReadExact | crates/sg-sync/src/transfer.rs:258-275 | filling a buffer takes exactly the next bytes of the stream, however it is cut up, or fails if there are too few |
| Transfer.WritePayload | crates/sg-sync/src/transfer.rs:211-239 | appends exactly one frame to the stream, or nothing on an error |
| Transfer.AcceptTransfer | crates/sg-sync/src/transfer.rs:254-278 | the result depends only on the bytes of the stream, not on their chunks |
| Transfer.SentIsReceived | crates/sg-sync/src/transfer.rs:211-278 | every plaintext the sender accepts is within the receiver's limit and opens to the same bytes |
| Transfer.SenderLimitIsTheReceivers | crates/sg-sync/src/transfer.rs:216-225 | the sender refuses exactly what the receiver would |
| Transfer.ReceivedByLength | crates/sg-sync/src/transfer.rs:254-278 | an announced length over a mebibyte is refused, a short stream stopped early, and anything else opened, whatever follows |
| Transfer.DeliverAcrossAnyChunking | crates/sg-sync/src/transfer.rs:198-278 | from handshake to payload: the other device reads the plaintext, whatever the chunks |
| Process.ParseProcessStats | crates/sg-collect/src/process.rs:46-81 | the line loop keeps what each line parses to, in order |
| Process.LineRoundTrip | crates/sg-collect/src/process.rs:41-78 | a kernel line is read back exactly for any name, spaces and parentheses included |
| Process.TableRoundTrip | crates/sg-collect/src/process.rs:46-81 | a printed table is read back exactly if and only if no name contains a newline |
| Process.ParsedNamesHaveNoNewline | crates/sg-collect/src/process.rs:49 | whatever the text, no parsed name contains a newline |
| Process.ReadIff | crates/sg-collect/src/process.rs:49-62 | a line is read exactly if a process id precedes a name between its first opening and last closing parenthesis, and that is the name |
| Process.SkippedIff | crates/sg-collect/src/process.rs:49-60 | every other line is skipped |
| Process.MissingFieldsReadZero | crates/sg-collect/src/process.rs:66-77 | a line cut short reads as zero from there on, so the process is not listed |
| Process.Select | crates/sg-collect/src/process.rs:134-139 | retain, sort and truncate |
| Process.CutKeepsTheLargest | crates/sg-collect/src/process.rs:17-23 | the cut loses nothing but resident processes no larger than any it keeps, and is sorted |
| Process.TableListsTheLargest | crates/sg-collect/src/process.rs:134-139 | the table lists at most 256 processes, only resident ones, largest first, those of one size in the order read, and all of them if there is room |
| Plain.VerdictIsTheWorstReading | crates/sg-ffi/src/plain.rs:53-229 | the level is the maximum of seven independent judgements, headline and quoted number those of the most urgent subject that reaches it |
| Plain.WorseReadingsNeverLookBetter | crates/sg-ffi/src/plain.rs:105-228 | readings that only rise never improve the verdict |
| Plain.LooksGoodIff | crates/sg-ffi/src/plain.rs:64-92 | a host looks good exactly when it is online, has readings, and none is over a threshold |
| Plain.VitalsAreFirstReadings | crates/sg-ffi/src/plain.rs:95-221 | each subject is judged by the first gauge of its metric; for stalls the averaged metric comes before the momentary one |
| Plain.VerdictThresholds | crates/sg-ffi/src/plain.rs:30-53 | a problem exactly from 90 % storage or memory, 40 % storage stalls, 20 % memory stalls or 90 degrees; busy besides exactly from 80, 85, 20 % queueing, 80 degrees or 85 % |
| Plain.MemoryIsAccountedFor | crates/sg-ffi/src/plain.rs:96-127 | a machine out of memory is told how much is free, of how much, exactly if both readings are there |
| Plain.GoodNewsIsUptime | crates/sg-ffi/src/plain.rs:225-228 | a machine that is well says how long it has been up, if that is known |
| Plain.NoReadingsNoVerdict | crates/sg-ffi/src/plain.rs:64-92 | without a connection or readings the verdict is about that alone, a failure with its own message |
| View.ShowHeadline | crates/sg-ffi/src/view.rs:428-443 | filter, convert and sort compute the headline grid |
| View.ShowDetails | crates/sg-ffi/src/view.rs:450-488 | filing every gauge and then sorting groups computes the detail groups |
| View.FileDetails | crates/sg-ffi/src/view.rs:450-471 | the loop that grows the groups computes the gathering of the listed entries |
| View.DrawGauge | crates/sg-ffi/src/view.rs:368-391 | from the store's newest point and window, the gauge of a series, or none for text and for series without a point |
| View.ArrangeGroups | crates/sg-ffi/src/view.rs:473-479 | every group is sorted in place, and nothing else changes |
| View.SetState | crates/sg-ffi/src/view.rs:233-245 | the state is replaced and the readings are not, and the verdict is the one the new state and those readings deserve |
| View.Placeholder | crates/sg-ffi/src/view.rs:247-268 | no readings, and the verdict that deserves |
| ViewTheorems.EverySeriesIsShownOnce | crates/sg-ffi/src/view.rs:428-488 | across headline and groups each numeric host series appears exactly once, and series of ungrouped sources only as headlines |
| ViewTheorems.HeadlineShowsOnce | crates/sg-ffi/src/view.rs:428-443 | the grid has each numeric series of a headline metric once and nothing else |
| ViewTheorems.DetailsShowOnce | crates/sg-ffi/src/view.rs:445-488 | the groups have each remaining listed series once and nothing else |
| ViewTheorems.SectionsAreProper | crates/sg-ffi/src/view.rs:464-487 | one section per title that occurs, holding exactly the gauges filed under it in display order, the sections ordered by their first metric |
| ViewTheorems.HeadlineIsInOrder | crates/sg-ffi/src/view.rs:436-442 | the grid is in its fixed order |
| ViewTheorems.ScreenIsStable | crates/sg-core/src/store.rs:162-171 | whatever order the hash map iterates in, headline and groups are the same, for every store made of descriptors built by the constructors |
| ViewTheorems.MetricsAreDistinct | crates/sg-model/src/ids.rs:93-104 | ids being made of entity and metric, no entity ever has two series of one metric |
| ViewTheorems.ListingIsStableIff | crates/sg-core/src/store.rs:163-171 | for descriptors made by hand, the listing is independent of the iteration order exactly when no two series share a metric |
| Model.GaugeSeries | crates/sg-model/src/series.rs:124-146 | the descriptor's id is that of its metric on its entity |
| Model.CounterSeries | crates/sg-model/src/series.rs:148-161 | likewise, and the series is differentiated |
| Model.InfoSeries | crates/sg-model/src/series.rs:163-174 | likewise, and the series is text |
| ViewTheorems.StoresAreKeyed | crates/sg-core/src/store.rs:67-69 | every store operations can produce files each descriptor under its own id |
| ViewTheorems.GaugeIsTheEndOfItsLog | crates/sg-ffi/src/view.rs:368-391 | after any operations a series draws a gauge exactly if it is numeric and was given a finite value since it last appeared; its chart is the last `window` of those values and its reading the last |
| ViewTheorems.GaugesAreLabelled | crates/sg-ffi/src/view.rs:368-391 | a gauge has its series' name and label, the maximum declared or else the natural one of its unit, the unit of what is shown, and is graded by the numbers it shows |
| ViewTheorems.NewestNumberIsShown | crates/sg-ffi/src/view.rs:373-381 | after a tick, the last number it sampled of a series is the reading of its gauge |
| ViewTheorems.HeadlineTiles | crates/sg-ffi/src/view.rs:280-290 | the nine tiles and their places |
| ViewTheorems.UnplacedComeLast | crates/sg-ffi/src/view.rs:360-366 | detail gauges without a place of their own come after all that have one |
| ViewTheorems.SectionsOfCollectors | crates/sg-ffi/src/view.rs:343-358 | six collectors have a section each to themselves, two are not listed, and all others share one |
| Model.RatesHaveUnits | crates/sg-model/src/unit.rs:51-61 | five units have a rate of their own, all others are left as they are |
| Model.SeriesIdsTellApart | crates/sg-model/src/ids.rs:93-104 | series ids agree exactly if entity and metric do, for entities without a `#` |
| ViewTheorems.SeverityIsAShare | crates/sg-ffi/src/view.rs:402-425 | severity is a share of the maximum, with more room for temperatures; no maximum, no level |
| Sorting.SortKeepsItems | crates/sg-ffi/src/view.rs:436-442 | a sort loses and invents nothing |
| Sorting.SortIsStable | crates/sg-core/src/store.rs:169 | items the order does not tell apart stay in the order they came in |

## Left out

- Front-ends, the C ABI layer and binding generation: foreign calls and wrappers.
- The SSH session, the bytes of its framing, quoting and capability probing: a batch is a function from requests to responses, or a transport error; which requests it skips is modelled.
- Sockets, listening, dialling and the 30 second limits of a transfer; the stream is bytes in arbitrary chunks.
- The internals of key agreement, key derivation and the cipher, and random generation: parameters with stated laws.
- Real time and scheduling: timeouts, completion of an abort and ends of sleeps are steps that may happen at any moment; no liveness is claimed.
- Floating-point rounding, and wrap-around of the generation counter.
- Iteration order of hash maps: a parameter wherever it can be seen.
- The gap between finding a command's caller still waiting and writing the command to the session: one step of the model, so a caller that gives up within it counts as giving up after the hand-over, and whether a write that then fails reached the host is left open.
- Poll loops inside `Target`: a loop's shared effects are methods of the class, but its interleaving with other threads is only in the transition system, which a sequential method cannot express.
- The exit code and duration of a command: they travel with its output.
- The text of a command, trimming it, and the immediate answer to an empty one: nothing is queued for those.
- The break out of the gap when every sender is gone: the loop then refreshes at once, which the model's refresh step already allows at any time.
- That nothing runs after a target is removed, or that a queued command cannot begin after `stop` returns: neither is promised by the code, and only that no later run is handed it is proved.
- That merging a payload into itself is free of conflicts: false when a host has two pin lines or a held line starts with whitespace.
- View.BuildSnapshot: the entity tree, process table, simple tiles, host facts, errors and counters of a snapshot are not modelled, because they take no part in the verdict.
- Plain.Assess: the wording of a failure and the formatting of numbers are kept as the facts they are worded from, because wording is not a correctness property.
- Request.EncodingsAgree: says nothing about distinct encodings whose 64-bit hashes happen to agree, because a hash cannot exclude them; `Batching` takes the absence of such a pair as its condition.
- The remaining collectors (load, memory, pressure, TCP, sensors, disks, network, control groups): mostly one function each that picks fields.
