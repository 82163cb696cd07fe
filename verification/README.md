# SteelEagle: models and proofs

Dafny models of four connected parts of the SteelEagle stack, and proofs of what
they guarantee over whole runs. `dafny verify dfyconfig.toml` checks the project.

**The control-law authority** decides which commands reach a vehicle.
`Laws` and `Admission` are the specification of one call; `LawAuthority` is the
object with its fields and its shared lists, proved against it; `LawProtocol`,
`LawSafety` and `LawTheorems` let any number of coroutines interleave at their
awaits, under a readers/writer lock and with cancellation; `LawProgress` shows
why they never get stuck, `LawReentry` what may change between an await and the
next, `LawIdentity` what the identity of the authority's own commands does, and
`LawAlone` that an undisturbed coroutine comes to the specification again. `Failsafes` follows the lists that `failsafe` extends in place, `ShippedLaws` is the law
table of `vehicle/.laws.toml`, `Watchdog` the timed command loop.

**The swarm request/response protocol** numbers requests and files replies by
number. `SwarmController` holds the counter and the map; `SwarmProtocol`,
`SwarmSafety`, `SwarmReports` and `SwarmProgress` run any number of streams and vehicles over a
network that reorders and loses messages.

**The mission compiler and runtime.** `MissionCompiler` turns declarations and
`During` blocks into a transition map; `Resolver`, `ResolverMeaning`,
`ResolverLaws`, `ResolverPass` and `ResolverMission` say what the in-place
substitution of data achieves, and `MissionResolver` is that pass over objects;
`MissionRun` and `MissionProgress` race an action against events in concurrent
tasks; `Runtime`, `RuntimeProtocol`,
`RuntimeSafety` and `RuntimeTheorems` follow the channel, the store and the
mission's task through `init` and `term`.

**Area coverage.** `Transects`, `Crossings` and `Survey`, over `Geometry`,
`KeyedLists` and `RealArithmetic`, lay transects at any angle, pair their
crossings and sample the segments; `Coverage` puts them together. `AngleDistance` is the angle distance of the
position events.

## What the code does that one might not expect

- `match` reads the base rules second, so a base match overrides a match of the
  current law, although the comment at `vehicle/kernel/laws/authority.py:135`
  says the user's come first (`Laws.CurrentRulesDecideIff`). The shipped rule of
  REMOTE for ReturnToHome never takes effect
  (`ShippedLaws.ReturnToHomeStaysRemote`).
- `failsafe` extends the list of the law in place, so base commands pile up.
  They are sent once only under the condition of
  `Failsafes.BaseCommandsSentOnceIff`.
- `set_law` looks at the state before it takes the lock and not again, so a law
  that is in force may be entered again, with its whole batch. Two callers are
  enough (`LawReentry.TwoCallersEnterTwice`, and with the shipped laws
  `LawReentry.MissionStartedTwice`); `LawTheorems.ReentersIff` says exactly when
  it happens.
- That the authority's own commands carry the identity `authority` is what keeps
  the lock from deadlocking: under any other identity the vehicle would not
  start (`LawProgress.OtherIdentitiesDeadlock`), and without one no law would ever
  be in force (`LawIdentity.NoIdentityNoLaw`).
- `_race` raises again inside a `TaskGroup`, so a racer that fails ends the run
  with an exception and the branch that returns `terminate` for it is not
  reached (`MissionRun.RaisingEndsTheRun`).
- The one pass over the data resolves a reference to the datum itself or to a
  later one by that datum as declared. The constructors of the mission language
  reject what is not resolved, so such a reference raises if it matters and a
  pass that succeeds is right in any order
  (`ResolverPass.StrictPassIsFullSubstitution`).
- A segment shorter than the trigger distance still gets a second sample, past
  its end (`Survey.SamplesOnSegmentIffLongEnough`).
- A stream whose request or reply was lost polls for ever
  (`SwarmProgress.WaitingStreamsFinishIff`).
- `except Exception` does not catch a cancellation, so an `init` that is
  cancelled at an await leaves its channel open, and the next one overwrites the
  variable (`RuntimeTheorems.CutOffStartLosesAChannel`,
  `RuntimeTheorems.BalancedIffNoStartWasCut`). A `term` cancelled while it
  closes the channel leaves the variables out of step
  (`RuntimeTheorems.AlwaysMatchesIff`).
- The command handler asks for the law and calls `failsafe` in two awaits, so the
  failsafe for a lost server may run the list of a law other than REMOTE
  (`LawReentry.CallOvertakesWatchdog`; exactly when, by
  `LawTheorems.WatchdogFiresUnderAnotherLawIff`).
- `fsm_routine` is never set, so Start never answers that a mission is already
  running: it answers 2 and `init` ignores the call, exactly when the runtime is
  started (`RuntimeTheorems.StartIsIgnoredIff`,
  `RuntimeTheorems.AnsweredStartIsIgnoredOrLaunches`). After a racer has raised the
  runtime stays started, and then the 2 comes without any mission
  (`RuntimeTheorems.IgnoredStartHasNoMission`; exactly when, by
  `RuntimeTheorems.AnsweredStartHasMissionIff`).

## How it is modelled

- An await ends one atomic step. Handlers, the network, clocks, the cancellation
  of tasks and the order in which tasks run are chosen freely at each step.
- Numbers of the geometry are reals; an angle is a unit vector (c, s); the
  polygon library's crossings, lengths and `covers` are parameters.
- Sequence numbers are unbounded; the 32-bit limit of their field is not reached.
- Classes of a mission come from a registry given as functions; a constructor
  accepts or raises, and an instance is known by its class and its arguments.
  What pydantic checks enters as one hypothesis, `ResolverPass.Strict`, where it
  is needed.
- A command that a batch sends is a coroutine of its own and goes through the
  interceptor under the identity of the batch.

## Model

| member | source | states |
|---|---|---|
| `LawAuthority.LawAuthority.constructor` | vehicle/kernel/laws/authority.py:39-49 | a new authority has the loaded laws and no law in force |
| `LawAuthority.LawAuthority.SendCommands` | vehicle/kernel/laws/authority.py:201-262 | one result per command, in order: 5 for an unknown name, the RPC code plus 2 for an RPC error, else the status of the response |
| `LawAuthority.LawAuthority.Allows` | vehicle/kernel/laws/authority.py:118-127 | a call is allowed exactly when a pattern of the current or of the base law matches it; before the first law the check raises |
| `LawAuthority.LawAuthority.FirstMatch` | vehicle/kernel/laws/authority.py:140-149 | the loop with `break` yields the target of the first matching rule (`Laws.FirstTargetIsFirst`) |
| `LawAuthority.LawAuthority.Match` | vehicle/kernel/laws/authority.py:129-154 | the law becomes what `set_law` makes of the target, where a base match overrides a match of the current law; state and `_law` stay in step |
| `LawAuthority.LawAuthority.SetLaw` | vehicle/kernel/laws/authority.py:171-192 | an unknown law means REMOTE; the law changes exactly when every enter command completes; `_law` stays the entry of `_spec` named by `_state` |
| `LawAuthority.LawAuthority.Start` | vehicle/kernel/laws/authority.py:64-87 | startup commands first; the base law is entered only if all of them complete |
| `LawAuthority.LawAuthority.ExtendOwnList` | vehicle/kernel/laws/authority.py:161-165 | the list object of the law is extended in place by the base list and every other list keeps its contents |
| `LawAuthority.LawAuthority.Failsafe` | vehicle/kernel/laws/authority.py:156-169 | the whole table of failsafe lists afterwards, what was sent, and the error cases that leave every list alone |
| `LawAuthority.LawAuthority.GetLaw` | vehicle/kernel/laws/authority.py:194-199 | the state, and the entry of `_spec` it names |
| `LawAuthority.LawInterceptor.Intercept` | vehicle/kernel/laws/interceptor.py:16-59 | refused without an identity, let through for `authority`, both with the law unchanged; otherwise check, law change and handler as `Admission.Intercept` has it (see `Admission.WhoIsRefused`) |
| `Laws.GlobLiteral` | vehicle/kernel/laws/authority.py:89-101 | a pattern of literal characters matches itself only |
| `Laws.GlobPrefix` | vehicle/kernel/laws/authority.py:89-101 | a literal followed by one star is a prefix test |
| `Laws.GlobIff` | vehicle/kernel/laws/authority.py:89-101 | a pattern matches exactly the names that fall into one piece for each of its characters, a star standing for anything and a question mark for one character |
| `Laws.PayloadPattern` | vehicle/kernel/laws/authority.py:96-116 | a pattern with a payload matches a call by name whose request has every entry of the payload; one whose payload cannot be read, or with a second bar, matches none |
| `Laws.FirstTargetIsFirst` | vehicle/kernel/laws/authority.py:140-149 | the target belongs to a matching rule before which no rule matches; none exactly when no rule matches |
| `Laws.CurrentRulesDecideIff` | vehicle/kernel/laws/authority.py:136-149 | for every law book: the rules of the current law decide if and only if no base rule matches or the first base match names the same law |
| `Admission.OnlyPermittedMatchesChangeTheLaw` | vehicle/kernel/laws/authority.py:118-192 | if one admission changes the law, the call was permitted, it matched, the new law is its target (or REMOTE) and all enter commands completed; a call that is refused or raises changes nothing |
| `Admission.WhoIsRefused` | vehicle/kernel/laws/interceptor.py:28-48 | a call is refused if and only if it has no identity or, with a law in force and not from `authority`, no pattern of that law or of the base law matches; a call of `authority` reaches its handler and changes nothing |
| `Admission.WhatAnAdmittedCallDoes` | vehicle/kernel/laws/authority.py:129-192 | the outcome for an admitted call that asks for a law, by its first matching base rule or else its first matching rule: unchanged, failed, or the new law exactly if every enter command is known and answered by a response with status 2 |
| `Admission.WhatAnIdleCallDoes` | vehicle/kernel/laws/authority.py:136-154 | an admitted call that matches no rule reaches its handler under the same law |
| `LawAlone.UndisturbedCall` | vehicle/kernel/laws/interceptor.py:36-50 | a coroutine that runs undisturbed through the step system ends as `Admission.Intercept` says, for every identity, every batch length and every reply |
| `LawAlone.UndisturbedFailsafe` | vehicle/kernel/laws/authority.py:156-169 | a failsafe that runs undisturbed ends with the lists that the method leaves, or raises and leaves everything alone |
| `LawAlone.UndisturbedStart` | vehicle/kernel/laws/authority.py:64-87 | a start that runs undisturbed enters the base law exactly if every startup command and then every enter command is known and completes |
| `LawSafety.RunsKeepInv` | vehicle/kernel/laws/authority.py:118-199 | in every interleaving of any number of coroutines, with cancellation anywhere: the lock counts its holders, a writer is alone, the law is the last one committed, and the log is in order |
| `LawSafety.WriterIsAlone` | vehicle/kernel/laws/authority.py:160-182 | while one coroutine holds the write lock no other holds either lock |
| `LawTheorems.HandledCallsWerePermitted` | vehicle/kernel/laws/interceptor.py:36-50 | each call whose handler starts was permitted by the law in force at its own check |
| `LawTheorems.LawChangesOnlyAsAskedFor` | vehicle/kernel/laws/authority.py:129-154 | the law in force is always the last one committed, and every commit is for the start, after startup commands that all completed, or for the match of a call that was permitted before |
| `LawTheorems.LawChangesAreSerialised` | vehicle/kernel/laws/authority.py:171-192 | a commit closes an exclusive section in which exactly the enter batch of that law was sent, in order, and every result was a response saying COMPLETED, none an unknown name or an RPC error; an abandoned change leaves the law as it was |
| `LawTheorems.OnlyFailuresAbandon` | vehicle/kernel/laws/authority.py:181-184 | a change is abandoned only after some result other than COMPLETED |
| `LawTheorems.UnknownCommandsFail` | vehicle/kernel/laws/authority.py:235-239 | in every run a result is the error for unknown names, status 5, exactly for a command whose name is unknown; an RPC error has its code plus 2 and a response its own status |
| `LawTheorems.RejectedCallsChangeNothing` | vehicle/kernel/laws/interceptor.py:43-48 | a rejected call leaves no trace but its failed check: no handler, no command, no law change |
| `LawTheorems.FailsafeListsInEveryRun` | vehicle/kernel/laws/authority.py:160-165 | in every run each failsafe list is its original list and whole copies of the original base list |
| `LawTheorems.FailsafesAreComplete` | vehicle/kernel/laws/authority.py:160-169 | in every run every failsafe that ended sent, alone under the lock, the own commands of the law in force and then whole copies of the base list, at least one, and exactly k on the k-th firing of a law with its own list if none ran under the base law |
| `LawTheorems.ReentersIff` | vehicle/kernel/laws/authority.py:175-189 | in every run a call enters a law that is already in force if and only if the last commit since it was matched was to that law or, without one, its target is unknown and REMOTE was in force |
| `LawTheorems.WatchdogFiresUnderAnotherLawIff` | vehicle/kernel/handlers/command_handler.py:72-79 | in every run a failsafe of the watchdog follows a read of REMOTE by the same coroutine, and it fires under another law if and only if the last commit between that read and the firing was to another law |
| `LawReentry.TwoCallersEnterTwice` | vehicle/kernel/laws/authority.py:150-189 | for all laws: every run after which the lock is free and a permitted call can change the law has a continuation in which two such calls are matched one after the other, and there the second enters, with its whole batch, the law the first has entered |
| `LawReentry.MissionStartedTwice` | vehicle/.laws.toml:5-41 | with the shipped laws, after some start of the vehicle, two Mission.Start commands can enter LOCAL twice |
| `LawReentry.CallOvertakesWatchdog` | vehicle/kernel/handlers/command_handler.py:72-79 | from every run that ends under REMOTE with a free lock: a permitted call that can change the law has a continuation in which the watchdog reads REMOTE and its failsafe fires under the law the call asked for |
| `LawProgress.NoDeadlock` | vehicle/kernel/laws/interceptor.py:36-43 | with commands sent as the authority, in every reachable state in which a coroutine has not ended some coroutine can go on |
| `LawProgress.OtherIdentitiesDeadlock` | vehicle/kernel/laws/interceptor.py:36-43 | under any other identity the start of the vehicle reaches a state in which nobody can go on |
| `LawProgress.OtherIdentitiesGetStuck` | vehicle/kernel/laws/authority.py:177-182 | under any other identity the first command of any enter batch or failsafe waits for the lock that its own batch holds |
| `LawProgress.StuckStaysStuck` | vehicle/kernel/laws/authority.py:177-182 | and nothing but a cancellation of one of the two frees them |
| `LawProgress.ActionsLeaveLessWork` | vehicle/kernel/laws/authority.py:134-192 | every step and every cancellation leaves less work in the whole system, in a well-founded order |
| `LawProgress.EveryScheduleEnds` | vehicle/kernel/laws/authority.py:134-192 | from every reachable state every schedule of steps and cancellations brings all coroutines to their end |
| `LawIdentity.EntryIsTheDecision` | vehicle/kernel/laws/interceptor.py:28-36 | the step system starts a call as the interceptor decides on it: rejected without an identity, served for `authority`, checked otherwise |
| `LawIdentity.ResultIsTheCommands` | vehicle/kernel/laws/authority.py:245-262 | a result that a batch takes in is that of its own command once it has ended: code 7 if it was refused, an error if it crashed, its handler answer otherwise |
| `LawIdentity.NoIdentityNoLaw` | vehicle/kernel/laws/interceptor.py:30-35 | with commands sent without an identity every known one has status 9 and, if the base law has an enter command, no law is in force in any run |
| `Failsafes.BaseListDoubles` | vehicle/kernel/laws/authority.py:162-165 | firing under the base law appends the base list to itself: after any firings it is a power of the original |
| `Failsafes.ListsGrowByWholeCopies` | vehicle/kernel/laws/authority.py:162-165 | after any firings the list of any other law is its original contents and an exact number of copies of the original base list |
| `Failsafes.FiringSendsOwnThenBase` | vehicle/kernel/laws/authority.py:162-165 | the list read by a firing is the own commands of the law first, then the base commands at least once (for the commands sent in a run see `LawTheorems.FailsafesAreComplete`) |
| `Failsafes.KthFiringSendsKCopies` | vehicle/kernel/laws/authority.py:162-165 | in a law with its own list the list read by the k-th firing has exactly k copies of the base list, if none ran under the base law |
| `Failsafes.BaseCommandsSentOnceIff` | vehicle/.laws.toml:11-14 | the base commands are sent exactly once if and only if this is the first firing in a law with its own list, or one without, and none ran under the base law |
| `ShippedLaws.MatchingReadsPatterns` | vehicle/.laws.toml:6-39 | how the matcher reads each pattern of the shipped file, whatever payloads parse to |
| `ShippedLaws.WhoIsAllowed` | vehicle/.laws.toml:6-39 | the server may call anything under every shipped law; Control, Compute and Report of the mission and its notification are allowed under LOCAL alone |
| `ShippedLaws.Target` | vehicle/.laws.toml:7-41 | the law each command asks for under each shipped law |
| `ShippedLaws.AdmitOne` | vehicle/.laws.toml:5-41 | the law after one command; deciding commands always get through |
| `ShippedLaws.LocalIffMissionStartedLast` | vehicle/.laws.toml:5-41 | after any sequence of commands the law is LOCAL exactly when the last admitted deciding command was Mission.Start |
| `ShippedLaws.InternalControlIffMissionStartedLast` | vehicle/test/tests/law_test.py:24-33 | an internal Control command is admitted exactly then |
| `ShippedLaws.ReturnToHomeStaysRemote` | vehicle/.laws.toml:25-28 | the rule of REMOTE for ReturnToHome never takes effect, since the base rule overrides it |
| `Watchdog.HandleCommands` | vehicle/kernel/handlers/command_handler.py:52-89 | the rounds in which the failsafe fires are exactly those in which a silence first becomes overdue under REMOTE; every command is handed to a task; a frame that is no command or a failsafe that raises ends the loop |
| `Watchdog.SilenceFiresOnce` | vehicle/kernel/handlers/command_handler.py:72-80 | a silence of at least the timeout under REMOTE makes the loop fire in the round that finds it or before, and exactly once, unless an exception ended it |
| `Watchdog.OnlySilenceFires` | vehicle/kernel/handlers/command_handler.py:72-80 | and the loop fires for no other reason |
| `Watchdog.OnlyExceptionsEndTheLoop` | vehicle/kernel/handlers/command_handler.py:82-89 | the loop goes on exactly as long as every frame was a command and every failsafe returned, and hands each further command to a task |
| `Watchdog.FiresLate` | vehicle/kernel/handlers/command_handler.py:72-79 | a firing comes at least `timeout` after the last message, in a quiet round, under REMOTE |
| `Watchdog.MessageBetweenFires` | vehicle/kernel/handlers/command_handler.py:72-86 | between two firings a message arrived |
| `Watchdog.FiresNeverOutnumberMessages` | vehicle/kernel/handlers/command_handler.py:64-86 | there are never more firings than messages |
| `SwarmController.SwarmController.GetSequenceNumber` | backend/server/swarm_controller/swarm_controller.py:56-63 | issues the counter and advances it by one |
| `SwarmController.SwarmController.PollForResponse` | backend/server/swarm_controller/swarm_controller.py:65-71 | the recorded response for a number, if there is one |
| `SwarmController.SwarmController.FileResponse` | backend/server/swarm_controller/swarm_controller.py:94-109 | a reply is recorded under the number it carries, and nothing else changes |
| `SwarmSafety.RunsKeepInv` | backend/server/swarm_controller/swarm_controller.py:56-111 | the invariant of the protocol in every run with any number of streams and vehicles, reordering, loss and crashes |
| `SwarmSafety.NumbersAreInOnePlace` | backend/server/swarm_controller/swarm_controller.py:56-111 | issued numbers belong to different streams and each is in exactly one place: with its stream, on the way, running, returning, recorded or lost |
| `SwarmSafety.FinalResponseIsItsOwn` | vehicle/kernel/handlers/command_handler.py:39-50 | a stream that ends with a response yielded OK, IN_PROGRESS at least once, and then the response its own request produced on its own vehicle, in the only execution under its number |
| `SwarmReports.ReportsMatchPolls` | backend/server/swarm_controller/swarm_controller.py:74-92 | in every run each stream yields OK, IN_PROGRESS exactly once before each of its polls, and then the response, or an error right after OK exactly if its send failed |
| `SwarmProgress.PendingStreamsCanFinish` | backend/server/swarm_controller/swarm_controller.py:84-89 | from every state of the invariant a run exists that brings a waiting stream its response, unless its number was lost |
| `SwarmProgress.WaitingStreamsFinishIff` | backend/server/swarm_controller/swarm_controller.py:84-89 | from every reachable state a waiting stream can still end with a response if and only if its number is not lost |
| `MissionCompiler.Transformer.DuringBlock` | sdk/src/steeleagle_sdk/dsl/compiler/transformer.py:93-98 | the loop over the rules adds one block to what earlier blocks left |
| `MissionCompiler.Transformer.BuildTransitions` | sdk/src/steeleagle_sdk/dsl/compiler/transformer.py:161-176 | the two loops compute the compiled map |
| `MissionCompiler.Transformer.Transform` | sdk/src/steeleagle_sdk/dsl/compiler/transformer.py:61-98 | read in source order, the declarations and blocks give the last start named and a map in which every look-up is the target the rules as written prescribe |
| `MissionCompiler.CompiledLookupIsSourceTarget` | sdk/src/steeleagle_sdk/dsl/compiler/transformer.py:93-98 | a look-up in the compiled map gives the last rule in source order over all blocks, or `terminate` for `done` of a declared action, or nothing |
| `MissionCompiler.CompiledRunFollowsSource` | sdk/src/steeleagle_sdk/dsl/runtime/fsm.py:121-129 | for every sequence of winners the compiled mission visits the states the rules prescribe |
| `MissionCompiler.DeclaredRunsNeverFail` | sdk/src/steeleagle_sdk/dsl/compiler/transformer.py:172-176 | a run of a declared mission follows edges between declared states on declared events; no look-up is ever missing |
| `MissionCompiler.AcyclicMissionsTerminate` | sdk/src/steeleagle_sdk/dsl/runtime/fsm.py:33-36 | without a cycle a declared mission reaches `terminate` within as many visits as there are actions |
| `MissionRun.RunsKeepInv` | sdk/src/steeleagle_sdk/dsl/runtime/fsm.py:41-119 | the invariant of racing tasks, cancellation and the one-place queue, in every interleaving |
| `MissionRun.OneActionAtATime` | sdk/src/steeleagle_sdk/dsl/runtime/fsm.py:53-77 | at most one mission action executes at any moment and no racer outlives its state, also while the run is being stopped |
| `MissionRun.FirstFinisherDecides` | sdk/src/steeleagle_sdk/dsl/runtime/fsm.py:72-90 | a state that is left without an exception and without a stop is left by the edge of its first finisher: that of `done` for the action, its own for an event, `terminate` if there is none; an undeclared target or event ends the run with an exception |
| `MissionRun.StoppingEndsTheRun` | sdk/src/steeleagle_sdk/dsl/runtime/__init__.py:95-98 | a run that is cancelled enters no further state and has ended once its racers are over |
| `MissionRun.LateFinishersChangeNothing` | sdk/src/steeleagle_sdk/dsl/runtime/fsm.py:108-111 | a racer finishing later changes neither the winner nor the state |
| `MissionRun.RaisingEndsTheRun` | sdk/src/steeleagle_sdk/dsl/runtime/fsm.py:113-119 | once a racer has raised no further state is entered and the run does not end at `terminate` |
| `MissionRun.RunFollowsSource` | sdk/src/steeleagle_sdk/dsl/runtime/fsm.py:33-93 | compiled and run, a mission that did not end with an exception is in the state its rules prescribe for the racers that finished first, read off the steps alone |
| `MissionRun.OnlyRacersCrashADeclaredMission` | sdk/src/steeleagle_sdk/dsl/runtime/fsm.py:41-48 | a run of a declared mission ends with an exception only if a racer raised |
| `MissionRun.AcyclicRunsTerminate` | sdk/src/steeleagle_sdk/dsl/runtime/fsm.py:33-36 | a run of an acyclic declared mission leaves at most as many states as there are actions |
| `MissionProgress.RacersOfEveryState` | sdk/src/steeleagle_sdk/dsl/runtime/fsm.py:41-70 | the tasks of a state are exactly its action and one for each of its edges other than `done`, all of them running until the first ends |
| `MissionProgress.NoRunGetsStuck` | sdk/src/steeleagle_sdk/dsl/runtime/fsm.py:53-77 | as long as a run has not ended some racer can end or the run can go on |
| `MissionProgress.AnyRacerCanDecide` | sdk/src/steeleagle_sdk/dsl/runtime/fsm.py:72-90 | from every state of a run in which none has ended yet, each racer has a continuation in which its edge is followed |
| `Resolver.UnwrapIsFinal` | sdk/src/steeleagle_sdk/dsl/compiler/resolver.py:20-36 | unwrapping annotations and optional types is done once |
| `ResolverMeaning.SeesThrough` | sdk/src/steeleagle_sdk/dsl/compiler/resolver.py:20-36 | an annotated type, and a union whose only option besides None is some type, resolve every value as that type does |
| `ResolverMeaning.IdBecomesInstance` | sdk/src/steeleagle_sdk/dsl/compiler/resolver.py:113-121 | a known id at a field for a model, also an optional or annotated one, becomes an instance of the class of its datum with the attributes of that datum, or raises if that is not registered or not accepted |
| `ResolverMeaning.ListIsPointwise` | sdk/src/steeleagle_sdk/dsl/compiler/resolver.py:123-130 | a list at a list type is resolved item by item and raises exactly if an item does |
| `ResolverMeaning.InlineBecomesInstance` | sdk/src/steeleagle_sdk/dsl/compiler/resolver.py:76-94 | an inline literal becomes the instance of its class whose fields have, by position, its resolved arguments and nothing else |
| `ResolverMeaning.OthersPassThrough` | sdk/src/steeleagle_sdk/dsl/compiler/resolver.py:104-133 | None, values at other types and unions with no or several options besides None come back unchanged |
| `ResolverLaws.ResolveAgrees` | sdk/src/steeleagle_sdk/dsl/compiler/resolver.py:99-133 | what a value resolves to depends only on the data it refers to |
| `ResolverLaws.ResolveDetermines` | sdk/src/steeleagle_sdk/dsl/compiler/resolver.py:76-133 | and it tells them apart: equal results come from data that agree wherever the value refers |
| `ResolverLaws.UnchangedIffPlain` | sdk/src/steeleagle_sdk/dsl/compiler/resolver.py:99-133 | a value comes back unchanged exactly when nothing in it is there to be replaced |
| `ResolverLaws.ResolvedIsPlain` | sdk/src/steeleagle_sdk/dsl/compiler/resolver.py:99-133 | what comes out has nothing left to replace |
| `ResolverLaws.ResolveFieldsIsPointwise` | sdk/src/steeleagle_sdk/dsl/compiler/resolver.py:154-158 | the field loop succeeds exactly when every present field resolves; keys and other attributes are untouched |
| `ResolverPass.StrictPassIsFullSubstitution` | sdk/src/steeleagle_sdk/dsl/compiler/resolver.py:148-158 | with constructors that reject unresolved values, as those of `sdk/src/steeleagle_sdk/api/datatypes/_base.py:6-9` do, every pass that succeeds is the one and only full recursive substitution, whatever the order of the data |
| `ResolverPass.PassIsFullSubstitutionIff` | sdk/src/steeleagle_sdk/dsl/compiler/resolver.py:148-158 | for arbitrary constructors: a successful pass is the full recursive substitution if and only if every reference to the datum itself or to a later one goes to a datum in which there is nothing to replace |
| `ResolverPass.PassIsFullSubstitution` | sdk/src/steeleagle_sdk/dsl/compiler/resolver.py:148-158 | with references only to earlier data a successful pass is the full recursive substitution |
| `ResolverPass.FullSubstitutionIsUnique` | sdk/src/steeleagle_sdk/dsl/compiler/resolver.py:136-142 | there is at most one full recursive substitution, whatever the order of the data, if every reference to the datum itself or to a later one goes to a datum in which there is nothing to replace |
| `ResolverMission.SecondPassChangesNothing` | sdk/src/steeleagle_sdk/dsl/compiler/resolver.py:148-158 | a second pass over the data changes nothing, in whatever order they are declared |
| `ResolverMission.MissionIsResolved` | sdk/src/steeleagle_sdk/dsl/compiler/resolver.py:136-185 | ids, type names, keys, attributes that are no fields, start and transitions are untouched, and every field of every declaration is resolved |
| `ResolverMission.ResolveSymbolsIff` | sdk/src/steeleagle_sdk/dsl/compiler/resolver.py:136-185 | the function succeeds with a mission if and only if start and transitions are those given and every declaration is the given one resolved field by field, data by those before them and users by the final data |
| `ResolverMission.ResolvingAgainChangesNothing` | sdk/src/steeleagle_sdk/dsl/compiler/resolver.py:136-185 | resolving a resolved mission changes nothing |
| `ResolverMission.UnknownIdsStay` | sdk/src/steeleagle_sdk/dsl/compiler/resolver.py:117-121 | an id that names no datum stays as it is |
| `MissionResolver.LookupReadsTheHeap` | sdk/src/steeleagle_sdk/dsl/compiler/resolver.py:57-60 | the dictionary look-up gives the declaration with its attributes as they are now |
| `MissionResolver.InstantiateDatum` | sdk/src/steeleagle_sdk/dsl/compiler/resolver.py:57-69 | the datum named, built from its present attributes; an unknown id stays a string; an unregistered type raises |
| `MissionResolver.InstantiateInlineData` | sdk/src/steeleagle_sdk/dsl/compiler/resolver.py:76-94 | the loop over fields builds the instance from the resolved arguments, by position |
| `MissionResolver.ResolveValueForField` | sdk/src/steeleagle_sdk/dsl/compiler/resolver.py:99-133 | the mutually recursive method computes `Resolver.Resolve` over the heap (what that is, type by type, is in `ResolverMeaning`) |
| `MissionResolver.ResolveAttributes` | sdk/src/steeleagle_sdk/dsl/compiler/resolver.py:154-157 | the loop over fields computes `Resolver.ResolveFields` |
| `MissionResolver.ResolveDeclaration` | sdk/src/steeleagle_sdk/dsl/compiler/resolver.py:149-158 | one declaration is overwritten, or left as it was when an exception is raised |
| `MissionResolver.ResolveData` | sdk/src/steeleagle_sdk/dsl/compiler/resolver.py:148-158 | the loop that overwrites data while later data read them computes `Resolver.ResolveFrom` |
| `MissionResolver.ResolveUsers` | sdk/src/steeleagle_sdk/dsl/compiler/resolver.py:160-182 | the loops over actions and events compute `Resolver.ResolveUses` and leave the data alone |
| `MissionResolver.Compiled.ResolveSymbols` | sdk/src/steeleagle_sdk/dsl/compiler/resolver.py:136-185 | the whole function succeeds exactly when `Resolver.ResolveSymbols` does and leaves the mission it describes |
| `Runtime.Module.Init` | sdk/src/steeleagle_sdk/dsl/runtime/__init__.py:29-78 | for every way its awaits can end, all variables and resources afterwards |
| `Runtime.Module.Term` | sdk/src/steeleagle_sdk/dsl/runtime/__init__.py:81-119 | for every way its awaits can end, all variables and resources afterwards |
| `Runtime.InitSettles` | sdk/src/steeleagle_sdk/dsl/runtime/__init__.py:42-78 | a start that fails leaves nothing open; one that is cut off loses exactly its own channel |
| `Runtime.InitEnds` | sdk/src/steeleagle_sdk/dsl/runtime/__init__.py:42-78 | which ways of ending each await lead to which end of `init`, and the exact variables and resources after each |
| `Runtime.TermSettles` | sdk/src/steeleagle_sdk/dsl/runtime/__init__.py:88-119 | after a `term` that returns only what was lost before is open; one that raises or is cut off leaves the runtime started |
| `Runtime.TermEnds` | sdk/src/steeleagle_sdk/dsl/runtime/__init__.py:88-119 | the same for `term` |
| `Runtime.MissionService.Upload` | vehicle/mission/mission_service.py:27-34 | mission and map are replaced together, or not at all |
| `Runtime.MissionService.Start` | vehicle/mission/mission_service.py:43-52 | 3 without a mission; otherwise whatever `init` does |
| `Runtime.MissionService.Stop` | vehicle/mission/mission_service.py:57-64 | 3 without a mission; otherwise whatever `term` does |
| `RuntimeSafety.RunsKeepInv` | sdk/src/steeleagle_sdk/dsl/runtime/__init__.py:29-119 | the invariant of lock, variables, resources and mission tasks in every interleaving, with cancellation at any await |
| `RuntimeSafety.OneLiveMission` | sdk/src/steeleagle_sdk/dsl/runtime/__init__.py:60-62 | at most one mission task is live, and only while the runtime is started |
| `RuntimeSafety.ChannelsAreConserved` | sdk/src/steeleagle_sdk/dsl/runtime/__init__.py:42-119 | whenever the lock is free the open channels are the one in use and those of starts that were cut off |
| `RuntimeTheorems.OpenedMinusClosed` | sdk/src/steeleagle_sdk/dsl/runtime/__init__.py:42-119 | opened minus closed is one or zero, as the runtime is started or not, plus the number of starts cut off |
| `RuntimeTheorems.BalancedIffNoStartWasCut` | sdk/src/steeleagle_sdk/dsl/runtime/__init__.py:66-78 | it is exactly one or zero if and only if no start was cut off |
| `RuntimeTheorems.AlwaysMatchesIff` | sdk/src/steeleagle_sdk/dsl/runtime/__init__.py:42-119 | store and channel are held exactly when the runtime is started, and nothing else is open, at every lock-free point of a run, if and only if no start was cut off and no `term` while it closed the channel |
| `RuntimeTheorems.CutOffStartLosesAChannel` | sdk/src/steeleagle_sdk/dsl/runtime/__init__.py:49-66 | a concrete run in which a cancelled start leaves a channel open for good |
| `RuntimeTheorems.RepliesAreTrue` | vehicle/mission/mission_service.py:43-64 | a Start that is answered 2 leaves the runtime started, a Stop that is answered 2 leaves it stopped, a Start that raises leaves it stopped with its channel closed |
| `RuntimeTheorems.CallIsRefusedIff` | vehicle/mission/mission_service.py:43-64 | in every run a call is answered 3, and at once, if and only if nothing was uploaded before it; otherwise it waits for the lock to start or to stop |
| `RuntimeTheorems.StartIsIgnoredIff` | sdk/src/steeleagle_sdk/dsl/runtime/__init__.py:42-45 | a Start that finds the lock free is answered at once, with variables and live missions unchanged, if and only if the runtime is started; otherwise it takes the lock and starts |
| `RuntimeTheorems.AnsweredStartIsIgnoredOrLaunches` | vehicle/mission/mission_service.py:43-52 | of the two ways a Start is answered 2: if the runtime was started nothing changes, if not its own new mission is the only live one |
| `RuntimeTheorems.AnsweredStartHasMissionIff` | vehicle/mission/mission_service.py:43-52 | a Start answered 2 leaves a mission live if and only if the runtime was not started before, or its mission was still going |
| `RuntimeTheorems.IgnoredStartHasNoMission` | sdk/src/steeleagle_sdk/dsl/runtime/__init__.py:42-45 | a concrete run: a racer raises, and the next Start is answered 2 with the runtime started and no mission live |
| `RuntimeTheorems.NoRunGetsStuck` | sdk/src/steeleagle_sdk/dsl/runtime/__init__.py:88-98 | in every reachable state in which a task has not ended some task can go on, whether its await completes or raises |
| `RuntimeTheorems.UndisturbedInit` | sdk/src/steeleagle_sdk/dsl/runtime/__init__.py:42-78 | one caller alone ends where `init` ends |
| `RuntimeTheorems.UndisturbedTerm` | sdk/src/steeleagle_sdk/dsl/runtime/__init__.py:88-119 | one caller alone ends where `term` ends, with a mission playing or ended |
| `RuntimeTheorems.CancellationIsNoAnswer` | sdk/src/steeleagle_sdk/dsl/runtime/__init__.py:66-78 | a cancelled task is never answered; it lets the lock go and leaves the variables and all that is open as they are, and a playing mission has to unwind |
| `RuntimeTheorems.UndisturbedMissionEnd` | sdk/src/steeleagle_sdk/dsl/runtime/fsm.py:33-39 | a mission that ends by itself goes through `term` undisturbed and ends as `term` does |
| `RuntimeTheorems.RaisingMissionStopsNothing` | sdk/src/steeleagle_sdk/dsl/runtime/fsm.py:113-119 | a mission that raises leaves the runtime started, unchanged and without a live mission |
| `RuntimeTheorems.StopOutlivesItsMission` | sdk/src/steeleagle_sdk/dsl/runtime/__init__.py:95-98 | a stop that waits for its mission is not cut off there: the mission is on its way out and the stop goes on once that is over |
| `Transects.TransectCount` | sdk/src/steeleagle_sdk/api/map/partitioner/utils.py:64-70 | the loop ends; the last vertical is at or before the right end and the next would be past it |
| `Transects.RotatedInfiniteTransects` | sdk/src/steeleagle_sdk/api/map/partitioner/utils.py:56-72 | the two loops lay exactly the verticals that fit, rotated, in order |
| `Transects.TransectsAreParallel` | sdk/src/steeleagle_sdk/api/map/partitioner/utils.py:69-72 | all transects have the direction of the turned ordinate and the height of the box plus both margins as length |
| `Transects.TransectsAreSpaced` | sdk/src/steeleagle_sdk/api/map/partitioner/utils.py:68-72 | each is one spacing further along the turned abscissa |
| `Transects.FirstTransectUnturned` | sdk/src/steeleagle_sdk/api/map/partitioner/utils.py:58-70 | without a turn the first is at the left end of the range, one margin beyond the box |
| `Transects.TransectsFillTheRange` | sdk/src/steeleagle_sdk/api/map/partitioner/utils.py:63-70 | and the last is the last to fit before the right end |
| `Transects.TurnIsAboutTheCenter` | sdk/src/steeleagle_sdk/api/map/partitioner/utils.py:61-72 | the ends of every turned transect are as far from the centre of the box as unturned |
| `Transects.BoxIsCovered` | sdk/src/steeleagle_sdk/api/map/partitioner/utils.py:56-72 | for every box, angle and positive spacing, every point of the box is closer than the spacing to some transect, at a foot strictly inside that finite line |
| `Transects.BoxIsCoveredTightly` | sdk/src/steeleagle_sdk/api/map/partitioner/utils.py:58-70 | half the spacing is enough up to a spacing of 200 plus the width of the box |
| `Geometry.RoundXYClose` | sdk/src/steeleagle_sdk/api/map/partitioner/utils.py:9-11 | rounding to three places gives, in each coordinate, the nearest thousandth, ties to even, at most 0.0005 away, and nothing else is that |
| `KeyedLists.KeepFirsts` | sdk/src/steeleagle_sdk/api/map/partitioner/utils.py:35-41 | the loop with its set of keys keeps exactly the first element of each key |
| `KeyedLists.SortBySorts` | sdk/src/steeleagle_sdk/api/map/partitioner/utils.py:53 | the sort is ordered, a rearrangement, and stable |
| `KeyedLists.SortedFirsts` | sdk/src/steeleagle_sdk/api/map/partitioner/utils.py:34-54 | deduplicated and sorted, exactly the firsts remain, in order |
| `Crossings.LinePolygonIntersectionPoints` | sdk/src/steeleagle_sdk/api/map/partitioner/utils.py:34-54 | the crossings of a line: deduplicated by their rounding to six places, then sorted |
| `Crossings.SameKeyIff` | sdk/src/steeleagle_sdk/api/map/partitioner/utils.py:35-41 | two crossings count as one if and only if both coordinates have the same nearest millionth, and are then at most 0.000001 apart |
| `Crossings.CrossingsAreFirstsInOrder` | sdk/src/steeleagle_sdk/api/map/partitioner/utils.py:34-54 | exactly the first point of each rounded key, in order along the line |
| `Crossings.CrossingsAreKept` | sdk/src/steeleagle_sdk/api/map/partitioner/utils.py:34-54 | every raw crossing has a kept one at most 0.000001 away in each coordinate, one farther from all before it is kept itself, and nothing else comes out |
| `Crossings.PairsUseEachPointOnce` | sdk/src/steeleagle_sdk/api/map/partitioner/algos/corridor.py:16-22 | pairing uses each point once, in order, and drops only the last of an odd count |
| `Crossings.PairedSegmentsNeverOverlap` | sdk/src/steeleagle_sdk/api/map/partitioner/algos/corridor.py:16-22 | for crossings on the line the paired segments run forwards and never overlap or touch |
| `Crossings.PairedEndsDiffer` | sdk/src/steeleagle_sdk/api/map/partitioner/algos/corridor.py:16-22 | the two ends of a paired segment are different points |
| `Crossings.VisitLine` | sdk/src/steeleagle_sdk/api/map/partitioner/algos/corridor.py:17-22 | one visit for each segment of a line, in order: three points, the start, the end and the start again, rounded to the nearest thousandths |
| `Crossings.GenerateCorridors` | sdk/src/steeleagle_sdk/api/map/partitioner/algos/corridor.py:14-23 | one visit for each segment of every line, each in its place: after those of the lines before and of the segments before it on its line |
| `Crossings.CorridorsVisitInOrder` | sdk/src/steeleagle_sdk/api/map/partitioner/algos/corridor.py:14-23 | the same about the function the loop computes, proved by induction over the lines |
| `Survey.SampleCount` | sdk/src/steeleagle_sdk/api/map/partitioner/algos/survey.py:28 | at least one step, as many as fit on a segment that is long enough, never one too few |
| `Survey.SamplesAreEvenlySpaced` | sdk/src/steeleagle_sdk/api/map/partitioner/algos/survey.py:30-33 | consecutive samples are exactly one trigger distance apart |
| `Survey.SamplesOnSegmentIffLongEnough` | sdk/src/steeleagle_sdk/api/map/partitioner/algos/survey.py:28-33 | all samples lie on the segment if and only if it is at least one trigger distance long |
| `Survey.SegmentIsSampled` | sdk/src/steeleagle_sdk/api/map/partitioner/algos/survey.py:28-33 | no point of a segment is a trigger distance or more from every sample |
| `Survey.CoveredIndicesAreAll` | sdk/src/steeleagle_sdk/api/map/partitioner/algos/survey.py:30-36 | the indices kept are all of the covered ones, in order |
| `Survey.WaypointsFollowCoveredSamples` | sdk/src/steeleagle_sdk/api/map/partitioner/algos/survey.py:30-36 | the waypoints are, one for one and in order, the covered samples rounded to the nearest thousandths |
| `Survey.SampleSegment` | sdk/src/steeleagle_sdk/api/map/partitioner/algos/survey.py:28-36 | the innermost loop computes the waypoints of a segment |
| `Survey.SampleLine` | sdk/src/steeleagle_sdk/api/map/partitioner/algos/survey.py:20-38 | the loop over the segments of a line yields one group, in order, for each segment with a length and a covered sample, and no other |
| `Survey.GenerateSurvey` | sdk/src/steeleagle_sdk/api/map/partitioner/algos/survey.py:15-39 | one group for each such segment of every line, each in its place: after those of the lines before and of the segments before it on its line |
| `Survey.SurveyGroupsAreSegments` | sdk/src/steeleagle_sdk/api/map/partitioner/algos/survey.py:16-39 | a group is in the result exactly when some paired segment of some line contributes it |
| `Survey.SurveyGroupsInOrder` | sdk/src/steeleagle_sdk/api/map/partitioner/algos/survey.py:16-39 | the same about the function the loop computes, proved by induction over the lines |
| `Survey.PointIsSeen` | sdk/src/steeleagle_sdk/api/map/partitioner/algos/survey.py:17-36 | a point whose foot on a transect falls on a paired segment of any length has a sample on that segment whose squared distance is below the sum of the squared distance bound to the transect and the squared trigger distance |
| `Coverage.SampleIsEmitted` | sdk/src/steeleagle_sdk/api/map/partitioner/algos/survey.py:30-38 | a covered sample of a paired segment is emitted, rounded, in some group of the survey |
| `Coverage.BoxIsSurveyed` | sdk/src/steeleagle_sdk/api/map/partitioner/algos/survey.py:15-39 | for every box, angle, spacing and trigger distance every point of the box has a transect closer than the spacing and, if its foot there lies on a paired segment the area covers, however short, an emitted waypoint that rounds a sample at a squared distance below the sum of the squares of the two |
| `Coverage.BoxIsSurveyedTightly` | sdk/src/steeleagle_sdk/api/map/partitioner/algos/survey.py:15-39 | the same with half the spacing, up to a spacing of 200 plus the width of the box |
| `AngleDistance.DegDiffIsLeastTurn` | sdk/src/steeleagle_sdk/dsl/types/events/singulars/singulars.py:139-142 | the angle distance lies in [0, 180] and is the least distance over all whole turns |
| `AngleDistance.LeastTurnIsUnique` | sdk/src/steeleagle_sdk/dsl/types/events/singulars/singulars.py:139-142 | the angle distance is the only value with that property |
| `AngleDistance.DegDiffSymmetric` | sdk/src/steeleagle_sdk/dsl/types/events/singulars/singulars.py:139-142 | the angle distance is symmetric |
| `AngleDistance.DegDiffIgnoresFullTurns` | sdk/src/steeleagle_sdk/dsl/types/events/singulars/singulars.py:139-142 | the angle distance is unchanged by adding full turns to either angle |
| `AngleDistance.DegDiffZeroIffCongruent` | sdk/src/steeleagle_sdk/dsl/types/events/singulars/singulars.py:195-198 | the angle distance is zero exactly for angles that differ by full turns |
| `AngleDistance.DegDiffTriangle` | sdk/src/steeleagle_sdk/dsl/types/events/singulars/singulars.py:195-198 | the angle distance satisfies the triangle inequality |

## Left out

- gRPC, ZeroMQ, protobuf, descriptor look-up and JSON parsing: a send is a step that returns a status, `known` says which command names exist and `parse` reads a payload.
- Frames on the command socket that are no command responses; the listener would decode them as such.
- Duplicated messages: the network of `SwarmProtocol` reorders and loses but does not repeat.
- Sequence numbers past 32 bits.
- Bracket classes of `fnmatch`; no shipped pattern has one.
- Command strings that make `_send_commands` raise, such as the entry `REMOTE` of `dc_mission` in LOCAL: every name is taken to have a dot; only cancellation ends a batch early.
- The grammar of the mission language, pydantic's defaults and all of its validation but what `ResolverPass.Strict` says, and the JSON round trip of a compiled mission.
- Law files in which a law has no `enter` or no `allowed` list; looking them up would raise.
- The payload of a command that a batch would send under another identity than `authority`; it is empty.
- The type name and attributes of an action as the transformer stores them; `MissionCompiler.Transformer` keeps the ids, which is what transitions are built from.
- Union types written `X | None`, which the resolver does not unwrap.
- Two dictionary entries of a mission that are the same object.
- What a failed resolution leaves half done: `MissionResolver.Compiled.ResolveSymbols` says which calls fail and what a successful one leaves.
- Floating point: reals, so that no rounding error accumulates.
- The intersection, `covers` and rotation of the polygon library; rotation is the exact map of a unit vector.
- Location lists of `Waypoints`, `ElevateToAltitude`, time stamps and event loops on live telemetry.
- Half-finished closing: a store or channel whose closing raises counts as closed, one whose closing is cancelled as open.
- Channel and store constructors that raise before anything is open.
- Who wakes first: no fairness of locks or of the event loop is assumed, so no theorem says how soon a waiting task goes on.
- User interfaces, vision, telemetry and data engines, logging, launch scripts, generated code and mocks.
- Datasink sets, the registry, configuration, the latest-value store and completions: they would only add easy members.
