# Charly's plugin kernel, verified

A Dafny model of the parts of Charly that decide whether a plugin call is alive, which plugins are
loaded and in what order, and how a plugin's output and calls travel. Each module mirrors one
mechanism of the Go sources under `charly/`; `dafny verify dfyconfig.toml` checks them all.

**The idle watchdog** (`Watchdog`, `ActivityClock`, `Heartbeat`). One watcher goroutine runs beside
arbitrary touches, a timer, a ticker and a process tree, as a transition system over integer time in
which every channel operation and system call is a step of its own. Tokens that find the channel full
are absorbed, select chooses freely among its ready cases, and expiries and ticks may be noticed
arbitrarily late. Both timer-channel flavours of Go are covered (`buffered`: the classic one-slot
channel, on which a stopped timer can leave an expiry behind; otherwise the synchronous one of newer
releases). `ActivityClock` holds the same code as objects updated in place and proves every method to
be a run of the transition system. `Heartbeat` stacks watchers into a nest of calls.

**The process table** (`ProcStat`, `ProcTree`, `CpuConservation`, `Progress`). The stat-line parser against the
kernel's printing, the walk over one snapshot, the sum, and what that sum does over every run of
processes that run, fork, exit (handing their children to init) and are reaped. `Progress` follows work
from two process tables to what the watcher makes of it.

**Loading** (`Capability`, `Registry`, `RegistryObject`, `Project`, `Loader`, `PerfScope`). The gate
of declared requirements, the on-demand connect chain and the project load call one another over one
in-flight map and one registry. Builds, connects, schema gates, scans and configuration loads are
oracles that may answer differently at every attempt, and any may fail. The call stack is finite:
`depth` frames of nested gates are available, and `Overflow` is the crash of the process. A ghost log
is the registry's whole history, unit by unit. Together the results say when a load works: requirements
that go round in a circle are never registered (`CyclesStayOut`), and a project whose requirements
descend, whether a candy or a baked binary serves them, and in which nothing fails, loads without an
error (`LoadPlugins`, under `Serving`).

**The schema gate** (`SchemaGate`), with the CUE compiler as uninterpreted functions; **the
kind-connect pass** (`KindConnect`), which loads the project from inside a load of the project; **the
line capture** (`LineCapture`) of two concurrently written streams; and **the target relay** (`Relay`)
along a chain of processes. `Sets`, `Strings`, `Options` and `ProcWork` are shared vocabulary.

## What the code relies on, and where its comments say more than it does

- *The CPU sum is not monotone.* The comment at `charly/plugin_activity.go:105-113` calls the watched
  sum monotone for CPU. It is, as long as only childless processes exit (`CpuNeverFalls`). A process
  that exits before its child hands the child to init, and the child's ticks leave the sum:
  `OrphanLowersTheSum` is a concrete instance and `ExitLowersExactlyWhen` the exact condition. The
  sum is kept in 64-bit counters; they follow the sum as long as it fits them
  (`CountersFollow`).
- *A leg's first beat comes one interval late.* A leg is safe when it starts with strictly more than a
  beat, and the beat's lateness, left before the deadline, or while the watcher must re-arm first.
  `LegIsSafeExactlyWhen` shows this to be exact, whatever the watcher is doing; at the tie the leg can
  be killed (`LateLegIsKilled`). The beat lies strictly within the window for every window of at least
  four nanoseconds, and for no smaller positive one (`IntervalFits`). It ends with its leg (`BeatEnds`), so
  a peer that falls silent after one is detected as any other (`DetectedAfterLegs`).
- *The discard of a stale expiry is needed on the classic channel only.* Without it some run from the
  start ends in a kill at the time of a touch that was served (`UndrainedKills`). On the synchronous
  channel, which the toolchain named in `go.mod` has, every run goes the same way without it
  (`SynchronousNeedsNoDiscard`).
- *Registration is not atomic.* The comment at `charly/plugin_loader.go:1346-1350` lets one registered
  word of a source prove the whole source loaded. A refused registration leaves the providers before
  the refused one in place, and a later load then reports success. `PartialExactlyWhen` says exactly
  when, `PartialRegistrationStays` is an instance. It cannot happen to a source whose candies all declare
  the same identities and whose units serve exactly these, in acceptable providers, whatever other
  sources and baked binaries hold (`Coverable`): then a refusal is a collision, and a later load reports
  it. This is asked candy by candy wherever a load is said to cover something. Only success as such is
  stated project-wide, under `Tidy`: one source, one set of identities; each unit serves what it declares;
  providers are acceptable; and no two sources share an identity unless it is compiled in. A refused plugin's connection is closed all the same: `ConnectedExactlyWhen` says when
  every registered plugin provider still has an open connection behind it.
- *The recursion of loads is bounded by identities, not words.* Nested loads are scoped by the bare
  word. The recursion ends if a unit's name determines its identities, no unit requires an identity of
  its own, and the units can be ranked so that what a connect of a required identity loads (the binary
  baked for it, and every out-of-tree candy that provides its word in whatever class) ranks no higher
  than the unit that requires it, and lower unless it has that very identity (`Bounded`). Only gated units
  count, the ones with requirements, and only requirements that are not registered from the start. This
  is asked of candies that are already connected as well, because these are gated too. A connect may also
  come back to a unit whose gate is still under way, if that one's first requirement is an identity of the
  unit it comes back under: the second gate halts there (`CircleIsBounded`, which no ranking alone gives,
  `CircleClimbs`). But in halting it unmarks the identities of the first gate too (`Gate`), so such a
  `loose` unit's own marks stop nobody, and every other connect that loads it must descend. Without all
  this the recursion need not end: for a candy on its own, `LoadLone` says exactly when it does not, and
  `LoopingExists` gives instances with every oracle at its best, a candy that requires itself or
  another identity under one of its own words.
- *Marks can leak.* The marking loop returns its conflict before the deferred clean-up is installed.
  `Mark` says exactly what is marked then, `Gate` that it stays marked, and `LeaksExactlyWhen` that
  something does exactly when a key before the one in the way was unmarked. Over any sequence of loads
  only a gated unit that shares some identities with another gated one, but not all of both, leaves marks
  behind (`LoadAll`); they do not make a later load run deeper. A candy scanned under two names leaves
  none, nor does one that shares a compiled-in identity with a unit without requirements.
- *An input definition may be borrowed.* The schema gate looks an input definition up in the whole
  unified schema, so it refuses a unit only when nobody defines it: `InputDefCheck` is the exact
  condition, `BorrowedDefIsAccepted` an instance. Identities of units are joined by commas: they tell
  key sets apart whenever no key contains one (`IdentityIsTheKeySet`), which the capability grammar
  does not forbid (`CommaKeysCollide`), and a unit without capabilities can be named like another's
  keys (`NameMeetsKeys`).
- *Only a pass clears a retained kind error.* A word that ends registered in the pass that needed it
  has no error; the pass does not look at words that register in other ways, and
  `StaleErrorExactlyWhen` says which of them keep theirs, and `StaleErrorExists` shows one that no later
  pass clears.
- A class vocabulary outside this repository is taken to be the twelve constants of
  `charly/provider.go:44-84`. `MemberByName` and `InSubstrateMembers`, declared outside it too, are taken
  to be the first member of a name and a flag of each member. `spec.SplitVmAddress` is not part of this
  model.

## Model

| member | source | states |
|---|---|---|
| Watchdog.CancelsOnlyWhenIdle | charly/plugin_activity.go:454-533 | over every run and interleaving, a cancelled watcher had found the wake channel empty a full window after every earlier touch, coalesced ones included, and neither the CPU nor the I/O counter of the tree exceeded that of a sample at least a window older |
| Watchdog.UndrainedKills | charly/plugin_activity.go:535-554 | on the classic channel, without the discard of a stale expiry, some run from the start ends in a kill for which there is no evidence, at the time of a touch that was served before |
| Watchdog.SynchronousNeedsNoDiscard | charly/plugin_activity.go:546-554 | on the synchronous channel every run from the start goes the same way without the discard |
| Watchdog.AtMostTwoRearms | charly/plugin_activity.go:492-530 | once touches stop and the tree is constant, the deadline is re-armed at most once for a pending token and once for an unseen advance, besides a re-arm under way |
| Watchdog.CancelsWithinThreeWindows | charly/plugin_activity.go:474-530 | from then on a promptly served watcher takes a bounded number of steps, is never stuck before it has cancelled, and cancels within three windows |
| Watchdog.StoppedStays | charly/plugin_activity.go:492-497 | over every run, a call that has returned is not cancelled any more: its watcher takes no further step |
| Watchdog.PollFits | charly/plugin_activity.go:476-481 | the tree is polled four times a window, and every ten milliseconds in windows below forty |
| ActivityClock.ResetDeadline | charly/plugin_activity.go:546-554 | leaves the timer armed for a full window with no stale expiry, from every state of either channel flavour, in a bounded number of non-blocking operations |
| ActivityClock.PluginActivity.Touch | charly/plugin_activity.go:171-183 | a token is pending afterwards, whether or not one was before |
| ActivityClock.PluginActivity.Observe | charly/plugin_activity.go:336-350 | reports progress exactly when a token is pending or the work has risen, drains the token, and accounts for the source it used |
| ActivityClock.IdleWatch.OnWake | charly/plugin_activity.go:498-502 | is a run of the transition system that consumes the token and re-arms |
| ActivityClock.IdleWatch.OnTick | charly/plugin_activity.go:503-512 | is a run of the transition system that re-arms exactly on progress of either source |
| ActivityClock.IdleWatch.OnExpiry | charly/plugin_activity.go:513-529 | is a run of the transition system that cancels exactly when neither source shows progress, and re-arms otherwise |
| ActivityClock.PlayIsExec | charly/plugin_activity.go:492-530 | what the object's methods play is a run in the sense of the safety and liveness theorems |
| ActivityClock.PlayResets | charly/plugin_activity.go:546-554 | the reset's stop, discard and re-arm steps lead from every timer state to a freshly armed one |
| ActivityClock.PlayMeasure | charly/plugin_activity.go:336-350 | the measurement's steps re-arm on progress, resume after a silent poll and cancel after a silent expiry |
| Heartbeat.IntervalFits | charly/plugin_activity.go:849-852 | the beat is positive, at most five seconds, a quarter of the window from four nanoseconds up to twenty seconds, and shorter than the window exactly when the window is at least four nanoseconds |
| Heartbeat.OnlyInnermostExpires | charly/plugin_dispatch_reverse.go:118-162 | in every nest of calls whose legs start early enough before the deadline, no call is cancelled while a leg of it runs, however long; only the innermost clock can expire |
| Heartbeat.InvokeStarts | charly/plugin_dispatch_reverse.go:118-126 | a nested call starts with a clock of its own, touched once; the calls around it keep theirs, and the caller's next beat is one beat away |
| Heartbeat.BeatEnds | charly/plugin_activity.go:827-866 | the heartbeat does not outlive its leg: after it ends no beat is possible |
| Heartbeat.DetectedAfterLegs | charly/plugin_dispatch_reverse.go:118-126 | over every nest run, once a leg of the innermost call has ended and its peer is silent, no beat touches its clock, the promptly served call takes a bounded number of steps, is never stuck before it is cancelled, and is cancelled within three windows, whatever the calls around it do |
| Heartbeat.LegIsSafeExactlyWhen | charly/plugin_activity.go:845-866 | the pacing condition is exact: from every state a live watcher can be in when a leg starts, some course of its own steps cancels the call before the first beat if and only if the condition fails |
| Heartbeat.RealBeatIsExact | charly/plugin_activity.go:849-865 | the same for the beat and poll of the code, as long as a beat is late by less than three quarters of the window |
| Heartbeat.LateLegIsKilled | charly/plugin_activity.go:853-865 | an instance: from a plain wait with nothing pending, a leg whose first beat is due at the deadline or after can be cancelled while it runs |
| ProcStat.ReadProcStat | charly/plugin_activity.go:575-608 | the loop over the four tick fields computes the parse of the line, and refuses a missing one |
| ProcStat.ReadsWhatIsPrinted | charly/plugin_activity.go:575-608 | for every command name, spaces and parentheses included, a printed line is read as exactly its name, state, parent and the sum of fields 14 to 17 if it has them and they fit their words, and refused otherwise |
| ProcTree.IndexChildren | charly/plugin_activity.go:659-662 | groups exactly the listed processes by parent |
| ProcTree.WalkRoot | charly/plugin_activity.go:670-688 | from any root and any set already seen, adds what the root reaches, once each and behind its parent |
| ProcTree.WalkAll | charly/plugin_activity.go:668-688 | for every parent map, cycles and overlapping roots included, terminates and emits exactly the processes below a live root, once each, a process that is not a listed root behind its parent |
| ProcTree.ProcTrees | charly/plugin_activity.go:641-696 | the same for the process records, and none for an unreadable table or no root |
| ProcTree.TreeWork | charly/plugin_activity.go:750-764 | the 64-bit sums over all but the excluded process, and the number not yet reaped |
| ProcTree.Watched.Work | charly/plugin_activity.go:192-218 | one sample over the watched roots; an unreadable table yields the root's own ticks for a peer process and nothing for a compiled-in peer |
| ProcTree.Watched.WatchedSum | charly/plugin_activity.go:215-236 | the sample is the work of the processes below the watched one or below a live daemon, themselves included, less the watched one where it is excluded |
| ProcTree.LiveIsAlive | charly/plugin_activity.go:750-764 | the live count is the number of counted processes that are not zombies |
| Progress.WorkShows | charly/plugin_activity.go:716-718 | when no counted process leaves and one uses the processor or moves bytes, a counter of the later sample is higher, as long as its sums fit 64 bits |
| Progress.WorkIsObserved | charly/plugin_activity.go:336-350 | two samples taken around such work make the measurement report progress |
| Progress.WorkerSurvives | charly/plugin_activity.go:513-529 | a call whose tree has done such work since its last sample is not cancelled at an expiry, and its deadline is re-armed |
| CpuConservation.WalkedSum | charly/plugin_activity.go:641-764 | the sum does not depend on the order of the walk: it is the sum over the watched members |
| CpuConservation.NoFalseAdvance | charly/plugin_activity.go:711-718 | if no watched process joins and no counter rises, a later sample is no advance, whatever roots were watched at each |
| CpuConservation.CountersFollow | charly/plugin_activity.go:750-764 | the 64-bit counters show no advance that the sums do not while the earlier sum fits them, and exactly the rise of the sums while the later one does |
| CpuConservation.CpuIsConserved | charly/plugin_activity.go:105-113 | over every run of ticks, forks, exits and reaps the sum is what it was, plus the ticks counted members burned or a watched init adopted, less what was reaped into an excluded root or orphaned |
| CpuConservation.ReapLaw | charly/plugin_activity.go:707-718 | a reap keeps the sum, except that a reap by the excluded root takes exactly the reaped ticks out |
| CpuConservation.CpuNeverFalls | charly/plugin_activity.go:105-113 | with nothing excluded and only childless processes exiting, two samples differ by exactly the ticks gained in between |
| CpuConservation.ExitLowersExactlyWhen | charly/plugin_activity.go:631-636 | an exit lowers the sum if and only if init is not watched and a counted process with ticks hung from the roots only through the one that exits |
| CpuConservation.OrphanLowersTheSum | charly/plugin_activity.go:109-113 | a concrete exit that lowers the sum |
| LineCapture.LinesCover | charly/host_build_cli.go:136-146 | the lines and the tail of a byte string are the string |
| LineCapture.LinesExtend | charly/host_build_cli.go:180-199 | cutting chunk by chunk, with the tail carried over, yields the lines of the concatenation |
| LineCapture.CombinedLineCapture.Stream | charly/host_build_cli.go:156-160 | a new, empty writer behind all the others |
| LineCapture.CombinedLineCapture.Text | charly/host_build_cli.go:171-178 | the buffer followed by the held-back tails in creation order; nothing is held back afterwards, so a second call returns the same text |
| LineCapture.StreamLineWriter.Write | charly/host_build_cli.go:188-199 | appends exactly the complete lines of what was held and what came, holds back the rest, and reports every byte written |
| LineCapture.StreamLineWriter.FlushPartial | charly/host_build_cli.go:202-208 | moves the held-back tail to the buffer |
| LineCapture.DrainedIs | charly/host_build_cli.go:188-199 | a stream's line-by-line steps, left alone, add up to one Write |
| LineCapture.CaptureIsFaithful | charly/host_build_cli.go:147-208 | over every schedule and chunking the text is an interleaving of each stream's own lines in their order, followed by the tails in creation order |
| LineCapture.EveryByteOnce | charly/host_build_cli.go:147-208 | the text is as long as all streams' bytes together |
| Capability.RenderOfParse | charly/provider.go:106-137 | an accepted string is the rendering of its parse, which is well formed |
| Capability.ParseOfRender | charly/provider.go:106-137 | a well-formed identity is the parse of its rendering |
| Capability.KeyIsInjective | charly/provider.go:127-137 | no two well-formed identities share a key |
| Capability.KeyDecides | charly/provider.go:127-137 | for known classes, rendered keys agree exactly when class and the rest of the key do |
| Project.CapOfRender | charly/provider.go:99-137 | an authored well-formed identity is one capability with its bare word and its key |
| Registry.FirstWriterStays | charly/provider_registry.go:74-136 | over every run of registrations, refused ones included, providers and origins have the same keys, each key is its provider's own, and nothing registered is ever replaced |
| Registry.RegisterExactly | charly/provider_registry.go:74-136 | one registration: which of the four refusals applies and when none does, and exactly what it leaves |
| Registry.ReservedStayOut | charly/provider_registry.go:82-89 | over every run no verb is registered under an authored step field |
| Registry.LastPrimaryStays | charly/provider_registry.go:90-97 | over every run, a verb's primary input is the one the last acceptable provider of that word declares, duplicate or not |
| Registry.AlreadyConnected | charly/plugin_loader.go:1362-1398 | errs exactly when a declared identity is held by an origin that is neither builtin nor this source; otherwise answers true exactly when this source holds one or all are held |
| Registry.RegisterAllKeeps | charly/provider_registry.go:195-215 | a batch, refused or not, keeps what there was and adds under its own origin only |
| Registry.RegisterAllKeys | charly/provider_registry.go:195-208 | a batch adds no keys but its own, and an accepted one leaves all of them registered |
| Registry.CheckThenRegister | charly/plugin_loader.go:1342-1398 | when the check finds a candy missing, registering what it declares succeeds, the check then finds it connected, and registering again changes no key and no origin |
| Registry.RegistersExactly | charly/provider_registry.go:195-208 | a plugin's batch adds exactly the providers before the first refused one, and fails exactly if there is one |
| Registry.AcceptedExactlyWhen | charly/provider_registry.go:74-136 | a plugin's batch is accepted if and only if each provider is acceptable by itself and no other plugin holds a key of it |
| Registry.PartialExactlyWhen | charly/plugin_loader.go:1346-1350 | the check that found a candy missing finds it connected after its batch, with an identity left that nobody serves, if and only if a provider before the first refused one was new and another one is left out |
| Registry.PartialRegistrationStays | charly/plugin_loader.go:1346-1350 | an instance: after one accepted and one refused provider the check finds the candy connected although one of its identities has no provider |
| Registry.ConnectedExactlyWhen | charly/plugin_loader.go:935-938 | over every run of plugins that connect and register, each registered plugin provider has an open connection behind it if and only if no plugin of the run was refused after it had brought a new key |
| RegistryObject.ProviderRegistry.RegisterOne | charly/provider_registry.go:74-136 | the registry object takes exactly the specified step |
| RegistryObject.ProviderRegistry.RegisterPluginProviders | charly/provider_registry.go:195-215 | registers in order up to the first refusal, and tracks the connection only when all were accepted |
| RegistryObject.ProviderRegistry.RegisterBuiltinUnit | charly/provider_registry.go:182-189 | panics exactly when a provider of the unit is refused; otherwise indexes the unit, with every provider registered as itself |
| RegistryObject.BuiltinsOwn | charly/provider_registry.go:177-189 | builtins that registered without a panic hold their keys themselves |
| RegistryObject.ProviderRegistry.AllProviders | charly/provider_registry.go:289-302 | every registered provider once, and no other, sorted by key |
| RegistryObject.ProviderRegistry.AllServedUnits | charly/provider_registry.go:266-285 | the in-tree units as they are, then at most one unit of exactly the remaining providers, sorted; together exactly the registered identities, each with its registered provider |
| RegistryObject.NewServedSet | charly/plugin_grpc.go:64-88 | the table and the sorted list of a serving process hold exactly the units' identities, the list as often as they are provided |
| RegistryObject.LastAnswers | charly/plugin_grpc.go:71-73 | in that table the last provider of an identity answers for it |
| RegistryObject.ProviderRegistry.Serve | charly/plugin_grpc.go:64-88 | a serving process exposes exactly the registry's identities and providers |
| Project.NeedsComeFirst | charly/plugin_loader.go:913-940 | dependency closure: at every registration in the registry's history, each non-optional requirement of the unit (a candy's by its manifest, a baked binary's by its wire) had been registered strictly earlier |
| Project.CyclesStayOut | charly/plugin_requires.go:132-147 | a set of identities of which every serving unit needs another of the set, none registered from the start, is never entered |
| Project.OneWord | charly/provider.go:99-137 | a capability's registry key determines its bare word |
| Project.CandyKeepsWhole | charly/provider_registry.go:195-215 | in a tidy project a candy's registration succeeds, registers all it declares, and leaves every source with all of its identities or none |
| Project.BinKeepsWhole | charly/plugin_loader.go:550-573 | a baked binary's registration, accepted or not, leaves every candy's source with all of its identities or none |
| Project.BinKeepsClear | charly/plugin_loader.go:550-573 | in a tidy project in which no other plugin holds what is baked, an acceptable baked binary's registration is not refused and keeps it so |
| Project.LocalOriginsDiffer | charly/plugin_loader.go:566 | every baked binary registers under an origin of its own, which is not the compiled-in one |
| Project.BatchKeepsUndivided | charly/provider_registry.go:195-215 | no batch of another source divides a source, and one of its own that serves exactly what is declared, in acceptable providers, registers it all or collides for good |
| Project.UndividedCovers | charly/plugin_loader.go:1346-1350 | over every registration, a candy that can be covered and is found connected, or registers without an error, has all its identities registered |
| Loader.PluginLoader.Mark | charly/plugin_requires.go:151-162 | marks exactly the own keys before the first that another unit holds, and succeeds exactly if there is none |
| Loader.LeaksExactlyWhen | charly/plugin_requires.go:155-161 | marking changes the in-flight map if and only if some key before the first one held elsewhere was unmarked |
| Loader.PluginLoader.Discharge | charly/plugin_requires.go:163-169 | whatever the gate returned, the unit's keys leave the in-flight map and the other marks stay |
| Loader.PluginLoader.Gate | charly/plugin_requires.go:147-200 | without requirements does nothing; otherwise fails on a marking conflict without registering anything and with exactly what was marked until there still marked, and once marked leaves none of its own keys in flight; returns without an error only when every non-optional requirement is registered, does nothing but that when all are registered and none is in flight elsewhere, and in a bounded project leaves the stack of in-flight units as it was and needs no more frames than identities not in flight |
| Loader.PluginLoader.Resolve | charly/plugin_requires.go:171-198 | one requirement: a malformed one or one in flight elsewhere fails at once, even if optional; one that a plain candy provides is registered afterwards, even if optional; a registered one is met without connecting anything; any other is registered afterwards unless it is optional, which never fails |
| Loader.PluginLoader.Connect | charly/plugin_loader.go:662-700 | a registered identity connects nothing; success means registered, and failure means unregistered unless the configuration could not be loaded; a plain candy that provides the identity is loaded and registered if the project's closure has it, or if only the closure with the ref has it and there is a ref; without a ref, or if no scan finds one, it fails and nothing changes |
| Loader.PluginLoader.ConnectBaked | charly/plugin_loader.go:583-595 | an identity that is registered, or that no baked binary serves, connects nothing; success means registered |
| Loader.PluginLoader.LoadProject | charly/plugin_loader.go:1281-1340 | whatever the order of the candies, the first error ends the load; one without an error covers every referenced candy under the covering hypothesis, which holds in every whole load, and one that refers to none does nothing |
| Loader.ReferencedExactly | charly/plugin_loader.go:1285-1312 | a candy is loaded for a word exactly if it is a plugin with a source other than the compiled-in one and declares a capability of that word |
| Loader.PluginLoader.LoadCandy | charly/plugin_loader.go:1319-1337 | a colliding candy fails and changes nothing; a connected one is only gated: without an error its non-optional requirements end registered, and when all were, and none was in flight elsewhere, nothing is connected or registered |
| Loader.PluginLoader.LoadUnit | charly/plugin_loader.go:913-940 | a unit that does not connect or whose schema is refused registers nothing; success means its own registration, made after its requirements, was the last and was not refused |
| Loader.PluginLoader.LoadBaked | charly/plugin_loader.go:550-573 | likewise for a baked binary and the requirements on its wire |
| Loader.LoadAll | charly/plugin_loader.go:1281-1340 | any sequence of loads of one process: the log is the registry's history, only the last load can crash, none does in a bounded project whatever marks were left, each without an error covers every referenced candy whose own source can be covered, and only gated units that share some but not all identities with another gated one leave any marks |
| Loader.LoadPlugins | charly/plugin_loader.go:1281-1340 | a whole load: registrations in dependency order and none lost; every referenced candy covered, as far as its own source allows; no overflow in a bounded project, and nothing left in flight there when no two gated units overlap in part; if moreover the project is tidy and starts whole, no other plugin holds what is baked, nothing fails and requirements descend, the load succeeds |
| Loader.CircleIsBounded | charly/plugin_requires.go:151-186 | two candies in a circle, one edge an identity and the other a bare word, are bounded: the first one's second gate halts at the second one's mark |
| Loader.CircleClimbs | charly/plugin_requires.go:151-186 | without such a halting unit no ranking bounds them |
| Loader.ServingDescends | charly/plugin_requires.go:171-198 | where every requirement is attainable, a bounded project is bounded by its ranking alone |
| Loader.ServingExists | charly/plugin_requires.go:132-147 | those hypotheses are consistent: a candy that requires another one's capability meets them all |
| Loader.LoadLone | charly/plugin_loader.go:687-697 | a candy on its own recurses without end exactly when its first requirement that is neither met nor skipped is for its own word: then its load overflows at every stack depth, and otherwise one frame is enough |
| Loader.LoopingExists | charly/plugin_requires.go:178-186 | a candy that requires itself, or another identity under its own word, makes the project loop even if every oracle succeeds |
| PerfScope.InstrumentVerbs | charly/plugin_loader.go:1542-1556 | exactly the non-empty capture and pipeline verbs |
| PerfScope.Visit | charly/plugin_loader.go:1124-1178 | exactly the words and extra candies of every node of the subtree |
| PerfScope.ResolveDeployNodeByPath | charly/plugin_loader.go:1205-1232 | the descent loop computes the node a name stands for |
| PerfScope.DottedNameResolves | charly/plugin_loader.go:1207-1231 | a dotted name reaches exactly the member its segments spell, unless the whole name is itself a key |
| PerfScope.ResolvedExactly | charly/plugin_loader.go:1207-1231 | a name resolves to the key it is; else to the end of the chain of first members that its dot-free segments name below a key, and to nothing if there is none |
| PerfScope.DescendIsChain | charly/plugin_loader.go:1223-1230 | a path reaches exactly the end of the chain of first members it names |
| PerfScope.DeployNodePluginContext | charly/plugin_loader.go:1094-1187 | exactly the words and extra candies of the resolved subtree; none for an unknown name |
| PerfScope.CollectReferencedPluginWords | charly/plugin_loader.go:968-1011 | exactly the words the caller, a candy or a decodable box refers to |
| PerfScope.DeployUsesExactly | charly/plugin_loader.go:968-1011 | a deploy refers to a word exactly by a node of its subtree (target, step, capture or pipeline verb), a candy (builder, step) or a decodable box (step) |
| PerfScope.LoadDeployPlugins | charly/plugin_loader.go:1260-1279 | never under-loads: after a load without an error, every declared identity of every scanned candy that provides a word the deploy refers to is registered, if that candy's own source serves what it declares, whatever the rest of the project does; the load succeeds under the hypotheses of a successful load |
| SchemaGate.IdentityIsTheKeySet | charly/plugin_loader.go:72-89 | units with comma-free capability keys share an identity exactly when they declare the same keys |
| SchemaGate.CommaKeysCollide | charly/plugin_loader.go:83-88 | a key that lists two keys, and the two keys, make one identity |
| SchemaGate.NameMeetsKeys | charly/plugin_loader.go:79-82 | a unit without capabilities shares the identity of one with comma-free keys exactly when its name lists those keys in order |
| SchemaGate.PluginSchemaSet.RegisterPluginUnitSchema | charly/plugin_loader.go:103-192 | each refusal with its cause and the state unchanged, else the whole committed state |
| SchemaGate.AcceptedExactlyWhen | charly/plugin_loader.go:103-182 | a schema is accepted exactly when it is not blank, compiles alone, is a replay or declares nothing owned under another identity, compiles with the whole, and its input definitions are found there with their verbs' primaries; a refusal changes nothing |
| SchemaGate.CommitIsExact | charly/plugin_loader.go:183-192 | what an accepted schema leaves: its source once, its definitions its own unless they had an owner, the whole recompiled |
| SchemaGate.InputDefsRecorded | charly/plugin_loader.go:187-189 | over every run, a key is recorded if and only if an accepted schema names it, with the definition of the last such schema |
| SchemaGate.OwnersCommittedFirst | charly/plugin_loader.go:54-61 | over every run each source is spliced once, the unified schema is that of the sources, and every definition of a committed source is owned by the identity that committed the source first |
| SchemaGate.SharedDefSharedIdentity | charly/plugin_loader.go:134-154 | two committed sources that share a definition were first committed under one identity |
| SchemaGate.ReplayIsNoOp | charly/plugin_loader.go:133-142 | replaying a committed source with recorded input definitions changes nothing, accepted or not |
| SchemaGate.InputDefsResolve | charly/plugin_loader.go:223-235 | at every moment of every run, a recorded input definition is found in the unified schema |
| SchemaGate.InputDefCheck | charly/plugin_loader.go:163-178 | the input definitions pass exactly when the unit's own schema, the base or a committed schema declares each, and each has its verb's primary |
| SchemaGate.BorrowedDefIsAccepted | charly/plugin_loader.go:97-102 | a unit whose own schema lacks the input definition it names is accepted when another plugin's schema has it |
| KindConnect.KindTable.LoadConfig | charly/plugin_prescan.go:231-280 | a load inside a pass only declares; one outside ends with each kind it declared registered or with a retained error, not both |
| KindConnect.KindTable.ConnectDeclaredKindPlugins | charly/plugin_prescan.go:231-262 | re-entrant calls change nothing, so the recursion ends; otherwise the flag is clear again, each needed word is registered without an error or unregistered with one, and other words' errors are untouched; both legs are taken: what the project or a baked binary can serve ends registered, and the pass has a failure exactly when its load, its scan or its connect failed |
| KindConnect.KindTable.Finalize | charly/plugin_prescan.go:204-216 | clears the errors of registered words only, keeps an earlier cause, and gives every other needed word one |
| KindConnect.PassSettles | charly/plugin_prescan.go:200-216 | a pass keeps errors to declared, unregistered words, and settles everything declared when it began |
| KindConnect.StaleErrorExactlyWhen | charly/plugin_prescan.go:204-262 | a registered word has a retained error after a pass exactly if it had one before and the pass did not need it: it was registered already, or is not declared |
| KindConnect.StaleErrorExists | charly/plugin_prescan.go:204-262 | there is such a word: a pass fails on it, a connect outside a pass registers it, and no later pass clears its error |
| Relay.PairsAreMaximal | charly/plugin_grpc.go:253-262 | the number of pairs taken is that of the maximal leading run, and no other number is |
| Relay.RestOfJourney | charly/plugin_grpc.go:195-221 | each boundary leaves a strictly smaller target, and the rest of the journey is the journey of that target |
| Relay.JourneyIsDelivery | charly/plugin_grpc.go:147-262 | the same journey in the route's own terms, with every boundary's hops, deployment, instance and working directory spelled out |
| Relay.TerminalReceives | charly/plugin_grpc.go:208-216 | the terminal process receives exactly the hops behind the leading pairs, no deployment, and the instance only if there was no deployment |
| Relay.Chain.Channel | charly/plugin_grpc.go:123-140 | the boundaries crossed are those of the route in order: a placement with its selector, then dials that each see all the hops left and no deployment; the channel is served exactly when every process on the way does its part, and then each boundary was crossed once and the provider receives what follows the pairs |
| Relay.Chain.RelayNestedTarget | charly/plugin_grpc.go:147-247 | leaves the frame to the provider exactly when the route is consumed |
| Relay.Chain.Cross | charly/plugin_grpc.go:163-245 | one process consumes exactly one boundary, or breaks before the next process is asked |

## Left out

- Real `/proc` reads, goroutines, channels, locks and clocks: snapshots, atomic steps and integer time stand for them. A stat line is a string; white space beyond ASCII, which the kernel does not print behind the command name, is not modelled.
- `charlyDaemonPids`, `readProcIO` and the wording of `stallReport`: the daemon roots and I/O counters are inputs. I/O bytes have no conservation law, only `NoFalseAdvance`.
- CpuConservation.CpuIsConserved: the sum is the one before 64-bit wrap-around; `ProcTree.TreeWork` states the wrapped one.
- Loader.LoadAll: `Bounded` is enough for the recursion to end, and not necessary. The exact condition is stated for a candy on its own (`Loader.LoadLone`): with several, whether a mark stops a cycle depends on which gates have been entered a second time before, and so on the order of the requirements and on what fails.
- Watchdog.CancelsWithinThreeWindows: assumes prompt delivery (time does not pass a watcher with a step to take); safety assumes nothing of the kind.
- The builtin gate at process start (`loadBuiltinPluginUnits`), scoped-out diagnostics, warnings and error texts: the errors' kinds are modelled, their wording is not.
- Loader.PluginLoader.Connect: loading the configuration is an oracle there; that it may itself run the kind-connect pass is modelled separately, in `KindConnect`.
- KindConnect.KindTable.Connect: what a connect registers and how often it loads the project are oracles; the gate and the registry behind it are `Loader`'s.
- The `executorInvoker` and check-verb branches of `invokeProvider` and its venue handling: `Heartbeat` keeps the clocks and the nesting.
- The schemas a serving process ships along.
- Closing connections and processes, SSH and process bootstrap, JSON encoding of targets: each is one step that may fail.
- `metaGRPCServer.Describe` and `Channel` do not look up a command's parent; nothing is claimed about nested commands there.
- CLI grammar building, thin forwards, generated tables (an arbitrary finite map where one is read) and everything under `candy/`.
