# Verified model of the multi-repo agent daemon

This project models the decision logic of a daemon that runs coding agents on GitHub issues of
several repositories, and proves what that logic promises. It covers six connected pieces.

1. **Slots.** `SlotProtocol` is the multi-repo tick as a state machine: one driver that ticks the
   reconcilers in turn, suspended at each await, with session promises settling in between; `DriveOrder`
   is the order it drives them in over whole runs.
   `SlotPool` is the reconciler's own imperative bookkeeping over the shared budget and the master
   lease, and `SlotImage` shows its methods to be steps of the protocol. `Admission` (with `Labels`,
   `Sorting`, `Seqs`) is the launch plan and its memo, `Moding` the auto-mode pass and the backlog view.
2. **Usage.** `Usage` is the rate-limit state, gate and reset estimate, `Rotation` the choice of the
   active login, `UsageMeter` the stateful meters.
3. **Lenient JSON.** `JsonText` is JSON as concrete syntax with the two malformations agents emit;
   `ObjectScanner`, `JsonRepair` and `StructuredOutput` are the brace scanner, the rewriter and the
   extraction, over the text facts in `TextSearch` and `Concat`.
4. **Level-triggered state.** `Completeness` is the total classifier, `LabelOutbox` the state-label
   effect and the surface pass, `SurfaceRounds` its passes in a row, `Rehydrate` the cold-start rebuild.
5. **Codecs and keys.** `FencedPayload` is the comment codec, `ImageKey` the digest preimage.
6. **Stateful guards.** `RoutingConfig` and `RoutingStore` are boot validation and the runtime overlay,
   `CloneGate` and `CloneSync` the clone's mutex and its fast-forward-only refresh, `SyncedClone` the
   two together.

## Where the code does less than it seems

Each of these comes with a lemma that gives inputs on which the expected property fails, and one
that states exactly when it holds: for all inputs, or for those the bullet names.

- Repairing JSON text is not idempotent: of two trailing commas one run drops one
  (`JsonRepair.RepairIsNotIdempotent`; exactly when: `JsonRepair.RepairTwice`).
- The image key preimage is ambiguous for a manifest list in which a manifest after the first is
  spelled `manifest`. This is so at the interface of `computeDepsCacheKey`, for any two paths, so
  also for two that the manifest before it matches, as with `["*.json", "manifest"]`
  (`ImageKey.MarkerPatternCollides`; exactly when, for NUL-free texts and one-line paths:
  `ImageKey.SeparatesExactly`). A text that does hold a NUL can collide as well
  (`ImageKey.NulTextCollides`).
- The usage gate is not monotone in time (`Usage.GateIsNotMonotone`; exactly when:
  `Usage.AdmitTurnsRefuse`).
- The gate may still refuse at the reset estimate (`Usage.SoonestResetMayBeEarly`; exactly when:
  `Usage.SoonestResetIsExact`).
- A rejected signal need not park its login: one that reports a low utilization, or that names no
  window, leaves the gate open (`Usage.LowRejectionDoesNotPark`, `Usage.NamelessRejectionDoesNotPark`;
  exactly when: `Usage.RejectionParksExactly`, `Usage.NamelessRejectionParksExactly`).
- A target's own ceiling binds fresh fill only: recoveries, resumes, CI advances and masters check the
  global cap alone (`SlotProtocol.CeilingIsExceeded`; exactly when: `SlotProtocol.CeilingBreaksExactly`).
- The list of exclusions in a launch plan follows the polling order; everything else in it is canonical
  (`Admission.ExclusionOrderMatters`; exactly when: `Admission.ExclusionOrderExactly`).
- With the anomaly marker on an issue, a pause whose own label is missing stays masked
  (`LabelOutbox.MarkerMasksThisPause`; exactly when: `LabelOutbox.VerdictIgnoresEffectsExactly`).
- One surface pass need not be final: one that clears the marker leaves the state label it held back to
  the next, one that hands an anomaly to the master leaves the queue's label to it, and one that re-arms
  an answered pause leaves its label to it (`SurfaceRounds.SecondPassShowsTheLabel`,
  `SurfaceRounds.ThreePassesAreNeeded`, `SurfaceRounds.ReArmTakesTwoPasses`; exactly when:
  `SurfaceRounds.SettlesExactly`). Three always settle an issue (`SurfaceRounds.ThreePassesSettle`).
- A comment can pass the payload probe and yield no payload: a bare opening line, or a block that is
  never closed (`FencedPayload.UnclosedIsSeenButUnread`; exactly when: `FencedPayload.SeenButUnreadExactly`).
- The guard on the clone's git commands reads the command name and one flag, so it does not by itself
  keep history (`CloneSync.GuardPermitsPointers`, `CloneSync.GuardPermitsOverwrites`,
  `CloneSync.AliasIsNotHarmless`). A harmless command always does (`CloneSync.HarmlessKeeps`); exactly
  when, for the commands whose every argument is read: `CloneSync.UnderstoodBreaksExactly`. The
  invocations the synchronizer issues do (`CloneSync.HistoryIsNeverRewritten`).

## Assumptions

- A strict JSON parser is a parameter, required only to read the print of the tree at hand as an
  object and to reject its malformed print.
- Clock readings, GitHub's answers, environment variables, failing writes and claims, and the moments
  at which sessions settle are inputs or nondeterministic steps.
- Instants are integer milliseconds; an issue's creation time is any integer.
- The runs a queue offers are nondeterministic in `SlotProtocol`; the guards checked before a slot is
  taken are the code's own.
- What git does with a command's arguments is a relation over its documented outcomes: any command may
  fail, a fetch may move the remote-tracking ref anywhere, an option or a symbolic write the relation does
  not read is given no promise at all. The remote has the default fetch configuration, refs are told apart
  by their spelling, and no ref but HEAD and the remote's own HEAD is symbolic.
- The image key theorems are about texts without a NUL and paths without a newline.
- Between two surface passes over an issue the thread, the running sessions and the answers of the master
  stand; the scan of answered pauses reads the labels the earlier pass left.
- A base branch does not read as a git option; git itself accepts no such branch name.
- A label is a value of the vocabulary or any other name, and an issue's labels are a set: no decision
  reads their order or repetitions, which `Admission.PriorityRank` proves for the one loop over them.

## Model

| member | source | states |
|---|---|---|
| `ObjectScanner.Pass` | src/executor/structured-session.ts:83-115 | One left-to-right pass of the scan: the spans it emits, and either nothing more to find or the opener that never closes, after which exactly the recursive reading remains. |
| `ObjectScanner.BalancedObjectSpans` | src/executor/structured-session.ts:80-121 | The restarting loop terminates and computes exactly the recursive reading: take the next opener; emit its span if its string-aware closer exists and go on after it, else pass over the opener. |
| `ObjectScanner.SpansAreOrderedAndBalanced` | src/executor/structured-session.ts:72-121 | Every span is a non-empty range of the text, starts with an opener, balances for the first time at its last character counting only braces outside strings, and the spans are in order and disjoint. |
| `ObjectScanner.SpansAreComplete` | src/executor/structured-session.ts:72-121 | Nothing matchable is missed: every opener that has a matching closer lies inside some reported span. |
| `ObjectScanner.PrintIsNeutral` | src/executor/structured-session.ts:88-110 | For every JSON tree, malformed in the two repairable ways or not, its printed text leaves the scanner at the depth and outside-string state it found it in: braces and quotes inside strings never corrupt the balance. |
| `ObjectScanner.ObjectCloses` | src/executor/structured-session.ts:88-110 | A printed object is closed by its own last brace whatever text surrounds it. |
| `ObjectScanner.ScannerFindsObjects` | src/executor/structured-session.ts:80-121 | Any number of printed objects set in prose without an opener are found exactly, one span each, each equal to its printed text, in order. |
| `ObjectScanner.ScannerSkipsStrayOpeners` | src/executor/structured-session.ts:73-79 | Any number of unmatched openers in front of an object do not hide it: the restart finds exactly that object. |
| `JsonRepair.RepairJson` | src/executor/structured-session.ts:141-180 | The flag-driven rewriting loop computes the character-by-character reading of the repair. |
| `JsonRepair.RepairSimulates` | src/executor/structured-session.ts:141-180 | Reading the repaired text ends in the same in-string and escaped state as reading the input, from any state. |
| `JsonRepair.RepairRemovesBareControls` | src/executor/structured-session.ts:156-164 | The output has no bare control character in a string, except directly after an escaping backslash. |
| `JsonRepair.RepairFixesExactly` | src/executor/structured-session.ts:136-180 | A text is returned unchanged if and only if it has neither malformation. |
| `JsonRepair.RepairTwice` | src/executor/structured-session.ts:172-176 | Repairing twice changes nothing more if and only if no comma outside strings precedes a trailing comma with only whitespace between. |
| `JsonRepair.RepairIsNotIdempotent` | src/executor/structured-session.ts:172-176 | The concrete text on which a second repair still changes something: of two trailing commas one repair drops one. |
| `JsonRepair.PrintRepaired` | src/executor/structured-session.ts:136-180 | A printed tree in any text position outside strings is rewritten to the legal text of the same tree, and the text after it is repaired as it would be alone. |
| `JsonRepair.RepairMends` | src/executor/structured-session.ts:136-180 | For every tree, repair turns its printed text into the strictly legal print of a tree that says the same, and alters no legal text. |
| `JsonText.CleanIsLegal` | src/executor/structured-session.ts:136-140 | The tree the repair aims at is legal JSON without either malformation, and is the tree itself when that already was. |
| `JsonText.CleanSaysTheSame` | src/executor/structured-session.ts:136-140 | What a reader of section 7 of RFC 8259 makes of the repaired tree is what it makes of the malformed one: the same strings character by character, the same keys, elements and order. |
| `TextSearch.NextFenceFacts` | src/executor/structured-session.ts:58-62 | The fence search finds the leftmost fence at or after a position, and reports none only when there is none. |
| `StructuredOutput.Exec` | src/executor/structured-session.ts:58-62 | One global regular-expression match: the next fenced payload and where the search resumes. |
| `StructuredOutput.CollectFenced` | src/executor/structured-session.ts:58-62 | The repeated match collects exactly the blocks fences delimit pairwise, trimmed and without an optional language tag. |
| `StructuredOutput.ExtractJsonObject` | src/executor/structured-session.ts:57-71 | The result is the object of the newest candidate that holds one, fenced blocks counting as newer than bare spans, or the stated error when none does. |
| `StructuredOutput.NewestConcat` | src/executor/structured-session.ts:46-55 | A later candidate wins, and one that yields no object falls through to the earlier ones. |
| `StructuredOutput.LastObjectIsExtracted` | src/executor/structured-session.ts:46-71 | Objects in prose without an opener and with no fence anywhere: the last one is extracted, strict or malformed, given a parser inverse to the printer. |
| `StructuredOutput.ObjectAfterStrayOpenersIsExtracted` | src/executor/structured-session.ts:73-79 | The same with unmatched openers before the object. |
| `StructuredOutput.TagLetters` | src/executor/structured-session.ts:58-62 | The optional language tag of a fence is `json` in any mixture of cases, and nothing else. |
| `StructuredOutput.FencedObjectWins` | src/executor/structured-session.ts:46-71 | An object in a fenced block, tagged in any letter case or untagged, is extracted whatever bare objects stand around the block. |
| `StructuredOutput.FencedSnippetFallsThrough` | src/executor/structured-session.ts:46-55 | A fenced block that holds no object does not shadow a bare object elsewhere. |
| `Usage.UsageGate` | src/core/usage.ts:157-181 | The gate loop admits exactly when no live window is at its limit and no unexpired cooldown stands without a live window to contradict it; otherwise it names the cooldown or the first gating window. |
| `Usage.SoonestReset` | src/core/usage.ts:285-301 | The least of the cooldown and the resets of gating windows that lie ahead, or none. |
| `Usage.SoonestResetIsSound` | src/core/usage.ts:285-301 | If the gate refuses now, it refuses at every instant before the reported reset, and forever when none is reported, as long as no signal arrives. |
| `Usage.SoonestResetMayBeEarly` | src/core/usage.ts:285-301 | The estimate is a lower bound only: a state whose gate still refuses at the reported instant. |
| `Usage.SoonestResetIsExact` | src/core/usage.ts:285-301 | The gate admits at the reported instant if and only if every window gating now resets at that very instant and a cooldown still running then has a live window to contradict it. |
| `Usage.AdmitTurnsRefuse` | src/core/usage.ts:157-181 | Between signals an admitting gate turns to refusing exactly when a cooldown still stands and the last live window has lapsed. |
| `Usage.GateIsNotMonotone` | src/core/usage.ts:157-181 | A concrete state in which the gate admits, then refuses, then admits again with no signal in between. |
| `Usage.AdmitsFromHorizon` | src/core/usage.ts:157-181 | When no gating window has an unknown reset, the gate admits from the latest of the resets and the cooldown onward. |
| `Usage.WaitingSuffices` | src/core/usage.ts:157-181 | Waiting ever suffices if and only if no window at its limit has an unknown reset. |
| `Usage.SignalLeavesWindows` | src/core/usage.ts:91-106 | For a signal of every status: the window it names ends with the utilization reported, else 100 when it rejects, else what it had, and with the reset reported, else what it had; every other window stands in its place, and a signal naming none changes none. |
| `Usage.SignalLeavesCooldown` | src/core/usage.ts:107-111 | A rejection pauses to the reset it reports, else for five minutes, and never shortens; no other signal touches the pause. |
| `Usage.TripLeaves` | src/core/usage.ts:114-123 | A trip pauses until the instant given, else for five minutes, never shortens, and leaves the windows. |
| `Usage.ResetMeaning` | src/core/usage.ts:27-38 | A reset is the whole millisecond nearest the instant reported, which is in seconds below a trillion and in milliseconds from there on. |
| `Usage.AllowedGatesExactly` | src/core/usage.ts:91-111 | For every signal that does not reject and names a window: the gate then refuses if and only if that window is at its limit with what it now holds, or another window gates, or a pause runs with no window live. |
| `Usage.NamelessAllowedChangesNothing` | src/core/usage.ts:91-111 | A signal that neither rejects nor names a window changes nothing. |
| `Usage.RejectionParksExactly` | src/core/usage.ts:94-111 | For every rejected signal on a named window, every state and instant: the gate refuses if and only if that live window is reported at its limit, or another window gates, or the cooldown runs with no window live. |
| `Usage.NamelessRejectionParksExactly` | src/core/usage.ts:94-111 | For a rejected signal that names no window the gate refuses if and only if some window gates or the cooldown runs with no window live. |
| `Usage.LowRejectionDoesNotPark` | src/core/usage.ts:94-111 | A rejected signal that reports a utilization below the threshold leaves the gate open: its own window contradicts the cooldown. |
| `Usage.NamelessRejectionDoesNotPark` | src/core/usage.ts:94-111 | So does a rejected signal that names no window, while any window below the threshold is live. |
| `Usage.CooldownOnlyExtends` | src/core/usage.ts:107-121 | Over any sequence of signals and trips the cooldown never moves earlier. |
| `Rotation.PickActiveToken` | src/core/usage.ts:312-341 | For any active id, inside the pool or outside: with headroom and the rotation time not up, login and clock stay; else the pick is the first other login with headroom in cyclic order and the clock is now; with none, the login stays and the clock moves only if the time was up. A pool of one or none leaves the clock. |
| `Rotation.PickMeaning` | src/core/usage.ts:312-341 | The same of the specification the other rotation results are about. |
| `Rotation.BindingStays` | src/core/usage.ts:327-330 | Over any number of picks a login that keeps its headroom stays bound while the rotation time is not up. |
| `Rotation.PickFindsHeadroom` | src/core/usage.ts:312-341 | A pick never leaves the pool and lands on a gated login only when every login is gated. |
| `Rotation.PickIsCyclicSuccessor` | src/core/usage.ts:321-340 | A timed pick moves to the next login with headroom in cyclic order; gated logins are invisible to it. |
| `Rotation.RotationWalksThePool` | src/core/usage.ts:321-340 | However many timed picks are made, the k-th binds the login k places further round the pool of logins with headroom. |
| `Rotation.RotationIsFair` | src/core/usage.ts:321-340 | As many timed picks as there are logins with headroom bind each exactly once and end on the login they started from. |
| `UsageMeter.Meter.Select` | src/daemon/usage-meter.ts:90-111 | Over the enabled logins: an enabled active login with headroom and time left stays with its clock; otherwise the first enabled login with headroom after it in cyclic order is bound now; and whenever some login is enabled the active one is, gated only if every enabled one is. |
| `UsageMeter.Meter.Acquire` | src/daemon/usage-meter.ts:118-122 | The login bound is enabled whenever one is, and has headroom whenever an enabled one does. |
| `UsageMeter.Meter.Gate` | src/daemon/usage-meter.ts:171-177 | With one clock reading, the pool admits exactly when some enabled login has headroom or none is enabled. |
| `UsageMeter.Meter.AcquireIfHeadroom` | src/daemon/usage-meter.ts:139-147 | With one clock reading, it returns an enabled login with headroom whenever one exists and nothing otherwise. |
| `UsageMeter.Meter.Record` | src/daemon/usage-meter.ts:150-153 | A signal changes the named login only. |
| `UsageMeter.Meter.Trip` | src/daemon/usage-meter.ts:154-157 | A trip changes the cooldown of the named login only. |
| `UsageMeter.GroupByProvider` | src/config/load.ts:250-261 | The in-place grouping yields each provider its accounts in pool order, and no empty group. |
| `UsageMeter.ProviderPoolMeter.AcquireAccount` | src/daemon/usage-meter.ts:276-289 | Of the asked provider only, an enabled account with headroom when the gate reads the clock, or nothing; when the selection read the same clock, nothing only if there is none. No usage state changes. |
| `UsageMeter.ProviderPoolMeter.Record` | src/daemon/usage-meter.ts:291-297 | A signal folds into the named account and its provider pool only; an unknown account changes nothing. |
| `FencedPayload.FirstOpenerDecides` | src/core/fenced-payload.ts:35-37 | The leftmost match never goes past the first opener of the tag: its payload, or its lack of one, is the answer. |
| `FencedPayload.RoundTrip` | src/core/fenced-payload.ts:44-76 | For prose without an opener, a non-empty backtick-free tag and anything after the block, extraction gives back the JSON text plus its newline if and only if the text holds no fence. |
| `FencedPayload.OtherTagsSeeNothing` | src/core/fenced-payload.ts:19-27 | Under any other tag, one that prefixes or extends it included, a rendered block is invisible to probe and extraction. |
| `FencedPayload.RenderedIsSeen` | src/core/fenced-payload.ts:65-67 | The probe sees every rendered block under its own tag. |
| `FencedPayload.SeenButUnreadExactly` | src/core/fenced-payload.ts:65-76 | Whatever extraction reads the probe sees; a text is seen and not read if and only if no fence lies past a newline past its first opener. |
| `FencedPayload.UnclosedIsSeenButUnread` | src/core/fenced-payload.ts:65-76 | Two such texts for every tag: a bare opening line, and an opened block that is never closed. |
| `FencedPayload.Sanitize` | src/core/fenced-payload.ts:57-59 | Every backtick, and only those, becomes an acute accent, so no backtick is left. |
| `FencedPayload.StringReadsBack` | src/core/fenced-payload.ts:43-45 | However a string is spelled inside a payload, a reader takes the printed pieces for its own characters, one for one. |
| `FencedPayload.SanitisedPieces` | src/core/fenced-payload.ts:57-59 | A sanitised string prints as legal JSON string pieces without a backtick. |
| `FencedPayload.SanitisedRoundTrip` | src/core/fenced-payload.ts:47-59 | A value whose strings and keys spell no backtick always survives the codec, whatever surrounds the block. |
| `ImageKey.ComputeDepsCacheKey` | src/container/image-build.ts:63-79 | The updates fed to the digest, in order, are exactly the preimage; missing contents count as empty. |
| `ImageKey.GlobOrderIsIrrelevant` | src/container/image-build.ts:128-133 | Whatever order a glob returns its matches in, the resolved input is the same. |
| `ImageKey.ResolveIsReadable` | src/container/image-build.ts:129-132 | Resolving keeps every match with its own text, sorted by path. |
| `ImageKey.PreimageSeparates` | src/container/image-build.ts:63-79 | For NUL-free texts and one-line paths, if no manifest after the first is spelled like the marker word, equal preimages imply equal Dockerfiles, equal manifest lists and equal path and content lists for every manifest. |
| `ImageKey.MarkerPatternCollides` | src/container/image-build.ts:73-77 | For every manifest list in which a later manifest is spelled like the marker word, and any two paths the manifest before it may match, two different inputs with the same preimage. |
| `ImageKey.SeparatesExactly` | src/container/image-build.ts:63-79 | For one manifest list, distinct NUL-free inputs with one-line paths always have distinct preimages if and only if no manifest after the first is spelled like the marker word. |
| `ImageKey.NulTextCollides` | src/container/image-build.ts:63-79 | Outside those inputs: for every manifest and path, a file whose text spells a share out, NULs included, collides with a Dockerfile that does. |
| `Labels.ReadMode` | src/core/labels.ts:148-164 | The mode found is the first in vocabulary order that the labels declare, and none is found only when they declare none. |
| `Admission.GateMeaning` | src/core/admission.ts:279-323 | The gate admits exactly the open, ready, afk issues that are not hitl, paused or log issues, carry a mode and name nothing unmet; a missing mode and an unmet dependency are told apart exactly. |
| `Admission.GateReasons` | src/core/admission.ts:279-309 | A rejection names the first requirement missed, each reason with its exact condition. |
| `Admission.GateDependsOnRefs` | src/core/admission.ts:370-381 | Only the answers for the references of the issue matter. |
| `Admission.DepCache.Resolve` | src/core/admission.ts:182-195 | A reference is looked up at most once and keeps its first answer; the memo holds exactly what its lookups said. |
| `Admission.GateOne` | src/core/admission.ts:344-359 | The asynchronous finisher agrees with the synchronous gate under every lookup that agrees with the answers it got, and asks about references only of issues that reach that test. |
| `Admission.PriorityRank` | src/core/admission.ts:388-397 | The loop finds the index of the most urgent priority label carried, whatever order the labels come in. |
| `Admission.AdmitIssues` | src/core/admission.ts:208-269 | With a view of what is running that may change between issues and lookup answers that may drift, the plan is the one under every world that shows each issue as the pass saw it and every lookup that agrees with the collected answers; each needed reference is looked up exactly once and no other is. |
| `Admission.SomeWorldFits` | src/core/admission.ts:214-223 | When each number is polled once, there is a world that shows every issue as the pass saw it, so the plan is always a plan of some world. |
| `Admission.MemoIsInvisible` | src/core/admission.ts:182-195 | With a lookup that does not drift, the collected answers are its answers. |
| `Admission.PlanConserves` | src/core/admission.ts:208-269 | Every input issue appears exactly once in eligible or excluded, as multisets. |
| `Admission.PickedIsTheFront` | src/core/admission.ts:240-269 | Eligible is ordered by age, then by the most urgent priority label carried, and only then by number, said of the labels themselves; picked is its first max(0, openSlots) entries. |
| `Admission.MoreUrgentGoesFirst` | src/core/admission.ts:389-421 | Of two eligible issues of one age, the one carrying a priority label goes before one that carries neither it nor a more urgent one, or none at all. |
| `Admission.EligibleExactly` | src/core/admission.ts:215-269 | An issue is eligible, with the mode its labels declare, exactly when no wait holds, it is neither in flight nor held, and it passes the gate. |
| `Admission.WaitHoldsTheQueue` | src/core/admission.ts:257-266 | A wait, no-provider before no-memory, launches nothing and excludes in order exactly what would have been eligible. |
| `Admission.PlanIsCanonical` | src/core/admission.ts:208-269 | For issues with distinct numbers, every polling order gives the same picked and eligible queues and the same multiset of exclusions. |
| `Admission.ExclusionOrderExactly` | src/core/admission.ts:214-268 | Two polling orders give the same list of exclusions if and only if they polled the issues they drop in the same order. |
| `Admission.ExclusionOrderMatters` | src/core/admission.ts:217-220 | Any two issues in flight, polled either way round, are listed that way round. |
| `Moding.MissingModeSplits` | src/core/moding.ts:105-112 | An issue rejected for its mode is, under a synthetic mode, eligible exactly when nothing it names is unmet and blocked, with its dependencies, otherwise. |
| `Moding.AnyModeAdmits` | src/core/moding.ts:114-129 | Whichever mode label a candidate is given, the gate then admits it in that mode and it stops being a candidate. |
| `Moding.SelectionIsOldestFirst` | src/core/moding.ts:138-166 | The candidates are exactly the unmoded issues that only lack a mode, older ones first. |
| `Moding.SelectModingCandidates` | src/core/moding.ts:130-166 | The capped loop returns the first candidates of that selection under the answers it collected. |
| `Moding.ProjectBacklog` | src/daemon/backlog.ts:80-117 | The reclassification loop and sorts give the blocked and candidate sections under the answers it collected. |
| `Moding.BacklogMatchesSelection` | src/daemon/backlog.ts:91-114 | The backlog candidates are exactly the uncapped moding selection minus in-flight and held issues, whether or not a wait holds the queue. |
| `Moding.BlockedSectionExactly` | src/daemon/backlog.ts:80-115 | The blocked section shows, with the state of each dependency, exactly the free issues that are otherwise ready and name something unmet, moded or not. |
| `Completeness.AnomalyMeaning` | src/daemon/completeness.ts:251-400 | Each anomaly reason holds of exactly one kind of snapshot, stated both ways. |
| `Completeness.ClassMeaning` | src/daemon/completeness.ts:251-400 | Each of the four sound classes holds of exactly one kind of snapshot, stated both ways, a closed issue nothing holds being terminal. |
| `Completeness.EligibleMeansAdmitted` | src/daemon/completeness.ts:374-381 | On an open issue without the anomaly marker, completeness says eligible exactly when admission admits it. |
| `Completeness.NothingIsSilent` | src/daemon/completeness.ts:243-257 | Every issue admission leaves is worked on, visibly waiting for a human, or an anomaly: what counts as worked on is in flight, resumable or in a serviced queue. |
| `Completeness.MasterNeverEscalatesItself` | src/daemon/completeness.ts:150-156 | An idle queued escalation is an anomaly exactly when it cannot be routed, and that anomaly is never handed to the master. |
| `LabelOutbox.EffectsListed` | src/daemon/reconciler.ts:118-151 | The list the delivery walks is exactly the set of labels some status desires, both ways. |
| `LabelOutbox.EffectsBarAdmission` | src/core/labels.ts:107-127 | Whatever state label the delivery shows, its issue is not admitted. |
| `LabelOutbox.EachStateShowsItsLabel` | src/daemon/reconciler.ts:118-195 | After a clean pass over an issue neither re-armed nor marked each of the five labels is shown exactly if the run is in its state, a stuck run included, and every other label stays. |
| `LabelOutbox.ReArmedOrMarkedShows` | src/daemon/reconciler.ts:183-195 | A re-armed issue shows none of the five, and a marked one only what it showed already. |
| `LabelOutbox.IssueLabels.ReconcileStateLabel` | src/daemon/reconciler.ts:1545-1567 | The delivery loop with any set of failing writes: exactly the successful additions and removations among the five labels, nothing else. |
| `LabelOutbox.DesiredIsStable` | src/daemon/reconciler.ts:183-208 | No partial delivery changes what is desired or any other label. |
| `LabelOutbox.MismatchShrinks` | src/daemon/reconciler.ts:1545-1567 | A pass leaves wrong exactly the labels that were wrong and whose write failed. |
| `LabelOutbox.CleanPassDelivers` | src/daemon/reconciler.ts:205-208 | A pass without failures lands on the overlay, and a second one writes nothing. |
| `LabelOutbox.RunsConverge` | src/daemon/reconciler.ts:1545-1567 | After any run of passes a label is wrong exactly if it was wrong at the start and every write of it failed. |
| `LabelOutbox.EventuallyDelivered` | src/daemon/reconciler.ts:1545-1567 | Once every wrong label has had one successful write, the issue shows exactly the overlay. |
| `LabelOutbox.VerdictIgnoresEffects` | src/daemon/reconciler.ts:1352-1375 | Without the anomaly marker the verdict on an issue with a run row does not depend on which effect labels are shown. |
| `LabelOutbox.VerdictIgnoresEffectsExactly` | src/daemon/reconciler.ts:183-208 | In general the verdict is independent of the shown effect labels if and only if the marker does not mask a pause that is neither re-armed nor resumable. |
| `LabelOutbox.MarkerMasksThisPause` | src/daemon/reconciler.ts:183-208 | A pause so masked: its verdict is a missing label under the marker alone and a wait for a human under marker and label. |
| `LabelOutbox.SurfaceOne` | src/daemon/reconciler.ts:1337-1375 | One surface pass, with a master wired or without, from re-arming a stranded answer to the queue or the marker: the verdict, which no failed write can change, the labels it leaves, and the status it leaves the row in. |
| `LabelOutbox.IssueLabels.Escalate` | src/master/harness-escalation.ts:124-215 | A request to the master: a standing one changes nothing, a new one promotes the issue to the first complexity and parks the run on the queue, and one that fails may leave the promotion behind. |
| `LabelOutbox.HandedOverExactly` | src/daemon/reconciler.ts:1749-1800 | Exactly the six issue-scoped anomalies of an issue with a run are handed to a wired master, unless the session was just killed or the run is queued already; a landed request parks the row, an accepted one spares the marker, and every other anomaly is marked. |
| `LabelOutbox.PromotedExactly` | src/daemon/reconciler.ts:1749-1800 | A request that lands, or fails past its promotion, leaves the first complexity label alone of the three; no other pass moves a label outside the vocabulary. |
| `LabelOutbox.SurfaceMarksAnomalies` | src/daemon/reconciler.ts:1581-1652 | After a clean pass every anomaly is handed to the master or shows the marker, one handed over is not marked by the pass, and a marker that stays on anything else is the only surface of an issue waiting for a human. |
| `LabelOutbox.EligibleIsAdmittedNext` | src/daemon/reconciler.ts:1435-1441 | What the pass calls eligible, marker or not, is exactly what admission takes on the labels the pass leaves. |
| `SurfaceRounds.SettlesExactly` | src/daemon/reconciler.ts:1337-1375 | For every issue, row, thread and answer of the master, one clean pass is final if and only if: when it queues the issue, the queue's label is suppressed and the marker is as the queue wants it; when it re-arms a pause, the pause's label was held back and the run does not resume; otherwise, it does not clear a marker that was holding a state label back. |
| `SurfaceRounds.ThreePassesSettle` | src/daemon/reconciler.ts:1337-1375 | While the thread, the running sessions and the answers of the master stand, three clean passes settle any issue. |
| `SurfaceRounds.ThreePassesAreNeeded` | src/daemon/reconciler.ts:1337-1375 | A lost session under the marker takes all three: queued, marker cleared, queue label shown. |
| `SurfaceRounds.ReArmTakesTwoPasses` | src/daemon/reconciler.ts:1337-1360 | A stranded answer takes two: re-armed beside its label, then the label taken off. |
| `SurfaceRounds.UnmaskedShows` | src/daemon/reconciler.ts:1352-1375 | After a pass that clears a marker holding a state label back, the next adds exactly that label and is final. |
| `SurfaceRounds.SecondPassShowsTheLabel` | src/daemon/reconciler.ts:1352-1375 | Such a case: a run awaiting its merge under the marker shows no label after the first pass and its own after the second. |
| `Rehydrate.FindLatestQuestion` | src/hitl/answer.ts:177-191 | The loop finds the last question of a thread. |
| `Rehydrate.LatestMasterRequestBefore` | src/daemon/rehydrate.ts:269-284 | The backward loop finds the last master request of a thread, or the last one older than a comment. |
| `Rehydrate.RunStore.RehydrateRuns` | src/daemon/rehydrate.ts:75-241 | The loop over pull requests, with the facts it appends one by one, reaches exactly the specified store and list of rebuilt issues. |
| `Rehydrate.OneRowEach` | src/daemon/rehydrate.ts:89-91 | Every rebuilt issue was missing before, gets one row, and is reported once; existing rows stay the only others. |
| `Rehydrate.RowsAreTheirs` | src/daemon/rehydrate.ts:89-149 | An issue is rebuilt exactly if some pull request acts for it, and its row is that of the first one: its branch and number, and the mode the labels declare, else the default. |
| `Rehydrate.FactsSurvive` | src/daemon/rehydrate.ts:157-209 | The rebuilt stream files a pause under the latest question, a maxed-out review with its phase, and a master part with the signature of the last request, the last one before the question where there is one. |
| `Rehydrate.RequestIsLast` | src/daemon/rehydrate.ts:269-284 | The request read from a thread is the last one that qualifies. |
| `Rehydrate.RehydrateOnce` | src/daemon/rehydrate.ts:70-92 | A second rehydration of the same state rebuilds nothing and writes nothing. |
| `Rehydrate.FurthestStateWins` | src/daemon/rehydrate.ts:109-149 | The rebuilt status for every label set and thread, with the exact condition of each: a pause with its question first, then merge, then CI, then a master request, else running. |
| `Rehydrate.ResumeContextSurvives` | src/daemon/rehydrate.ts:340-348 | A rebuilt pause resumes on the latest question, in the phase it was asked in; a heal-card without one resumes at the gate. |
| `Rehydrate.ProvenanceSurvives` | src/daemon/rehydrate.ts:157-209 | A rebuilt pause is a master question exactly when a request older than the latest question stands in the thread and the review is not maxed out, and its facts fold to the paused status. |
| `Rehydrate.RecoveryIsFixpoint` | src/daemon/rehydrate.ts:109-149 | On converged labels, rehydrating an empty store rebuilds a status for which the next label pass writes nothing if and only if the comment the label rests on survived. |
| `Rehydrate.StuckStaysStuck` | src/daemon/rehydrate.ts:97-110 | A terminally stuck issue gets no row, no pass touches its labels, and it stays in front of a human. |
| `SlotProtocol.StepKeeps` | src/daemon/reconciler.ts:722-775 | Every enabled step of the driver and every settling or releasing session keeps the whole invariant. |
| `SlotProtocol.ReachableIsSafe` | src/daemon/reconciler.ts:599-1075 | In every reachable state the build pools of all repos hold at most the cap, no issue builds twice in a repo, each repo runs at most one integration, and at most one master is at work. |
| `SlotProtocol.BudgetIsNeverOverspent` | src/daemon/daemon.ts:480-484 | The sum over the repos that the shared budget takes is at most the cap in every reachable state. |
| `DriveOrder.EveryRepoHasItsTurn` | src/daemon/orchestrator.ts:139-172 | A round gives every repo its tick, once and in drive order, however long each takes, whatever settles meanwhile and whichever ticks throw; so does the start-up. |
| `DriveOrder.TickTakesEveryPhase` | src/daemon/reconciler.ts:929-1060 | A tick that neither throws nor finds the usage gate closed takes its phases in order and skips none: merge worker, sweep, resumes, CI poller, master, admission, launches. |
| `DriveOrder.PicksLaunch` | src/daemon/reconciler.ts:722-775 | In any state the invariant admits, all the issues picked for a launch can be claimed and launched one after the other: each was free, each takes its slot, no other slot moves, and the cap holds. |
| `DriveOrder.NoNewSessions` | src/daemon/reconciler.ts:966-985 | Once a tick finds the usage gate closed it takes no build slot any more, whatever else happens in it; once it drains the daemon takes none ever. |
| `DriveOrder.QuietRoundEnds` | src/daemon/reconciler.ts:929-1060 | From every idle state a round can be driven to its end, phase by phase and repo by repo; with nothing to do it changes nothing. |
| `SlotProtocol.OneJobAnIssue` | src/daemon/reconciler.ts:853-867 | In any run, a CI advance or a master takes a slot for an issue that neither builds nor integrates. |
| `SlotProtocol.SettleFreesItsOwn` | src/daemon/reconciler.ts:722-740 | A settling promise frees its own slot and no other repo, issue, lease or session. |
| `SlotProtocol.FillRespectsCeiling` | src/daemon/reconciler.ts:1468-1475 | In every run, a fresh launch leaves its repo within its own ceiling, although the slots were counted before several awaits. |
| `SlotProtocol.FillAloneRespectsCeilings` | src/daemon/reconciler.ts:1468-1475 | While slots are taken by fresh fill alone, every repo stays within its ceiling. |
| `SlotProtocol.CeilingBreaksExactly` | src/daemon/reconciler.ts:1468-1475 | From any state in which all repos are within their ceilings, a step leaves some repo above its own if and only if it is a recovery, resume, CI advance or master taking a slot in a repo that is at its ceiling. |
| `SlotProtocol.CeilingIsExceeded` | src/daemon/reconciler.ts:1898-1911 | Such a step is reachable under settings the schema accepts: with two agents in all and one for the only repo, one quiet tick resumes two issues. |
| `SlotImage.GuardsAgree` | src/daemon/reconciler.ts:236-250 | Where the reconcilers' sets are those of a protocol state, their checks of budget, pools and leases hold exactly when the guards of the protocol do. |
| `SlotImage.DispatchSteps` | src/daemon/reconciler.ts:796-840 | From every protocol state the sets are of, the master dispatch the checks allow is an enabled step, and the updated sets are those of the state it leaves. |
| `SlotImage.MergeSteps` | src/daemon/reconciler.ts:749-777 | The same for leasing an integration. |
| `SlotImage.FreeSettles` | src/daemon/reconciler.ts:722-740 | The same for a build promise settling. |
| `SlotImage.OneMoreResumed` | src/daemon/reconciler.ts:1898-1911 | The same for one more resume at the end of a run of resumes. |
| `SlotImage.WakeSteps` | src/daemon/reconciler.ts:599-601 | The same for a slot taken after an await: a recovery, a CI advance or a claimed launch. |
| `SlotImage.ReleaseImage` | src/master/lease.ts:45-57 | The same for the holder of the master lease letting go of it. |
| `SlotPool.Reconciler.OccupySlot` | src/daemon/reconciler.ts:711-740 | Taking a slot adds the issue and exactly one to the shared budget. |
| `SlotPool.Reconciler.Settled` | src/daemon/reconciler.ts:735-738 | Settling removes the issue and exactly one from the shared budget, and is the settling step of the protocol. |
| `SlotPool.Reconciler.AvailableSlots` | src/daemon/reconciler.ts:1468-1475 | The count fits under the global cap and the ceiling, and is the largest that does. |
| `SlotPool.Reconciler.ResumeAnswered` | src/daemon/reconciler.ts:1898-1911 | The resume loop never overshoots the cap, starts only listed idle runs, takes the master lease at most once, and leaves waiting only what met a full budget or a held lease; as a whole it is a run of the protocol's resumes. |
| `SlotPool.Reconciler.ServiceMasterQueue` | src/daemon/reconciler.ts:796-840 | A master starts exactly when it is routable, the lease and a slot are free and some queued issue is idle, and it is the first such; the start is an enabled step of the protocol. |
| `SlotPool.Reconciler.RecoverOrphan` | src/daemon/reconciler.ts:580-603 | An orphaned run is re-driven exactly when a slot is free after the await, at boot or in a sweep, and that is the recovery step of the protocol. |
| `SlotPool.Reconciler.AdvanceParked` | src/daemon/reconciler.ts:876-903 | Advancing a parked run takes its slot and is the CI advance of the protocol. |
| `SlotPool.Reconciler.LaunchClaimed` | src/daemon/reconciler.ts:1983-1994 | A landed claim takes a slot and a failed one nothing, each as the step of the protocol. |
| `SlotPool.Reconciler.ServiceMergeWorker` | src/daemon/reconciler.ts:749-777 | An integration is leased exactly when none runs and some queued run has left its build slot, and it is the oldest such; the lease is an enabled step of the protocol. |
| `SlotPool.MasterLease.Release` | src/master/lease.ts:45-57 | A handle releases the lease only while its own key holds it, and only once. |
| `SlotPool.PlanIsAPick` | src/daemon/reconciler.ts:1000-1070 | The plan of an admission pass is a legal pick of the slot protocol: distinct issues seen out of flight, no more than the counted slots. |
| `RoutingConfig.WalkIsComplete` | src/providers/select.ts:185-242 | Validation walks exactly the providers some phase and tier can be dispatched to. |
| `RoutingConfig.MasterRoutesAreWalked` | src/providers/select.ts:300-308 | A master has only the routes of its tier, and those are validated as implementing routes. |
| `RoutingConfig.DispatchIsWalked` | src/providers/select.ts:185-308 | Whatever provider any dispatch may select, a master's included, validation has walked. |
| `RoutingConfig.PoolMeaning` | src/config/load.ts:210-243 | The pool keeps the explicit accounts in order and adds exactly one account for each endpoint block with a credential of its own, under its fixed id. |
| `RoutingConfig.ProblemMeaning` | src/config/load.ts:111-189 | What stands against routing a type to a provider, reason by reason: tools, the provider block, an account, an enabled one, the keys. |
| `RoutingConfig.AssertUnique` | src/config/load.ts:263-271 | The loop accepts exactly duplicate-free lists and otherwise names a repeated value. |
| `RoutingConfig.ResolveTargets` | src/config/load.ts:43-209 | The validation loops accept exactly the bootable configurations, resolve them to the merged targets, and otherwise name something really wrong. |
| `RoutingConfig.BootableDispatches` | src/config/load.ts:115-191 | On a bootable configuration every endpoint provider any type, phase and tier, or a master, can select is configured, capable, and has enabled accounts, for z.ai with their keys set. |
| `RoutingConfig.ClaudeNeverFallsBack` | src/config/load.ts:127-139 | A selected claude with pool accounts keeps an enabled one. |
| `RoutingConfig.ImplementingNeedsTools` | src/providers/select.ts:265-330 | No implementing route reaches openai unless its block declares it tools-capable. |
| `RoutingConfig.OverridesReplaceWhole` | src/config/load.ts:55-57 | A global routing edit reaches exactly the targets that declare no routing of their own, and changes nothing else of a target. |
| `RoutingConfig.OverridesReplaceEach` | src/config/load.ts:43-80 | A target reads each of its own settings where it declares one and the global one where it does not, and its checkouts where it says or by the name of its repo. |
| `RoutingConfig.DispatchReads` | src/providers/select.ts:185-242 | A dispatch reads the routes of its tier where the tier governs its type, else the override of its review phase, else the base list of its type, else the global provider. |
| `RoutingStore.Store.ApplyEdit` | src/config/routing-store.ts:153-219 | An edit is applied exactly when it is acceptable and can be persisted. An applied account edit parks its account or un-parks it as asked, every other account and everything else staying; an applied type edit gives its type the routing asked for or none, everything else staying. A rejected edit changes nothing. The file always reads back as the overlay on both edited keys. |
| `RoutingStore.EditMeaning` | src/config/routing-store.ts:153-214 | The configuration an edit asks for, and its targets: the account or type as asked, in the targets only a type edit and only where no routing of their own shields them, and everything else as it was; asking for what already holds changes nothing. |
| `RoutingStore.ParkedByLastEdit` | src/config/routing-store.ts:198-214 | After any sequence of edits and failures an account is parked exactly if the last applied edit of it parked it, or none was applied and it was parked at first. |
| `RoutingStore.RoutedByLastEdit` | src/config/routing-store.ts:153-187 | After any sequence of edits and failures a type reads what the last applied edit of it gave it, or what it read at first. |
| `RoutingStore.Store.ValidateAndCommit` | src/config/routing-store.ts:228-250 | Validate, write through, then commit: what is applied, what each rejection leaves, and why. |
| `RoutingStore.ConfigFile.WriteThrough` | src/config/routing-store.ts:259-275 | The document with the key the edit owns rewritten, or deleted when no account is parked any more; a failing read or write changes nothing. |
| `RoutingStore.EditReadsBack` | src/config/routing-store.ts:252-275 | A restart reads the edited key back as the edit meant it, the other key as it was, and every other key of the document survives. |
| `RoutingStore.Store.RoutingFor` | src/config/routing-store.ts:115-121 | The live routing of a repo is its own target's, or the global one for an unknown repo. |
| `RoutingStore.EditsStayBootable` | src/config/routing-store.ts:1-25 | Over any sequence of edits and write failures the overlay passes boot validation and the account pool stands. |
| `RoutingStore.DispatchAfterEdits` | src/daemon/daemon.ts:269-288 | After any sequence of edits, for every openai or zai entry any list of any target can select, a master's included, the account source built at boot returns an enabled account of that provider. |
| `RoutingStore.LastAccountStays` | src/config/routing-store.ts:188-197 | No edit can park the last enabled account of an endpoint provider some target selects. |
| `RoutingStore.RouteWorld.AcquireAccount` | src/daemon/daemon.ts:269-288 | For an endpoint provider the first pool account that is not parked; for claude the login of the meter, enabled, with headroom whenever an enabled one has it, and none exactly when every login is parked. |
| `CloneGate.TargetCloneGate.Run` | src/executor/clone-sync.ts:250-263 | Queueing through the object is the queueing step of the protocol: the new section waits for the last one queued before it, and for no promise when it is the first. |
| `CloneGate.GateIsFifoMutex` | src/executor/clone-sync.ts:243-263 | Over every interleaving at most one section runs, and one that has begun has every earlier one settled, resolved or rejected. |
| `CloneGate.EverySectionSettles` | src/executor/clone-sync.ts:243-263 | From every reachable state the sections queued so far can all run to their ends, in order and each with its own outcome: a rejection holds up nothing behind it. |
| `CloneGate.GateMakesProgress` | src/executor/clone-sync.ts:243-263 | When nothing runs, the first waiting section can start, whatever became of those before it. |
| `SyncedClone.ReadersSeeTheirRefresh` | src/executor/clone-sync.ts:320-331 | In every reachable run of refreshing, reading and foreign sections: a running section whose refresh resolved stands on the clean base checkout at the commit the refresh reported, with the old HEAD behind it; every read found that commit; a section whose refresh failed has read nothing and rejects. |
| `SyncedClone.OthersWait` | src/executor/clone-sync.ts:243-263 | However others are queued or try to start between two steps of a running section, it finds the clone and its own progress as it left them. |
| `SyncedClone.SectionEnds` | src/executor/clone-sync.ts:132-146 | Whatever its fetch and its processes do, a running section reaches its end by its own steps, and rejects exactly when its refresh failed. |
| `SyncedClone.RefreshIsAtomic` | src/executor/clone-sync.ts:342-376 | Whatever other sections do between the fetch, the inspections and the merge, the refresh leaves the clone and reports exactly what a lone Sync would. |
| `SyncedClone.RunsKeepHistory` | src/executor/clone-sync.ts:17-20 | Over every run in which foreign sections leave HEAD alone, HEAD stays on its branch and only moves to descendants. |
| `CloneSync.GuardRefuses` | src/executor/clone-sync.ts:71-101 | Nothing but the six named commands gets past the guard, no mutating one among them, and a merge only when told to fast-forward. |
| `CloneSync.HarmlessKeeps` | src/executor/clone-sync.ts:90-101 | A permitted command with no unread option, no forced fetch onto a local branch with leave to move the checked-out one and no symbolic write keeps branch and history in every clone, whatever git makes of it. |
| `CloneSync.UnderstoodBreaksExactly` | src/executor/clone-sync.ts:90-101 | Of the permitted commands whose every argument is read (known options, plainly spelled names, one refspec at most), one may move HEAD off its branch or its history, in a clone on no branch or a plainly named one, if and only if it is not of that harmless kind. |
| `CloneSync.GuardPermitsPointers` | src/executor/clone-sync.ts:90-101 | A permitted command that points HEAD at another branch. |
| `CloneSync.GuardPermitsOverwrites` | src/executor/clone-sync.ts:90-101 | A permitted forced fetch over the checked-out branch. |
| `CloneSync.AliasIsNotHarmless` | src/executor/clone-sync.ts:90-101 | A permitted symbolic write to another spelling of HEAD is not harmless, and is given no promise. |
| `CloneSync.GuardPermitsOtherMerges` | src/executor/clone-sync.ts:98-100 | A permitted merge of another ref keeps history and may still leave HEAD off the fetched base. |
| `CloneSync.IssuedKeepsExactly` | src/executor/clone-sync.ts:338-383 | The invocations the synchronizer issues are all permitted, and all harmless if and only if the base branch does not read as an option. |
| `CloneSync.HistoryIsNeverRewritten` | src/executor/clone-sync.ts:338-383 | However the issued invocations follow each other and whatever git makes of each, HEAD stays on its branch, uncommitted edits stay, HEAD only moves to descendants and ends where it was or at a base that was fetched. |
| `CloneSync.TargetClone.Sync` | src/executor/clone-sync.ts:132-146 | It succeeds exactly on a clean base checkout that is current or can be fast-forwarded, with every inspection answered; then HEAD is the fetched base with the old HEAD as ancestor; a refusal leaves HEAD alone and names its exact reason; only issued commands run. |
| `CloneSync.TargetClone.ReadState` | src/executor/clone-sync.ts:364-383 | What the inspections report when each may fail: no branch, no fast-forward, or an error, as the source has it. |
| `Sorting.SortCanonical` | src/core/admission.ts:240 | A stable sort under an order without ties on the elements at hand depends only on the multiset of elements. |
| `Sorting.SortFacts` | src/core/admission.ts:240 | The sort orders the elements and neither loses nor invents one. |

## Left out

- Docker, git and GitHub processes, agent sessions, prompts, credentials, the event log, SQLite, the web control plane, notifications and logging: they appear as abstract events or results only.
- The digest itself: `ImageKey` proves properties of the bytes fed to SHA-256, not of the digest or its truncation to 16 hex digits.
- JavaScript string encoding: a text is a sequence of characters, and lone surrogates, which the printer escapes, are not told apart.
- The parse of "Blocked by" sections, launch markers, question and request comments: their results are fields of the issue, pull request and comment.
- Models, model overrides and effort in routing entries: only the provider of an entry matters to validation; a tier's profile is modelled by its routes.
- The schema's own checks (uniqueness of account ids, non-empty lists): the routing lemmas hold without them.
- Route resolution walking on past an entry without an account: `UsageMeter.Meter.AcquireIfHeadroom` and `RoutingStore.RouteWorld.AcquireAccount` cover what each entry is answered.
- The master engine, its history and the adoption of pre-cutover parks: whether a request filed now goes through is an input of `LabelOutbox.SurfaceOne`.
- The anomaly comment posted beside the marker, and the second half of the surface pass over closed issues.
- Claim-failure tallies, worktree and container sweeps, transcript pruning and the moding pass's own concurrency: they take and free no build slot.
- A rebuilt row's tier, title and question headline: bookkeeping no decision here reads.
- The drain's timing and its re-pump delay: draining is the state in which only merge leases are taken.
- SlotProtocol.FillRespectsCeiling: says nothing of slots taken by resumes, recoveries, CI advances or masters, because the code does not check the ceiling there.
- SlotPool.Reconciler.ResumeAnswered: models the loop without suspension, as in the source; promises settle between driver steps in `SlotProtocol`.
- Rehydrate.RecoveryIsFixpoint: excludes the CI-parked label, which the outbox does not own; `Rehydrate.FurthestStateWins` covers it.
- SyncedClone.ReadersSeeTheirRefresh: assumes, as the source states, that every operation on the clone root runs through the gate.
- CloneSync.UnderstoodBreaksExactly: says nothing of commands with an unread option or a name with a special character, among them pruning fetches and patterns, because git's reading of those is not modelled; they count as not harmless or are covered by `CloneSync.HarmlessKeeps`.
- CloneSync.HarmlessKeeps: is about branch and commit of HEAD, not about other refs, hooks or the files on disk.
- CloneSync.TargetClone.Sync: takes the parents of commits as given and reads no process output but the values; a merge that git refuses for untracked files is one of its failures.
- RoutingStore.EditReadsBack: models the document as the values at its keys' paths, not its comments and layout.
- The other backlog sections (paused, manual holds, row colours) and the spread of merge, review and auto-mode settings over targets.
- Usage-limit error texts and their reset parsing, slugs, image references, operator-action texts and label cosmetics: they would only add easy members.
