# Verified models of Fluyo's stateful cores

Fluyo is a language-learning product: an iOS client, a web client, a NestJS API with
billing, and a Windows toolchain that records evidence about screen-reader speech.
This project models the parts of it whose correctness depends on state that outlives
a single call, and proves what they keep over every run.

`dafny verify dfyconfig.toml` checks everything. Each file holds one module.

## How the models are built

Every component has the same three layers.

- **Specification functions** on values say what one step does, branch by branch
  as the code does it. A thrown error or a rejected promise is a result.
- **Classes** perform the same steps in place, with the loops of the source, and
  are proved against the functions: `AuthRuntimeCoordinator`,
  `InMemoryActivityAttemptRateLimiter`, `LearningTables`, `NativeBroker`,
  `DuplicateAwareJsonParser`, `GlobalPlugin`, `BillingTables`.
- **Step systems** interleave those steps where the source has concurrency. The
  environment picks the next step and every answer of a port, a clock, a file or
  a database; the theorems range over all choices.

### The auth runtime coordinator (`Auth*`)

`AuthRuntimeKernel.swift` is an actor in which every `await` lets another entry run.
`AuthRuntime.State` is the actor's fields, the two stores and a map of suspended
continuations. A port write that was called but not yet performed is a step of its
own, `Perform`, so a stale write can land at any later moment. The stores follow the
doubles of `AuthRuntimeKernelTests.swift:758-766`: a write applies only at the
activated generation, and activation only rises.

`AuthStructure` proves who may own the reservation, `AuthEvidence` where a verified
owner comes from, `AuthStores` what the stores hold, `AuthHistory` what the log of a
run looks like, and `AuthTheorems` what follows for every run. `AuthOutcomes`,
`AuthAnswers` and `AuthRequests` say what an undisturbed operation comes to: for
every request of a caller and every answer of a port the snapshot, the announcement,
the generation and the contents of the stores.

### Rate limiter and learning attempts (`Rate*`, `Attempt*`)

The limiter is verified together with a history of all charges that it does not keep
itself. The attempt protocol runs any number of submits over shared tables, the
limiter and the per-lesson lock; a transaction can fail, lose a unique-key race, or
commit with its acknowledgement lost.

`RateHistory` then says what a check answers from the times of past charges and the
unsettled leases alone. `AttemptJudging` ties every stored answer of a run to the
published content that was read for it, and every refusal to its reason;
`AttemptAdmission` says which submit is admitted, charged or turned away, from the
submits that are running and the charges made before.

Concatenating user and key tells pairs apart as long as no NUL occurs in them;
`OwnerAndKeyCollidesIff` says that it never does otherwise.

### The evidence broker (`Utf8`, `BrokerFrame`, `Journal*`)

A frame parser, a hash-chained journal, its loader, crash recovery and the
acknowledged request loop. `JournalRuns.Sys` is the journal, the files, the broker
process if one is alive, and the anchor its controller holds; the process can crash
between any two steps, including within a mutation.

SHA-256 and base64 are a `Codec`: digests are 64 hexadecimal digits and base64
decodes what it encodes. A digest of fixed length cannot be injective, so theorems
that need it assume that the texts hashed by the two chains at hand do not collide.

`JournalGate` says which requests begin a mutation and what becomes of every other
one, `JournalMutations` which lines a mutation writes from its intent to its end,
`JournalLifecycle` which chains are legal and which hold they leave,
`JournalVerdicts` which recoveries are bound and what each is answered, and
`JournalJson` that a response whose keys differ is JSON and reads back as its
values. The first four state their conditions from the fields of the frame, the
records and the broker.

`JournalTheorems` proves that written journals load back. `JournalPast` follows a
run with a ghost record of its last mutation and its last response, and
`JournalCrashes` proves from it what a recovery's verdict says about the files and
the response of a crashed broker, and that nothing runs again before a verdict. A
broker that is held because it was started without an anchor over a settled journal
is the exception in the source: another start with the controller's anchor opens it
without a verdict. `RestartOpensIff` says exactly when that is so.

Recovery from a bare intent appends nothing, and the loader refuses a new request
behind a bare intent. So a mutation begun after such a recovery makes the journal
unloadable. `NextIntentLoadsIff` states exactly when that happens,
`WrittenJournalsLoad` covers all other runs, and `JournalWitness` exhibits such a
run.

### The duplicate-aware JSON parser (`Json*`)

`JsonGrammar` is RFC 8259, sections 2 to 7, as derivation trees over UTF-16 code
units, independent of any parser. `JsonParser` specifies the recursive descent,
`JsonDecoder` verifies the class with its offset against it, `JsonSurrogates` shows
that a text with an unpaired surrogate anywhere is refused, `JsonTheorems` proves
that exactly the values of the grammar are returned, and `JsonPrinter` adds a
printer and the byte decoder.

### The speech recorder (`SpeechGrammar`, `Observation*`)

`SpeechGrammar` proves that the reachability loop decides the closed grammar.
`ObservationBarrier` interleaves the control reader with any number of callbacks,
each section under the lock being one step. Sequence numbers rise but may skip: an
append that fails after its first check keeps the number it took. `ObservationOrder`
says which controls are taken, from those taken before, and `ObservationQuiet` when
a drain ends and what a failure stops.

### The Stripe projection (`StripeProjection`, `StripeRecords`)

Webhook events, in any order and with replays, over mappings, subscriptions,
entitlements and the ledger. `StripeRecords` says from an event's own fields what it
stores, which failure it meets, and from when on its owner has access. Two
expectations turn out not to hold, and their exact conditions are proved instead:

- the owner check compares metadata with the stored spelling of the user id, so an
  id with a capital letter is accepted once and refused ever after
  (`CapitalsLockTheCustomerOut`; `CapitalsAreAppliedOnce` from empty tables;
  `AppliedIff` for the general condition);
- an entitlement key has one row, whichever subscription wrote it last, so ending
  one subscription can end what another still grants (`CancellingOneEndsTheOther`;
  `AccessStaysCompleteIff` says exactly when access stays complete).

### The conversation canvas (`ConversationCanvas`)

The reducer of a lesson's screen. `AnswersDecide` says from the events alone whether
an attempt is being submitted, waits for a retry or is confirmed, and as what. The
generation fences late answers as long as nothing resets the canvas; a reset starts
again at generation one, and what protects it then is that idempotency keys are
fresh. `StaleKeyRevivesIff` says exactly when a key that is not fresh brings a dead
attempt back.

## Model

| member | source | states |
|---|---|---|
| `AuthTheorems.RunKeepsInvariant` | apps/ios/Fluyo/AuthRuntimeKernel.swift:123-432 | in every interleaving of entries, resumed continuations and port results, the structural, evidence, store and history invariants hold together |
| `AuthTheorems.WipedStatesHoldNothing` | apps/ios/Fluyo/AuthRuntimeKernel.swift:276-295 | whenever the snapshot is `accountSwitching` or `expiredOrRevoked`, session vault and owner store are empty, and no `replace` or `bind` still in flight can put anything there |
| `AuthTheorems.VerifiedClaimsTraceBack` | apps/ios/Fluyo/AuthRuntimeKernel.swift:276-289 | every published snapshot that claims a verified owner, and the current one, follows a publication of `authenticated` that came after owner check, vault write and owner binding of one reservation in that order, with no completed wipe since |
| `AuthTheorems.VerifiedOwnerIsStored` | apps/ios/Fluyo/AuthRuntimeKernel.swift:276-295 | a snapshot that claims a verified owner has a session and an owner in the stores unless a wipe is under way |
| `AuthTheorems.EachGenerationIsFencedOnce` | apps/ios/Fluyo/AuthRuntimeKernel.swift:424-431 | the fences of a run aim at first, first+1, … in order, one each, and the generation is the first plus their number |
| `AuthTheorems.LateFenceDoesNothing` | apps/ios/Fluyo/AuthRuntimeKernel.swift:338-339 | a cancel, timeout, rejection or cleanup that aims at a generation already fenced, or arrives after the latch, only ends itself |
| `AuthTheorems.SupersededFenceDoesNothing` | apps/ios/Fluyo/AuthRuntimeKernel.swift:348-352 | a fence whose generation is no longer current publishes nothing and releases nothing, in any reachable state |
| `AuthTheorems.QuiescentRunsAreSettled` | apps/ios/Fluyo/AuthRuntimeKernel.swift:334-431 | when no operation or fence is under way, nothing is reserved, and the run has latched, or never fenced, or the newest fence published at its own generation |
| `AuthTheorems.LatchFiresOnce` | apps/ios/Fluyo/AuthRuntimeKernel.swift:432 | the log holds one latch publication if the coordinator is terminal and none otherwise |
| `AuthTheorems.TerminalAbsorbs` | apps/ios/Fluyo/AuthRuntimeKernel.swift:297-333 | once latched, no step changes generation, snapshot, history or reservations, and only draining changes the effect queue |
| `AuthTheorems.GenerationOnlyRises` | apps/ios/Fluyo/AuthRuntimeKernel.swift:424-431 | no step lowers the generation or takes it past the largest 64-bit number |
| `AuthTheorems.EffectsAreCurrentAndDrainedOnce` | apps/ios/Fluyo/AuthRuntimeKernel.swift:118-121 | queued effects carry the current generation; over a run the drained and queued effects have strictly rising sequence numbers, so none is drained twice |
| `AuthTheorems.RefreshIsCalledOncePerGeneration` | apps/ios/Fluyo/AuthRuntimeKernel.swift:197-216 | the generations at which the provider is asked for a refresh rise strictly |
| `AuthTheorems.UninterruptedCallbackAuthenticates` | apps/ios/Fluyo/AuthRuntimeKernel.swift:156-186 | a callback that nothing interrupts stores session and owner, ends authenticated with two effects more, and leaves nothing under way |
| `AuthTheorems.WritesThenAuthenticates` | apps/ios/Fluyo/AuthRuntimeKernel.swift:281-289 | from the vault write on, two applied writes lead to the authenticated snapshot and release the reservation |
| `AuthTheorems.UninterruptedWipeFinishes` | apps/ios/Fluyo/AuthRuntimeKernel.swift:394-413 | a wipe that nothing supersedes empties both stores, publishes its goal and releases the fence |
| `AuthOutcomes.WipeEndsAt` | apps/ios/Fluyo/AuthRuntimeKernel.swift:385-413 | the same from the fence on, with every field: both stores empty, the next generation, the goal shown without candidate or owner, and the one announcement that belongs to it |
| `AuthOutcomes.TransitionEndsAt` | apps/ios/Fluyo/AuthRuntimeKernel.swift:334-359 | a transition that nothing supersedes shows its snapshot in the next generation, with its announcements, and leaves the stores alone |
| `AuthOutcomes.PurgeEndsAt` | apps/ios/Fluyo/AuthRuntimeKernel.swift:370-383 | a callback store that fails is purged, and a failure is shown over what was stable before |
| `AuthOutcomes.FailedCleanupLatches` | apps/ios/Fluyo/AuthRuntimeKernel.swift:393-399 | a cleanup that cannot write, or cannot confirm that nothing is left, latches the coordinator |
| `AuthOutcomes.LastGenerationLatches` | apps/ios/Fluyo/AuthRuntimeKernel.swift:297-302 | at the largest generation nothing is reserved and nothing fenced: the coordinator latches |
| `AuthAnswers.RefreshEndsAs` | apps/ios/Fluyo/AuthRuntimeKernel.swift:207-216 | each answer of the provider to a refresh: refused or unreadable wipes both stores and shows `expiredOrRevoked` with `reauthenticationRequired`; transient shows offline and forbidden the safe terminal state, over what was stable before |
| `AuthAnswers.VerifyEndsAs` | apps/ios/Fluyo/AuthRuntimeKernel.swift:276-294 | each answer to the owner check: invalidated wipes as expired, malformed wipes as a mismatch, transient goes offline, forbidden fails |
| `AuthAnswers.ReplaceEndsAs` | apps/ios/Fluyo/AuthRuntimeKernel.swift:281-283 | a vault that does not take the session is wiped as corrupt; otherwise the owner is bound next |
| `AuthAnswers.BindEndsAs` | apps/ios/Fluyo/AuthRuntimeKernel.swift:284-289 | an owner that cannot be bound is wiped as a mismatch; otherwise the session is shown as authenticated |
| `AuthAnswers.CheckedOwnerIsStored` | apps/ios/Fluyo/AuthRuntimeKernel.swift:276-289 | after an owner check that succeeds the vault holds that candidate and the owner store that subject, and exactly a callback announces it |
| `AuthAnswers.ConsumeEndsAs` | apps/ios/Fluyo/AuthRuntimeKernel.swift:160-184 | each answer of the callback store: a good link is shown as pending and exchanged; replayed, expired, unsupported and malformed ones are shown as unusable for that reason; a duplicate or stale one changes nothing; a failing store is purged |
| `AuthAnswers.ExchangeEndsAs` | apps/ios/Fluyo/AuthRuntimeKernel.swift:168-176 | each answer of the provider to the exchange, with the snapshot it ends in |
| `AuthAnswers.VaultEndsAs` | apps/ios/Fluyo/AuthRuntimeKernel.swift:131-142 | each answer of the vault at the start, online and offline, with the snapshot it ends in |
| `AuthAnswers.TimeoutEndsAs` | apps/ios/Fluyo/AuthRuntimeKernel.swift:239-260 | an operation whose time is over is fenced: a refresh step goes offline, anything else fails, both with outcome `timedOut`; a timer that did not fire only ends |
| `AuthAnswers.CancelEndsAs` | apps/ios/Fluyo/AuthRuntimeKernel.swift:188-195 | a cancel that comes at least half a second after its operation began shows it as canceled; an earlier one does nothing |
| `AuthRequests.RefusedRequestRuns` | apps/ios/Fluyo/AuthRuntimeKernel.swift:197-229 | a request refused with 401, from call to end, in every case of the provider's answer: what is shown, which generation, what the stores hold, and that nothing is left under way |
| `AuthRequests.RenewedSessionIsStored` | apps/ios/Fluyo/AuthRuntimeKernel.swift:197-216 | a session that the provider renews is checked, stored with its owner and shown as authenticated, without an announcement |
| `AuthRequests.SecondRefusedRequestWipes` | apps/ios/Fluyo/AuthRuntimeKernel.swift:200 | the second refused request of a generation asks no one: both stores end up empty and `expiredOrRevoked` is shown |
| `AuthRequests.LeavingEmptiesTheStores` | apps/ios/Fluyo/AuthRuntimeKernel.swift:236-237 | signing out or switching accounts, even in the middle of another operation, empties both stores and shows that goal |
| `AuthRequests.CallbackBegins` | apps/ios/Fluyo/AuthRuntimeKernel.swift:156-160 | a callback takes a reservation of its own and asks the callback store, unless something is reserved |
| `AuthRequests.InitializeBegins` | apps/ios/Fluyo/AuthRuntimeKernel.swift:123-131 | the start takes a reservation and gets what the vault holds, or its refusal |
| `AuthRequests.NothingBeginsTwice` | apps/ios/Fluyo/AuthRuntimeKernel.swift:297-310 | while something is reserved, or after the latch, none of the three begins |
| `AuthRequests.TimeoutBegins` | apps/ios/Fluyo/AuthRuntimeKernel.swift:311-316 | a timeout watches the operation under way, or reserves when there is none, and never watches a fence |
| `AuthRequests.CancelBegins` | apps/ios/Fluyo/AuthRuntimeKernel.swift:188-189 | a cancel captures the operation of its kind if it is the one under way, and is nothing otherwise |
| `AuthRequests.ForbiddenShowsFailure` | apps/ios/Fluyo/AuthRuntimeKernel.swift:231-235 | a request refused with 403 shows what is there as failed, and announces it, unless an operation or the latch has the say |
| `AuthRequests.AnnouncementIsScheduled` | apps/ios/Fluyo/AuthRuntimeKernel.swift:269-271 | a delayed announcement remembers the generation, version and state that were shown when it was scheduled |
| `AuthRequests.DelayedAnnouncementIff` | apps/ios/Fluyo/AuthRuntimeKernel.swift:269-274 | a delayed announcement is made exactly if its timer fires and nothing was shown, fenced or latched since |
| `AuthRequests.OperationTimerIff` | apps/ios/Fluyo/AuthRuntimeKernel.swift:218-222 | the timers of start and refresh speak exactly while their operation still waits and is still shown as such |
| `AuthRequests.DrainHandsOut` | apps/ios/Fluyo/AuthRuntimeKernel.swift:118-121 | draining hands out the whole queue of the present generation, and nothing for another |
| `AuthHistory.HistFence` | apps/ios/Fluyo/AuthRuntimeKernel.swift:424-431 | installing a fence keeps the fence order, the refresh record, the effect order and the rule that every generation after the first is fenced or settled |
| `AuthKernel.AuthRuntimeCoordinator.constructor` | apps/ios/Fluyo/AuthRuntimeKernel.swift:107-110 | a new coordinator has the given generation, no reservation, no effect and the initial snapshot |
| `AuthKernel.AuthRuntimeCoordinator.PublishLocked` | apps/ios/Fluyo/AuthRuntimeKernel.swift:330 | publishing in place appends to the history and raises the state version as the specification says |
| `AuthKernel.AuthRuntimeCoordinator.EnqueueLocked` | apps/ios/Fluyo/AuthRuntimeKernel.swift:333 | an effect goes to queue and history under the next sequence number |
| `AuthKernel.AuthRuntimeCoordinator.PublishWithEffect` | apps/ios/Fluyo/AuthRuntimeKernel.swift:328 | snapshot and effect are published together by a valid reservation, and not at all by any other |
| `AuthKernel.AuthRuntimeCoordinator.LatchTerminal` | apps/ios/Fluyo/AuthRuntimeKernel.swift:432 | the latch clears reservation and queue and publishes the terminal snapshot with its effect |
| `AuthKernel.AuthRuntimeCoordinator.Reserve` | apps/ios/Fluyo/AuthRuntimeKernel.swift:297-302 | a reservation is granted only when nothing is reserved and the latch is open, and captures the stable snapshot |
| `AuthKernel.AuthRuntimeCoordinator.ReserveTimeout` | apps/ios/Fluyo/AuthRuntimeKernel.swift:311-316 | a timeout shares the active reservation, or takes one of its own |
| `AuthKernel.AuthRuntimeCoordinator.Finish` | apps/ios/Fluyo/AuthRuntimeKernel.swift:325 | only the active reservation releases itself |
| `AuthKernel.AuthRuntimeCoordinator.InstallFence` | apps/ios/Fluyo/AuthRuntimeKernel.swift:424-431 | a fence needs the expected generation and no latch, latches at the largest generation, and otherwise opens the next generation with an empty queue |
| `AuthKernel.AuthRuntimeCoordinator.DrainPresentationEffects` | apps/ios/Fluyo/AuthRuntimeKernel.swift:118-121 | draining hands out the queue of the current generation and empties it |
| `AuthKernel.AuthRuntimeCoordinator.Handle403` | apps/ios/Fluyo/AuthRuntimeKernel.swift:231-235 | a refused request publishes the safe terminal snapshot only when nothing is reserved |
| `AuthKernel.AuthRuntimeCoordinator.WithdrawRefreshEffects` | apps/ios/Fluyo/AuthRuntimeKernel.swift:227 | a finished refresh withdraws exactly its own pending effects |
| `RateLimiter.ChargesFitEveryWindow` | apps/api/src/learning/activity-attempt-rate-limiter.ts:51-92 | with a clock that does not go back, no user is charged more than `limit` admissions in any window (t - windowMs, t] |
| `RateLimiter.RetryAfterIsLeast` | apps/api/src/learning/activity-attempt-rate-limiter.ts:68-79 | a refused user with a fresh key is admitted after k whole seconds, if nothing else is charged, exactly when k is at least `retryAfterSeconds` |
| `RateLimiter.AdmittedIffRoom` | apps/api/src/learning/activity-attempt-rate-limiter.ts:51-92 | a key that is not in flight is admitted exactly when fewer than `limit` recent attempts are stored |
| `RateLimiter.RefusalIsFull` | apps/api/src/learning/activity-attempt-rate-limiter.ts:62-79 | a refusal sees exactly `limit` recent charges |
| `RateHistory.CheckIff` | apps/api/src/learning/activity-attempt-rate-limiter.ts:51-92 | over every use a check is free exactly while an unsettled lease of its key stems from a charge less than a window old, else charged exactly when fewer than `limit` charges of its user lie in the window, else refused with the least number of whole seconds after which the window has room; a free lease shares the charge of an open one and a charged one opens its own |
| `RateHistory.SettlingIsOnlyThat` | apps/api/src/learning/activity-attempt-rate-limiter.ts:94-117 | settling a lease ends its own hold on the key and no other; whoever shares its charge keeps the key in flight |
| `RateHistory.UsesKeepOpened` | apps/api/src/learning/activity-attempt-rate-limiter.ts:51-140 | every use keeps entries, stamps and expiries in agreement with the times of the charges |
| `RateLimiter.ReservationsCountUnsettledLeases` | apps/api/src/learning/activity-attempt-rate-limiter.ts:81-117 | the reservations of a live in-flight entry are the unsettled leases minted from it |
| `RateLimiter.OldLeasesLeaveNewEntriesAlone` | apps/api/src/learning/activity-attempt-rate-limiter.ts:94-117 | a lease of an earlier generation of an entry never touches the newer one, and a second settlement does nothing |
| `RateLimiter.SweepingChangesNoAnswer` | apps/api/src/learning/activity-attempt-rate-limiter.ts:123-140 | over every use the sweeping limiter answers as one that never sweeps |
| `RateLimiter.RetainedUsersAreRecent` | apps/api/src/learning/activity-attempt-rate-limiter.ts:123-140 | unless two users of the run share a concatenated key, every user still stored made an attempt within the last two windows |
| `RateLimiter.SharedKeysRetainWithoutAttempts` | apps/api/src/learning/activity-attempt-rate-limiter.ts:62-66 | two users that do share one: the second joins the first one's entry and is stored without any attempt |
| `RateLimiter.UsersWithoutNul` | apps/api/src/learning/activity-attempt-rate-limiter.ts:119-121 | users whose ids hold no NUL never share one |
| `RateLimiter.OwnerAndKeyInjective` | apps/api/src/learning/activity-attempt-rate-limiter.ts:119-121 | the concatenated owner and key tell pairs apart when the user ids hold no NUL |
| `RateLimiter.OwnerAndKeyCollidesIff` | apps/api/src/learning/activity-attempt-rate-limiter.ts:119-121 | a user and key share their concatenation with another pair exactly when one of them contains NUL |
| `RateLimiter.WindowHoldsLimit` | apps/api/src/learning/activity-attempt-rate-limiter.ts:62-79 | charges a window apart at distance `limit` leave at most `limit` in any window |
| `RateLimiter.UsesKeepUse` | apps/api/src/learning/activity-attempt-rate-limiter.ts:51-140 | every use keeps stored attempts, entries and leases in agreement with the history of charges |
| `RateLimiter.UsesKeepRetained` | apps/api/src/learning/activity-attempt-rate-limiter.ts:123-140 | while no two users share a concatenated key, every use keeps the next sweep within a window and every stored user recent at the last one |
| `RateLimiter.InMemoryActivityAttemptRateLimiter.constructor` | apps/api/src/learning/activity-attempt-rate-limiter.ts:38-49 | a new limiter remembers nothing |
| `RateLimiter.InMemoryActivityAttemptRateLimiter.Create` | apps/api/src/learning/activity-attempt-rate-limiter.ts:38-49 | a limit below one or a window that is not positive gives no limiter |
| `RateLimiter.InMemoryActivityAttemptRateLimiter.FilterRecent` | apps/api/src/learning/activity-attempt-rate-limiter.ts:62-66 | the loop keeps exactly the attempts after the cutoff, in order |
| `RateLimiter.InMemoryActivityAttemptRateLimiter.SweepUsers` | apps/api/src/learning/activity-attempt-rate-limiter.ts:123-140 | the deletion loop keeps exactly the users with a recent attempt |
| `RateLimiter.InMemoryActivityAttemptRateLimiter.SweepEntries` | apps/api/src/learning/activity-attempt-rate-limiter.ts:123-140 | the deletion loop keeps exactly the entries that expire after now |
| `RateLimiter.InMemoryActivityAttemptRateLimiter.SweepExpiredUsers` | apps/api/src/learning/activity-attempt-rate-limiter.ts:123-140 | a sweep happens when it is due and sets the next one |
| `RateLimiter.InMemoryActivityAttemptRateLimiter.CheckAndConsume` | apps/api/src/learning/activity-attempt-rate-limiter.ts:51-92 | a check decides, charges and mints its lease as the specification says |
| `RateLimiter.InMemoryActivityAttemptRateLimiter.Settle` | apps/api/src/learning/activity-attempt-rate-limiter.ts:94-117 | settling lowers the entry that the lease was minted from, once |
| `AttemptStore.SpellingDoesNotMatter` | apps/api/src/learning/activity-attempt.service.ts:90-126 | two spellings of activity id and key that differ in case only are one submit with one hash |
| `AttemptStore.ContentIsUsable` | apps/api/src/learning/activity-attempt.service.ts:56-88 | published content is usable exactly when every choice has a text id, one of them is the correct one, and both feedback texts are there |
| `AttemptJudging.EvaluateIff` | apps/api/src/learning/activity-attempt.service.ts:204-236 | an answer is judged so exactly when the first shown activity of its id has that published version and sound content: correct if and only if the choice is its `correctChoiceId`, with the feedback text that belongs to it; and each refusal exactly for its reason |
| `AttemptJudging.NextIsFirstOffered` | apps/api/src/learning/activity-attempt.service.ts:251-290 | the next activity is the first published one of the lesson that the learner may see and has not completed |
| `AttemptJudging.DraftIsRowOf` | apps/api/src/learning/activity-attempt.service.ts:261-352 | the drafted row carries the submit's own fields, that judgement, and the progress that follows from the tables under the lock |
| `AttemptJudging.RowsAreJudged` | apps/api/src/learning/activity-attempt.service.ts:194-352 | over every interleaving each stored attempt comes from one submit, was judged by the content read for it, and shows the progress that follows from the tables it found, under the local date computed with it |
| `AttemptJudging.RefusalsAreJudged` | apps/api/src/learning/activity-attempt.service.ts:219-233 | and a submit is refused for its content only when the content read for it says so |
| `AttemptStore.LookupFinds` | apps/api/src/learning/activity-attempt-admission.service.ts:54-85 | the lookup finds the row of user and key exactly when there is one |
| `AttemptStore.FirstMissingMeans` | apps/api/src/learning/activity-attempt.service.ts:262-290 | the next activity is the first published one that is not completed, and there is none exactly when all are |
| `AttemptStore.LearningTables.NextActivity` | apps/api/src/learning/activity-attempt.service.ts:262-290 | the search over the published activities returns that first one |
| `AttemptStore.LearningTables.WriteAttempt` | apps/api/src/learning/activity-attempt.service.ts:238-352 | the statements of one transaction, in their order, change the tables as the committed draft says |
| `AttemptStore.LearningTables.IsTaken` | apps/api/src/learning/activity-attempt.service.ts:337-350 | the unique index refuses exactly the keys that have a row |
| `AttemptTheorems.RunKeepsInvariant` | apps/api/src/learning/activity-attempt.service.ts:116-352 | over every interleaving rows, progress, drafts under a lesson lock, recoveries and leases stay consistent |
| `AttemptTheorems.CommitKeepsOthers` | apps/api/src/learning/activity-attempt.service.ts:238-243 | a commit leaves the draft of every other lesson valid, because nobody else holds this lesson's lock |
| `AttemptTotals.OneRowPerKey` | apps/api/src/learning/activity-attempt.service.ts:337-350 | at most one attempt row exists for a user and key |
| `AttemptTotals.RowsStay` | apps/api/src/learning/activity-attempt.service.ts:337-350 | a recorded attempt stays, unchanged and in place |
| `AttemptTotals.SuccessIsTheStoredResponse` | apps/api/src/learning/activity-attempt.service.ts:127-183 | every submit that succeeds returns the response of the row of its key, and its hash is that row's |
| `AttemptTotals.DifferentHashesNeverBothSucceed` | apps/api/src/learning/activity-attempt-admission.service.ts:54-85 | of two submits with one user and key and different hashes at most one succeeds |
| `AttemptTotals.LosersFindTheWinner` | apps/api/src/learning/activity-attempt-admission.service.ts:87-102 | a submit that lost the race to a committed row gets that row's response, or a conflict when it asked for something else |
| `AttemptTotals.ReplayChangesNothing` | apps/api/src/learning/activity-attempt-admission.service.ts:54-85 | a repeated submit replays the stored response and touches neither tables nor limiter |
| `AttemptTotals.EffectsHappenOnce` | apps/api/src/learning/activity-attempt.service.ts:262-352 | an activity is completed exactly when a correct row exists, appears once, and its day counts it once; rolled-back submits contribute nothing |
| `AttemptTotals.CompletionIsMarked` | apps/api/src/learning/activity-attempt.service.ts:291-312 | in every stored progress the completion time is set exactly when there is no next activity |
| `AttemptTotals.PracticeDaysCountCompletions` | apps/api/src/learning/activity-attempt.service.ts:262-312 | for every user the practice-day counts add up to the number of completed activities over all lessons |
| `AttemptTotals.LeasesAreSettled` | apps/api/src/learning/activity-attempt-admission.service.ts:54-102 | when all submits have ended every lease is settled and the limiter holds nothing in flight |
| `AttemptAdmission.AdmissionIff` | apps/api/src/learning/activity-attempt-admission.service.ts:54-85 | over every interleaving: a submit with a stored row replays it or conflicts and charges nothing; without one it goes on for free exactly while a submit of its key is running under a charge less than a window old, is charged exactly when the window of its user has room, and is otherwise rate limited with the least wait |
| `AttemptAdmission.InFlightIff` | apps/api/src/learning/activity-attempt-admission.service.ts:54-102 | the limiter holds a key in flight exactly while such a submit is running |
| `AttemptAdmission.EachHoldsItsOwn` | apps/api/src/learning/activity-attempt-admission.service.ts:54-102 | every running submit holds a lease of its own user and key |
| `AttemptAdmission.EndsIff` | apps/api/src/learning/activity-attempt.service.ts:127-192 | which read, answer or error ends a submit with which outcome |
| `AttemptAdmission.ConflictsAreReal` | apps/api/src/learning/activity-attempt-admission.service.ts:60-63 | over every interleaving a submit ends in a conflict only when a row of its user and key is stored for another request |
| `AttemptTotals.AdmissionsFitEveryWindow` | apps/api/src/learning/activity-attempt-admission.service.ts:54-85 | however submits interleave, no user is charged more than the limit in a window |
| `AttemptTotals.UninterruptedSubmitIsAdmitted` | apps/api/src/learning/activity-attempt.service.ts:116-157 | a submit of a new key that nothing interrupts reaches the transaction with a lease of its own |
| `AttemptTotals.UninterruptedSubmitIsRecorded` | apps/api/src/learning/activity-attempt.service.ts:238-352 | its first correct answer is recorded, counted once, and its lease settled |
| `AttemptProtocol.CompletedMeans` | apps/api/src/learning/activity-attempt.service.ts:271-290 | the completed activities of a lesson are those with a correct row, without duplicates |
| `BrokerFrame.ParseOfEncoding` | scripts/r4b-evidence/windows-native-boundary.cs:350-384 | every frame within the size bounds survives encoding and parsing |
| `BrokerFrame.EncodingOfParse` | scripts/r4b-evidence/windows-native-boundary.cs:350-384 | whatever parses is, byte for byte, the encoding of its frame: header and payload are consumed exactly and ids ascend strictly from above zero |
| `BrokerFrame.ParseIsInjective` | scripts/r4b-evidence/windows-native-boundary.cs:350-384 | no two byte strings parse to the same frame |
| `BrokerFrame.ParseFrame` | scripts/r4b-evidence/windows-native-boundary.cs:350-384 | the loop with its moving offset computes exactly that parse |
| `BrokerFrame.SchemaCoversSession` | scripts/r4b-evidence/windows-native-boundary.cs:386-425 | a frame that fits its operation's schema carries the identifying fields, the capability unless it opens, ends or recovers the session, a recovery record exactly when it recovers, and root and path together |
| `JournalGate.FitsIff` | scripts/r4b-evidence/windows-native-boundary.cs:386-425 | a frame fits exactly when its operation is one of the twenty-four, it has each field that the operation carries and no other, and only writes, appends and replacements have a payload, of at most 64 MiB |
| `JournalGate.SchemaByField` | scripts/r4b-evidence/windows-native-boundary.cs:395-425 | which operations carry which field, by field |
| `Utf8.DecodeEncoded` | scripts/r4b-evidence/windows-native-boundary.cs:350-384 | strict UTF-8 decoding gives back every encoded text |
| `Utf8.EncodeDecoded` | scripts/r4b-evidence/windows-native-boundary.cs:350-384 | bytes that decode are the encoding of what they decode to |
| `JournalText.SplitOfJoin` | scripts/r4b-evidence/windows-native-boundary.cs:1842-1845 | splitting takes a join of separator-free fields apart |
| `JournalText.JoinOfSplit` | scripts/r4b-evidence/windows-native-boundary.cs:1873 | joining puts a split together |
| `JournalText.ParseOfDecimal` | scripts/r4b-evidence/windows-native-boundary.cs:1847-1849 | a number is read back from its decimal text |
| `JournalText.CanonicalMeans` | scripts/r4b-evidence/windows-native-boundary.cs:1758-1763 | a canonical decimal is the rendering of exactly one 64-bit number |
| `JournalText.LinesAppend` | scripts/r4b-evidence/windows-native-boundary.cs:1842 | appending a terminated line appends one line |
| `JournalResponse.MarkersStandOnce` | scripts/r4b-evidence/windows-native-boundary.cs:1786-1803 | whatever its values hold, a rendered response contains every identifying key exactly once |
| `JournalResponse.ResponseAnswersItsRequest` | scripts/r4b-evidence/windows-native-boundary.cs:1094-1110 | every response rendered for a request passes the loader's check for that request |
| `JournalResponse.EscapeEscapesQuotes` | scripts/r4b-evidence/windows-native-boundary.cs:325-348 | in escaped text every quotation mark follows a backslash |
| `JournalJson.EscapedString` | scripts/r4b-evidence/windows-native-boundary.cs:328-348 | an escaped string is a JSON string that denotes what was escaped |
| `JournalJson.RenderedIsJson` | scripts/r4b-evidence/windows-native-boundary.cs:1094-1110 | an object of named values, however hostile, is a JSON text: the duplicate-aware parser returns exactly its members, in order |
| `JournalJson.ResponseIsJson` | scripts/r4b-evidence/windows-native-boundary.cs:1094-1110 | a response whose keys differ is read back as what it answers, its status, its reason and its values |
| `Journal.CheckLineMeans` | scripts/r4b-evidence/windows-native-boundary.cs:1844-1923 | a line that passes extends the chain by one legal record that agrees with the anchor, and is that record's written line |
| `Journal.ScannedIsLegal` | scripts/r4b-evidence/windows-native-boundary.cs:1842-1923 | lines that scan are the lines of one legal chain |
| `Journal.LegalScans` | scripts/r4b-evidence/windows-native-boundary.cs:1842-1923 | the lines of a legal chain scan, and yield its writer's memory |
| `Journal.HashBinds` | scripts/r4b-evidence/windows-native-boundary.cs:1660-1673 | without a collision equal hashes mean equal records and equal predecessors |
| `Journal.LinesDetermineChain` | scripts/r4b-evidence/windows-native-boundary.cs:1675-1713 | written lines determine the records |
| `JournalLifecycle.LegalRecordIff` | scripts/r4b-evidence/windows-native-boundary.cs:1873-1923 | a record passes exactly when it could have been written: named state, hexadecimal hashes, canonical numbers, and a response that its state demands and its length and digest fit |
| `JournalLifecycle.LegalIff` | scripts/r4b-evidence/windows-native-boundary.cs:1881-1897 | a chain is legal exactly when each record could have been written and the records of each request run through one of twelve lifecycles, each over before the next begins and acknowledged with its own response |
| `JournalLifecycle.LifecycleGrows` | scripts/r4b-evidence/windows-native-boundary.cs:1881-1897 | a state continues a lifecycle exactly when it may follow the last one |
| `JournalLoader.AcceptedIff` | scripts/r4b-evidence/windows-native-boundary.cs:1805-1943 | a text is accepted exactly when it is terminated, within 16 MiB and the lines of a legal chain that meets the anchor |
| `JournalLoader.AcceptedIsLegal` | scripts/r4b-evidence/windows-native-boundary.cs:1838-1925 | an accepted journal is a legal chain that meets the anchor, and the broker remembers its end |
| `JournalLoader.LegalIsAccepted` | scripts/r4b-evidence/windows-native-boundary.cs:1838-1925 | every legal chain that meets the anchor is accepted |
| `JournalLoader.WrittenJournalLoads` | scripts/r4b-evidence/windows-native-boundary.cs:1842-1923 | a written legal journal loads to exactly the writer's count, hash, state, identities and response |
| `JournalLoader.TornTailIsRefused` | scripts/r4b-evidence/windows-native-boundary.cs:1827-1829 | a journal whose last record was cut short is refused |
| `JournalLoader.EqualHashEqualPrefix` | scripts/r4b-evidence/windows-native-boundary.cs:1873-1903 | two chains with equal hash at n, without a collision between them, have equal records below n |
| `JournalLoader.ConfirmedPrefixIsFixed` | scripts/r4b-evidence/windows-native-boundary.cs:1898-1925 | under an anchor (n, digest) the first n records of an accepted journal are the confirmed ones and all later ones belong to one request |
| `JournalLifecycle.HoldIff` | scripts/r4b-evidence/windows-native-boundary.cs:1926-1942 | an accepted journal leaves the broker open exactly when it is empty or ends acknowledged and an anchor or its creation vouches for it; with an anchor a begun, applied or failed end can be recovered, and every other end is held for good |
| `JournalLifecycle.RefusedIsHeld` | scripts/r4b-evidence/windows-native-boundary.cs:2257-2264 | a refused journal holds the broker for good, with nothing for a request to be anchored to |
| `JournalBroker.NativeBroker.AppendJournal` | scripts/r4b-evidence/windows-native-boundary.cs:1675-1713 | one line is appended and every remembered field is that record's |
| `JournalBroker.NativeBroker.LoadJournal` | scripts/r4b-evidence/windows-native-boundary.cs:1805-1943 | the loop over the lines loads, holds or fails exactly as specified |
| `JournalBroker.NativeBroker.Refuse` | scripts/r4b-evidence/windows-native-boundary.cs:2257-2264 | a failed load holds the broker |
| `JournalBroker.NativeBroker.ProcessRequest` | scripts/r4b-evidence/windows-native-boundary.cs:2078-2179 | a request is refused, journaled as an intent, recovered or answered in the source's order |
| `JournalGate.OpensIff` | scripts/r4b-evidence/windows-native-boundary.cs:2085-2117 | the gate opens exactly for frames that fit, name this session, controller and creation identity, know the end of the journal unless they open the session, carry the capability unless they open, end or recover it, and mutate only an open broker and a known root |
| `JournalGate.MutationsByName` | scripts/r4b-evidence/windows-native-boundary.cs:1573-1581 | what is journaled and held back is exactly the operations that the source names as mutations |
| `JournalGate.RootsByName` | scripts/r4b-evidence/windows-native-boundary.cs:446-467 | the known roots are the twelve named ones |
| `JournalGate.NamesInOrder` | scripts/r4b-evidence/windows-native-boundary.cs:1112-1117 | the twenty-four operations have these names, in this order |
| `JournalGate.ObjectionsByName` | scripts/r4b-evidence/windows-native-boundary.cs:2089-2117 | the words of the refusals |
| `JournalGate.HoldsByName` | scripts/r4b-evidence/windows-native-boundary.cs:1926-1942 | the words of the holds |
| `JournalGate.BeginsIff` | scripts/r4b-evidence/windows-native-boundary.cs:2078-2124 | a request at the expected sequence number, to an idle broker that can identify the target, begins a mutation exactly when it may |
| `JournalGate.StartsIff` | scripts/r4b-evidence/windows-native-boundary.cs:2078-2124 | over runs, a step begins a mutation exactly when its request may, and nothing else does |
| `JournalGate.RefusedIsAnsweredFail` | scripts/r4b-evidence/windows-native-boundary.cs:2078-2117 | any other request leaves journal, memory and hold alone: out of sequence, or with an operation that has no name, it ends the loop; refused it is answered FAIL with a reason that holds of it |
| `JournalGate.UncapturedIsAnsweredFail` | scripts/r4b-evidence/windows-native-boundary.cs:2117-2124 | a mutation whose target cannot be identified is answered FAIL and writes nothing |
| `JournalGate.HarmlessIsAnswered` | scripts/r4b-evidence/windows-native-boundary.cs:2125-2160 | an admitted request that changes nothing is answered with what the system said, and writes nothing |
| `JournalMutations.IntentIsJournaled` | scripts/r4b-evidence/windows-native-boundary.cs:2117-2124 | a mutation that begins writes its intent, with the identity before it on both sides, and nothing else |
| `JournalMutations.SuccessIsJournaled` | scripts/r4b-evidence/windows-native-boundary.cs:2117-2153 | a mutation that succeeds has added its intent, the receipt of a finished process, and its effect with the very response, before anyone reads that response |
| `JournalMutations.AcknowledgementIsJournaled` | scripts/r4b-evidence/windows-native-boundary.cs:2306-2321 | acknowledged, it is committed under the same response and the next sequence number opens |
| `JournalMutations.DepartureIsJournaled` | scripts/r4b-evidence/windows-native-boundary.cs:2323-2337 | if the controller leaves instead, the journal says so without a response, and the broker stays held |
| `JournalMutations.FailureIsJournaled` | scripts/r4b-evidence/windows-native-boundary.cs:2162-2178 | a mutation that throws has added its intent and its failure under the identity captured last, the broker is held, and acknowledging that writes nothing |
| `JournalBroker.NativeBroker.CompleteMutation` | scripts/r4b-evidence/windows-native-boundary.cs:2117-2152 | the effect's outcome is journaled with its response before the response is sent |
| `JournalBroker.NativeBroker.RecoverSession` | scripts/r4b-evidence/windows-native-boundary.cs:1152-1233 | recovery decides from hold, last record and present identity |
| `JournalVerdicts.BoundIff` | scripts/r4b-evidence/windows-native-boundary.cs:1154-1166 | a recovery is bound exactly when its text is written from a failure kind, the remembered request, this controller, and the count and hash of this journal |
| `JournalVerdicts.RecoveryAnswers` | scripts/r4b-evidence/windows-native-boundary.cs:1152-1233 | an admitted recovery is answered PASS with the verdict it deserves by hold, last record and present identity, with the replayed response where the mutation took place, and leaves journal and hold as that verdict says; unbound or without an identity it is answered FAIL |
| `JournalVerdicts.OneVerdict` | scripts/r4b-evidence/windows-native-boundary.cs:1167-1233 | a recovery deserves at most one verdict |
| `JournalVerdicts.NoVerdictIff` | scripts/r4b-evidence/windows-native-boundary.cs:1192-1201 | and none exactly when the identity is needed and cannot be captured |
| `JournalBroker.NativeBroker.AcknowledgePending` | scripts/r4b-evidence/windows-native-boundary.cs:2306-2321 | an acknowledged mutation is committed and the next sequence number opens |
| `JournalTheorems.WrittenJournalsLoad` | scripts/r4b-evidence/windows-native-boundary.cs:1842-1923 | every journal of at most 16 MiB written by a run is accepted, with the controller's anchor and without one, exactly when no mutation was begun over an abandoned intent, and restores the writer's memory |
| `JournalTheorems.NextIntentLoadsIff` | scripts/r4b-evidence/windows-native-boundary.cs:1881-1885 | the next mutation keeps the journal loadable exactly when the last record is no bare intent |
| `JournalTheorems.HeldBrokerWritesNothing` | scripts/r4b-evidence/windows-native-boundary.cs:2085-2117 | a held broker answers a mutation without writing or starting anything |
| `JournalTheorems.OnlyVerifiedRecoveryReleases` | scripts/r4b-evidence/windows-native-boundary.cs:1152-1233 | a held broker is released by a request only through a recovery that ends in a verified outcome |
| `JournalTheorems.NothingElseReleases` | scripts/r4b-evidence/windows-native-boundary.cs:2126-2176 | no effect, failure, acknowledgement or lost controller releases a held broker |
| `JournalTheorems.RecoveryNeverExecutes` | scripts/r4b-evidence/windows-native-boundary.cs:1152-1233 | RECOVER_SESSION never begins a mutation |
| `JournalCrashes.NotAppliedMeansUntouched` | scripts/r4b-evidence/windows-native-boundary.cs:1221-1228 | when a file mutation begins and nothing else begins after it, then after any crashes, restarts and recoveries a verdict VERIFIED_NOT_APPLIED means that the file has the identity it had before the intent |
| `JournalCrashes.ReplayReturnsTheResponse` | scripts/r4b-evidence/windows-native-boundary.cs:1181-1220 | however many brokers crashed since, VERIFIED_COMMITTED and VERIFIED_APPLIED_UNACKED hand over, byte for byte, the last response that any broker of the run journaled, with the digest of the last request that began |
| `JournalCrashes.VerdictIsAnswered` | scripts/r4b-evidence/windows-native-boundary.cs:1152-1233 | a verdict is answered at once, in a passing response that carries these values |
| `JournalCrashes.MutationsAreSettledInTurn` | scripts/r4b-evidence/windows-native-boundary.cs:2078-2179 | between any two mutations of a run stands the acknowledgement of the first or a verified verdict on it, whatever fails, crashes or restarts in the meantime |
| `JournalCrashes.NothingRunsWithoutAVerdict` | scripts/r4b-evidence/windows-native-boundary.cs:1152-1233 | while the last record is unsettled and no broker or a held one is there, no run with crashes and restarts of any kind executes a mutation or writes to the journal before a recovery has verified what became of the last one |
| `JournalCrashes.HeldRunsNothing` | scripts/r4b-evidence/windows-native-boundary.cs:2117 | a broker held for any reason executes and writes nothing until a recovery verifies or another process takes its place |
| `JournalCrashes.CrashLeavesUnresolved` | scripts/r4b-evidence/windows-native-boundary.cs:1926-1937 | a crash while a mutation is executed, or before its response is acknowledged, leaves the run in that state |
| `JournalCrashes.HeldIsUnresolved` | scripts/r4b-evidence/windows-native-boundary.cs:1931-1937 | so is every run whose broker is held over a last record that it remembers and that is not acknowledged |
| `JournalCrashes.RestartOpensIff` | scripts/r4b-evidence/windows-native-boundary.cs:1926-1942 | without a verdict, a restart with the controller's anchor opens the broker exactly when the last record is settled, no intent was abandoned and the journal is within 16 MiB |
| `JournalPast.RunRemembers` | scripts/r4b-evidence/windows-native-boundary.cs:1675-1713 | after every run the last record is about the last mutation that began, remembers the identity its file had then, and, once it is an answer or an acknowledgement, carries the last journaled response |
| `JournalTheorems.RecoveryAfterCrash` | scripts/r4b-evidence/windows-native-boundary.cs:1926-1937 | after a crash at any point a restart with the controller's anchor has the crashed broker's journal and memory, is held exactly when the last record is neither absent nor acknowledged, and decides by that record and the identity that it is given |
| `JournalTheorems.AnsweredResponseIsRemembered` | scripts/r4b-evidence/windows-native-boundary.cs:1675-1713 | while a journaled response waits, the last record carries it, and the acknowledgement keeps it |
| `JournalWitness.ARunLosesItsJournal` | scripts/r4b-evidence/windows-native-boundary.cs:1881-1885 | a run in which all this happens: a mutation begins, the broker crashes, its successor answers VERIFIED_NOT_APPLIED, the next mutation begins, and the journal is refused from then on, with the controller's anchor and without one |
| `JournalWitness.ASoundCodecExists` | scripts/r4b-evidence/windows-native-boundary.cs:1660-1713 | what the theorems ask of digest, base64 and receipts can be had |
| `JournalTheorems.NotAppliedLeavesTheIntent` | scripts/r4b-evidence/windows-native-boundary.cs:1221-1228 | VERIFIED_NOT_APPLIED on a bare intent releases the broker and appends nothing |
| `JournalTheorems.IntentRemembersTarget` | scripts/r4b-evidence/windows-native-boundary.cs:1586-1620 | the intent of a file operation remembers the identity its target has at that moment |
| `JournalTheorems.SameIdentitySameTarget` | scripts/r4b-evidence/windows-native-boundary.cs:1622-1644 | equal target identities mean equal files: the one path, or both paths of a rename |
| `JsonTheorems.ParsesExactlyJson` | packages/shared/src/learning-contract-json.ts:17-239 | for every text, the parser returns v exactly when the text is well-formed UTF-16 and an RFC 8259 text (sections 2 to 7) that denotes v, whose strings have no unpaired surrogate and whose objects repeat no decoded key |
| `JsonSurrogates.ParsedIsWellFormed` | packages/shared/src/learning-contract-json.ts:95-129 | a text with an unpaired surrogate, wherever it stands, is refused |
| `JsonTheorems.ParsedIsClean` | packages/shared/src/learning-contract-json.ts:95-129 | every string in a returned value is well-formed UTF-16 and no object in it repeats a key |
| `JsonTheorems.TreeReads` | packages/shared/src/learning-contract-json.ts:29-43 | the text of every derivation without repeated keys is read whole, to the value it denotes |
| `JsonTheorems.TreeSound` | packages/shared/src/learning-contract-json.ts:29-43 | whatever is read is the text of such a derivation |
| `JsonLexis.EscapedPairIsRawPair` | packages/shared/src/learning-contract-json.ts:157-172 | an escaped surrogate pair reads as the raw pair |
| `JsonLexis.CharsRead` | packages/shared/src/learning-contract-json.ts:95-129 | a string of the grammar with paired surrogates is read up to its quotation mark |
| `JsonLexis.CharsSound` | packages/shared/src/learning-contract-json.ts:95-129 | what is read as a string is a string of the grammar, with well-formed text |
| `JsonLexis.PairArithmetic` | packages/shared/src/learning-contract-json.ts:157-172 | the code point computed from a surrogate pair is encoded as that pair |
| `JsonLexis.NumberReads` | packages/shared/src/learning-contract-json.ts:181-207 | a number of the grammar is read whole |
| `JsonLexis.NumberSound` | packages/shared/src/learning-contract-json.ts:181-207 | what is read as a number is a number of the grammar |
| `JsonDecoder.DuplicateAwareJsonParser.Parse` | packages/shared/src/learning-contract-json.ts:17-27 | the parser with its moving offset reads one value and white space to the end of the text |
| `JsonDecoder.DuplicateAwareJsonParser.ParseValue` | packages/shared/src/learning-contract-json.ts:29-43 | the offset moves past exactly what the specification reads, within bounds |
| `JsonDecoder.DuplicateAwareJsonParser.ParseObject` | packages/shared/src/learning-contract-json.ts:45-77 | the member loop collects the members and refuses a key already seen |
| `JsonDecoder.DuplicateAwareJsonParser.ParseArray` | packages/shared/src/learning-contract-json.ts:79-93 | the element loop collects the elements |
| `JsonDecoder.DuplicateAwareJsonParser.ParseString` | packages/shared/src/learning-contract-json.ts:95-129 | the character loop decodes the string and refuses unpaired surrogates |
| `JsonDecoder.DuplicateAwareJsonParser.ParseEscape` | packages/shared/src/learning-contract-json.ts:131-155 | one escape, as specified |
| `JsonDecoder.DuplicateAwareJsonParser.ParseUnicodeEscape` | packages/shared/src/learning-contract-json.ts:157-172 | one or two code units, as specified |
| `JsonDecoder.DuplicateAwareJsonParser.ReadHexCodeUnit` | packages/shared/src/learning-contract-json.ts:174-179 | four hexadecimal digits, as specified |
| `JsonDecoder.DuplicateAwareJsonParser.ParseNumber` | packages/shared/src/learning-contract-json.ts:181-207 | the lexeme of a number, as specified |
| `JsonDecoder.DuplicateAwareJsonParser.ParseLiteral` | packages/shared/src/learning-contract-json.ts:209-216 | a literal name, as specified |
| `JsonDecoder.DuplicateAwareJsonParser.SkipWhitespace` | packages/shared/src/learning-contract-json.ts:218-224 | the loop passes all four kinds of white space and nothing else |
| `JsonPrinter.ParseOfPrint` | packages/shared/src/learning-contract-json.ts:17-239 | parsing a printed value gives the value back |
| `JsonPrinter.ParsePrintParse` | packages/shared/src/learning-contract-json.ts:17-239 | whatever the parser returns can be printed and reads back the same |
| `JsonPrinter.DecodeLearningContractJson` | packages/shared/src/learning-contract-json.ts:241-273 | bytes are decoded strictly, a byte order mark is refused, and the rest is parsed |
| `JsonPrinter.DecodesExactlyJson` | packages/shared/src/learning-contract-json.ts:241-273 | the decoder returns v exactly for UTF-8 encodings of the JSON texts that denote v without repeated keys |
| `JsonPrinter.ByteOrderMarkIsNoJson` | packages/shared/src/learning-contract-json.ts:241-273 | a text that starts with a byte order mark is no JSON text, so refusing it loses nothing |
| `SpeechGrammar.DecideSentence` | scripts/r4b-evidence/nvda-adapter/scratchpad/globalPlugins/fluyoPreflightSpeech.py:256-267 | the loop over reachable positions accepts exactly the non-empty sequences of atoms joined by single spaces |
| `SpeechGrammar.Normalize` | scripts/r4b-evidence/nvda-adapter/scratchpad/globalPlugins/fluyoPreflightSpeech.py:247-268 | text is collapsed, bounded, checked against the refused pattern and accepted only from the closed grammar |
| `SpeechGrammar.NormalizingTwiceIsOnce` | scripts/r4b-evidence/nvda-adapter/scratchpad/globalPlugins/fluyoPreflightSpeech.py:535-551 | normalising an accepted text again gives the same text |
| `SpeechGrammar.WordsOfJoin` | scripts/r4b-evidence/nvda-adapter/scratchpad/globalPlugins/fluyoPreflightSpeech.py:249 | splitting at white space undoes joining by single spaces |
| `SpeechGrammar.JoinHasNoEdges` | scripts/r4b-evidence/nvda-adapter/scratchpad/globalPlugins/fluyoPreflightSpeech.py:249 | after collapsing nothing is left to strip |
| `ObservationBarrier.RunKeepsInvariant` | scripts/r4b-evidence/nvda-adapter/scratchpad/globalPlugins/fluyoPreflightSpeech.py:438-568 | in every interleaving of the control reader with callbacks, the observation, block, line, idle and in-flight invariants hold |
| `ObservationBarrier.TranscriptIsOrdered` | scripts/r4b-evidence/nvda-adapter/scratchpad/globalPlugins/fluyoPreflightSpeech.py:514-547 | the transcript is one contiguous block per observation in OBSERVE order, its sequence numbers rise, its texts are of the closed grammar, and the file holds its first bytes plus the lines and stays within 2 MiB |
| `ObservationBarrier.NothingFollowsIdle` | scripts/r4b-evidence/nvda-adapter/scratchpad/globalPlugins/fluyoPreflightSpeech.py:438-476 | after OBSERVATION_IDLE for a generation no line of that generation is written, whatever happens later |
| `ObservationBarrier.EachGenerationIdlesOnce` | scripts/r4b-evidence/nvda-adapter/scratchpad/globalPlugins/fluyoPreflightSpeech.py:370-385 | no generation is reported idle twice |
| `ObservationBarrier.DrainedMeansNoneRunning` | scripts/r4b-evidence/nvda-adapter/scratchpad/globalPlugins/fluyoPreflightSpeech.py:410-436 | the drain ends only in a state in which no callback of the closing generation is running |
| `ObservationBarrier.OnlyLateCallbacksRunAtTheEnd` | scripts/r4b-evidence/nvda-adapter/scratchpad/globalPlugins/fluyoPreflightSpeech.py:436-461 | a callback of the closing generation that runs at the closing section has begun after the drain ended, while the lock was free |
| `ObservationBarrier.LateCallbackIsRefused` | scripts/r4b-evidence/nvda-adapter/scratchpad/globalPlugins/fluyoPreflightSpeech.py:436-547 | in every run that reaches this gap such a callback can begin, and once the generation has ended its line is not recorded |
| `ObservationBarrier.DrainedCloseEnds` | scripts/r4b-evidence/nvda-adapter/scratchpad/globalPlugins/fluyoPreflightSpeech.py:461-475 | the check that the generation is still the closing one never fails: unless the plug-in stopped, a drained close ends its generation |
| `ObservationBarrier.RecordedIff` | scripts/r4b-evidence/nvda-adapter/scratchpad/globalPlugins/fluyoPreflightSpeech.py:514-547 | a callback's line reaches the transcript exactly when its observation is still active, its text is of the grammar, it fits and something is written |
| `ObservationOrder.ControlIsTakenIff` | scripts/r4b-evidence/nvda-adapter/scratchpad/globalPlugins/fluyoPreflightSpeech.py:368-385 | between two controls of any run the reader takes a control exactly when it is genuine, not created before any it took, and either observes a new observation of a generation not reported idle or closes the observation it took last; any other control ends the reader |
| `ObservationOrder.OneObservation` | scripts/r4b-evidence/nvda-adapter/scratchpad/globalPlugins/fluyoPreflightSpeech.py:410-547 | from the beginning, an undisturbed observation is opened and answered, its one callback's line becomes the whole transcript, and fifty milliseconds later its generation is closed and reported idle |
| `ObservationQuiet.OnlyWholeLinesCount` | scripts/r4b-evidence/nvda-adapter/scratchpad/globalPlugins/fluyoPreflightSpeech.py:526-547 | over every run the event count and the event time of a generation are those of its completely written lines |
| `ObservationQuiet.LastHeardMeans` | scripts/r4b-evidence/nvda-adapter/scratchpad/globalPlugins/fluyoPreflightSpeech.py:543-547 | the time last heard is that of a whole line after which none was completed |
| `ObservationQuiet.DrainEndsIff` | scripts/r4b-evidence/nvda-adapter/scratchpad/globalPlugins/fluyoPreflightSpeech.py:410-436 | the drain ends exactly when no callback of the generation runs and nothing was heard of it for fifty milliseconds, and gives up exactly when its time is over before that |
| `ObservationQuiet.FailsIff` | scripts/r4b-evidence/nvda-adapter/scratchpad/globalPlugins/fluyoPreflightSpeech.py:438-482 | a run fails exactly when the reader gives up before it was stopped |
| `ObservationQuiet.NothingBeginsAfterFailure` | scripts/r4b-evidence/nvda-adapter/scratchpad/globalPlugins/fluyoPreflightSpeech.py:494-507 | after a failure no control is taken, no reply sent and no callback begun |
| `ObservationBarrier.GlobalPlugin.constructor` | scripts/r4b-evidence/nvda-adapter/scratchpad/globalPlugins/fluyoPreflightSpeech.py:272-283 | a new plug-in has seen nothing and closed nothing |
| `ObservationBarrier.GlobalPlugin.ValidateControl` | scripts/r4b-evidence/nvda-adapter/scratchpad/globalPlugins/fluyoPreflightSpeech.py:370-385 | a control is admitted in order only: a new observation of an open generation, or the close of the active one |
| `ObservationBarrier.GlobalPlugin.Latch` | scripts/r4b-evidence/nvda-adapter/scratchpad/globalPlugins/fluyoPreflightSpeech.py:442-448 | a stopped plug-in latches nothing; otherwise the control becomes active and nothing is closing |
| `ObservationBarrier.GlobalPlugin.Mark` | scripts/r4b-evidence/nvda-adapter/scratchpad/globalPlugins/fluyoPreflightSpeech.py:453-459 | the closing generation is marked under the lock |
| `ObservationBarrier.GlobalPlugin.EndClosing` | scripts/r4b-evidence/nvda-adapter/scratchpad/globalPlugins/fluyoPreflightSpeech.py:461-475 | the closing generation is ended, or an error names the change |
| `ObservationBarrier.GlobalPlugin.Begin` | scripts/r4b-evidence/nvda-adapter/scratchpad/globalPlugins/fluyoPreflightSpeech.py:502-507 | a callback begins only under an active observation and is counted |
| `ObservationBarrier.GlobalPlugin.Finish` | scripts/r4b-evidence/nvda-adapter/scratchpad/globalPlugins/fluyoPreflightSpeech.py:509-512 | a finished callback is discounted, never below zero |
| `ObservationBarrier.GlobalPlugin.WriteInherited` | scripts/r4b-evidence/nvda-adapter/scratchpad/globalPlugins/fluyoPreflightSpeech.py:203-212 | a write appends what it wrote, and reports whether all of it was written and flushed |
| `ObservationBarrier.GlobalPlugin.Enter` | scripts/r4b-evidence/nvda-adapter/scratchpad/globalPlugins/fluyoPreflightSpeech.py:526-547 | a line is entered and counted only when its text and size pass and the write is complete |
| `ObservationBarrier.GlobalPlugin.Append` | scripts/r4b-evidence/nvda-adapter/scratchpad/globalPlugins/fluyoPreflightSpeech.py:514-547 | the number taken stays taken, and the line is entered, exactly as specified |
| `StripeProjection.RunKeepsInv` | apps/api/src/billing/stripe-webhook-processor.service.ts:128-293 | after any events customers and users are one to one, subscriptions belong to mapped owners and configured prices, and every ACTIVE Stripe entitlement refers to a subscription of its user whose status grants access and whose plan lists the key |
| `StripeProjection.ReplaysChangeNothing` | apps/api/src/billing/stripe-webhook-processor.service.ts:65-84 | once an event was applied, a later delivery under its id, even with other content, is a duplicate and changes nothing, wherever it arrives |
| `StripeProjection.FailedEventsLeaveNoTrace` | apps/api/src/billing/stripe-webhook-processor.service.ts:71-95 | a failed event is not in the ledger and everything after it goes as if it had never arrived |
| `StripeProjection.OwnershipNeverChanges` | apps/api/src/billing/stripe-webhook-processor.service.ts:199-237 | over any events mappings stay and no stored subscription changes user or customer |
| `StripeProjection.AppliedIff` | apps/api/src/billing/stripe-webhook-processor.service.ts:98-237 | a new event is applied exactly when it has one configured price and a known status, names the owner of its customer, and its subscription, if stored, is that customer's |
| `StripeProjection.NoUniqueKeyIsViolated` | apps/api/src/billing/stripe-webhook-processor.service.ts:199-219 | no transaction that runs alone violates a unique key |
| `StripeProjection.CapitalsLockTheCustomerOut` | apps/api/src/billing/stripe-webhook-processor.service.ts:178-190 | a metadata user id with a capital letter opens its mapping once; every later event that carries it is refused, because the comparison is with the stored spelling |
| `StripeProjection.CapitalsAreAppliedOnce` | apps/api/src/billing/stripe-webhook-processor.service.ts:178-190 | the first report of any such user id is applied to empty tables, and the same report is refused ever after, under any event id |
| `StripeProjection.ACapitalExists` | apps/api/src/billing/stripe-webhook-processor.service.ts:178-190 | there is such a user id |
| `StripeProjection.OtherRowsStay` | apps/api/src/billing/stripe-webhook-processor.service.ts:239-293 | an event leaves the entitlements of other users and other sources alone |
| `StripeProjection.AccessStaysCompleteIff` | apps/api/src/billing/stripe-webhook-processor.service.ts:239-293 | an applied event keeps every granted key ACTIVE exactly when it does not end a key that another subscription of the same user still grants |
| `StripeProjection.CancellingOneEndsTheOther` | apps/api/src/billing/stripe-webhook-processor.service.ts:245-292 | a user with a paid subscription loses its entitlement to the cancellation of a second one on the same plan |
| `StripeProjection.SomeoneCanPayForOne` | apps/api/src/billing/stripe-webhook-processor.service.ts:128-171 | such a user exists: one event on empty tables leads there |
| `StripeProjection.EntitledMeans` | apps/api/src/billing/stripe-webhook-processor.service.ts:253-292 | what an event does to each entitlement: listed keys are written, keys the plan dropped expire, all others stay |
| `StripeRecords.SubscriptionIsRecorded` | apps/api/src/billing/stripe-webhook-processor.service.ts:98-171 | after an applied event the stored subscription has the user, customer, price, status, period, trial and cancellation of the event, and no other subscription changed |
| `StripeRecords.OtherEventsAreOnlyRecorded` | apps/api/src/billing/stripe-webhook-processor.service.ts:65-96 | an event without a subscription changes nothing but the ledger |
| `StripeRecords.ListedKeysAreRecorded` | apps/api/src/billing/stripe-webhook-processor.service.ts:239-271 | each key of the plan has a row that refers to the subscription and starts with its period: ACTIVE without end for trialing, active and past due; CANCELED or EXPIRED otherwise, ending at the cancellation or else at the event |
| `StripeRecords.UnlistedKeysExpireIff` | apps/api/src/billing/stripe-webhook-processor.service.ts:272-292 | a row under any other key changes exactly when it is this subscription's and the plan no longer lists its key, and then it has expired |
| `StripeRecords.FailsBecause` | apps/api/src/billing/stripe-webhook-processor.service.ts:98-237 | a new event is refused for the first reason, in the source's order, that applies, and applied when none does |
| `StripeRecords.SubscriptionGivesAccessIff` | apps/api/src/billing/entitlements.service.ts:6-31 | after an applied event the row of a key of the plan lies in the active window exactly from the start of the period on if the status grants access and never otherwise, and the owner has access to the key by that or by a row of another source |
| `StripeRecords.AccessLasts` | apps/api/src/billing/entitlements.service.ts:6-31 | whatever events of other customers follow, the access of a mapped user stays as it is |
| `StripeProjection.BillingTables.ResolveUserId` | apps/api/src/billing/stripe-webhook-processor.service.ts:173-197 | the owner comes from verified metadata, else from the mapping, and a contradiction is refused |
| `StripeProjection.BillingTables.EnsureCustomerMapping` | apps/api/src/billing/stripe-webhook-processor.service.ts:199-219 | a missing mapping is created, another customer is refused |
| `StripeProjection.BillingTables.SynchronizeEntitlements` | apps/api/src/billing/stripe-webhook-processor.service.ts:239-293 | the update and the loop over the keys compute that change |
| `StripeProjection.BillingTables.SynchronizeSubscription` | apps/api/src/billing/stripe-webhook-processor.service.ts:128-171 | the statements of the transaction, in order, or its first failure |
| `StripeProjection.BillingTables.Process` | apps/api/src/billing/stripe-webhook-processor.service.ts:65-96 | a delivery writes all of its event or nothing, and keeps the invariant |
| `ConversationCanvas.GenerationNeverGoesBack` | apps/web/app/learn/session/conversation-canvas-state.ts:303-406 | without a reset no event lowers the operation generation, and every exit raises it by one |
| `ConversationCanvas.RunsMoveForward` | apps/web/app/learn/session/conversation-canvas-state.ts:303-406 | the same over every run |
| `ConversationCanvas.AcceptedIffSubmitting` | apps/web/app/learn/session/conversation-canvas-state.ts:282-293 | a CONFIRM or SUBMIT_FAILED changes the state exactly when the state is submitting that very envelope |
| `ConversationCanvas.LateAnswersChangeNothing` | apps/web/app/learn/session/conversation-canvas-state.ts:295-301 | after any exit in a run without resets, no answer to an attempt of a generation from before it is accepted |
| `ConversationCanvas.LateAnswersAcrossResetsChangeNothing` | apps/web/app/learn/session/conversation-canvas-state.ts:303-406 | the same across resets, provided the idempotency keys handed out are fresh |
| `ConversationCanvas.DeadStaysDead` | apps/web/app/learn/session/conversation-canvas-state.ts:303-406 | with fresh keys, a key that the state has lost never comes back |
| `ConversationCanvas.StaleKeyRevivesIff` | apps/web/app/learn/session/conversation-canvas-state.ts:303-427 | after an exit or at any other time, a reset from authority can lead, with its key handed out once, to the acceptance of an answer to an earlier attempt exactly when it hands out that attempt's activity, version and key and the attempt is of the first generation |
| `ConversationCanvas.RetriesKeepTheEnvelope` | apps/web/app/learn/session/conversation-canvas-state.ts:347-406 | until an exit or a reset, failures and retries keep the submitted envelope, through to its confirmation |
| `ConversationCanvas.AnswersDecide` | apps/web/app/learn/session/conversation-canvas-state.ts:380-404 | over every run until an exit or a reset, an attempt is confirmed exactly with the result, feedback and continuation of the first matching CONFIRM that arrived while it was submitting, and waits for a retry exactly when the last accepted answer was a failure with no TRY_AGAIN since |
| `ConversationCanvas.WhatBecomesReady` | apps/web/app/learn/session/conversation-canvas-state.ts:340-360 | an activity becomes ready under the generation of its preparation, unless a failed preparation waits for its retry |
| `ConversationCanvas.WhatIsSubmitted` | apps/web/app/learn/session/conversation-canvas-state.ts:351-379 | what is submitted is the last selection under its key, once it names a choice, for the activity that became ready |
| `ConversationCanvas.OfflineStays` | apps/web/app/learn/session/conversation-canvas-state.ts:303-345 | losing the connection while preparing or choosing freezes what was there until an exit or a reset |
| `ConversationCanvas.OnlyThenOffline` | apps/web/app/learn/session/conversation-canvas-state.ts:303-345 | only then: a submission is never frozen |
| `ConversationCanvas.EndingStays` | apps/web/app/learn/session/conversation-canvas-state.ts:303-345 | until another exit or a reset, an ending stays, one generation on |
| `ConversationCanvas.FreshStart` | apps/web/app/learn/session/conversation-canvas-state.ts:303-345 | leaving prepares anew one generation on, and a reset puts its own state in place |
| `ConversationCanvas.RebindingTakesOnlyTheSelection` | apps/web/app/learn/session/conversation-canvas-state.ts:429-447 | rebinding changes at most the selection, and only for the same activity and version kept while active |
| `ConversationCanvas.OfflineSelectionIsSubmitted` | apps/web/app/learn/session/conversation-canvas-state.ts:408-447 | a selection kept offline is what is submitted after reconnecting, under the new key |

## Left out

- AuthTheorems.VerifiedOwnerIsStored: says nothing while a wipe is under way, because a wipe empties the stores before it publishes.
- RateLimiter.RetainedUsersAreRecent: assumes that no two users of the run share a concatenated key; `SharedKeysRetainWithoutAttempts` shows it false otherwise.
- JournalLoader.EqualHashEqualPrefix: assumes that the hashed texts of the two chains do not collide; `ConfirmedPrefixIsFixed` and `HashBinds` do the same.
- JsonTheorems.ParsesExactlyJson: keeps numbers as lexemes, without the rounding of `Number`, and does not rank errors, as the source reports a duplicate key before a later syntax error.
- StripeProjection.ReplaysChangeNothing: is about transactions that do not overlap; two deliveries that run at once meet the unique keys of the database, which the projection does not model.
- SpeechGrammar.NormalizingTwiceIsOnce: asks that the accepted text is in canonical composition, because composition itself is a parameter.
- Auth: the trace list and the bookkeeping of suppressed stale outcomes are diagnostics without effect on the state; telemetry is left out.
- Auth: counters other than the generation are unbounded; the generation stops at the largest 64-bit number as in the source.
- Auth: reservations are told apart by their ids, and ports, clocks and identities are answers of the environment. `callbackStore` and header requests hold no state of interest, only their answers count.
- Auth: that a cancel or a timeout cannot override an operation that has just finished, and that `signedOut` with outcome `canceled` means an empty vault, are not claimed; the coordinator enforces neither.
- Learning: deletion of a user's data does not take the attempt lock and is not part of the runs.
- Learning: time zones, telemetry, streaks, session planning and catalog pagination; the local date of an attempt is an answer of the environment, and the races in which two transactions create the same preference or practice day appear as unique-key violations at any moment.
- Learning: the limiter's times are real numbers, and the request hash is a function of the four fields it covers.
- Broker: Windows handles, reparse and NTFS checks, job objects, the NVDA process, pipes and inventory deletion are foreign calls; a file is its identity, and a job's identity, receipt and values are answers of the environment.
- Broker: the journal is text; its size is counted in UTF-8 bytes. A write that fails half-way is a crash; a journal handle that is invalid is left out.
- Broker: `TEST_ROOT` is a known root, as it is in test mode; which rights a root gives, and whether a path is allowed, are part of the environment's answers.
- Broker: session nonces are fresh for every broker process, which is how the controller makes them.
- Broker: a repeated request while its response is pending is answered with the stored bytes and changes nothing, so it has no step of its own.
- Speech: control fields other than observation, generation, phase and creation time are one verdict, `genuine`; the atoms, white space, composition and the refused pattern are parameters, and the length in bytes of a line comes with the request.
- Speech: `_on_speech` drops empty texts before it begins a callback, and the first control is awaited before callbacks register; both only remove runs.
- Stripe: UUID recognition is a predicate, prices and plans are a fixed map, and the Stripe client, checkout and portal are left out.
- Canvas: numbers are integers; presentation copy, focus rules and `sanitizeConfirmedFeedback` are left out.
- React, SwiftUI and Android views, HTTP clients, settings, environment validation and DTO validation would only add easy members.
