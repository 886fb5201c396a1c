# Virtual waiting room: verified model

A Dafny model of the waiting room, with proofs of what it promises. Check the whole
project with `dafny verify dfyconfig.toml`.

## What is modelled

**The queue.** An event lives in a handful of shared tables: one `Counters` item, ten
pre-queue shard counters, the `PreQueue` and `Positions` rows, and ten arrival shards.
Five kinds of process act on them, interleaving at every store call, with any call able
to fail, to land and lose its reply, or to read an earlier state: join batches, the
open, controller passes, admissions, and the operator.

- `QueueProtocol` is the state machine. A step is one store call landing. `Enabled` says
  what a process must know to take a step; the processes modelled here are not trusted to
  meet it, each is proved to. `Inv` is what every step keeps; `Grows` is what no step undoes. Fields that
  record who an index was claimed for, what arrivals are owed and what each release moved
  are bookkeeping, so that the guarantees can be stated.
- `QueueStore` is the store as one process sees it: a class whose methods let the other
  processes move, then land (or do not land) this process's own step. It keeps the trace
  of every step and the log of this process's calls, so a contract says what each numbered
  call of a process saw, wrote and was answered.
- `AssignPosition`, `OpenEvent`, `ControllerPass`, `GenerateToken` and `AdminPhase` are
  the processes, as methods over that class, in the source's order of calls and branches.
- `QueueGuarantees`, `ControllerRuns` and `Debounce` are the theorems over every state
  and every run.
- `Permutation` and `Cohort` are the pre-queue's index space: the Feistel network with
  cycle walking over an arbitrary keyed MAC, and the fold of the shard counts.
- `Release` is the closed-loop release arithmetic.

**The gate document.** `GateConfig` is the document, its bounds, its compact text and
reading it back; `GateStore` is the versioned store shared by concurrent operators and
the read-modify-write with one retry; `BreakGlass` is the operator actions on it, and the
order of the two writes of fail-open and recover under crashes.

**Self-contained kernels.** `EdgeCache` is the harness's single-flight cache as a state
machine over concurrent calls, and `EdgeServe` is `serve` proved to follow it statement
by statement. `RulesText` is the ruleset form's parser and printer. `NextParam` and `Utf8`
are the percent-coded `next` parameter.

## What the proofs found

- *Not every straggler gets a place.* A whole batch fits between the open's read of the
  counts and its write (`QueueGuarantees.StragglerCanBeStranded`). What a batch with no
  failed call does guarantee is `AssignPosition.ProcessBatch`: after every row it writes
  it reads the counters again, and a straggler is left without a place only if the open
  committed after that read.
- *The measured release is exact only for an empty cohort.* The comment at
  crates/controller/src/lib.rs:221-229 says position 0 is never issued; a cohort of `N`
  fills `[0, N)`, so position 0 is issued and position `N` is not. The measure is then off
  by one for the passes that cross exactly one of the two (`ControllerRuns.MeasuredRelease`).
- *The debounce halves disagree* exactly on a stored stamp later than the arrival
  (`Debounce.HalvesAgree`), and an unguarded phase move can lower the anchor and break the
  spacing (`Debounce.PhaseMoveBreaksSpacing`), exactly when it carries an arrival older
  than the action it follows (`Debounce.MoveKeepsSpacingExactly`, `Debounce.SpacingExactly`).
- *An error from the open can follow a committed open*, exactly when the reply to the
  conditional write is lost (`OpenEvent.OpenEvent`,
  `OpenEvent.CommittedOpenAnsweredWithError`).
- *The compare-and-set orders cursors, not rates.* Two overlapping passes that both
  release nobody both land, and the second persists a rate smoothed from a stale one
  (`ControllerRuns.IdleReleasesOverlap`, a run from a fresh event); releases that move the
  cursor never do (`ControllerRuns.MovingReleasesChainRates`).
- *A control write to a missing item would make a dead event*: the item it creates has no
  phase, and no run ever moves or opens it (`QueueGuarantees.BareItemIsStuck`). The
  operator actions modelled here all look for the item first.
- *Two of the admission answers are never given.* Not opened and corrupt row are answered
  on no counters and rows the tables can hold (`GenerateToken.NeverNotOpened`).
- *Engaging an earlier deadline over a later one is not crash safe*
  (`BreakGlass.CrashSafeExactly`, `BreakGlass.EarlierDeadlineUnsafe`).
- *The collapse-failed answer is unreachable, and a dropped leader wedges its key.* The
  in-flight map keeps a sender alive, so a follower of a dropped leader waits for ever
  instead of failing (`EdgeCache.AnsweredFromOwnKey`, `EdgeCache.WedgeIsReachable`,
  `EdgeCache.DroppedLeaderWedgesKey`); only such a follower does
  (`EdgeCache.FollowerReturnsExactly`, `EdgeCache.NoDeadlock`).

## Assumptions

- Counters read as `u64`; additions land on unbounded numbers as in the table, and a value
  too wide for 64 bits is an error or reads as zero where the source parses it so.
- Floating point is modelled by `real`; saturating and checked integer arithmetic is exact.
- A run starts from a fresh event, not yet seeded or just seeded idle or in pre-queue, and
  no row is ever deleted.
- The keyed round function, the possession digest and session signing are abstract; the
  stored seed is represented by the permutation it selects.
- The gate document has no writer but these actions, version tags never repeat, and a
  value read is the one stored under the version the store is then at.

## Model

| member | source | states |
|---|---|---|
| Permutation.DomainFits | crates/wr-common/src/permutation/mod.rs:77-80 | the Feistel domain holds the cohort, is the smallest power of four that does, and is under four times its size |
| Permutation.EncInjective | crates/wr-common/src/permutation/mod.rs:83-98 | the network is injective on its domain for every round function |
| Permutation.EncLoop | crates/wr-common/src/permutation/mod.rs:83-98 | the round loop computes the network, which `NetworkIsFourRounds` spells out |
| Permutation.NetworkIsFourRounds | crates/wr-common/src/permutation/mod.rs:83-110 | for every MAC and every value of the domain there are six halves, the first two the value's own and each of the next four its second predecessor xored with the low bits of the MAC of its round and its predecessor; the last two, joined, are what the network gives |
| Permutation.WalkRepeatsNothing | crates/wr-common/src/permutation/mod.rs:53-73 | a cycle walk never meets a value twice, so it ends |
| Permutation.PrpLoop | crates/wr-common/src/permutation/mod.rs:53-73 | the walking loop terminates and computes the position of an index, which `PositionIsFirstBelow` spells out |
| Permutation.PrpInjective | crates/wr-common/src/permutation/mod.rs:53-73 | different registration indices get different positions, for every MAC |
| Permutation.PrpOnto | crates/wr-common/src/permutation/mod.rs:53-73 | every position below N is some index's |
| Permutation.PrpPermutes | crates/wr-common/src/permutation/mod.rs:53-73 | the positions of a cohort are a permutation of `[0, N)` |
| Permutation.PositionIsFirstBelow | crates/wr-common/src/permutation/mod.rs:53-73 | an index's position is the first value below N on the walk that starts at the index and goes on by those four rounds, on the smallest power of four that holds the cohort |
| Permutation.SeedMatters | crates/wr-common/src/permutation/mod.rs:53-110 | two MACs that put one index in different places |
| Cohort.FromCounts | crates/wr-common/src/permutation/assembly.rs:64-79 | the fold gives prefix sums and the total, and is refused exactly when the total leaves 64 bits |
| Cohort.AssignOfFold | crates/wr-common/src/permutation/assembly.rs:110-151 | a row is in the cohort exactly when its local index is below its own shard's count, at the shard's offset plus the local index |
| Cohort.AssignInjective | crates/wr-common/src/permutation/assembly.rs:136-151 | two rows with one reconstructed index are the same row |
| Cohort.AssignOnto | crates/wr-common/src/permutation/assembly.rs:136-151 | every index below the cohort size belongs to a row |
| QueueProtocol.StepKeepsInv | crates/assign_position/src/dynamo.rs:47-205 | every store call of every process keeps the queue invariant and undoes nothing others rely on |
| QueueProtocol.RunKeepsInv | crates/assign_position/src/lib.rs:270-379 | so does every interleaving of batches, opens, passes, admissions and operator actions |
| QueueProtocol.KeepsWriteOpen | crates/open_event/src/dynamo.rs:108-231 | the open's conditional write keeps the invariant even when joins landed after the counts were read |
| QueueProtocol.KeepsWriteRelease | crates/controller/src/dynamo.rs:127-207 | a release computed from stale reads keeps the cursor monotone and within the queue |
| QueueProtocol.KeepsClaimAdmission | crates/generate_token/src/dynamo.rs:92-167 | the once-only claim keeps every admitted row owned and below the cursor, and the arrivals accounted for |
| QueueProtocol.KeepsControlAction | crates/admin/src/dynamo.rs:209-493 | no operator update touches claims, cursors or the opening, and none makes an unopened event active |
| QueueGuarantees.OwnerUnique | crates/assign_position/src/lib.rs:399-436 | a position is claimed for at most one request id |
| QueueGuarantees.PositionsNeverCollide | crates/generate_token/src/lib.rs:362-394 | two different request ids never hold the same position in any reachable state |
| QueueGuarantees.PositionsSplitAtCohort | crates/assign_position/src/lib.rs:344-371 | cohort positions are below N, live and straggler positions above N, and nobody holds N |
| QueueGuarantees.CohortIsFilled | crates/open_event/src/lib.rs:91-102 | every cohort position is some counted registration's |
| QueueGuarantees.AdmissionsWithinCursor | crates/generate_token/src/lib.rs:197-255 | admitted visitors never exceed the cursor, and arrivals never exceed them plus the claims answered with an error |
| QueueGuarantees.AdmissionIsFinal | crates/generate_token/src/dynamo.rs:92-167 | an admitted row never changes again |
| QueueGuarantees.CursorWithinQueue | crates/controller/src/lib.rs:304-318 | the cursor is at most one past the last position issued; before the open nothing is issued or released |
| QueueGuarantees.TopPositionNeverAdmitted | crates/controller/src/lib.rs:304-318 | whoever holds the last 64-bit position or a later one is never admitted with it: the one position the progress of the cursor leaves out |
| QueueGuarantees.OpenCommitsOnce | crates/open_event/src/lib.rs:112-149 | at most one open commits in any run, whoever fires it |
| QueueGuarantees.OpenedBetween | crates/open_event/src/dynamo.rs:108-179 | an event found opened was opened by a committing open since it was last seen unopened |
| QueueGuarantees.OpeningIsFinal | crates/open_event/src/lib.rs:112-149 | seed, offsets and N never change after the open |
| QueueGuarantees.ActiveMeansOpened | crates/admin/src/lib.rs:727-769 | the active phase means opened in every reachable state, through every recovery path |
| QueueGuarantees.PhasesMoveLegally | crates/admin/src/lib.rs:670-679 | every phase change in any run is a legal transition, and active is entered only opened |
| QueueGuarantees.BareItemIsStuck | crates/admin/src/dynamo.rs:209-235 | an event whose item a control write created, having no phase, is never moved out of idle or opened by any run |
| QueueGuarantees.StragglerCanBeStranded | crates/assign_position/src/lib.rs:557-604 | a run ending opened, with a registered id that resolves to a live join and holds no live position |
| QueueStore.Store.Interfere | crates/assign_position/src/lib.rs:105-175 | before each call the others' steps land, legal and none of them this process's; the call's fate is drawn and what it owes is left alone |
| QueueStore.Store.Past | crates/open_event/src/dynamo.rs:181-212 | a read that is not strongly consistent answers for the state of the trace at an earlier moment, which everything since has only grown from |
| QueueStore.Store.LoadCounters | crates/assign_position/src/dynamo.rs:110-124 | the item exactly as it is at the moment of the read, absent when it was never seeded; it fails exactly when the call does |
| QueueStore.Store.ClaimBlock | crates/assign_position/src/dynamo.rs:47-73 | the answer is the end of a block claimed for exactly these ids, from the end of the line it found on, which stays theirs; an error means the call failed or the counter left 64 bits |
| QueueStore.Store.PutPosition | crates/assign_position/src/dynamo.rs:75-108 | written exactly if the id had no row when the call landed; either answer means it has one |
| QueueStore.Store.ClaimPrequeueBlock | crates/assign_position/src/dynamo.rs:126-164 | the answer is the start of local indices claimed for exactly these ids |
| QueueStore.Store.PutPrequeue | crates/assign_position/src/dynamo.rs:166-205 | written exactly if the id had no row when the call landed, and then the stored row is this one |
| QueueStore.Store.RegisteredIds | crates/assign_position/src/dynamo.rs:207-250 | only ids asked for and registered are answered, and every one registered before, but for the keys a chunk drops; one call a hundred ids, failing exactly when one of them does |
| QueueStore.Store.ReadShardCounts | crates/open_event/src/dynamo.rs:65-106 | ten counts, each exactly what its shard held at its own read, none above what it holds now; it fails only on a failed call or a count past 64 bits |
| QueueStore.Store.WriteOpen | crates/open_event/src/dynamo.rs:108-179 | it commits exactly when it reaches the event unopened in pre-queue, so never on a missing item, and an answer that arrives says whether it was this call |
| QueueStore.Store.IsAlreadyOpen | crates/open_event/src/dynamo.rs:181-212 | whether the event was open at the earlier moment the read answers for; true only for an event that is open |
| QueueStore.Store.LoadControl | crates/admin/src/dynamo.rs:154-207 | the item of one state of the trace, perhaps earlier; an opening it shows is the event's for good |
| QueueStore.Store.Mutate | crates/admin/src/dynamo.rs:578-592 | the world becomes what the guarded update makes of the state the call found, a missing item included, and a refused guard is a conflict |
| QueueStore.Store.SetFailOpenUntil | crates/admin/src/dynamo.rs:322-369 | success means the deadline was set, on an item created if it was missing, by the stamping write or the fallback; a conflict never surfaces, nothing else is written, and it fails only at a failed call |
| QueueStore.Store.ReadArrivals | crates/controller/src/dynamo.rs:209-276 | ten counts, each what its shard held at some moment up to its read, none above what it holds now |
| QueueStore.Store.WriteRelease | crates/controller/src/dynamo.rs:127-207 | from the state the call found, it persists the cursor and its baselines exactly when the cursor is the one computed from, otherwise changes nothing, and the answer tells which |
| QueueStore.Store.LoadPosition | crates/generate_token/src/dynamo.rs:78-90 | the row stored at the moment of the read |
| QueueStore.Store.LoadPrequeue | crates/generate_token/src/dynamo.rs:60-76 | the row of the earlier moment the read answers for; a row it finds is the one still stored |
| QueueStore.Store.ClaimAdmission | crates/generate_token/src/dynamo.rs:92-167 | answered as a repeat exactly when the id was admitted already; a landed claim leaves the row as it was if admitted, and otherwise admitted at this position, under the digest it had or else this one; no other row changes; only a repeat owes no arrival |
| QueueStore.Store.RecordArrival | crates/generate_token/src/dynamo.rs:169-192 | a landed record adds one to the shard drawn and to no other, and settles the arrival owed, whether or not it is answered |
| AssignPosition.ClassifyAll | crates/assign_position/src/lib.rs:237-262 | the loop accepts exactly the well-shaped joins for this event, in order |
| AssignPosition.UuidShapeExactly | crates/wr-common/src/ids.rs:36-51 | an id is well shaped exactly when it is five groups of 8, 4, 4, 4 and 12 hexadecimal digits with dashes between |
| AssignPosition.AcceptedExactly | crates/assign_position/src/lib.rs:237-262 | record by record, the one taken is of this event under such an id |
| AssignPosition.WriteLiveRow | crates/assign_position/src/lib.rs:423-439 | one conditional write of this id, place and digest and nothing else; it fails exactly when the call does |
| AssignPosition.WriteLiveRows | crates/assign_position/src/lib.rs:423-441 | one call a message, each at the next place of the block under the message's own id and digest; handed back are exactly those whose call failed |
| AssignPosition.ProcessLiveBatch | crates/assign_position/src/lib.rs:399-442 | one claim of a block for exactly this batch, then one row a message, under the message's own id and digest, at the places from the end of the line on in the order they came; every message not handed back has its row; handed back are exactly those whose write failed, or all when the block was not claimed |
| AssignPosition.Dedupe | crates/assign_position/src/lib.rs:444-492 | one message per request id, the first, and no id dropped |
| AssignPosition.FirstsExactly | crates/assign_position/src/lib.rs:444-492 | the messages kept are exactly those before which none has their id |
| AssignPosition.RegisteredOrUnknown | crates/assign_position/src/lib.rs:381-389 | nothing when a lookup failed; otherwise every id with a row before the lookup, but for the keys a chunk of a hundred dropped, and none without a row |
| AssignPosition.Unregistered | crates/assign_position/src/lib.rs:472-476 | exactly the joins whose id is not among the known are left, each once |
| AssignPosition.RegisterGroup | crates/assign_position/src/lib.rs:494-541 | one claim of a block for exactly this group on this shard, then one row a message under its own id and digest; every message is registered or handed back, exactly those whose write failed or all when no block was claimed; with every call answered, every row the trace shows this process writing is on the list it returns |
| AssignPosition.WriteRows | crates/assign_position/src/lib.rs:494-541 | one row a message under its own id and digest; the list holds only rows the trace shows it writing, and with every call answered all of them; handed back are exactly those whose call failed |
| AssignPosition.WriteRow | crates/assign_position/src/lib.rs:494-535 | one conditional write; the row goes on the list exactly when the id had none, read off the trace |
| AssignPosition.Stragglers | crates/assign_position/src/lib.rs:570-581 | exactly the rows past their shard's opened count, each as often as it is listed |
| AssignPosition.PlaceRows | crates/assign_position/src/lib.rs:596-605 | one call a straggler, after which, if answered, its id has a live row; every row written is a straggler's own, under its digest |
| AssignPosition.PlaceStragglers | crates/assign_position/src/lib.rs:557-604 | the claim it sends is of a block for exactly these rows; with every call answered and no counter past 64 bits, every straggler given holds a live position; every live row written is a given straggler's, under its digest |
| AssignPosition.FixupStragglers | crates/assign_position/src/lib.rs:557-604 | its first call re-reads the counters, and if that read sees the open and no call fails, every listed row past its shard's count holds a live position; it writes a live row for no other row |
| AssignPosition.ProcessPrequeueBatch | crates/assign_position/src/lib.rs:444-541 | no join is lost; exactly the joins whose id the lookup did not find are claimed for, in one block; every row is written for the first join of an id under its digest, and a live row only for a row of its own, written earlier, that the open did not count; exactly what could not be written is handed back; and with no failure every row this batch wrote in the trace is followed by a read of the counters that settles it |
| AssignPosition.ProcessBatch | crates/assign_position/src/lib.rs:270-379 | one read of the counters first, and the route that read decides; no accepted join lost, a refusal takes no step; live, one block for exactly the batch and each join's own id and digest at the next place, in order; registering, one block for exactly the first joins not found registered, each row under its own digest, and live rows only for rows of its own the open did not count; exactly what could not be written is handed back; and with no failed call every row the trace shows it writing is followed by its own read of the counters, with the row placed if that read saw the open, and the open committed after it otherwise |
| OpenEvent.SelectedBy | crates/open_event/src/lib.rs:91-102 | the positions a seed selects are a permutation of the cohort |
| OpenEvent.OpenValuesOf | crates/open_event/src/lib.rs:91-102 | the published offsets are the fold of the counts, refused exactly on overflow |
| OpenEvent.WriteValues | crates/open_event/src/lib.rs:121-148 | the write is the first call; it commits exactly on an unopened event in pre-queue, `Opened` is exactly a commit whose reply arrives, `AlreadyOpen` exactly a refusal followed by a read that saw the open |
| OpenEvent.OpenEvent | crates/open_event/src/lib.rs:112-149 | ten reads of the counts, then the write unless a read failed or the counts leave 64 bits; `Opened` exactly when the write reaches an unopened event in pre-queue and is answered, publishing the fold of the counts read and the seed's positions; an error follows a committed open exactly when that reply is lost, and a missing event is an error |
| OpenEvent.CommittedOpenAnsweredWithError | crates/open_event/src/lib.rs:112-149 | from a fresh event seeded in pre-queue, a run in which the open commits and its caller is told it failed |
| Release.SumArrivals | crates/controller/src/lib.rs:176-182 | the saturating loop is the sum of the shards pinned at the top of the range |
| Release.CorrectionBounds | crates/controller/src/lib.rs:340-376 | the corrected release is between the target and twice the target |
| Release.CorrectionMonotone | crates/controller/src/lib.rs:340-376 | a worse no-show rate never releases fewer; none at all releases the target; half or more releases twice it |
| Release.PassBounds | crates/controller/src/lib.rs:214-333 | a pass never moves the cursor back, moves it at most twice the target, and never past the end of the line it read |
| Release.PassExactly | crates/controller/src/lib.rs:205-376 | with r passed last time and k <= r arrivals since the baseline, a fresh pass persists `(r - k) / r`, smoothed three tenths to seven with a stored rate, and asks for the target over one less the rate, rounded, at most twice it; any other pass keeps the rate and asks for the target; the release is cut to the line, and the arrivals read become the baseline |
| Release.RateStaysStorable | crates/controller/src/lib.rs:82-93 | what is persisted is 0 or between 1e-130 and 1 |
| Release.RateAfter | crates/controller/src/lib.rs:254-299 | after k chained full-arrival passes the rate is at most 0.7 to the k |
| Release.RateReachesZero | crates/controller/src/lib.rs:82-93 | from any stored rate it is exactly 0 after at most 840 such passes |
| Release.CursorProgress | crates/controller/src/lib.rs:214-333 | over chained passes, whatever the arrivals and rates, the cursor moves at most twenty times the summed target rates and passes everyone in line within ten times them |
| ControllerPass.ReadState | crates/controller/src/dynamo.rs:49-125 | the inputs are those of the item its first call read and of ten arrival counts, each what its shard held at some moment up to its read; it fails only on a failed call, a missing item or a count past 64 bits |
| ControllerPass.WritePass | crates/controller/src/lib.rs:532-559 | the release write of this pass, and what it adds to the ledger in this process's name: what it is told it moved, or what it moved and was not told |
| ControllerPass.RunPass | crates/controller/src/lib.rs:502-559 | it runs exactly on the phase, control and deadline its read found; it writes the pass computed from that read, which `Release.PassExactly` spells out, reports what it computed if the cursor was still the one read and zero otherwise, and what it reports is exactly what its own releases moved, unless it ended in an error |
| ControllerPass.RanPassWasRead | crates/controller/src/lib.rs:502-559 | the release a pass leaves in the trace carries the cursor, the end of the line and the rate of the earlier state it read |
| ControllerRuns.ReleasedIsMovement | crates/controller/src/lib.rs:532-559 | over any run of overlapping passes, what they reported and what they moved without being told add up to the cursor's movement |
| ControllerRuns.ReleasePersists | crates/controller/src/dynamo.rs:127-207 | a landed release persists the cursor, the one it replaced and, as the next baseline, the arrivals it read, its rate and its time; a lost race persists nothing |
| ControllerRuns.UncrashedReleasesAddUp | crates/controller/src/lib.rs:532-559 | with nothing moved untold, the reports add up to the movement |
| ControllerRuns.RunIsChain | crates/controller/src/dynamo.rs:143-198 | the landed passes of any run form one chain, and the stored baseline is the cursor before the last of them |
| ControllerRuns.RunProgress | crates/controller/src/lib.rs:214-333 | the two-sided progress bound over any run of the whole system |
| ControllerRuns.LineIsPassed | crates/controller/src/lib.rs:214-333 | when every landed pass of a run read some state of it, everyone in line at its start and within ten times the summed rates of the cursor has been passed at its end |
| ControllerRuns.RatesChainExactly | crates/controller/src/lib.rs:254-299 | the landed passes of a run smooth one another's rates in order exactly when each landed carrying the rate then stored |
| ControllerRuns.MovingReleasesChainRates | crates/controller/src/dynamo.rs:143-198 | they always do when every landed release moves the cursor, however the passes overlap |
| ControllerRuns.IdleReleasesLandTwice | crates/controller/src/dynamo.rs:143-198 | two passes computed from one state that both release nobody both land, and their rates chain exactly when the first changed nothing |
| ControllerRuns.IdleReleasesOverlap | crates/controller/src/dynamo.rs:143-198 | from any fresh event, a legal run whose last two releases were computed from one state, release nobody and both land, the second smoothing a rate the first had replaced |
| ControllerRuns.MeasuredRelease | crates/controller/src/lib.rs:221-232 | the measured release against the issued positions passed: equal for an empty cohort, otherwise off by exactly the stated one |
| GenerateToken.WrongSecretLearnsNothing | crates/generate_token/src/lib.rs:316-357 | with the wrong secret the answer is the same whatever the queue's state |
| GenerateToken.GrantedExactlyWhen | crates/generate_token/src/lib.rs:316-357 | a grant is exactly: holder, position reached, active, admitting and not failed open |
| GenerateToken.ResolvesExactly | crates/generate_token/src/lib.rs:362-394 | a pre-queue row resolves to a cohort position exactly when its shard is one of the ten and its index is below the count the open published for it, and then to the permuted position of its index in the cohort; each other outcome exactly |
| GenerateToken.AnswersExactly | crates/generate_token/src/lib.rs:316-394 | every refusal and the grant, each exactly when: unknown, another's secret, not running, not open, a shard past the ten, past the count, waiting at this position behind this cursor, or passed |
| GenerateToken.NeverNotOpened | crates/generate_token/src/lib.rs:316-394 | on what the tables really hold, whenever each was read, the answer is never that the event is not open or a row is corrupt |
| GenerateToken.GrantedIsOwned | crates/generate_token/src/lib.rs:362-394 | a grant decided on reads from different moments is still a position claimed for this id, below the cursor |
| GenerateToken.ReadRows | crates/generate_token/src/lib.rs:190-195 | the live row as stored at its read, and, only if there is none, the pre-queue row of the moment the next read answers for |
| GenerateToken.ClaimAndCount | crates/generate_token/src/lib.rs:219-255 | the claim it sends is of this id, position and digest; then the arrival on the shard drawn, exactly when one was drawn and the claim was not answered as a repeat; a claim that reaches the store admits the visitor, and with every call landing no arrival stays owed |
| GenerateToken.DecideOnReads | crates/generate_token/src/lib.rs:176-217 | the decision, one of those `AnswersExactly` spells out, is on the counters and rows its own two or three reads answered; a grant is a position the id owns, below the cursor |
| GenerateToken.Admit | crates/generate_token/src/lib.rs:176-289 | it answers the decision on what its reads saw, which `AnswersExactly` spells out, and fails only at a failed read; the admitted own a passed position, the claim sent is of that position, and the arrival sent is on the shard drawn; a refusal takes no step; no arrival is counted twice or left owed |
| AdminPhase.OfferedPhases | crates/admin/src/lib.rs:686-710 | the dashboard offers exactly the legal moves except the open, the emergency stop and two ways out of maintenance |
| AdminPhase.TransitionsExactly | crates/admin/src/lib.rs:670-679 | the legal moves are to the same phase, one stage on in the life of an event, and into or out of maintenance; no others |
| AdminPhase.ApplyPhase | crates/admin/src/lib.rs:727-769 | each refusal exactly by the item its read answered, taking no step; any other move is sent, and lands exactly on a state still in the phase read, a legal move from it |
| AdminPhase.ApplyForceMaintenance | crates/admin/src/lib.rs:775-788 | sent whenever the item is found, never refused or debounced, and lands exactly on a state still in the phase it loaded |
| AdminPhase.RunOpen | crates/admin/src/lib.rs:1152-1173 | the open's own answer, each exactly when its calls give it, and the stamp after it exactly when this call opened the event; a lost stamp is not a failure |
| AdminPhase.ApplyOpenNow | crates/admin/src/lib.rs:1134-1173 | refused exactly outside pre-queue and inside the debounce window of the item its read answered; `OpenedNow` is exactly this call's own commit with its answers arriving, stamped, and `WasOpen` exactly a refused write and a read that saw the opening |
| Debounce.HalvesAgree | crates/admin/src/lib.rs:797-804 | the in-process check and the stored predicate agree exactly when the stored stamp is not later than the arrival |
| Debounce.GuardsExactly | crates/admin/src/dynamo.rs:431-575 | a debounced action commits only, and a message exactly, 2000 ms or more after the stored stamp; a stamp lands exactly when it is not older |
| Debounce.EditLands | crates/admin/src/dynamo.rs:236-321 | a committed rate or control edit replaces exactly the value it expected, and nothing else but the stamp changes |
| Debounce.AnchorNeverDrops | crates/admin/src/dynamo.rs:431-454 | only a committed phase move or forced maintenance carrying an older arrival lowers the audit anchor |
| Debounce.DebouncedSpacing | crates/admin/src/dynamo.rs:534-575 | two committed debounced mutations are at least 2000 ms apart, in any interleaving in which every phase move or forced maintenance committed between them carries an arrival no older than the first |
| Debounce.MoveKeepsSpacingExactly | crates/admin/src/dynamo.rs:209-235 | a committing phase move or forced maintenance keeps the spacing from a stamp exactly when its own arrival is not older |
| Debounce.SpacingExactly | crates/admin/src/dynamo.rs:534-575 | in any run, every debounced action that can commit next is a window after an earlier one exactly when the last stamp committed since is not older than it |
| Debounce.PhaseMoveBreaksSpacing | crates/admin/src/dynamo.rs:209-235 | a run in which an unguarded phase move lets an earlier-stamped action through |
| GateConfig.ValidateRuleFields | crates/wr-common/src/rules.rs:205-228 | no error exactly when every field is printable and within its cap, and otherwise the first offending rule |
| GateConfig.FieldCheckedExactly | crates/wr-common/src/rules.rs:205-228 | what is said of one field: an unprintable character first, then how far it is over its cap |
| GateConfig.EncodesExactly | crates/wr-common/src/rules.rs:170-228 | a document is written exactly when it has at most 35 rules, each field printable and within its own cap of 256, 64 or 128, and a text of at most 950 bytes |
| GateConfig.ReadsRule | crates/wr-common/src/rules.rs:230-284 | every rule's wire form reads back, whatever quotes and backslashes it holds |
| GateConfig.StoredIsRead | crates/admin/src/lib.rs:42-62 | every document's text decodes to that document |
| GateConfig.TextSize | crates/admin/src/lib.rs:99-115 | a document's size is its base plus the deadline's digits plus nine for the binding |
| GateConfig.HeadroomExact | crates/admin/src/lib.rs:916-927 | every deadline of at most twelve digits fits, binding on or off, exactly when the base is under 930 bytes |
| GateConfig.CeilingLeavesHeadroom | crates/admin/src/lib.rs:1261-1270 | a document accepted at the rules-write ceiling leaves that headroom, whatever it was measured with |
| GateConfig.TwelveIsTight | crates/admin/src/lib.rs:927 | a ruleset accepted at the ceiling to the byte, which a thirteen-digit deadline with the binding on no longer fits |
| GateStore.PutKeepsInv | crates/admin/src/edge.rs:74-99 | every put keeps the stored text that of the edits committed so far, within bounds |
| GateStore.EditsOnlyTheirField | crates/admin/src/lib.rs:945-959 | after any commits each field is its own last edit, and version and `enforce_from` never change |
| GateStore.NoActionReverts | crates/admin/src/lib.rs:945-959 | the stored document reads back as, field by field, the last action on that field, in any interleaving |
| GateStore.BreakGlassNeverBlocked | crates/admin/src/lib.rs:916-927 | after any interleaving of accepted actions a twelve-digit deadline can still be written |
| GateStore.Kvs.ReadConfig | crates/admin/src/edge.rs:57-80 | version and value read in two steps still agree unless the store has moved past the version; it succeeds exactly when both calls are answered, with the document the second found |
| GateStore.Kvs.PutKey | crates/admin/src/edge.rs:82-99 | a put changes the store only at the version it was read under |
| GateStore.Kvs.WriteConfig | crates/admin/src/edge.rs:82-99 | a landed write is one commit of this edit leaving this document; success means it landed |
| GateStore.Attempt | crates/admin/src/lib.rs:945-959 | one read, edit and write: at most one commit, of this edit, to the document just before it; with every call answered it fails only if someone else committed meanwhile or the document cannot carry the edit |
| GateStore.EdgeReadModifyWrite | crates/admin/src/lib.rs:945-959 | with its one retry: only its own edit, at most twice; success is one of those commits; unless a reply was lost, success committed once and an error never; and with every call answered it fails only if others committed twice meanwhile or a document cannot carry the edit, which a twelve-digit deadline never meets |
| BreakGlass.ApplyFailOpen | crates/admin/src/lib.rs:974-1000 | the queue's deadline is never written without the edge's; only its own deadline is written; invalid durations and a missing event touch nothing; and it fails only at a failed call, two other commits meanwhile, or a deadline past twelve digits |
| BreakGlass.ApplyRecover | crates/admin/src/lib.rs:1013-1031 | the edge is never cleared before the queue's deadline is; it fails only at a failed call or two other commits meanwhile, never for want of room |
| BreakGlass.ApplyIpBinding | crates/admin/src/lib.rs:1188-1213 | only the binding changes, the stamp is sent after it and only then, and a lost stamp is not a failure |
| BreakGlass.CommitRules | crates/admin/src/lib.rs:1243-1270 | `InvalidRules` exactly when the probe was read and the document it found cannot carry the rules within the ceiling, with nothing written; otherwise committed, or failed for a stated reason |
| BreakGlass.ApplySetRules | crates/admin/src/lib.rs:1232-1296 | `InvalidRules` exactly when the event was found and the document the probe read cannot carry the rules within the ceiling; only valid rulesets that leave the headroom are committed, one that fits at its widest is never rejected, and the stamp is sent after the commit |
| BreakGlass.EngageLeaves | crates/admin/src/lib.rs:974-1000 | with no other writer of the deadlines, any fail-open call leaves one of its three crash states |
| BreakGlass.RecoverLeaves | crates/admin/src/lib.rs:1013-1031 | likewise any recover call |
| BreakGlass.CrashSafeExactly | crates/admin/src/lib.rs:961-1031 | an action is safe at every crash point exactly when it does not engage a deadline earlier than the stored one |
| BreakGlass.MachineryNeverStopsAlone | crates/admin/src/lib.rs:961-1031 | over any sequence of possibly crashing actions, whenever the queue resolves to fail-open the gate has stopped enforcing |
| BreakGlass.EarlierDeadlineUnsafe | crates/admin/src/lib.rs:961-1000 | the history that breaks it when an earlier deadline is engaged |
| EdgeCache.StepKeepsInv | crates/harness/src/edge.rs:164-269 | every step of every concurrent call keeps the cache invariant |
| EdgeCache.OneFetchPerKey | crates/harness/src/edge.rs:192-237 | one fetch in flight per key in every interleaving |
| EdgeCache.NoFetchBeforeExpiry | crates/harness/src/edge.rs:223-262 | after a store no origin fetch for the key starts before the ttl, or for an error also the error ttl, has passed |
| EdgeCache.HitsAreFresh | crates/harness/src/edge.rs:178-235 | nothing expired is served, and what is served was fetched for that key |
| EdgeCache.ServedWithinLifetime | crates/harness/src/edge.rs:178-262 | in any run, what a call is served from the cache some call stored for that key, and the call read its clock before the storing clock plus that call's ttl, or for a status of 400 or more the longer of it and the error lifetime |
| EdgeCache.AnsweredFromOwnKey | crates/harness/src/edge.rs:190-222 | every answer is a fetch of the call's own key; a follower's is its leader's, and never a made-up failure |
| EdgeCache.TalliesAddUp | crates/harness/src/edge.rs:164-269 | per endpoint, client requests are hits, followers, origin requests and the undecided; equal once settled |
| EdgeCache.NoDeadlock | crates/harness/src/edge.rs:192-237 | some call can move exactly when some unsettled call is not following a dropped leader |
| EdgeCache.OnlyRegisteredLeadersWedge | crates/harness/src/edge.rs:192-204 | while no registered leader is dropped no call is wedged: dropped readers and followers harm no one |
| EdgeCache.CallsSettle | crates/harness/src/edge.rs:164-269 | every call takes at most thirteen steps, so with no call wedged all return |
| EdgeCache.DroppedLeaderWedgesKey | crates/harness/src/edge.rs:192-204 | a key whose leader was dropped stays registered to it for ever: no call for it ever leads again and no follower of it returns |
| EdgeCache.FollowerReturnsExactly | crates/harness/src/edge.rs:194-204 | a waiting follower has a continuation in which it returns exactly when the call it follows was not dropped |
| EdgeCache.WedgeIsReachable | crates/harness/src/edge.rs:192-245 | from an empty cache, a run that leaves a follower waiting on a leader dropped at the origin |
| EdgeServe.CallsFollowTheirRoute | crates/harness/src/edge.rs:164-269 | in every interleaving a call's own steps are the source's statements in order: it leads only after the second look with the lock held, and a leader stores, unregisters and sends in that order |
| EdgeServe.Edge.Serve | crates/harness/src/edge.rs:164-269 | the call as written only extends the trace, legally, by its own steps in the route's order and others'; a call that returns was answered from its own key, a miss with its own fetch |
| EdgeServe.Edge.Follow | crates/harness/src/edge.rs:194-222 | a follower is counted, waits, and returns what its leader sent |
| EdgeServe.Edge.Recheck | crates/harness/src/edge.rs:223-242 | its steps are the second look and a counted hit, or the second look, registering, counting, fetching and publishing; nothing else |
| EdgeServe.Edge.Publish | crates/harness/src/edge.rs:245-269 | its steps are store, unregister, then send, in that order |
| RulesText.ParseRules | crates/admin/src/lib.rs:1323-1362 | the loop computes the rules of the lines in order, or the first offending line's number and reason |
| RulesText.FormatRules | crates/admin/src/lib.rs:1368-1380 | the loop writes one line a rule |
| RulesText.LinesExactly | crates/admin/src/lib.rs:1326 | a text's lines end at each line feed, less the carriage return before it |
| RulesText.ShortLineMeans | crates/admin/src/lib.rs:1327-1340 | a blank line is skipped, a lone word is a comment or has no value |
| RulesText.TaggedLineMeans | crates/admin/src/lib.rs:1332-1361 | what a tag, white space and a value parse to, for each tag and for none of them |
| RulesText.HeaderLineMeans | crates/admin/src/lib.rs:1346-1358 | a header's name ends at its first white space, and its value is the rest, trimmed |
| RulesText.LineShapes | crates/admin/src/lib.rs:1327-1340 | every line is one of those shapes |
| RulesText.TextMeans | crates/admin/src/lib.rs:1323-1362 | a text is refused exactly for its first bad line, under its number and for its reason; otherwise its rules are those of its lines, in order |
| RulesText.PrintedExactly | crates/admin/src/lib.rs:1368-1380 | what is printed for each rule, in order |
| RulesText.ParsedIsWellFormed | crates/admin/src/lib.rs:1323-1362 | every rule a line parses to has trimmed, non-empty, single-line fields and a header name without spaces |
| RulesText.PrintedIsReread | crates/admin/src/lib.rs:1368-1380 | for every text that parses, printing and parsing again gives the same rules |
| RulesText.SurvivesExactly | crates/admin/src/lib.rs:1368-1380 | a rule list survives printing exactly when the parser can produce it |
| Utf8.RoundTrip | crates/nojs/src/lib.rs:226 | every string reads back from its bytes |
| Utf8.OneEncoding | crates/nojs/src/lib.rs:226 | no other bytes decode to it, so nothing overlong is accepted |
| NextParam.EncodeComponent | crates/nojs/src/page.rs:90-101 | the loop computes the percent-encoding of the string's bytes |
| NextParam.EncodesExactly | crates/nojs/src/page.rs:90-101 | byte by byte: kept if it is a letter, a digit or one of four marks, otherwise a percent sign and two upper-case digits |
| NextParam.EncodedIsInert | crates/nojs/src/page.rs:90-101 | the encoding holds only unreserved characters and percent signs |
| NextParam.PercentDecode | crates/nojs/src/lib.rs:205-227 | the loop computes the decoding, or nothing at the first malformed escape or invalid UTF-8 |
| NextParam.HexPairExactly | crates/nojs/src/lib.rs:205-227 | two characters behind a percent sign are a byte exactly when they are its digits, in either case, or a plus sign and its one digit |
| NextParam.DecodesExactly | crates/nojs/src/lib.rs:205-227 | text decodes to some bytes exactly when it splits into pieces, each a character for itself, a plus or an escape, that stand for them in order |
| NextParam.EncodedIsDecoded | crates/nojs/src/lib.rs:205-227 | decoding undoes encoding for every string |
| NextParam.SafeNext | crates/nojs/src/lib.rs:172-183 | whatever the input, the path chosen is on this site and free of control characters |
| NextParam.VettedExactly | crates/nojs/src/lib.rs:172-183 | a decoded path is kept exactly when it starts with one slash, with no slash or backslash behind it, and has no control character; all else is the root |
| NextParam.FindsFirst | crates/nojs/src/lib.rs:187-202 | the value found is the first `next` pair's, up to the next ampersand, and none exactly when there is no such pair |
| NextParam.LeadingQuestions | crates/nojs/src/lib.rs:187-202 | question marks that lead a query are not part of it |
| NextParam.QueryExactly | crates/nojs/src/lib.rs:187-202 | a URL's query is what follows its first question mark |
| NextParam.ChosenExactly | crates/nojs/src/main.rs:123-166 | a `next` in the request's own query settles it, even one refused; only without one is the referrer's looked at |
| NextParam.LocationExactly | crates/nojs/src/main.rs:123-127 | the redirect goes to the waiting page with the encoded path as its `next` |
| NextParam.FixedThroughRedirect | crates/nojs/src/main.rs:123-127 | the waiting page reads back from its own URL exactly the paths the vetting allows |
| NextParam.ChosenSurvivesRedirect | crates/nojs/src/main.rs:123-166 | the path a join chose, from its query or its referrer, is the one the waiting page uses |

## Left out

- Release.RateReachesZero: stated over `real`; rounding of 64-bit floats is not modelled, so the number of passes is that of exact arithmetic.
- Release.CorrectionBounds: stated over `real`, with casts to `u64` exact in range.
- OpenEvent.OpenEvent: that an error wrote nothing holds but for the write whose reply is lost, which is its exact exception.
- AssignPosition.ProcessBatch: a straggler is settled one way only, since a redelivered or live copy of the same join may still place one whose open came later.
- ControllerRuns.MovingReleasesChainRates: a sufficient condition on the passes; the exact one is that of RatesChainExactly.
- QueueStore.Store.RegisteredIds: which keys a batch read drops is arbitrary; its retry schedule is not modelled.
- GateConfig.StoredIsRead: only the compact form the writers emit is read back; other JSON spellings of the same document are not modelled.
- EdgeCache.TalliesAddUp: tallies are unbounded where the source's 64-bit atomics would wrap; the per-second buckets and the peak are not modelled.
- EdgeCache.NoFetchBeforeExpiry: instants and lifetimes are unbounded naturals.
- BreakGlass.MachineryNeverStopsAlone: operator actions in sequence; concurrent ones are covered by the order of writes each call keeps.
- The sibling operator actions on rate, message, pause, resume and start time: only their guards and updates on the shared item, not the calls around them.
- `compute_release` inputs beyond a pass: schedules and the cadence of passes; staleness is decided from the recorded times only.
- Rows written before possession digests existed, and statuses outside the two known ones.
- Message text, start times, audit labels, rules digests and every other attribute no guard reads.
- Cryptography: HMAC, digests, session signing, random draws; the arrival shard drawn and whether signing succeeds are parameters.
- SDK retries, request building, HTTP routing, templates, cookies, login, metrics, logs and alarms.
- The reset script and time-to-live deletion, which break row permanence on purpose.
- Parsing of start times with time zones, readiness probes, and the gate script that reads the document.
- The visitor simulation and report of the harness.
