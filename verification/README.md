# Verified model of the nimble server's lockstep engine

Nimble Server weaves the predicted steps of its clients into one stream of authoritative steps.
This project models that engine: the pool of participants and its free list, the parties that own
participants, the composer and its scheduling, the window of retained steps, host migration, and
the quality machine that moves a party to waiting and finally dissolves it.

It has two layers.

* **Values.** The state of the server is a datatype (`State.dfy`), and every operation is a total
  function on it. The files build on each other in this order: `StepBuffer`, `Codec`, `Quality`, `PartyLife`, `Pool`,
  `Invariants`, `Compose`, `Schedule`, `Ahead`, `Announce`, `Parties`, `Migration`, `Receive`, `Deaf`, `Window`, `Charges`,
  `Log`, `Run`, `Request`, `Theorems`, `Timing`, `History`, `Return`, `Witness`. `Run.dfy` defines all runs: any interleaving of joins, rejoins, migrations,
  received datagrams, discards, composed steps and party ticks, with a log of what the run has done.
* **Objects.** `CircularBuffer`, `Participants`, `LocalParties`, `OutStream` and `Engine` have the form
  of the source: arrays, counters and cursors that methods change in place. Each method is proved to
  do what the function on values says, so the theorems about runs are theorems about the methods.
  The source keeps participants and parties in two fixed arrays of structs and points into them; here
  such a pointer is the index of the slot.

`dafny verify dfyconfig.toml` checks the whole project.

## Assumptions

* The step buffer `NbsSteps` is an external library. `StepBuffer.dfy` is the contract assumed of it: a
  contiguous run of steps; writing appends at the expected id; discarding drops from the front; reading
  an exact id drops what is older and consumes that step, or reports that nothing is left. A predicted
  step below the expected id counts as zero added, one past it is refused, and the library may refuse
  any step (`Refused`), which covers unreadable input and a full buffer.
* `NBS_WINDOW_SIZE` is the field `window`, and the step type codes are fields that are pairwise distinct.
* A capacity below 64 (`src/lib/participants.c:30`), one participant per party
  (`src/lib/participants.c:138`, `src/lib/server.c:347-349`), and steps of at most `maxStepOctets`
  octets such that 1 + n * (4 + maxStepOctets) fits the composing buffer of 1024 octets.
* Step ids are unbounded, except where the source computes `head - 1` in 32 bits, and a step fits a
  length octet. Clients may send any step ids.
* The source does not look at whether the count and index octets of a datagram could be read
  (`src/lib/local_party.c:177-182`). If the datagram ends there, they hold whatever octet was there
  before; the theorems are about any number of sections with any index, and so cover this.

## What turned out not to hold

* **A migration at step 0.** The buffers of migrated participants start at `head - 1`. At head 0 this
  wraps to the last 32-bit id (`MigrateAlignsExactly`, reached in `DeafInRun`): the buffer is deaf, and
  passes over every step but that of the last id. The participant then stays silent for as long as it is
  in the game and nobody sends it that id (`DeafForLife`).
* **A datagram for a deaf buffer.** A legal step with the last id is accepted, the next read for the head
  is corrupt, and the source stops there (`LastIdSpoils`, after a run in `SpoiltAfterRun`). A datagram
  keeps the buffer deaf and the read not corrupt, and keeps the server valid, exactly when no section
  that is reached offers a deaf buffer that id (`DeafAndReadableExactly`, `ReceiveKeepsInvExactly`).
  `Spoils` is that condition, and a datagram that meets it is the only one that is no action of a run.
* **A migration into a game with participants** leaves used ids in the free list; the pool is valid
  afterwards exactly when there were none (`MigrateRestoresPoolExactly`; a run that breaks it is
  `MigrationIntoGameBreaksPool`).
* **A failed migration** leaves a valid pool exactly when already its first id could not be prepared
  (`FailedMigrationExactly`; a list that breaks it is in `DuplicateIdBreaksPool`).
* **A rejoin brings back the party, not the participant.** The party is normal again and starts afresh
  (`RejoinExactly`), but nothing ever takes its participant out of waiting (`ParticipantMoves`,
  `NeverBackToNormal`). Every step composed from then on says only that it waits, until it has left, whatever
  it sends (`WaiterIsNotHeard`; a run in which it rejoins and its steps are there is `RejoinedIsNotHeardInRun`).
  The step a participant has stored is announced exactly while its state is just joined or normal
  (`NewcomerAnnounced`, `OthersAnnounced`), that is until the first tick that makes its party wait.
* **The limit on waiting** is not installed by a migration: a party migrated into a fresh slot waits 1240
  ticks whatever the set-up says, until somebody joins or rejoins it (`LimitsInEveryRun`, `LimitFromJoinOn`).
* **Quality answers for strangers.** A leaving participant still points at its old party slot, so its
  missing step is charged to whichever party has that slot by then. A party's quality answers for its
  own participant alone exactly when no leaving participant points at its slot (`ChargedForOwnExactly`),
  and sharing a slot does happen (`LeaverAndNewcomerShareParty`, in a run from set-up in `SharedSlotInRun`).
* **The window gate after a discard** is open for windows of 2 and of 4 or more, but not for 3 unless
  nothing is stored, and never for 0 and 1 (`GateAfterDiscardExactly`).

## Model

| member | source | states |
|---|---|---|
| `CircularBuffers.CircularBuffer.Write` | src/lib/circular_buffer.c:16-27 | appends to the queue; on a full buffer, which the source lets pass, only the new octet is left |
| `CircularBuffers.CircularBuffer.Read` | src/lib/circular_buffer.c:29-41 | takes the oldest octet; on an empty buffer a stale cell, after which 63 cells are claimed |
| `CircularBuffers.CircularBuffer.Count` | src/lib/circular_buffer.c:53-64 | the cursor arithmetic is the length of the queue |
| `Pools.FreeListIsUnusedSlots` | src/lib/participants.c:28-34 | a valid pool's free list holds an id exactly when its slot exists and is unused |
| `Pools.JoinKeepsPool` | src/lib/participants.c:133-178 | a join is refused exactly when every slot is used, and then changes nothing; otherwise the front of the free list, an unused slot, moves into use; the pool stays valid |
| `Pools.DestroyKeepsPool` | src/lib/participants.c:61-79 | a used id is not in the free list, there is room for it, and taking it back keeps the pool valid |
| `ParticipantPools.Participants.constructor` | src/lib/participants.c:16-56 | all slots unused, all ids free in ascending order |
| `ParticipantPools.Participants.Join` | src/lib/participants.c:133-178 | does what the join on values does; the illegal-id and already-used errors are unreachable |
| `ParticipantPools.Participants.Destroy` | src/lib/participants.c:61-79 | does what the destroy on values does |
| `ParticipantPools.Participants.Prepare` | src/lib/participants.c:81-115 | does what the prepare on values does, all error cases included |
| `ParticipantPools.Participants.SetStates` | src/lib/server.c:26-32 | exactly the referenced slots get the state |
| `ParticipantPools.Participants.AddSteps` | src/lib/local_party.c:214-224 | the loop over the steps of a section adds what the function on values says, up to the first error |
| `ParticipantPools.Participants.RebuildFreeList` | src/lib/server.c:374-380 | the free list becomes the ascending complement of the listed ids, nothing else changes |
| `ParticipantPools.ContainsParticipantId` | src/lib/server.c:326-339 | true exactly when the id is listed |
| `Codec.DecodeStepBack` | src/lib/authoritative_steps.c:27-29 | decoding a composed step yields exactly its records |
| `Codec.DecodeStepExactly` | src/lib/authoritative_steps.c:86-104 | octets decode to a record list exactly when they are its encoding: the format is canonical |
| `Codec.EncodeAllLength` | src/lib/authoritative_steps.c:86-104 | a record takes at most four octets besides its payload |
| `Codec.WireSamples` | src/lib/authoritative_steps.c:86-104 | the octets of one record of each kind, and of a step of two, written out |
| `OutStreams.WriteRecord` | src/lib/authoritative_steps.c:86-104 | the separate writes produce the record's encoding, and with room for it none fails |
| `Composition.LoopIsPointwise` | src/lib/authoritative_steps.c:34-108 | the loop, which moves and destroys participants while it iterates, is a map over the slots used on entry: records, slots, free list and party qualities |
| `Composition.LoopKeepsPool` | src/lib/authoritative_steps.c:76-79 | the pool is valid after each iteration, so every destroy is legal |
| `Composition.OneRecordAbout` | src/lib/authoritative_steps.c:34-39 | exactly one record speaks about a participant in use |
| `Composition.NoRecordAbout` | src/lib/authoritative_steps.c:36-38 | no record speaks about an unused slot |
| `Announcements.StepCanBeRead` | src/lib/authoritative_steps.c:27-29 | the appended octets decode, to as many records as there are participants |
| `Announcements.StepSpeaksOfAll` | src/lib/authoritative_steps.c:34-39 | they speak about exactly the slots in use, in ascending order |
| `Announcements.NewcomerAnnounced` | src/lib/authoritative_steps.c:72-75 | exactly one record is about a participant that has just joined: Joined, with the number of the party that holds it and the step it has stored for the head, or an empty one |
| `Announcements.NewcomerIsHeld` | src/lib/local_parties.c:124-128 | every participant that has just joined is held by such a party |
| `Announcements.OthersAnnounced` | src/lib/authoritative_steps.c:68-104 | the same for the others: Waiting, Left, or Provided with the stored step, or NotInTime without one |
| `Announcements.SlotAfterStep` | src/lib/authoritative_steps.c:45-84 | after the step a newcomer is normal, a leaver is gone and its id free, the rest as before; steps up to the head are used up, later ones kept |
| `Theorems.NoCorruptReadInEveryRun` | src/lib/authoritative_steps.c:47-58 | in every run, reading any participant's step for the head never meets the corrupt-steps error |
| `Scheduling.ComposedStepDecodes` | src/lib/authoritative_steps.c:29-115 | the composed octets decode to the records of the step, and the count octet is the number of participants on entry |
| `Scheduling.ComposedOctetsFit` | src/lib/authoritative_steps.c:86-115 | at most 1 + n * (4 + L) octets, so no unchecked write fails |
| `Scheduling.ComposeKeepsInv` | src/lib/authoritative_steps.c:24-116 | composing a step keeps the pool, ownership, buffer, party and window invariants |
| `Scheduling.DecisionMeaning` | src/lib/authoritative_steps.c:124-166 | the decision to compose: some lead of 5, or a lead of 3 while everyone can contribute |
| `Scheduling.ComposeCount` | src/lib/authoritative_steps.c:189-226 | with nobody leaving, one call composes exactly max(0, M - 4, min(M - 2, m)) steps, capped by the room in the window |
| `Scheduling.ComposeCountAlways` | src/lib/authoritative_steps.c:189-226 | the exact count in every state: leaving participants take part in the first decision only |
| `Scheduling.ComposeAllMeaning` | src/lib/authoritative_steps.c:198-217 | a call ends at rest, in a valid state, with the head advanced by the count |
| `Scheduling.AtRest` | src/lib/authoritative_steps.c:151-184 | at rest with the gate open nobody leads by 5, and by 3 only while someone cannot contribute |
| `Scheduling.HeadStaysBehind` | src/lib/authoritative_steps.c:151-184 | a composed step leaves the head at least 2 behind some participant |
| `WriteIds.ShouldComposeExactly` | src/lib/authoritative_steps.c:124-166 | in step ids: step h is due exactly when somebody in use has steps up to h + 4 stored, or somebody up to h + 2 while everybody in use has steps up to h at least |
| `WriteIds.CountsReach` | src/lib/authoritative_steps.c:124-149 | in step ids, what the largest contribution and the number without one say |
| `WriteIds.AtRestExactly` | src/lib/authoritative_steps.c:151-184 | in step ids, when the server is at rest with the gate open |
| `WriteIds.ComposesExactly` | src/lib/authoritative_steps.c:189-226 | in step ids, exactly which steps one call composes: the n-th if the window has room and it is due, those who leave with the first step counting for the first one only |
| `WriteIds.ComposesExactlyStaying` | src/lib/authoritative_steps.c:189-226 | the same when nobody is leaving |
| `Engines.Engine.ComposeSlot` | src/lib/authoritative_steps.c:35-108 | one iteration in place: read, charge the party, move or destroy the participant, write the record |
| `Engines.Engine.ComposeOne` | src/lib/authoritative_steps.c:24-116 | the byte-writing loop ends in the state and with the octets of the step on values |
| `Engines.Engine.MaxPredictedStepContribution` | src/lib/authoritative_steps.c:124-149 | the loop computes the largest contribution and the number of participants without one |
| `Engines.Engine.ShouldAdvanceAuthoritative` | src/lib/authoritative_steps.c:151-184 | decides as the predicate on values does |
| `Engines.Engine.ComposeAuthoritativeSteps` | src/lib/authoritative_steps.c:189-226 | the while loop terminates in the state, and with the count, of the recursion on values |
| `Parties.JoinGameExactly` | src/lib/local_parties.c:183-209 | a join fails exactly for lack of a party or participant slot and then leaves the server unchanged; otherwise it moves one id from the front of the free list into a new party |
| `Parties.JoinSetsUp` | src/lib/participants.c:133-178 | the whole state after a join, value by value: the first unused party slot, the front of the free list, both afresh, the first step the next to be composed; the answers -43 and -54 otherwise |
| `Parties.JoinKeepsInv` | src/lib/local_parties.c:116-132 | joining keeps the invariants |
| `Parties.RejoinExactly` | src/lib/local_party.c:45-78 | a rejoin is accepted exactly by a party in use; the whole state afterwards, value by value: the party is normal and afresh, with the configured limit, and nothing else has changed |
| `Parties.RejoinKeepsInv` | src/lib/req_game_join.c:40-55 | rejoining keeps the invariants |
| `Parties.OutcomeSparesNewcomers` | src/lib/local_party.c:90-133 | a party that starts waiting or is given up holds no participant that has just joined |
| `Parties.DissolveKeepsOwnership` | src/lib/server.c:37-44 | a dissolved party's slot is free at once while its participant, now leaving, still points at it; ownership holds throughout |
| `Parties.TickExactly` | src/lib/local_party.c:90-151 | the whole state after a tick, value by value: the counter up or down, waiting past 180, the timer, giving up at the limit; and what becomes of the participant |
| `Parties.TickKeepsInv` | src/lib/server.c:55-73 | a party tick, with all its outcomes, keeps the invariants |
| `Parties.TickFrame` | src/lib/local_party.c:138-151 | a tick changes only participant states, from normal or waiting to waiting or leaving |
| `LocalPartyTables.LocalParties.FindFree` | src/lib/local_parties.c:91-108 | the first unused slot, numbered but not reserved |
| `LocalPartyTables.LocalParties.AddParty` | src/lib/local_parties.c:116-132 | the slot is reinitialised, used, counted, and refers to the participant |
| `LocalPartyTables.LocalParties.Remove` | src/lib/local_parties.c:214-229 | the slot is reset and the count lowered |
| `LocalPartyTables.LocalParties.DelayedTick` | src/lib/delayed_quality.c:29-77 | moves the counter as the reflected walk does, and refuses as it does |
| `LocalPartyTables.LocalParties.TickWaiting` | src/lib/local_party.c:107-118 | counts a tick of waiting, and gives up at the limit |
| `Engines.Engine.Join` | src/lib/req_game_join.c:67-120 | does what the join on values does |
| `Engines.Engine.Rejoin` | src/lib/req_game_join.c:40-55 | does what the rejoin on values does |
| `Engines.Engine.DestroyParty` | src/lib/server.c:37-44 | does what dissolving on values does |
| `Engines.Engine.TickAll` | src/lib/server.c:55-73 | the loop over all parties does what ticking them in order on values does |
| `Charges.FailingExactly` | src/lib/connection_quality.c:37-89 | from a reset on, a party is failing exactly when it has provided a step and missed the last 20, or has provided none and missed 200 |
| `Histories.FailingInEveryRun` | src/lib/connection_quality.c:37-89 | the same in every run, over the steps composed since the party was last taken, retaken or given back |
| `Qualities.WalkIsMaxSuffixBalance` | src/lib/delayed_quality.c:29-77 | the counter is the maximum over all suffixes, the empty one included, of bad minus good ticks |
| `Qualities.RefusesExactly` | src/lib/delayed_quality.c:44-54 | while nothing has refused, a tick refuses exactly when that maximum exceeds 180, and it is at most 181 |
| `PartyLives.CounterIsWalk` | src/lib/local_party.c:124-133 | a party's counter is that walk of its ticks since the reset, until one refuses |
| `PartyLives.FreshPartyNeverGivenUpEarly` | src/lib/local_party.c:107-151 | no schedule of ticks and rejoins gives a fresh party up before tick 181 + max(1, T) |
| `PartyLives.FailingPartyGivenUpExactly` | src/lib/local_party.c:107-151 | constant failure gives it up at exactly that tick |
| `PartyLives.MigratedPartyGivenUpExactly` | src/lib/local_parties.c:163-167 | a migrated party that nobody rejoins is given up at exactly tick max(1, T) |
| `PartyLives.GivenUpAfterRefusal` | src/lib/local_party.c:107-151 | any schedule without rejoins gives the party up exactly max(1, T) ticks after its first refusal, or never |
| `PartyLives.RefusalIsFirstPastLimit` | src/lib/delayed_quality.c:44-54 | the first refusal is the first tick whose history passes the limit |
| `Migration.PrepareAllExactly` | src/lib/local_parties.c:141-172 | preparing a list succeeds exactly when it fits the party slots and its ids are legal, unused and distinct; then the j-th id waits in party j |
| `Migration.MigrateExactly` | src/lib/server.c:358-383 | the same for the whole migration, with the ascending complement as free list |
| `Migration.MigrationSetsUp` | src/lib/server.c:364-368 | the j-th participant and party after a success, value by value; the buffer is empty and starts one before the head, or at the last 32-bit id if the head is 0 |
| `Migration.MigrationLeaves` | src/lib/server.c:362-380 | everything else after a success: other participants stay, other parties are reset, the free list is the ascending complement |
| `Migration.MigrationAnswers` | src/lib/local_parties.c:145-161 | a failure answers for the first id that cannot be prepared: -43, -54, an illegal id, or -2 |
| `Returns.FirstStepAfterMigration` | src/lib/server.c:366-368 | at a head above 0, the one step a migrated participant can send first is the one before the head |
| `Migration.MigrateRestoresPoolExactly` | src/lib/server.c:374-380 | after a success the pool is valid exactly when nobody was in the game before |
| `Migration.FailedMigrationExactly` | src/lib/server.c:364-372 | after a failure the pool is valid exactly when already the first id could not be prepared |
| `Migration.MigrateAlignsExactly` | src/lib/server.c:366-368 | each migrated participant's buffer starts at or before the head exactly when the head is not 0 |
| `Migration.MigrateKeepsInv` | src/lib/server.c:358-383 | a successful migration into an empty game keeps all invariants |
| `Engines.Engine.HostMigration` | src/lib/server.c:358-383 | does what the migration on values does, errors included |
| `Receiving.ReceiveIsolated` | src/lib/local_party.c:169-248 | for every input, wherever reading stops, only the step buffers of the party's own participants change, by appending; the highest received step never goes back |
| `Receiving.AddsOnlyNewSteps` | src/lib/local_party.c:200-224 | a section that overlaps what is stored adds exactly the steps not yet stored |
| `Receiving.ResendingAddsNothing` | src/lib/local_party.c:226-234 | receiving a section again adds nothing |
| `Receiving.AcceptedSectionNoted` | src/lib/local_party.c:226-244 | what a party notes of an accepted section: the number of added steps, and the largest id ever received |
| `Receiving.SectionAnswers` | src/lib/local_party.c:183-194 | -4 for an index the party does not have, and the library's code for an unreadable header |
| `DeafBuffers.DeafTakesExactly` | src/lib/local_party.c:214-224 | a buffer that waits for the last 32-bit id takes a step of a section exactly when the section offers that id, legally, and nothing before it stops the reading |
| `DeafBuffers.SectionKeepsOrderExactly` | src/lib/local_party.c:200-224 | for any step ids, a section leaves a buffer that starts after the head in exactly that case |
| `DeafBuffers.ReceiveKeepsInvExactly` | src/lib/local_party.c:169-248 | for every datagram, receiving keeps the invariants exactly when no section that is reached makes a deaf buffer take the last id |
| `DeafBuffers.DeafAndReadableExactly` | src/lib/authoritative_steps.c:47-58 | a datagram keeps a deaf buffer deaf, and its next read not corrupt, exactly in the same case |
| `DeafBuffers.LastIdSpoils` | src/lib/authoritative_steps.c:56-58 | one legal step with the last id is accepted, and the next read is corrupt |
| `Engines.Engine.HandleIncomingSteps` | src/lib/incoming_predicted_steps.c:22-60 | a missing party, a dissolved party and an unreadable header are refused in this order; then the nested loops do what receiving on values does, up to the first error |
| `Windows.DiscardKeepsInv` | src/lib/req_step.c:16-34 | a discard keeps the head and at most a third of the window |
| `Windows.GateAfterDiscardExactly` | src/lib/req_step.c:16-34 | for which windows the compose gate is open after a discard |
| `Windows.RepliesCover` | src/lib/send_authoritative_steps.c:35-66 | asking again from the end of each continuation range covers everything up to the head, without gap or overlap, in ceil(n / 20) replies of at most 20 steps inside the window |
| `Engines.Engine.SendStepRanges` | src/lib/send_authoritative_steps.c:35-86 | the ranges are the library's pending ones and the continuation; the counter of empty replies follows, and is kept on a library error |
| `Engines.Engine.DiscardIfGettingFull` | src/lib/req_step.c:16-34 | does what the discard on values does |
| `Engines.Engine.HandleStepRequest` | src/lib/req_step.c:36-63 | discards, receives and composes as the request on values does, all error returns included |
| `Requests.RequestAnswers` | src/lib/req_step.c:36-63 | which code each refusal answers, that an error in a section is passed on and nothing composed, and that otherwise the answer is the number of steps the head has moved, 0 if frozen |
| `Requests.IncomingKeepsInvExactly` | src/lib/req_step.c:36-51 | the state a request composes from is valid exactly when the datagram does not spoil a deaf buffer |
| `Requests.RequestNeverStarves` | src/lib/req_step.c:36-63 | with a window of 2, or 4 and more, a request composes a step exactly when the decision says so |
| `Requests.RequestIsRun` | src/lib/req_step.c:36-63 | a request is a run: a discard, a receive if the sections are looked at, and as many composed steps as it answers |
| `Requests.ComposeAllIsRun` | src/lib/authoritative_steps.c:189-226 | a call of the composer is a run of that many composed steps |
| `Requests.TickPartiesIsRun` | src/lib/server.c:55-73 | a server tick is a run of one tick per party slot |
| `Charges.ChargedForOwnExactly` | src/lib/authoritative_steps.c:47-61 | a party's quality answers for its own participant alone exactly when no leaving participant points at its slot |
| `Charges.LeaverAndNewcomerShareParty` | src/lib/server.c:37-44 | giving a party up and joining before the next step makes a leaving and a new participant share a party slot |
| `Runs.ActionKeepsServer` | src/lib/server.c:80-100 | every action of a run keeps the server's invariants |
| `Runs.SlotFollowsTrace` | src/lib/authoritative_steps.c:68-84 | whatever happens, the state of a slot and what the log says about its id move together |
| `Runs.ExecKeepsWorld` | src/lib/server.c:80-100 | every run keeps the invariants of server, stream, log and lifetimes |
| `Theorems.LifetimesInEveryRun` | src/lib/authoritative_steps.c:68-98 | in every run the records about an id form lifetimes: handed out and at once exactly one Joined, or migrated in; at most one Left, and nothing after it until the id is handed out or migrated in again |
| `Theorems.NoReuseBeforeLeft` | src/lib/participants.c:77 | in every run an id that was handed out or migrated in is not handed out or migrated in again before the stream has a Left record for it |
| `Theorems.NoRejoinBeforeLeft` | src/lib/authoritative_steps.c:72-79 | in every run a Left record lies between two Joined records of an id |
| `Theorems.SilentAfterLeft` | src/lib/authoritative_steps.c:76-79 | in every run the stream is silent about an id from its Left record until the id is handed out or migrated in again |
| `Theorems.PoolInEveryRun` | src/lib/participants.c:140-170 | in every run the free list is exactly the unused slots, without repetition, and the counts add up |
| `Theorems.OwnershipInEveryRun` | src/lib/local_parties.c:116-132 | in every run used parties and live participants point at each other, one to one |
| `Theorems.DisjointInEveryRun` | src/lib/local_parties.c:124-128 | in every run distinct used parties hold disjoint references |
| `Theorems.WindowInEveryRun` | src/lib/authoritative_steps.c:168-178 | in every run at most half a window of steps is retained |
| `Theorems.QualityInEveryRun` | src/lib/local_party.c:124-151 | in every run a used party's counter is at most 181, and at most 180 while it is normal |
| `Theorems.LockstepAgreement` | src/lib/send_authoritative_steps.c:35-66 | a step contained in two replies, whatever happened in between, has the same octets in both, and they decode to the records logged for it |
| `Theorems.DeafForLife` | src/lib/server.c:366-368 | in any run, a participant migrated in at step 0 takes no step for as long as it is in the game and the head is below the last id |
| `Timing.LimitsInEveryRun` | src/lib/req_game_join.c:120 | in every run a party slot's limit on waiting is the configured one or still 1240, and a used party in the normal state has the configured one |
| `Timing.LimitFromJoinOn` | src/lib/req_game_join.c:120 | from a join or a rejoin on, whatever follows, the slot has the configured limit |
| `Timing.RunSpends` | src/lib/local_party.c:138-151 | in any run, only its own ticks bring a party nearer to being given up, each by at most one |
| `Timing.FreshPartyStaysInEveryRun` | src/lib/server.c:55-73 | in every run, a fresh party is still in use as long as fewer than 181 + max(1, T) of its ticks follow, whatever else happens |
| `Returns.RejoinedPartyStays` | src/lib/local_party.c:74-78 | in any run, a party stays in use for fewer than 181 + max(1, T) of its ticks from a rejoin on |
| `Returns.WaitsInEveryRun` | src/lib/local_party.c:90-100 | in every run the participant of a used party that waits is waiting too |
| `Returns.ParticipantMoves` | src/lib/authoritative_steps.c:68-84 | for every action, exactly what state it takes a participant to |
| `Returns.NeverBackToNormal` | src/lib/local_party.c:74-78 | in any run, a participant that waits never becomes normal again, whatever rejoins |
| `Returns.WaiterIsNotHeard` | src/lib/authoritative_steps.c:68-71 | in any run, every later step says of it only that it waits or has left |
| `Witnesses.RejoinedIsNotHeardInRun` | src/lib/authoritative_steps.c:68-71 | from set-up, a migration, a rejoin and six steps: the party is normal, the step is there and due, and the record says waiting |
| `Witnesses.DeafInRun` | src/lib/server.c:366-368 | a migration of id 0 at step 0, from set-up, leaves its buffer deaf |
| `Witnesses.SpoiltAfterRun` | src/lib/authoritative_steps.c:56-58 | one more datagram, and the next read is corrupt |
| `Witnesses.MigrationIntoGameBreaksPool` | src/lib/server.c:374-380 | from set-up, a join and then a migration of another id succeed and leave the pool invalid |
| `Witnesses.DuplicateIdBreaksPool` | src/lib/server.c:364-372 | from set-up, a migration that lists an id twice fails and leaves the pool invalid |
| `Witnesses.SharedSlotInRun` | src/lib/server.c:55-73 | from set-up, a migration, 1240 ticks and a join leave a leaving and a new participant in one party slot |

## Left out

- Engines.Engine.Join: does not look up an existing party of the transport connection (src/lib/local_parties.c:75-86) and does not write the response, because transport connections are not modelled; the join is the one that needs a new party.
- Engines.Engine.TickAll: does not disconnect the transport connection of a dissolved party (src/lib/server.c:68-70), because transport connections are not modelled.
- Engines.Engine.SendStepRanges: does not write the reply header and takes the receive-mask ranges as input, because both belong to external libraries.
- Engines.Engine.HandleStepRequest: does not say what composing does after a datagram that spoils a deaf buffer, because the source stops at the corrupt-steps error (src/lib/authoritative_steps.c:56-63); `Harmless` is the exact condition.
- Requests.RequestIsRun: not for such a datagram either, since the state it leaves is not one of a run.
- Runs.ActionKeepsServer: not for such a datagram; `ReceiveKeepsInvExactly` shows that it is the only one.
- Runs.ExecKeepsWorld: passes over such a datagram.
- Theorems.DeafForLife: passes over such a datagram; `DeafAndReadableExactly` says what it does.
- `nimbleServerConnectionDisconnected` (src/lib/server.c:425-443): it frees the party slot without marking its participants or lowering the count, so ownership does not survive it; it is not an action of a run.
- Migration as an action of a run: only successful ones into a game without participants; the exact conditions are `MigrateRestoresPoolExactly` and `FailedMigrationExactly`.
- The transport connection free list, datagram feed, blob streaming, connect and game state download: I/O and external libraries.
- Parties of several participants: the source asserts or notes that there is one.
- 32-bit wrap-around of step ids other than in host migration.
- `warningCount`, statistics, logging and allocators: no effect on the rest of the state.
