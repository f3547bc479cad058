/** Runs that show what does not hold: each failing case is reached from a fresh server. */
module Witnesses {
  import opened Common
  import opened StepBuffers
  import opened States
  import opened PartyLives
  import opened Pools
  import opened Invariants
  import opened Codec
  import opened Scheduling
  import opened WriteIds
  import opened Announcements
  import opened Parties
  import opened Migration
  import opened Receiving
  import opened DeafBuffers
  import opened Charges
  import opened Runs
  import opened Requests

  /** Room for two participants and a party. */
  predicate Roomy(config: Config, capacity: nat, partyCapacity: nat) {
    SetupOk(config, capacity, partyCapacity) && capacity >= 2 && partyCapacity >= 1
  }

  /** Id 0 can be migrated into a game without participants. */
  lemma MigrateFirst(s: Server)
    requires ServerInv(s) && s.pool.count == 0 && |s.pool.slots| >= 2 && |s.table.parties| >= 1
    ensures Migrate(s, [0]).0.Ok?
    ensures Prepared(ResetParties(s), [0], Migrate(s, [0]).1)
    ensures Migrate(s, [0]).1.pool.free != []
  {
    var ids: seq<byte> := [0];
    CountBounds(s.pool.slots, IsUsed);
    assert Preparable(s.pool, ids);
    MigrateExactly(s, ids);
    ComplementMeaning(ids, |s.pool.slots|);
    assert 1 in Complement(ids, |s.pool.slots|);
  }

  /** What is in slot 0 of the pool and of the party table then. */
  lemma PreparedFirst(s: Server, after: Server)
    requires Prepared(s, [0], after)
    ensures |s.pool.slots| > 0 && |s.table.parties| > 0
    ensures |after.pool.slots| == |s.pool.slots| && |after.table.parties| == |s.table.parties|
    ensures after.pool.slots[0] == Occupied(0, 0, MigrationStart(s.Head()), 0, WaitingForRejoin)
    ensures after.table.parties[0] == Awaited(Numbered(s.table.parties[0], 0), 0)
    ensures after.auth == s.auth && after.config == s.config
  {
    var ids: seq<byte> := [0];
    assert ids[0] == 0;
  }

  lemma MigrateFirstStep(w: World)
    requires WorldInv(w) && w.server.pool.count == 0 && |w.server.pool.slots| >= 2 && |w.server.table.parties| >= 1
    ensures var after := Exec(w, [MigrateAction([0])]);
            && WorldInv(after)
            && Prepared(ResetParties(w.server), [0], after.server)
            && after.server.pool.free != []
  {
    MigrateFirst(w.server);
    StepKeepsWorld(w, MigrateAction([0]));
    ExecOne(w, MigrateAction([0]));
  }

  /** What the witnesses need to know of a fresh server. */
  lemma InitialFacts(config: Config, capacity: nat, partyCapacity: nat, start: nat)
    requires Roomy(config, capacity, partyCapacity)
    ensures var s := InitialWorld(config, capacity, partyCapacity, start).server;
            && s.auth == Restarted(start) && s.config == config && s.pool.count == 0
            && |s.pool.slots| == capacity && |s.table.parties| == partyCapacity
            && s.table.parties[0] == InitialParty(0)
            && s.pool.free != [] && s.pool.free[0] == 0
            && !s.pool.slots[0].isUsed && !s.pool.slots[1].isUsed
  {
  }

  /** Id 0 migrated into a fresh game. */
  lemma MigratedWorld(config: Config, capacity: nat, partyCapacity: nat, start: nat) returns (w: World)
    requires Roomy(config, capacity, partyCapacity)
    ensures w == RunFrom(config, capacity, partyCapacity, start, [MigrateAction([0])])
    ensures WorldInv(w)
    ensures w.server.auth == Restarted(start) && w.server.config == config
    ensures |w.server.pool.slots| == capacity && |w.server.table.parties| == partyCapacity
    ensures w.server.pool.slots[0] == Occupied(0, 0, MigrationStart(start), 0, WaitingForRejoin)
    ensures w.server.table.parties[0] == Awaited(InitialParty(0), 0)
    ensures w.server.pool.free != []
  {
    var w0 := InitialWorld(config, capacity, partyCapacity, start);
    InitialWorldInv(config, capacity, partyCapacity, start);
    InitialFacts(config, capacity, partyCapacity, start);
    MigrateFirstStep(w0);
    w := Exec(w0, [MigrateAction([0])]);
    PreparedFirst(ResetParties(w0.server), w.server);
  }

  /** A migration at step 0: the participant is deaf. */
  lemma DeafInRun(config: Config, capacity: nat, partyCapacity: nat)
    requires Roomy(config, capacity, partyCapacity)
    ensures var slots := RunFrom(config, capacity, partyCapacity, 0, [MigrateAction([0])]).server.pool.slots;
            |slots| > 0 && slots[0].isUsed && Deaf(slots[0].steps)
  {
    var w := MigratedWorld(config, capacity, partyCapacity, 0);
  }

  /** And one legal datagram later its next read is corrupt, and the server no longer valid. */
  lemma SpoiltAfterRun(config: Config, capacity: nat, partyCapacity: nat)
    requires Roomy(config, capacity, partyCapacity)
    ensures var s := RunFrom(config, capacity, partyCapacity, 0, [MigrateAction([0])]).server;
            0 < |s.table.parties|
            && var (r, after) := Receive(s, 0, [Section(0, Ok(LAST_STEP_ID), [Given([])])]);
            && r.Ok? && 0 < |after.pool.slots|
            && ReadExact(after.pool.slots[0].steps, after.Head()).0.Corrupt?
            && !ServerInv(after)
  {
    var w := MigratedWorld(config, capacity, partyCapacity, 0);
    LastIdSpoils(w.server, 0, 0, []);
  }

  /** Id 1 can be migrated into a game with a participant in another slot, and that leaves the pool invalid. */
  lemma MigrateSecond(s: Server, p: nat, after: Server)
    requires ServerInv(s) && JoinedAt(s, p, after) && PoolInv(after.pool)
    requires |s.pool.slots| >= 2 && s.pool.free[0] != 1 && !s.pool.slots[1].isUsed
    ensures Migrate(after, [1]).0.Ok? && !PoolInv(Migrate(after, [1]).1.pool)
  {
    var ids: seq<byte> := [1];
    assert Preparable(after.pool, ids);
    MigrateExactly(after, ids);
    MigrateRestoresPoolExactly(after, ids);
  }

  lemma JoinThenMigrate(w: World)
    requires WorldInv(w) && |w.server.table.parties| >= 1 && !w.server.table.parties[0].isUsed
    requires |w.server.pool.slots| >= 2 && !w.server.pool.slots[0].isUsed && !w.server.pool.slots[1].isUsed
    requires w.server.pool.free != [] && w.server.pool.free[0] == 0
    ensures var s := Exec(w, [JoinAction(0)]).server;
            Migrate(s, [1]).0.Ok? && !PoolInv(Migrate(s, [1]).1.pool)
  {
    ExecOne(w, JoinAction(0));
    JoinGameExactly(w.server, 0);
    MigrateSecond(w.server, JoinGame(w.server, 0).0.value, JoinGame(w.server, 0).1);
  }

  /** A join, then a migration of another id: it succeeds and leaves the pool invalid. */
  lemma MigrationIntoGameBreaksPool(config: Config, capacity: nat, partyCapacity: nat, start: nat)
    requires Roomy(config, capacity, partyCapacity)
    ensures var s := RunFrom(config, capacity, partyCapacity, start, [JoinAction(0)]).server;
            Migrate(s, [1]).0.Ok? && !PoolInv(Migrate(s, [1]).1.pool)
  {
    InitialWorldInv(config, capacity, partyCapacity, start);
    InitialFacts(config, capacity, partyCapacity, start);
    JoinThenMigrate(InitialWorld(config, capacity, partyCapacity, start));
  }

  /** A migration that lists an id twice: it fails and leaves the pool invalid. */
  lemma DuplicateIdBreaksPool(config: Config, capacity: nat, partyCapacity: nat, start: nat)
    requires Roomy(config, capacity, partyCapacity)
    ensures var s := RunFrom(config, capacity, partyCapacity, start, []).server;
            Migrate(s, [0, 0]).0.Err? && !PoolInv(Migrate(s, [0, 0]).1.pool)
  {
    var s := InitialServer(config, capacity, partyCapacity, start);
    InitialServerInv(config, capacity, partyCapacity, start);
    var ids: seq<byte> := [0, 0];
    assert ids[0] == ids[1];
    MigrateExactly(s, ids);
    FailedMigrationExactly(s, ids);
  }

  // ---- A party slot shared by a leaving and a new participant -------------------------------------

  /** The server with n more ticks on the timer of party p. */
  function Waited(s: Server, p: nat, n: nat): (r: Server)
    requires p < |s.table.parties|
    ensures |r.table.parties| == |s.table.parties|
  {
    var party := s.table.parties[p];
    s.(table := s.table.(parties := s.table.parties[p := party.(timer := party.timer + n)]))
  }

  lemma WaitedMore(s: Server, p: nat, n: nat)
    requires p < |s.table.parties|
    ensures Waited(s, p, 0) == s
    ensures Waited(Waited(s, p, n), p, 1) == Waited(s, p, n + 1)
  {
    var party := s.table.parties[p];
    assert s.table.parties[p := party] == s.table.parties;
    assert Waited(Waited(s, p, n), p, 1).table.parties == s.table.parties[p := party.(timer := party.timer + n + 1)];
  }

  lemma WaitingTick(w: World, p: nat)
    requires p < |w.server.table.parties|
    requires var party := w.server.table.parties[p];
             party.isUsed && party.state.PartyWaiting? && party.timer + 1 < party.maxTimer
    ensures Step(w, TickAction(p)).server == Waited(w.server, p, 1)
  {
  }

  /** n ticks of a waiting party add n to its timer, and change nothing else. */
  lemma {:induction false} WaitingTicks(w: World, p: nat, n: nat)
    requires p < |w.server.table.parties|
    requires var party := w.server.table.parties[p];
             party.isUsed && party.state.PartyWaiting? && (n > 0 ==> party.timer + n < party.maxTimer)
    ensures Exec(w, Repeated(TickAction(p), n)).server == Waited(w.server, p, n)
  {
    if n == 0 {
      assert Repeated(TickAction(p), 0) == [];
      WaitedMore(w.server, p, 0);
    } else {
      WaitingTicks(w, p, n - 1);
      WaitingTick(Exec(w, Repeated(TickAction(p), n - 1)), p);
      assert Repeated(TickAction(p), n)[..n - 1] == Repeated(TickAction(p), n - 1);
      WaitedMore(w.server, p, n - 1);
    }
  }

  /** Id 0 migrated in, and 1239 of the 1240 ticks it may wait gone by. */
  lemma LastTickWorld(config: Config, capacity: nat, partyCapacity: nat, start: nat) returns (w: World)
    requires Roomy(config, capacity, partyCapacity)
    ensures w == RunFrom(config, capacity, partyCapacity, start, [MigrateAction([0])] + Repeated(TickAction(0), 1239))
    ensures WorldInv(w) && w.server.pool.free != []
    ensures |w.server.table.parties| == partyCapacity
    ensures w.server.table.parties[0] == Awaited(InitialParty(0), 0).(timer := 1239)
  {
    var w0 := InitialWorld(config, capacity, partyCapacity, start);
    var w1 := MigratedWorld(config, capacity, partyCapacity, start);
    ExecConcat(w0, [MigrateAction([0])], Repeated(TickAction(0), 1239));
    WaitingTicks(w1, 0, 1239);
    ExecKeepsWorld(w1, Repeated(TickAction(0), 1239));
    w := Exec(w1, Repeated(TickAction(0), 1239));
  }

  /** Participant 0 is leaving party slot 0, which is in use for somebody else. */
  predicate SharedSlot(s: Server) {
    && |s.table.parties| > 0 && |s.pool.slots| > 0
    && s.pool.slots[0].isUsed && s.pool.slots[0].state == Leaving && s.pool.slots[0].inParty == Some(0)
    && s.table.parties[0].isUsed && s.table.parties[0].refs != [0]
  }

  /** Migrated in, not rejoined for 1240 ticks, and somebody joins: the leaver and the newcomer share party slot 0. */
  lemma SharedSlotInRun(config: Config, capacity: nat, partyCapacity: nat, start: nat)
    requires Roomy(config, capacity, partyCapacity)
    ensures var actions := [MigrateAction([0])] + Repeated(TickAction(0), 1239) + [TickAction(0)] + [JoinAction(0)];
            SharedSlot(RunFrom(config, capacity, partyCapacity, start, actions).server)
  {
    var w0 := InitialWorld(config, capacity, partyCapacity, start);
    var opening := [MigrateAction([0])] + Repeated(TickAction(0), 1239);
    var w := LastTickWorld(config, capacity, partyCapacity, start);
    ExecConcat(w0, opening, [TickAction(0)]);
    ExecConcat(w0, opening + [TickAction(0)], [JoinAction(0)]);
    TickOnly(w);
    JoinOnly(Exec(w, [TickAction(0)]));
    TickThenJoinShares(w.server);
  }

  lemma TickOnly(w: World)
    requires |w.server.table.parties| > 0
    ensures Exec(w, [TickAction(0)]).server == TickParty(w.server, 0)
  {
    ExecOne(w, TickAction(0));
  }

  lemma JoinOnly(w: World)
    ensures Exec(w, [JoinAction(0)]).server == JoinGame(w.server, 0).1
  {
    ExecOne(w, JoinAction(0));
  }

  lemma TickThenJoinShares(s: Server)
    requires ServerInv(s) && s.pool.free != [] && |s.table.parties| > 0
    requires var party := s.table.parties[0];
             party.isUsed && party.state.PartyWaiting? && party.timer + 1 >= party.maxTimer && party.refs == [0]
    ensures SharedSlot(JoinGame(TickParty(s, 0), 0).1)
  {
    LeaverAndNewcomerShareParty(s, 0, 0);
  }

  // ---- A participant that has rejoined and is still not heard -------------------------------------

  /** Six steps in one section. */
  function SixSteps(first: nat): seq<Section> {
    [Section(0, Ok(first), [Given([]), Given([]), Given([]), Given([]), Given([]), Given([])])]
  }

  lemma SixStepsStored(s: Server, b: StepBuffer)
    requires |s.table.parties| > 0 && s.table.parties[0].refs == [0] && s.table.parties[0].state != PartyDissolved
    requires |s.pool.slots| > 0 && s.pool.slots[0].steps == b && b.entries == []
    ensures var (r, after) := Receive(s, 0, SixSteps(b.readId));
            && r.Ok? && |after.pool.slots| == |s.pool.slots|
            && after.pool.slots[0] == s.pool.slots[0].(steps := StepBuffer(b.readId, [[], [], [], [], [], []]))
  {
    var section := SixSteps(b.readId)[0];
    var steps := section.steps;
    AddsOnlyNewSteps(b, b.readId, steps, 6, s.config.maxStepOctets);
    assert GivenOctets(steps)[0..6] == [[], [], [], [], [], []];
    assert ReceiveSections(s, 0, SixSteps(b.readId), 0) == (Ok(0), s);
    ReadsNext(s, 0, SixSteps(b.readId), 0, (Ok(0), s), ReceiveSection(s, 0, section));
    ReceiveIsolated(s, 0, SixSteps(b.readId));
  }

  /** Party 0 is back in the normal state, its participant 0 has the next step stored, and still waits. */
  predicate BackButWaiting(s: Server) {
    && |s.table.parties| > 0 && s.table.parties[0].isUsed && s.table.parties[0].state == PartyNormal
    && |s.pool.slots| > 0 && s.pool.slots[0].isUsed && s.pool.slots[0].state == WaitingForRejoin
    && s.pool.slots[0].steps.Holds(s.Head())
  }

  lemma RejoinThenSend(w: World)
    requires WorldInv(w) && 0 < w.server.Head() < LAST_STEP_ID
    requires |w.server.table.parties| > 0 && w.server.table.parties[0].isUsed && w.server.table.parties[0].refs == [0]
    requires |w.server.pool.slots| > 0 && w.server.pool.slots[0].isUsed && w.server.pool.slots[0].state == WaitingForRejoin
    requires w.server.pool.slots[0].steps == StepBuffer(w.server.Head() - 1, [])
    ensures var after := Exec(w, [RejoinAction(0), ReceiveAction(0, SixSteps(w.server.Head() - 1))]).server;
            && BackButWaiting(after) && after.Head() == w.server.Head() && after.config == w.server.config
            && after.auth == w.server.auth
            && after.pool.slots[0].steps.WriteId() == after.Head() + 5
  {
    var sections := SixSteps(w.server.Head() - 1);
    ExecCons(w, RejoinAction(0), [ReceiveAction(0, sections)]);
    assert [RejoinAction(0)] + [ReceiveAction(0, sections)] == [RejoinAction(0), ReceiveAction(0, sections)];
    RejoinExactly(w.server, 0);
    var w1 := Step(w, RejoinAction(0));
    ExecOne(w1, ReceiveAction(0, sections));
    SixStepsStored(w1.server, w1.server.pool.slots[0].steps);
    NotSpoilt(w1.server, sections);
    ReceiveIsolated(w1.server, 0, sections);
  }

  lemma NotSpoilt(s: Server, sections: seq<Section>)
    requires |s.table.parties| > 0 && s.table.parties[0].refs == [0] && |sections| == 1
    requires |s.pool.slots| > 0 && !Deaf(s.pool.slots[0].steps)
    ensures !Spoils(s, 0, sections)
  {
    assert ReceiveSections(s, 0, sections, 0) == (Ok(0), s);
  }

  /**
   * Migrated in, rejoined, six steps sent: the party is normal, the server composes, and the step is
   * there, but what the new step says about participant 0 is that it waits.
   */
  lemma RejoinedIsNotHeardInRun(config: Config, capacity: nat, partyCapacity: nat, start: nat, rs: seq<Record>)
    requires Roomy(config, capacity, partyCapacity) && config.window >= 2 && 0 < start < LAST_STEP_ID
    ensures var actions := [MigrateAction([0])] + [RejoinAction(0), ReceiveAction(0, SixSteps(start - 1))];
            var s := RunFrom(config, capacity, partyCapacity, start, actions).server;
            && BackButWaiting(s) && ShouldAdvance(s)
            && (Says(s, rs) ==> OnlyWord(rs, Waiting(0)))
  {
    var more := [RejoinAction(0), ReceiveAction(0, SixSteps(start - 1))];
    var w := MigratedWorld(config, capacity, partyCapacity, start);
    ExecConcat(InitialWorld(config, capacity, partyCapacity, start), [MigrateAction([0])], more);
    RejoinThenSend(w);
    ExecKeepsWorld(w, more);
    var s := Exec(w, more).server;
    ReachingFiveAdvances(s);
    if Says(s, rs) {
      OthersAnnounced(s, rs, 0);
    }
  }

  lemma ReachingFiveAdvances(s: Server)
    requires |s.pool.slots| > 0 && s.pool.slots[0].isUsed && s.pool.slots[0].steps.entries != []
    requires s.pool.slots[0].steps.WriteId() == s.Head() + 5 && s.auth.entries == [] && s.config.window >= 2
    ensures ShouldAdvance(s)
  {
    ShouldComposeExactly(s.pool.slots, s.Head());
    assert TakesPart(s.pool.slots[0], true) && ReachesTo(s.pool.slots[0], s.Head() + 5);
  }
}
