/** Players that come back: what a rejoin restores, and what it does not. */
module Returns {
  import opened Common
  import opened StepBuffers
  import opened States
  import opened Qualities
  import opened Pools
  import opened Invariants
  import opened Codec
  import opened Scheduling
  import opened Announcements
  import opened Parties
  import opened Migration
  import opened Receiving
  import opened Runs
  import opened Theorems
  import opened Timing

  // ---- The first step of a migrated participant ---------------------------------------------------

  /** After a migration at a head above 0, the one step that a migrated participant can send first is the one before the head. */
  lemma FirstStepAfterMigration(s: Server, ids: seq<byte>, j: nat, id: nat, octets: Octets)
    requires PoolInv(s.pool) && Migrate(s, ids).0.Ok? && j < |ids| && |s.table.parties| <= 256
    requires s.Head() > 0 && |octets| <= s.config.maxStepOctets
    ensures ids[j] < |Migrate(s, ids).1.pool.slots|
    ensures var (added, b) := AddStep(Migrate(s, ids).1.pool.slots[ids[j]].steps, id, Given(octets), s.config.maxStepOctets);
            if id < s.Head() - 1 then added == Ok(0) && b == StepBuffer(s.Head() - 1, [])
            else if id == s.Head() - 1 then added == Ok(1) && b == StepBuffer(s.Head() - 1, [octets])
            else added.Err? && b == StepBuffer(s.Head() - 1, [])
  {
    MigrationSetsUp(s, ids, j);
  }

  // ---- What a rejoin restores ---------------------------------------------------------------------

  /** From a rejoin of a used party on, it stays in use as long as fewer than 181 + max(1, T) of its ticks follow. */
  lemma RejoinedPartyStays(w: World, p: nat, more: seq<Action>)
    requires WorldInv(w) && p < |w.server.table.parties| && w.server.table.parties[p].isUsed
    requires TicksOf(more, p) < 181 + Max(1, w.server.config.rejoinLimit)
    ensures var after := Exec(Step(w, RejoinAction(p)), more).server.table.parties;
            p < |after| && after[p].isUsed
  {
    RejoinExactly(w.server, p);
    StepKeepsWorld(w, RejoinAction(p));
    FreshPartyStays(Step(w, RejoinAction(p)), more, p);
  }

  // ---- A waiting party's participant waits --------------------------------------------------------

  /** If the party is used and waiting, its participant waits too. */
  ghost predicate WaitsWith(s: Server, p: nat) {
    && p < |s.table.parties|
    && (s.table.parties[p].isUsed && s.table.parties[p].state.PartyWaiting? ==>
          && |s.table.parties[p].refs| == 1 && s.table.parties[p].refs[0] < |s.pool.slots|
          && s.pool.slots[s.table.parties[p].refs[0]].state == WaitingForRejoin)
  }

  lemma JoinKeepsWaits(s: Server, localIndex: nat, p: nat)
    requires ServerInv(s) && WaitsWith(s, p)
    ensures WaitsWith(JoinGame(s, localIndex).1, p)
  {
    JoinGameExactly(s, localIndex);
    if s.table.parties[p].isUsed {
      assert PartyOwns(s.pool, s.table.parties, p);
    }
  }

  lemma MigrateKeepsWaits(s: Server, ids: seq<byte>, p: nat)
    requires ServerInv(s) && Migrate(s, ids).0.Ok? && p < |s.table.parties|
    ensures WaitsWith(Migrate(s, ids).1, p)
  {
    MigrateExactly(s, ids);
    if p < |ids| {
      MigrationSetsUp(s, ids, p);
    } else {
      MigrationLeaves(s, ids, 0, p);
    }
  }

  lemma ReceiveKeepsWaits(s: Server, q: nat, sections: seq<Section>, p: nat)
    requires q < |s.table.parties| && WaitsWith(s, p)
    ensures WaitsWith(Receive(s, q, sections).1, p)
  {
    ReceiveIsolated(s, q, sections);
  }

  lemma ComposeKeepsWaits(s: Server, p: nat)
    requires ServerInv(s) && WaitsWith(s, p)
    ensures WaitsWith(ComposeStep(s), p)
  {
    ComposeStepMeaning(s);
  }

  lemma TickKeepsWaits(s: Server, q: nat, p: nat)
    requires ServerInv(s) && q < |s.table.parties| && WaitsWith(s, p)
    ensures WaitsWith(TickParty(s, q), p)
  {
    if s.table.parties[q].isUsed {
      TickExactly(s, q);
      if p != q && s.table.parties[p].isUsed {
        ReferencesDisjoint(s, q, p, s.table.parties[q].refs[0]);
        assert PartyOwns(s.pool, s.table.parties, p);
      }
    }
  }

  lemma ActionKeepsWaits(s: Server, a: Action, p: nat)
    requires ServerInv(s) && Enabled(s, a) && WaitsWith(s, p)
    ensures WaitsWith(Apply(s, a), p)
  {
    match a
    case JoinAction(localIndex) => JoinKeepsWaits(s, localIndex, p);
    case RejoinAction(q) =>
    case MigrateAction(ids) => MigrateKeepsWaits(s, ids, p);
    case ReceiveAction(q, sections) => ReceiveKeepsWaits(s, q, sections, p);
    case DiscardAction =>
    case ComposeAction => ComposeKeepsWaits(s, p);
    case TickAction(q) => TickKeepsWaits(s, q, p);
  }

  lemma StepKeepsWaits(w: World, a: Action, p: nat)
    requires ServerInv(w.server) && WaitsWith(w.server, p)
    ensures WaitsWith(Step(w, a).server, p)
  {
    if Enabled(w.server, a) {
      ActionKeepsWaits(w.server, a, p);
    }
  }

  lemma {:induction false} ExecKeepsWaits(w: World, actions: seq<Action>, p: nat)
    requires WorldInv(w) && WaitsWith(w.server, p)
    ensures WaitsWith(Exec(w, actions).server, p)
    decreases |actions|
  {
    if actions != [] {
      var init := actions[..|actions| - 1];
      ExecKeepsWaits(w, init, p);
      ExecKeepsWorld(w, init);
      StepKeepsWaits(Exec(w, init), actions[|actions| - 1], p);
    }
  }

  lemma InitialWaits(config: Config, capacity: nat, partyCapacity: nat, start: nat, p: nat)
    requires SetupOk(config, capacity, partyCapacity) && p < partyCapacity
    ensures WaitsWith(InitialWorld(config, capacity, partyCapacity, start).server, p)
  {
  }

  /** In every run, the participant of a used party that waits is waiting too. */
  lemma WaitsInEveryRun(config: Config, capacity: nat, partyCapacity: nat, start: nat, actions: seq<Action>, p: nat)
    requires SetupOk(config, capacity, partyCapacity) && p < partyCapacity
    ensures WaitsWith(RunFrom(config, capacity, partyCapacity, start, actions).server, p)
  {
    InitialWorldInv(config, capacity, partyCapacity, start);
    InitialWaits(config, capacity, partyCapacity, start, p);
    ExecKeepsWaits(InitialWorld(config, capacity, partyCapacity, start), actions, p);
  }

  // ---- The states of a participant ----------------------------------------------------------------

  /** The tick of party q is the one that makes it wait. */
  predicate TickStartsWaiting(s: Server, a: Action, q: nat) {
    && a == TickAction(q) && q < |s.table.parties| && s.table.parties[q].state.PartyNormal?
    && IsFailing(s.table.parties[q].quality) && s.table.parties[q].impeding >= 180
  }

  /** The tick of party q is the one that gives it up. */
  predicate TickGivesUp(s: Server, a: Action, q: nat) {
    && a == TickAction(q) && q < |s.table.parties| && s.table.parties[q].state.PartyWaiting?
    && s.table.parties[q].timer + 1 >= s.table.parties[q].maxTimer
  }

  /** Where an action takes a participant of party q; None if it is then gone. */
  function NextState(s: Server, a: Action, q: nat, state: ParticipantState): Option<ParticipantState> {
    match state
    case JustJoined => Some(if a.ComposeAction? then Normal else JustJoined)
    case Normal => Some(if TickStartsWaiting(s, a, q) then WaitingForRejoin else Normal)
    case WaitingForRejoin => Some(if TickGivesUp(s, a, q) then Leaving else WaitingForRejoin)
    case Leaving => if a.ComposeAction? then None else Some(Leaving)
    case Destroyed => None
  }

  predicate IsIn(p: Participant, state: Option<ParticipantState>) {
    if state.Some? then p.isUsed && p.state == state.value else !p.isUsed
  }

  /** Slot i is in use, for party q. */
  ghost predicate BelongsTo(s: Server, i: nat, q: nat) {
    i < |s.pool.slots| && s.pool.slots[i].isUsed && s.pool.slots[i].inParty == Some(q)
  }

  lemma TickMoves(s: Server, p: nat, i: nat, q: nat)
    requires ServerInv(s) && p < |s.table.parties| && BelongsTo(s, i, q) && WaitsWith(s, p)
    ensures i < |TickParty(s, p).pool.slots|
    ensures IsIn(TickParty(s, p).pool.slots[i], NextState(s, TickAction(p), q, s.pool.slots[i].state))
  {
    assert ParticipantOwned(s.pool, s.table.parties, i);
    if s.table.parties[p].isUsed {
      TickExactly(s, p);
      assert PartyOwns(s.pool, s.table.parties, p);
      if s.table.parties[p].refs[0] == i && s.pool.slots[i].state == JustJoined {
        SpotlessIsKept(s, p, i);
      }
    }
  }

  lemma SpotlessIsKept(s: Server, p: nat, i: nat)
    requires ServerInv(s) && p < |s.table.parties| && BelongsTo(s, i, p) && s.pool.slots[i].state == JustJoined
    ensures s.table.parties[p].state.PartyNormal? && !IsFailing(s.table.parties[p].quality)
  {
    assert Spotless(s.table.parties[p]);
  }

  lemma ComposeMoves(s: Server, i: nat, q: nat)
    requires ServerInv(s) && BelongsTo(s, i, q)
    ensures i < |ComposeStep(s).pool.slots|
    ensures IsIn(ComposeStep(s).pool.slots[i], NextState(s, ComposeAction, q, s.pool.slots[i].state))
  {
    ComposeStepMeaning(s);
    assert ParticipantOwned(s.pool, s.table.parties, i);
  }

  lemma ReceiveMoves(s: Server, p: nat, sections: seq<Section>, i: nat, q: nat)
    requires ServerInv(s) && p < |s.table.parties| && BelongsTo(s, i, q)
    ensures i < |Receive(s, p, sections).1.pool.slots|
    ensures IsIn(Receive(s, p, sections).1.pool.slots[i], NextState(s, ReceiveAction(p, sections), q, s.pool.slots[i].state))
  {
    ReceiveIsolated(s, p, sections);
    assert ParticipantOwned(s.pool, s.table.parties, i);
  }

  lemma JoinMoves(s: Server, localIndex: nat, i: nat, q: nat)
    requires ServerInv(s) && BelongsTo(s, i, q)
    ensures i < |JoinGame(s, localIndex).1.pool.slots|
    ensures IsIn(JoinGame(s, localIndex).1.pool.slots[i], NextState(s, JoinAction(localIndex), q, s.pool.slots[i].state))
  {
    JoinGameExactly(s, localIndex);
    assert ParticipantOwned(s.pool, s.table.parties, i);
  }

  /**
   * The life of a participant, action by action. It is normal with the first composed step; it waits from
   * the tick that makes its party wait; from there nothing takes it back, a rejoin included, and the tick
   * that gives its party up makes it leave; it is gone with the next composed step.
   */
  lemma ParticipantMoves(s: Server, a: Action, i: nat, q: nat)
    requires ServerInv(s) && Enabled(s, a) && BelongsTo(s, i, q)
    requires forall p :: 0 <= p < |s.table.parties| ==> WaitsWith(s, p)
    ensures i < |Apply(s, a).pool.slots|
    ensures IsIn(Apply(s, a).pool.slots[i], NextState(s, a, q, s.pool.slots[i].state))
  {
    match a
    case JoinAction(localIndex) => JoinMoves(s, localIndex, i, q);
    case RejoinAction(p) => assert ParticipantOwned(s.pool, s.table.parties, i);
    case MigrateAction(ids) => CountBounds(s.pool.slots, IsUsed);
    case ReceiveAction(p, sections) => ReceiveMoves(s, p, sections, i, q);
    case DiscardAction => assert ParticipantOwned(s.pool, s.table.parties, i);
    case ComposeAction => ComposeMoves(s, i, q);
    case TickAction(p) => TickMoves(s, p, i, q);
  }

  // ---- What a rejoin does not restore -------------------------------------------------------------

  /** The participant in slot i waits or is leaving. */
  ghost predicate OnTheWayOut(s: Server, i: nat) {
    i < |s.pool.slots| && s.pool.slots[i].isUsed && s.pool.slots[i].state in {WaitingForRejoin, Leaving}
  }

  lemma StillOnTheWayOut(s: Server, a: Action, i: nat)
    requires ServerInv(s) && Enabled(s, a) && OnTheWayOut(s, i)
    ensures i < |Apply(s, a).pool.slots|
    ensures Apply(s, a).pool.slots[i].isUsed ==> OnTheWayOut(Apply(s, a), i)
  {
    var q := s.pool.slots[i].inParty;
    assert ParticipantOwned(s.pool, s.table.parties, i);
    match a
    case JoinAction(localIndex) => JoinMoves(s, localIndex, i, q.value);
    case RejoinAction(p) =>
    case MigrateAction(ids) => CountBounds(s.pool.slots, IsUsed);
    case ReceiveAction(p, sections) => ReceiveMoves(s, p, sections, i, q.value);
    case DiscardAction =>
    case ComposeAction => ComposeMoves(s, i, q.value);
    case TickAction(p) => TickOnTheWayOut(s, p, i);
  }

  lemma TickOnTheWayOut(s: Server, p: nat, i: nat)
    requires ServerInv(s) && p < |s.table.parties| && OnTheWayOut(s, i)
    ensures OnTheWayOut(TickParty(s, p), i)
  {
    TickFrame(s, p);
  }

  lemma StepOnTheWayOut(w: World, a: Action, i: nat)
    requires WorldInv(w) && OnTheWayOut(w.server, i)
    ensures i < |Step(w, a).server.pool.slots|
    ensures Step(w, a).server.pool.slots[i].isUsed ==> OnTheWayOut(Step(w, a).server, i)
  {
    if Enabled(w.server, a) {
      StillOnTheWayOut(w.server, a, i);
    }
  }

  /** Once a participant waits, it waits or leaves for as long as it is in the game, whatever rejoins happen. */
  lemma {:induction false} NeverBackToNormal(w: World, actions: seq<Action>, i: nat)
    requires WorldInv(w) && InGameThroughout(w, actions, i) && OnTheWayOut(w.server, i)
    ensures OnTheWayOut(Exec(w, actions).server, i)
    decreases |actions|
  {
    if actions != [] {
      var init := actions[..|actions| - 1];
      InGameBefore(w, actions, i);
      NeverBackToNormal(w, init, i);
      ExecKeepsWorld(w, init);
      StepOnTheWayOut(Exec(w, init), actions[|actions| - 1], i);
    }
  }

  /** So no step composed after that says anything else about it, whatever it sends. */
  lemma WaiterIsNotHeard(w: World, actions: seq<Action>, i: byte, rs: seq<Record>)
    requires WorldInv(w) && InGameThroughout(w, actions, i) && OnTheWayOut(w.server, i)
    requires Says(Exec(w, actions).server, rs)
    ensures OnlyWord(rs, Waiting(i)) || OnlyWord(rs, Left(i))
  {
    NeverBackToNormal(w, actions, i);
    ExecKeepsWorld(w, actions);
    OthersAnnounced(Exec(w, actions).server, rs, i);
  }
}
