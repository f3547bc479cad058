/** When a run can give a party up, and how long it waits for a rejoin. */
module Timing {
  import opened Common
  import opened States
  import opened PartyLives
  import opened Invariants
  import opened Scheduling
  import opened Parties
  import opened Migration
  import opened Receiving
  import opened Runs

  // ---- The limit on waiting -----------------------------------------------------------------------

  /** A slot has the configured limit or still its initial one; a used party in the normal state has the configured one. */
  predicate LimitOk(party: Party, limit: nat) {
    && (party.maxTimer == limit || party.maxTimer == INITIAL_REJOIN_LIMIT)
    && (party.isUsed && party.state.PartyNormal? ==> party.maxTimer == limit)
  }

  ghost predicate LimitsOk(s: Server) {
    forall p :: 0 <= p < |s.table.parties| ==> LimitOk(s.table.parties[p], s.config.rejoinLimit)
  }

  /** How an action may change a party slot: it installs the configured limit, or keeps the limit and does not bring the slot into normal use. */
  predicate LimitMove(before: Party, after: Party, limit: nat) {
    || after.maxTimer == limit
    || (after.maxTimer == before.maxTimer
        && (after.isUsed && after.state.PartyNormal? ==> before.isUsed && before.state.PartyNormal?))
  }

  lemma JoinOnLimit(s: Server, localIndex: nat, p: nat)
    requires ServerInv(s) && p < |s.table.parties|
    ensures var after := JoinGame(s, localIndex).1.table.parties;
            p < |after| && LimitMove(s.table.parties[p], after[p], s.config.rejoinLimit)
  {
    JoinGameExactly(s, localIndex);
  }

  lemma MigrateOnLimit(s: Server, ids: seq<byte>, p: nat)
    requires ServerInv(s) && Migrate(s, ids).0.Ok? && p < |s.table.parties|
    ensures var after := Migrate(s, ids).1.table.parties;
            p < |after| && LimitMove(s.table.parties[p], after[p], s.config.rejoinLimit)
  {
    MigrateExactly(s, ids);
  }

  lemma ReceiveOnLimit(s: Server, q: nat, sections: seq<Section>, p: nat)
    requires q < |s.table.parties| && p < |s.table.parties|
    ensures var after := Receive(s, q, sections).1.table.parties;
            p < |after| && LimitMove(s.table.parties[p], after[p], s.config.rejoinLimit)
  {
    ReceiveIsolated(s, q, sections);
  }

  lemma ComposeOnLimit(s: Server, p: nat)
    requires ServerInv(s) && p < |s.table.parties|
    ensures var after := ComposeStep(s).table.parties;
            p < |after| && LimitMove(s.table.parties[p], after[p], s.config.rejoinLimit)
  {
    ComposeStepMeaning(s);
  }

  lemma TickOnLimit(s: Server, q: nat, p: nat)
    requires q < |s.table.parties| && p < |s.table.parties|
    ensures var after := TickParty(s, q).table.parties;
            p < |after| && LimitMove(s.table.parties[p], after[p], s.config.rejoinLimit)
  {
  }

  lemma ActionOnLimit(s: Server, a: Action, p: nat)
    requires ServerInv(s) && Enabled(s, a) && p < |s.table.parties|
    ensures var after := Apply(s, a).table.parties;
            p < |after| && LimitMove(s.table.parties[p], after[p], s.config.rejoinLimit)
  {
    match a
    case JoinAction(localIndex) => JoinOnLimit(s, localIndex, p);
    case RejoinAction(_) =>
    case MigrateAction(ids) => MigrateOnLimit(s, ids, p);
    case ReceiveAction(q, sections) => ReceiveOnLimit(s, q, sections, p);
    case DiscardAction =>
    case ComposeAction => ComposeOnLimit(s, p);
    case TickAction(q) => TickOnLimit(s, q, p);
  }

  lemma ActionKeepsTable(s: Server, a: Action)
    requires ServerInv(s) && Enabled(s, a)
    ensures |Apply(s, a).table.parties| == |s.table.parties|
  {
    match a
    case JoinAction(localIndex) => JoinGameExactly(s, localIndex);
    case MigrateAction(ids) => MigrateExactly(s, ids);
    case ReceiveAction(q, sections) => ReceiveIsolated(s, q, sections);
    case ComposeAction => ComposeStepMeaning(s);
    case _ =>
  }

  lemma ActionKeepsLimits(s: Server, a: Action)
    requires ServerInv(s) && Enabled(s, a) && LimitsOk(s)
    ensures LimitsOk(Apply(s, a))
  {
    ActionKeepsTable(s, a);
    ActionFrame(s, a);
    forall p | 0 <= p < |s.table.parties|
      ensures LimitOk(Apply(s, a).table.parties[p], s.config.rejoinLimit)
    {
      ActionOnLimit(s, a, p);
    }
  }

  lemma {:induction false} ExecKeepsLimits(w: World, actions: seq<Action>)
    requires WorldInv(w) && LimitsOk(w.server)
    ensures LimitsOk(Exec(w, actions).server)
    decreases |actions|
  {
    if actions != [] {
      var init := actions[..|actions| - 1];
      ExecKeepsLimits(w, init);
      ExecKeepsWorld(w, init);
      StepKeepsLimits(Exec(w, init), actions[|actions| - 1]);
    }
  }

  lemma StepKeepsLimits(w: World, a: Action)
    requires ServerInv(w.server) && LimitsOk(w.server)
    ensures LimitsOk(Step(w, a).server)
  {
    if Enabled(w.server, a) {
      ActionKeepsLimits(w.server, a);
    }
  }

  lemma InitialLimits(config: Config, capacity: nat, partyCapacity: nat, start: nat)
    requires SetupOk(config, capacity, partyCapacity)
    ensures LimitsOk(InitialWorld(config, capacity, partyCapacity, start).server)
  {
  }

  lemma LimitAt(s: Server, p: nat)
    requires LimitsOk(s) && p < |s.table.parties|
    ensures LimitOk(s.table.parties[p], s.config.rejoinLimit)
  {
  }

  /** In every run, a party waits for a rejoin as long as configured, or 1240 ticks if it was migrated into a fresh slot. */
  lemma LimitsInEveryRun(config: Config, capacity: nat, partyCapacity: nat, start: nat, actions: seq<Action>, p: nat)
    requires SetupOk(config, capacity, partyCapacity)
    requires p < |RunFrom(config, capacity, partyCapacity, start, actions).server.table.parties|
    ensures var s := RunFrom(config, capacity, partyCapacity, start, actions).server;
            LimitOk(s.table.parties[p], s.config.rejoinLimit)
  {
    InitialWorldInv(config, capacity, partyCapacity, start);
    InitialLimits(config, capacity, partyCapacity, start);
    ExecKeepsLimits(InitialWorld(config, capacity, partyCapacity, start), actions);
    LimitAt(RunFrom(config, capacity, partyCapacity, start, actions).server, p);
  }

  /** Party slot p exists and has the configured limit. */
  ghost predicate HasLimit(s: Server, p: nat) {
    p < |s.table.parties| && s.table.parties[p].maxTimer == s.config.rejoinLimit
  }

  lemma StepKeepsLimit(w: World, a: Action, p: nat)
    requires ServerInv(w.server) && HasLimit(w.server, p)
    ensures HasLimit(Step(w, a).server, p)
  {
    if Enabled(w.server, a) {
      ActionOnLimit(w.server, a, p);
      ActionFrame(w.server, a);
    }
  }

  /** Once a slot has the configured limit, it keeps it. */
  lemma {:induction false} LimitForGood(w: World, actions: seq<Action>, p: nat)
    requires WorldInv(w) && HasLimit(w.server, p)
    ensures HasLimit(Exec(w, actions).server, p)
    decreases |actions|
  {
    if actions != [] {
      var init := actions[..|actions| - 1];
      LimitForGood(w, init, p);
      ExecKeepsWorld(w, init);
      StepKeepsLimit(Exec(w, init), actions[|actions| - 1], p);
    }
  }

  /** From a join or a rejoin on, a party slot has the configured limit. */
  lemma LimitFromJoinOn(w: World, a: Action, actions: seq<Action>, p: nat)
    requires WorldInv(w)
    requires (a.JoinAction? && JoinGame(w.server, a.localIndex).0 == Ok(p)) || (a == RejoinAction(p) && CanRejoin(w.server, p))
    ensures HasLimit(Exec(Step(w, a), actions).server, p)
  {
    if a.JoinAction? {
      JoinGameExactly(w.server, a.localIndex);
    }
    assert HasLimit(Step(w, a).server, p);
    StepKeepsWorld(w, a);
    LimitForGood(Step(w, a), actions, p);
  }

  // ---- Giving up ----------------------------------------------------------------------------------

  /** Party slot p is in use, waits at most as long as configured, and needs at least n more ticks before it is given up. */
  ghost predicate TicksAhead(s: Server, p: nat, n: int) {
    && HasLimit(s, p)
    && s.table.parties[p].isUsed
    && Plausible(s.table.parties[p])
    && TicksLeft(s.table.parties[p]) >= n
  }

  /** A used party slot that is not ticked keeps its ticks left, or is made fresh by a rejoin. */
  predicate SpendsNothing(before: Party, after: Party, limit: nat) {
    || after == before.(quality := after.quality, highestReceived := after.highestReceived,
                        stepsInBuffer := after.stepsInBuffer, zeroAddedWarnings := after.zeroAddedWarnings)
    || after == Rejoined(before, limit)
  }

  lemma JoinSpends(s: Server, localIndex: nat, p: nat)
    requires ServerInv(s) && p < |s.table.parties| && s.table.parties[p].isUsed
    ensures var after := JoinGame(s, localIndex).1.table.parties;
            p < |after| && SpendsNothing(s.table.parties[p], after[p], s.config.rejoinLimit)
  {
    JoinGameExactly(s, localIndex);
  }

  lemma ReceiveSpends(s: Server, q: nat, sections: seq<Section>, p: nat)
    requires q < |s.table.parties| && p < |s.table.parties|
    ensures var after := Receive(s, q, sections).1.table.parties;
            p < |after| && SpendsNothing(s.table.parties[p], after[p], s.config.rejoinLimit)
  {
    ReceiveIsolated(s, q, sections);
  }

  lemma ComposeSpends(s: Server, p: nat)
    requires ServerInv(s) && p < |s.table.parties|
    ensures var after := ComposeStep(s).table.parties;
            p < |after| && SpendsNothing(s.table.parties[p], after[p], s.config.rejoinLimit)
  {
    ComposeStepMeaning(s);
  }

  lemma OthersSpendNothing(s: Server, a: Action, p: nat)
    requires ServerInv(s) && Enabled(s, a) && p < |s.table.parties| && s.table.parties[p].isUsed && a != TickAction(p)
    ensures var after := Apply(s, a).table.parties;
            p < |after| && SpendsNothing(s.table.parties[p], after[p], s.config.rejoinLimit)
  {
    match a
    case JoinAction(localIndex) => JoinSpends(s, localIndex, p);
    case RejoinAction(q) =>
    case MigrateAction(ids) => NoParticipantsNoParties(s);
    case ReceiveAction(q, sections) => ReceiveSpends(s, q, sections, p);
    case DiscardAction =>
    case ComposeAction => ComposeSpends(s, p);
    case TickAction(q) =>
  }

  lemma NothingSpent(before: Party, after: Party)
    requires Plausible(before) && SpendsNothing(before, after, before.maxTimer)
    ensures Plausible(after) && TicksLeft(after) >= TicksLeft(before) && after.maxTimer == before.maxTimer
    ensures after.isUsed == before.isUsed
  {
  }

  /** Only its own tick brings a party nearer to being given up, and by one. */
  lemma ActionSpends(s: Server, a: Action, p: nat, n: int)
    requires ServerInv(s) && Enabled(s, a) && TicksAhead(s, p, n)
    requires a == TickAction(p) ==> n > 1
    ensures TicksAhead(Apply(s, a), p, n - Indicator(a == TickAction(p)))
  {
    ActionFrame(s, a);
    if a == TickAction(p) {
      OwnTickSpends(s, p, n);
    } else {
      OthersSpendNothing(s, a, p);
      NothingSpent(s.table.parties[p], Apply(s, a).table.parties[p]);
    }
  }

  lemma OwnTickSpends(s: Server, p: nat, n: int)
    requires TicksAhead(s, p, n) && n > 1
    ensures TicksAhead(TickParty(s, p), p, n - 1)
  {
    TickSpendsOne(s.table.parties[p]);
  }

  function TicksOf(actions: seq<Action>, p: nat): nat {
    if actions == [] then 0
    else TicksOf(actions[..|actions| - 1], p) + Indicator(actions[|actions| - 1] == TickAction(p))
  }

  lemma StepSpends(w: World, a: Action, p: nat, n: int)
    requires ServerInv(w.server) && TicksAhead(w.server, p, n)
    requires a == TickAction(p) ==> n > 1
    ensures TicksAhead(Step(w, a).server, p, n - Indicator(a == TickAction(p)))
  {
    if Enabled(w.server, a) {
      ActionSpends(w.server, a, p, n);
    }
  }

  /** Whatever else happens, a party is still in use after fewer ticks of its own than it has left. */
  lemma {:induction false} RunSpends(w: World, actions: seq<Action>, p: nat, n: int)
    requires WorldInv(w) && TicksAhead(w.server, p, n) && TicksOf(actions, p) < n
    ensures TicksAhead(Exec(w, actions).server, p, n - TicksOf(actions, p))
    decreases |actions|
  {
    if actions != [] {
      var init := actions[..|actions| - 1];
      RunSpends(w, init, p, n);
      ExecKeepsWorld(w, init);
      StepSpends(Exec(w, init), actions[|actions| - 1], p, n - TicksOf(init, p));
    }
  }

  /** A fresh party slot: in normal use, and nothing held against it. */
  predicate FreshParty(s: Server, p: nat) {
    p < |s.table.parties| && s.table.parties[p].isUsed && s.table.parties[p].state.PartyNormal? && s.table.parties[p].impeding == 0
  }

  lemma FreshTicksAhead(s: Server, p: nat)
    requires FreshParty(s, p) && LimitOk(s.table.parties[p], s.config.rejoinLimit)
    ensures TicksAhead(s, p, 181 + Max(1, s.config.rejoinLimit))
  {
  }

  /** A fresh party stays in use as long as fewer than 181 + max(1, T) of its ticks follow. */
  lemma FreshPartyStays(w: World, more: seq<Action>, p: nat)
    requires WorldInv(w) && FreshParty(w.server, p) && LimitOk(w.server.table.parties[p], w.server.config.rejoinLimit)
    requires TicksOf(more, p) < 181 + Max(1, w.server.config.rejoinLimit)
    ensures var after := Exec(w, more).server.table.parties;
            p < |after| && after[p].isUsed
  {
    FreshTicksAhead(w.server, p);
    RunSpends(w, more, p, 181 + Max(1, w.server.config.rejoinLimit));
  }

  /**
   * In every run: a party that is fresh after some actions is still in use as long as fewer than
   * 181 + max(1, T) of its ticks follow, whatever else happens meanwhile.
   */
  lemma FreshPartyStaysInEveryRun(config: Config, capacity: nat, partyCapacity: nat, start: nat,
                                  actions: seq<Action>, more: seq<Action>, p: nat)
    requires SetupOk(config, capacity, partyCapacity)
    requires FreshParty(RunFrom(config, capacity, partyCapacity, start, actions).server, p)
    requires TicksOf(more, p) < 181 + Max(1, RunFrom(config, capacity, partyCapacity, start, actions).server.config.rejoinLimit)
    ensures var after := Exec(RunFrom(config, capacity, partyCapacity, start, actions), more).server.table.parties;
            p < |after| && after[p].isUsed
  {
    EveryRunIsValid(config, capacity, partyCapacity, start, actions);
    LimitsInEveryRun(config, capacity, partyCapacity, start, actions, p);
    FreshPartyStays(RunFrom(config, capacity, partyCapacity, start, actions), more, p);
  }
}
