/** What a party's quality says in every run, in terms of the steps composed since the party was last reset. */
module Histories {
  import opened Common
  import opened States
  import opened Qualities
  import opened Invariants
  import opened Composition
  import opened Scheduling
  import opened Parties
  import opened Migration
  import opened Receiving
  import opened Charges
  import opened Runs

  /** An action that starts the history of party slot p afresh: it is taken, retaken, or given back. */
  predicate Restarts(s: Server, a: Action, p: nat)
    requires p < |s.table.parties|
  {
    match a
    case JoinAction(localIndex) => JoinGame(s, localIndex).0 == Ok(p)
    case RejoinAction(q) => q == p && CanRejoin(s, p)
    case MigrateAction(_) => true
    case TickAction(q) => q == p && s.table.parties[p].isUsed && s.table.parties[p].state.PartyWaiting?
                          && s.table.parties[p].timer + 1 >= s.table.parties[p].maxTimer
    case _ => false
  }

  /** One more action: a composed step adds, for each participant that points at the party, whether its step was there. */
  function NextHistory(s: Server, a: Action, p: nat, history: seq<bool>): seq<bool>
    requires p < |s.table.parties|
  {
    if !Enabled(s, a) then history
    else if Restarts(s, a, p) then []
    else if a.ComposeAction? then history + ChargesTo(s.pool.slots, p, s.Head(), |s.pool.slots|)
    else history
  }

  /** The history of party slot p after a run. */
  function History(w: World, actions: seq<Action>, p: nat): seq<bool>
    decreases |actions|
  {
    if actions == [] then []
    else
      var init := actions[..|actions| - 1];
      var s := Exec(w, init).server;
      if p < |s.table.parties| then NextHistory(s, actions[|actions| - 1], p, History(w, init, p)) else []
  }

  /** The quality of party slot p records a history. */
  ghost predicate Remembers(s: Server, p: nat, history: seq<bool>) {
    p < |s.table.parties| && Records(s.table.parties[p].quality, history)
  }

  lemma JoinRemembers(s: Server, localIndex: nat, p: nat, history: seq<bool>)
    requires ServerInv(s) && Remembers(s, p, history)
    ensures Remembers(JoinGame(s, localIndex).1, p, if JoinGame(s, localIndex).0 == Ok(p) then [] else history)
  {
    FreshRecords();
    JoinGameExactly(s, localIndex);
  }

  lemma MigrateRemembers(s: Server, ids: seq<byte>, p: nat)
    requires ServerInv(s) && Migrate(s, ids).0.Ok? && p < |s.table.parties|
    ensures Remembers(Migrate(s, ids).1, p, [])
  {
    FreshRecords();
    MigrationLeaves(s, ids, 0, p);
    if p < |ids| {
      MigrationSetsUp(s, ids, p);
    }
  }

  lemma ReceiveRemembers(s: Server, q: nat, sections: seq<Section>, p: nat, history: seq<bool>)
    requires q < |s.table.parties| && Remembers(s, p, history)
    ensures Remembers(Receive(s, q, sections).1, p, history)
  {
    ReceiveIsolated(s, q, sections);
  }

  lemma ComposeRemembers(s: Server, p: nat, history: seq<bool>)
    requires ServerInv(s) && Remembers(s, p, history)
    ensures Remembers(ComposeStep(s), p, history + ChargesTo(s.pool.slots, p, s.Head(), |s.pool.slots|))
  {
    var slots, q := s.pool.slots, s.table.parties[p].quality;
    InvIsReadable(s);
    LoopIsPointwise(s.pool, s.table.parties, s.Head(), |slots|);
    QualityIsAllCharges(q, slots, p, s.Head(), |slots|);
    ChargesRecorded(q, history, ChargesTo(slots, p, s.Head(), |slots|));
  }

  lemma TickRemembers(s: Server, q: nat, p: nat, history: seq<bool>)
    requires ServerInv(s) && q < |s.table.parties| && Remembers(s, p, history)
    ensures Remembers(TickParty(s, q), p, if Restarts(s, TickAction(q), p) then [] else history)
  {
    FreshRecords();
    if s.table.parties[q].isUsed {
      TickExactly(s, q);
    }
  }

  lemma ActionRemembers(s: Server, a: Action, p: nat, history: seq<bool>)
    requires ServerInv(s) && Enabled(s, a) && Remembers(s, p, history)
    ensures Remembers(Apply(s, a), p, NextHistory(s, a, p, history))
  {
    match a
    case JoinAction(localIndex) => JoinRemembers(s, localIndex, p, history);
    case RejoinAction(q) => FreshRecords();
    case MigrateAction(ids) => MigrateRemembers(s, ids, p);
    case ReceiveAction(q, sections) => ReceiveRemembers(s, q, sections, p, history);
    case DiscardAction =>
    case ComposeAction => ComposeRemembers(s, p, history);
    case TickAction(q) => TickRemembers(s, q, p, history);
  }

  lemma StepRemembers(w: World, a: Action, p: nat, history: seq<bool>)
    requires ServerInv(w.server) && Remembers(w.server, p, history)
    ensures Remembers(Step(w, a).server, p, NextHistory(w.server, a, p, history))
  {
    if Enabled(w.server, a) {
      ActionRemembers(w.server, a, p, history);
    }
  }

  lemma {:induction false} ExecRemembers(w: World, actions: seq<Action>, p: nat)
    requires WorldInv(w) && Remembers(w.server, p, [])
    ensures Remembers(Exec(w, actions).server, p, History(w, actions, p))
    decreases |actions|
  {
    if actions != [] {
      var init := actions[..|actions| - 1];
      ExecRemembers(w, init, p);
      ExecKeepsWorld(w, init);
      StepRemembers(Exec(w, init), actions[|actions| - 1], p, History(w, init, p));
    }
  }

  lemma InitialRemembers(config: Config, capacity: nat, partyCapacity: nat, start: nat, p: nat)
    requires SetupOk(config, capacity, partyCapacity) && p < partyCapacity
    ensures Remembers(InitialWorld(config, capacity, partyCapacity, start).server, p, [])
  {
    FreshRecords();
  }

  lemma RememberedFailing(s: Server, p: nat, history: seq<bool>)
    requires Remembers(s, p, history)
    ensures IsFailing(s.table.parties[p].quality) <==> FailsBy(history)
  {
    RecordedFailing(s.table.parties[p].quality, history);
  }

  /**
   * In every run, a party is failing exactly when the steps composed since it was last taken, retaken or
   * given back say so: it has provided one and missed the last 20, or it has provided none and missed 200.
   */
  lemma FailingInEveryRun(config: Config, capacity: nat, partyCapacity: nat, start: nat, actions: seq<Action>, p: nat)
    requires SetupOk(config, capacity, partyCapacity) && p < partyCapacity
    ensures p < |RunFrom(config, capacity, partyCapacity, start, actions).server.table.parties|
    ensures IsFailing(RunFrom(config, capacity, partyCapacity, start, actions).server.table.parties[p].quality) <==>
            FailsBy(History(InitialWorld(config, capacity, partyCapacity, start), actions, p))
  {
    var w := InitialWorld(config, capacity, partyCapacity, start);
    InitialWorldInv(config, capacity, partyCapacity, start);
    InitialRemembers(config, capacity, partyCapacity, start, p);
    ExecRemembers(w, actions, p);
    RememberedFailing(Exec(w, actions).server, p, History(w, actions, p));
  }
}
