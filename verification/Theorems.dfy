/** What holds in every run. */
module Theorems {
  import opened Common
  import opened StepBuffers
  import opened States
  import opened PartyLives
  import opened Pools
  import opened Invariants
  import opened Codec
  import opened Composition
  import opened Scheduling
  import opened Parties
  import opened DeafBuffers
  import opened Windows
  import opened Logs
  import opened Runs

  // ---- Lifetimes ----------------------------------------------------------------------------------

  /** In every run, the records about every id form lifetimes, one after the other. */
  lemma LifetimesInEveryRun(config: Config, capacity: nat, partyCapacity: nat, start: nat, actions: seq<Action>, id: nat)
    requires SetupOk(config, capacity, partyCapacity)
    ensures Lifetimes(Trace(RunFrom(config, capacity, partyCapacity, start, actions).log, id))
  {
    EveryRunIsValid(config, capacity, partyCapacity, start, actions);
  }

  /** In every run, once an id has been handed out or migrated in, the stream has a Left record for it before that happens again. */
  lemma NoReuseBeforeLeft(config: Config, capacity: nat, partyCapacity: nat, start: nat, actions: seq<Action>, id: nat, i: nat, j: nat)
    requires SetupOk(config, capacity, partyCapacity)
    requires var t := Trace(RunFrom(config, capacity, partyCapacity, start, actions).log, id);
             i < j < |t| && Opens(t[i]) && Opens(t[j])
    ensures var t := Trace(RunFrom(config, capacity, partyCapacity, start, actions).log, id);
            exists k :: i < k < j && t[k] == LeftGame
  {
    LifetimesInEveryRun(config, capacity, partyCapacity, start, actions, id);
    LeftBetweenOpenings(Trace(RunFrom(config, capacity, partyCapacity, start, actions).log, id), i, j);
  }

  /** In every run, between two Joined records of an id lies a Left record. */
  lemma NoRejoinBeforeLeft(config: Config, capacity: nat, partyCapacity: nat, start: nat, actions: seq<Action>, id: nat, i: nat, j: nat)
    requires SetupOk(config, capacity, partyCapacity)
    requires var t := Trace(RunFrom(config, capacity, partyCapacity, start, actions).log, id);
             i < j < |t| && t[i] == JoinedGame && t[j] == JoinedGame
    ensures var t := Trace(RunFrom(config, capacity, partyCapacity, start, actions).log, id);
            exists k :: i < k < j && t[k] == LeftGame
  {
    LifetimesInEveryRun(config, capacity, partyCapacity, start, actions, id);
    LeftBetweenJoins(Trace(RunFrom(config, capacity, partyCapacity, start, actions).log, id), i, j);
  }

  /** In every run, no step mentions an id after its Left record until the id is handed out or migrated in again. */
  lemma SilentAfterLeft(config: Config, capacity: nat, partyCapacity: nat, start: nat, actions: seq<Action>, id: nat, i: nat, j: nat)
    requires SetupOk(config, capacity, partyCapacity)
    requires var t := Trace(RunFrom(config, capacity, partyCapacity, start, actions).log, id);
             i < j < |t| && t[i] == LeftGame
    ensures var t := Trace(RunFrom(config, capacity, partyCapacity, start, actions).log, id);
            Opens(t[i + 1]) && (!Opens(t[j]) ==> exists k :: i < k < j && Opens(t[k]))
  {
    LifetimesInEveryRun(config, capacity, partyCapacity, start, actions, id);
    NothingAfterLeft(Trace(RunFrom(config, capacity, partyCapacity, start, actions).log, id), i);
  }

  // ---- Pool and parties ---------------------------------------------------------------------------

  /** In every run, the free list is exactly the unused slots, without repetition, and the counts add up. */
  lemma PoolInEveryRun(config: Config, capacity: nat, partyCapacity: nat, start: nat, actions: seq<Action>, i: byte)
    requires SetupOk(config, capacity, partyCapacity)
    ensures var pool := RunFrom(config, capacity, partyCapacity, start, actions).server.pool;
            && (i in pool.free <==> i < |pool.slots| && !pool.slots[i].isUsed)
            && NoDuplicates(pool.free)
            && |pool.free| + pool.count == |pool.slots|
            && pool.count == Count(pool.slots, IsUsed)
  {
    EveryRunIsValid(config, capacity, partyCapacity, start, actions);
    FreeListIsUnusedSlots(RunFrom(config, capacity, partyCapacity, start, actions).server.pool, i);
  }

  /** In every run, used parties and live participants point at each other, one to one. */
  lemma OwnershipInEveryRun(config: Config, capacity: nat, partyCapacity: nat, start: nat, actions: seq<Action>, p: nat, i: nat)
    requires SetupOk(config, capacity, partyCapacity)
    requires var s := RunFrom(config, capacity, partyCapacity, start, actions).server;
             p < |s.table.parties| && i < |s.pool.slots|
    ensures var s := RunFrom(config, capacity, partyCapacity, start, actions).server;
            var party, slot := s.table.parties[p], s.pool.slots[i];
            party.isUsed && i in party.refs <==> slot.isUsed && slot.state != Leaving && slot.inParty == Some(p)
  {
    EveryRunIsValid(config, capacity, partyCapacity, start, actions);
    PointAtEachOther(RunFrom(config, capacity, partyCapacity, start, actions).server, p, i);
  }

  /** In every run, distinct used parties hold disjoint references. */
  lemma DisjointInEveryRun(config: Config, capacity: nat, partyCapacity: nat, start: nat, actions: seq<Action>, p: nat, q: nat, r: nat)
    requires SetupOk(config, capacity, partyCapacity)
    requires var parties := RunFrom(config, capacity, partyCapacity, start, actions).server.table.parties;
             && p < |parties| && q < |parties| && p != q && parties[p].isUsed && parties[q].isUsed
             && r in parties[p].refs
    ensures r !in RunFrom(config, capacity, partyCapacity, start, actions).server.table.parties[q].refs
  {
    EveryRunIsValid(config, capacity, partyCapacity, start, actions);
    ReferencesDisjoint(RunFrom(config, capacity, partyCapacity, start, actions).server, p, q, r);
  }

  /** In every run, reading the step of any participant for the head is never corrupt: composing does not fail on it. */
  lemma NoCorruptReadInEveryRun(config: Config, capacity: nat, partyCapacity: nat, start: nat, actions: seq<Action>, i: nat)
    requires SetupOk(config, capacity, partyCapacity)
    requires var slots := RunFrom(config, capacity, partyCapacity, start, actions).server.pool.slots;
             i < |slots| && slots[i].isUsed
    ensures var s := RunFrom(config, capacity, partyCapacity, start, actions).server;
            !ReadExact(s.pool.slots[i].steps, s.Head()).0.Corrupt?
  {
    EveryRunIsValid(config, capacity, partyCapacity, start, actions);
    var s := RunFrom(config, capacity, partyCapacity, start, actions).server;
    assert BufferOk(s.pool.slots[i].steps, s.Head(), s.config.maxStepOctets);
    CorruptExactly(s.pool.slots[i].steps, s.Head());
  }

  lemma PointAtEachOther(s: Server, p: nat, i: nat)
    requires OwnershipInv(s.pool, s.table.parties) && p < |s.table.parties| && i < |s.pool.slots|
    ensures var party, slot := s.table.parties[p], s.pool.slots[i];
            party.isUsed && i in party.refs <==> slot.isUsed && slot.state != Leaving && slot.inParty == Some(p)
  {
    if s.table.parties[p].isUsed {
      assert PartyOwns(s.pool, s.table.parties, p);
    }
    if s.pool.slots[i].isUsed {
      assert ParticipantOwned(s.pool, s.table.parties, i);
    }
  }

  /** In every run, at most half a window of authoritative steps is retained. */
  lemma WindowInEveryRun(config: Config, capacity: nat, partyCapacity: nat, start: nat, actions: seq<Action>)
    requires SetupOk(config, capacity, partyCapacity)
    ensures var s := RunFrom(config, capacity, partyCapacity, start, actions).server;
            s.config == config && |s.auth.entries| <= config.window / 2
  {
    InitialWorldInv(config, capacity, partyCapacity, start);
    EveryRunIsValid(config, capacity, partyCapacity, start, actions);
    ExecFrame(InitialWorld(config, capacity, partyCapacity, start), actions);
  }

  /** In every run, a used party's disconnect counter is at most 181, and below that while the party is normal. */
  lemma QualityInEveryRun(config: Config, capacity: nat, partyCapacity: nat, start: nat, actions: seq<Action>, p: nat)
    requires SetupOk(config, capacity, partyCapacity)
    requires var parties := RunFrom(config, capacity, partyCapacity, start, actions).server.table.parties;
             p < |parties| && parties[p].isUsed
    ensures var party := RunFrom(config, capacity, partyCapacity, start, actions).server.table.parties[p];
            && !party.state.PartyDissolved?
            && party.impeding <= 181
            && (party.state.PartyNormal? ==> party.impeding <= 180)
  {
    EveryRunIsValid(config, capacity, partyCapacity, start, actions);
    assert Plausible(RunFrom(config, capacity, partyCapacity, start, actions).server.table.parties[p]);
  }

  // ---- Lockstep -----------------------------------------------------------------------------------

  lemma StepFrame(w: World, a: Action)
    requires WorldInv(w)
    ensures var w' := Step(w, a);
            && w'.start == w.start && w'.server.config == w.server.config
            && Stream(w.log) <= Stream(w'.log) && RecordStream(w.log) <= RecordStream(w'.log)
  {
    if Enabled(w.server, a) {
      ActionFrame(w.server, a);
      StepStream(w, a);
    }
  }

  /** The stream only ever grows. */
  lemma {:induction false} ExecFrame(w: World, actions: seq<Action>)
    requires WorldInv(w)
    ensures var r := Exec(w, actions);
            && r.start == w.start && r.server.config == w.server.config
            && Stream(w.log) <= Stream(r.log) && RecordStream(w.log) <= RecordStream(r.log)
    decreases |actions|
  {
    if actions != [] {
      var n := |actions| - 1;
      ExecFrame(w, actions[..n]);
      ExecKeepsWorld(w, actions[..n]);
      StepFrame(Exec(w, actions[..n]), actions[n]);
    }
  }

  /** A retained step is the one the stream has for its id, and decodes to the records logged for it. */
  lemma RetainedIsStream(w: World, id: nat)
    requires HistoryInv(w) && LogInv(w) && w.server.auth.Holds(id)
    ensures w.start <= id < w.start + |Stream(w.log)|
    ensures w.server.auth.At(id) == Stream(w.log)[id - w.start]
    ensures id - w.start < |RecordStream(w.log)|
    ensures DecodeStep(w.server.config.codes, w.server.auth.At(id)) == Some(RecordStream(w.log)[id - w.start])
  {
  }

  /** A step that two ranges contain, served at two moments of one stream. */
  lemma SameStepSameOctets(w: World, later: World, r: Range, r': Range, id: nat)
    requires HistoryInv(w) && LogInv(w) && HistoryInv(later) && LogInv(later)
    requires later.start == w.start && later.server.config == w.server.config
    requires Stream(w.log) <= Stream(later.log)
    requires InWindow(w.server.auth, r) && r.start <= id < r.start + r.count
    requires InWindow(later.server.auth, r') && r'.start <= id < r'.start + r'.count
    ensures Served(w.server.auth, r)[id - r.start] == Served(later.server.auth, r')[id - r'.start]
    ensures w.start <= id < w.start + |RecordStream(later.log)|
    ensures DecodeStep(w.server.config.codes, Served(w.server.auth, r)[id - r.start])
            == Some(RecordStream(later.log)[id - w.start])
  {
    RetainedIsStream(w, id);
    RetainedIsStream(later, id);
    assert Served(w.server.auth, r)[id - r.start] == w.server.auth.At(r.start + (id - r.start));
    assert Served(later.server.auth, r')[id - r'.start] == later.server.auth.At(r'.start + (id - r'.start));
  }

  /**
   * Lockstep: whatever happens between two replies, a step that both contain has the same octets in
   * both, and a client that decodes them gets the same records.
   */
  lemma LockstepAgreement(w: World, actions: seq<Action>, waiting: nat, waitingLater: nat, r: Range, r': Range, id: nat)
    requires WorldInv(w)
    requires Continuation(w.server.auth, waiting) == Some(r) && r.start <= id < r.start + r.count
    requires Continuation(Exec(w, actions).server.auth, waitingLater) == Some(r') && r'.start <= id < r'.start + r'.count
    ensures InWindow(w.server.auth, r) && InWindow(Exec(w, actions).server.auth, r')
    ensures Served(w.server.auth, r)[id - r.start] == Served(Exec(w, actions).server.auth, r')[id - r'.start]
    ensures w.start <= id < w.start + |RecordStream(Exec(w, actions).log)|
    ensures DecodeStep(w.server.config.codes, Served(w.server.auth, r)[id - r.start])
            == Some(RecordStream(Exec(w, actions).log)[id - w.start])
  {
    ContinuationInWindow(w.server.auth, waiting);
    ContinuationInWindow(Exec(w, actions).server.auth, waitingLater);
    ExecHistory(w, actions);
    ExecFrame(w, actions);
    SameStepSameOctets(w, Exec(w, actions), r, r', id);
  }

  lemma ExecHistory(w: World, actions: seq<Action>)
    requires WorldInv(w)
    ensures HistoryInv(Exec(w, actions)) && LogInv(Exec(w, actions))
  {
    ExecKeepsWorld(w, actions);
  }

  // ---- Participants migrated in at the very first step --------------------------------------------

  /** A participant whose buffer waits for the last id contributes nothing to a step, and stays that way. */
  lemma DeafContributesNothing(p: Participant, partyId: byte, h: nat)
    requires Deaf(p.steps)
    ensures !RecordOf(p, partyId, h).Provided? && Payload(RecordOf(p, partyId, h)) == []
    ensures Deaf(ReadExact(p.steps, h).1)
    ensures Lead(p, h) == 0
  {
  }

  lemma DeafApply(s: Server, a: Action, i: nat)
    requires ServerInv(s) && Enabled(s, a) && i < |s.pool.slots|
    requires s.pool.slots[i].isUsed && Deaf(s.pool.slots[i].steps) && s.Head() < LAST_STEP_ID
    ensures i < |Apply(s, a).pool.slots|
    ensures Apply(s, a).pool.slots[i].isUsed ==> Deaf(Apply(s, a).pool.slots[i].steps)
  {
    ActionFrame(s, a);
    match a
    case JoinAction(localIndex) => JoinGameExactly(s, localIndex);
    case RejoinAction(_) =>
    case MigrateAction(ids) => CountBounds(s.pool.slots, IsUsed);
    case ReceiveAction(p, sections) => UnspoiltStaysDeaf(s, p, sections, i);
    case DiscardAction =>
    case ComposeAction =>
      ComposeStepMeaning(s);
      DeafContributesNothing(s.pool.slots[i], 0, s.Head());
    case TickAction(p) => TickFrame(s, p);
  }

  lemma DeafStep(w: World, a: Action, i: nat)
    requires WorldInv(w) && i < |w.server.pool.slots|
    requires w.server.pool.slots[i].isUsed && Deaf(w.server.pool.slots[i].steps) && w.server.Head() < LAST_STEP_ID
    ensures i < |Step(w, a).server.pool.slots|
    ensures Step(w, a).server.pool.slots[i].isUsed ==> Deaf(Step(w, a).server.pool.slots[i].steps)
  {
    if Enabled(w.server, a) {
      DeafApply(w.server, a, i);
    }
  }

  /** The participant in slot i is in the game at every moment of the run. */
  ghost predicate InGameThroughout(w: World, actions: seq<Action>, i: nat) {
    forall k :: 0 <= k <= |actions| ==>
      i < |Exec(w, actions[..k]).server.pool.slots| && Exec(w, actions[..k]).server.pool.slots[i].isUsed
  }

  lemma InGameBefore(w: World, actions: seq<Action>, i: nat)
    requires actions != [] && InGameThroughout(w, actions, i)
    ensures InGameThroughout(w, actions[..|actions| - 1], i)
    ensures i < |Exec(w, actions).server.pool.slots| && Exec(w, actions).server.pool.slots[i].isUsed
  {
    var init := actions[..|actions| - 1];
    assert actions[..|actions|] == actions;
    assert forall k :: 0 <= k <= |init| ==> init[..k] == actions[..k];
  }

  /** The head never goes back. */
  lemma HeadGrows(w: World, actions: seq<Action>)
    requires WorldInv(w) && actions != []
    ensures Exec(w, actions[..|actions| - 1]).server.Head() <= Exec(w, actions).server.Head()
  {
    var before := Exec(w, actions[..|actions| - 1]);
    ExecKeepsWorld(w, actions[..|actions| - 1]);
    ExecKeepsWorld(w, actions);
    StepFrame(before, actions[|actions| - 1]);
  }

  /** In any run, such a participant stays deaf for as long as it is in the game and the head is below the last id. */
  lemma {:induction false} DeafForLife(w: World, actions: seq<Action>, i: nat)
    requires WorldInv(w) && InGameThroughout(w, actions, i)
    requires i < |w.server.pool.slots| && Deaf(w.server.pool.slots[i].steps)
    requires Exec(w, actions).server.Head() < LAST_STEP_ID
    ensures i < |Exec(w, actions).server.pool.slots| && Deaf(Exec(w, actions).server.pool.slots[i].steps)
    decreases |actions|
  {
    if actions != [] {
      var init := actions[..|actions| - 1];
      InGameBefore(w, actions, i);
      HeadGrows(w, actions);
      DeafForLife(w, init, i);
      assert init[..|init|] == init;
      ExecKeepsWorld(w, init);
      DeafStep(Exec(w, init), actions[|actions| - 1], i);
    }
  }
}
