/** Parties joining, returning, being ticked and being dissolved. */
module Parties {
  import opened Common
  import opened StepBuffers
  import opened States
  import opened Qualities
  import opened PartyLives
  import opened Pools
  import opened Invariants

  /** The first party slot from k on that is not in use. */
  function FirstUnused(parties: seq<Party>, k: nat): (r: Option<nat>)
    requires k <= |parties|
    ensures r.Some? ==> k <= r.value < |parties| && !parties[r.value].isUsed
    ensures r.Some? ==> forall p :: k <= p < r.value ==> parties[p].isUsed
    ensures r.None? ==> forall p :: k <= p < |parties| ==> parties[p].isUsed
    decreases |parties| - k
  {
    if k == |parties| then None
    else if !parties[k].isUsed then Some(k)
    else FirstUnused(parties, k + 1)
  }

  /** The id octet that a free place is given when it is found. */
  function Numbered(party: Party, p: nat): Party { party.(id := (p % 256) as byte) }

  /** A party slot taken into use for one participant. */
  function Added(party: Party, ref: nat): Party {
    ReInit(party).(isUsed := true, refs := [ref])
  }

  /** nimbleServerLocalPartiesCreate. */
  function Create(s: Server, localIndex: nat): (Result<nat>, Server) {
    match FirstUnused(s.table.parties, 0)
    case None => (Err(ERR_OUT_OF_PARTICIPANT_MEMORY), s)
    case Some(p) =>
      var party := Numbered(s.table.parties[p], p);
      var (joined, pool) := Join(s.pool, p, s.Head(), localIndex);
      match joined
      case Err(code) => (Err(code), s.(table := s.table.(parties := s.table.parties[p := party])))
      case Ok(id) =>
        (Ok(p), s.(pool := pool,
                   table := PartyTable(s.table.parties[p := Added(party, id)], s.table.count + 1)))
  }

  /** A join request that needs a new party. */
  function JoinGame(s: Server, localIndex: nat): (Result<nat>, Server) {
    var (r, after) := Create(s, localIndex);
    match r
    case Err(_) => (r, after)
    case Ok(p) =>
      if p < |after.table.parties|
      then (r, after.(table := after.table.(parties :=
              after.table.parties[p := after.table.parties[p].(maxTimer := s.config.rejoinLimit)])))
      else (r, after)
  }

  /** Where a join ends up. */
  ghost predicate JoinedAt(s: Server, p: nat, after: Server) {
    && p < |s.table.parties| && !s.table.parties[p].isUsed
    && s.pool.free != [] && s.pool.free[0] < |s.pool.slots| && !s.pool.slots[s.pool.free[0]].isUsed
    && var id := s.pool.free[0];
       && after.config == s.config && after.auth == s.auth
       && after.pool.free == s.pool.free[1..]
       && after.pool.count == s.pool.count + 1
       && (exists localIndex ::
             after.pool.slots == s.pool.slots[id := Occupied(id, p, s.Head(), localIndex, JustJoined)])
       && after.table == PartyTable(
            s.table.parties[p := Added(s.table.parties[p], id).(maxTimer := s.config.rejoinLimit)], s.table.count + 1)
  }

  /**
   * A join fails exactly when there is no party slot or no participant slot, and then the server is
   * unchanged; otherwise one id moves from the front of the free list into a new party.
   */
  lemma JoinGameExactly(s: Server, localIndex: nat)
    requires ServerInv(s)
    ensures var (r, after) := JoinGame(s, localIndex);
            && (r.Err? <==> (forall p :: 0 <= p < |s.table.parties| ==> s.table.parties[p].isUsed)
                            || (forall i :: 0 <= i < |s.pool.slots| ==> s.pool.slots[i].isUsed))
            && (r.Err? ==> after == s)
            && (r.Ok? ==> JoinedAt(s, r.value, after))
            && PoolInv(after.pool)
  {
    match FirstUnused(s.table.parties, 0)
    case None =>
    case Some(p) =>
      var party := s.table.parties[p];
      assert Numbered(party, p) == party;
      assert s.table.parties[p := party] == s.table.parties;
      JoinKeepsPool(s.pool, p, s.Head(), localIndex);
      var (r, after) := JoinGame(s, localIndex);
      if r.Ok? {
        var id := s.pool.free[0];
        assert after.pool.slots == s.pool.slots[id := Occupied(id, p, s.Head(), localIndex, JustJoined)];
      }
  }

  /**
   * What a join answers and sets up. Without a party slot it answers -43, without a participant slot -54.
   * Otherwise the first unused party slot holds the id from the front of the free list, both start afresh,
   * and the participant's first step is the next one to be composed.
   */
  lemma JoinSetsUp(s: Server, localIndex: nat)
    requires ServerInv(s)
    ensures var (r, after) := JoinGame(s, localIndex);
            if EveryPartyUsed(s) then r == Err(-43) && after == s
            else if EverySlotTaken(s) then r == Err(-54) && after == s
            else
              && r.Ok? && r.value < |s.table.parties|
              && !s.table.parties[r.value].isUsed && (forall q :: 0 <= q < r.value ==> s.table.parties[q].isUsed)
              && |s.pool.free| > 0 && s.pool.free[0] < |s.pool.slots|
              && after == WithNewcomer(s, r.value, s.pool.free[0], localIndex)
  {
    JoinGameExactly(s, localIndex);
    if !EveryPartyUsed(s) {
      if EverySlotTaken(s) {
        CountBounds(s.pool.slots, IsUsed);
      } else {
        JoinTakes(s, localIndex);
      }
    }
  }

  ghost predicate EveryPartyUsed(s: Server) { forall p :: 0 <= p < |s.table.parties| ==> s.table.parties[p].isUsed }

  ghost predicate EverySlotTaken(s: Server) { forall i :: 0 <= i < |s.pool.slots| ==> s.pool.slots[i].isUsed }

  /** The server with a participant in its first step, in a party of its own. */
  function WithNewcomer(s: Server, p: nat, id: byte, localIndex: nat): Server
    requires p < |s.table.parties| && id < |s.pool.slots| && s.pool.free != []
  {
    var was := s.table.parties[p];
    s.(pool := Pool(s.pool.slots[id := Participant(id, true, JustJoined, Some(p), localIndex, StepBuffer(s.Head(), []))],
                    s.pool.count + 1, s.pool.free[1..]),
       table := PartyTable(s.table.parties[p := Party(was.id, true, PartyNormal, [id], 0, s.config.rejoinLimit,
                                                      Quality(0, 0, 0, false), 0, was.highestReceived, was.stepsInBuffer, 0)],
                           s.table.count + 1))
  }

  lemma JoinTakes(s: Server, localIndex: nat)
    requires ServerInv(s) && JoinGame(s, localIndex).0.Ok?
    ensures var (r, after) := JoinGame(s, localIndex);
            && r.value < |s.table.parties| && FirstUnused(s.table.parties, 0) == Some(r.value)
            && |s.pool.free| > 0 && s.pool.free[0] < |s.pool.slots|
            && after == WithNewcomer(s, r.value, s.pool.free[0], localIndex)
  {
    var p := FirstUnused(s.table.parties, 0).value;
    JoinKeepsPool(s.pool, p, s.Head(), localIndex);
    assert Numbered(s.table.parties[p], p) == s.table.parties[p];
    assert JoinGame(s, localIndex).1.table.parties == WithNewcomer(s, p, s.pool.free[0], localIndex).table.parties;
  }

  lemma JoinKeepsOwnership(s: Server, p: nat, after: Server)
    requires ServerInv(s) && JoinedAt(s, p, after)
    ensures OwnershipInv(after.pool, after.table.parties)
  {
    var id := s.pool.free[0];
    forall q | 0 <= q < |after.table.parties| && after.table.parties[q].isUsed
      ensures PartyOwns(after.pool, after.table.parties, q)
    {
      if q != p {
        assert PartyOwns(s.pool, s.table.parties, q);
      }
    }
    forall i | 0 <= i < |after.pool.slots| && after.pool.slots[i].isUsed
      ensures ParticipantOwned(after.pool, after.table.parties, i)
    {
      if i != id {
        assert ParticipantOwned(s.pool, s.table.parties, i);
      }
    }
  }

  lemma JoinKeepsParties(s: Server, p: nat, after: Server)
    requires ServerInv(s) && JoinedAt(s, p, after)
    ensures PartyInv(after.pool, after.table)
  {
    var id := s.pool.free[0];
    CountUpdate(s.table.parties, p, after.table.parties[p], IsPartyUsed);
    forall i | 0 <= i < |after.pool.slots| && after.pool.slots[i].isUsed && after.pool.slots[i].state == JustJoined
      ensures after.pool.slots[i].inParty.Some? && after.pool.slots[i].inParty.value < |after.table.parties|
              && Spotless(after.table.parties[after.pool.slots[i].inParty.value])
    {
      if i != id {
        assert ParticipantOwned(s.pool, s.table.parties, i);
      }
    }
  }

  lemma JoinKeepsInv(s: Server, localIndex: nat)
    requires ServerInv(s)
    ensures ServerInv(JoinGame(s, localIndex).1)
  {
    JoinGameExactly(s, localIndex);
    var (r, after) := JoinGame(s, localIndex);
    if r.Ok? {
      JoinKeepsOwnership(s, r.value, after);
      JoinKeepsParties(s, r.value, after);
    }
  }

  // ---- What ownership does not see ----------------------------------------------------------------

  /** A party may change in anything but its number, its use and its references. */
  lemma ReplaceKeepsOwnership(pool: Pool, parties: seq<Party>, p: nat, next: Party)
    requires OwnershipInv(pool, parties) && p < |parties|
    requires next.id == parties[p].id && next.isUsed == parties[p].isUsed && next.refs == parties[p].refs
    ensures OwnershipInv(pool, parties[p := next])
  {
    var after := parties[p := next];
    forall q | 0 <= q < |after| && after[q].isUsed
      ensures PartyOwns(pool, after, q)
    {
      assert PartyOwns(pool, parties, q);
    }
    forall i | 0 <= i < |pool.slots| && pool.slots[i].isUsed
      ensures ParticipantOwned(pool, after, i)
    {
      assert ParticipantOwned(pool, parties, i);
    }
  }

  lemma WaitingKeepsOwnership(pool: Pool, parties: seq<Party>, p: nat)
    requires OwnershipInv(pool, parties) && p < |parties| && parties[p].isUsed
    ensures OwnershipInv(pool.(slots := WithStates(pool.slots, parties[p].refs, WaitingForRejoin)), parties)
  {
    var after := pool.(slots := WithStates(pool.slots, parties[p].refs, WaitingForRejoin));
    forall q | 0 <= q < |parties| && parties[q].isUsed
      ensures PartyOwns(after, parties, q)
    {
      assert PartyOwns(pool, parties, q);
    }
    forall i | 0 <= i < |after.slots| && after.slots[i].isUsed
      ensures ParticipantOwned(after, parties, i)
    {
      assert ParticipantOwned(pool, parties, i);
      assert PartyOwns(pool, parties, p);
    }
  }

  /** A party slot is given up while its participant, now leaving, still points at it. */
  lemma DissolveKeepsOwnership(pool: Pool, parties: seq<Party>, p: nat, gone: Party)
    requires OwnershipInv(pool, parties) && p < |parties| && parties[p].isUsed
    requires gone.id == parties[p].id && !gone.isUsed && gone.refs == []
    ensures OwnershipInv(pool.(slots := WithStates(pool.slots, parties[p].refs, Leaving)), parties[p := gone])
  {
    var after := pool.(slots := WithStates(pool.slots, parties[p].refs, Leaving));
    assert PartyOwns(pool, parties, p);
    forall q | 0 <= q < |parties| && q != p && parties[q].isUsed
      ensures PartyOwns(after, parties[p := gone], q)
    {
      assert PartyOwns(pool, parties, q);
    }
    forall i | 0 <= i < |after.slots| && after.slots[i].isUsed
      ensures ParticipantOwned(after, parties[p := gone], i)
    {
      assert ParticipantOwned(pool, parties, i);
    }
  }

  // ---- Rejoining ----------------------------------------------------------------------------------

  /** A rejoin is accepted by a party that holds as many participants as the request names: one. */
  predicate CanRejoin(s: Server, p: nat) {
    p < |s.table.parties| && |s.table.parties[p].refs| == 1
  }

  function RejoinGame(s: Server, p: nat): Server {
    if CanRejoin(s, p)
    then s.(table := s.table.(parties := s.table.parties[p := Rejoined(s.table.parties[p], s.config.rejoinLimit)]))
    else s
  }

  lemma RejoinKeepsInv(s: Server, p: nat)
    requires ServerInv(s)
    ensures ServerInv(RejoinGame(s, p))
  {
    if CanRejoin(s, p) {
      var after := RejoinGame(s, p);
      CountUpdate(s.table.parties, p, after.table.parties[p], IsPartyUsed);
      ReplaceKeepsOwnership(s.pool, s.table.parties, p, after.table.parties[p]);
    }
  }

  /**
   * A rejoin is accepted exactly by a party in use. It is then normal again, with nothing held against it
   * and the configured limit on waiting; its number, its use and its references are as before, and nothing
   * else in the server has changed, its participant included.
   */
  lemma RejoinExactly(s: Server, p: nat)
    requires ServerInv(s)
    ensures CanRejoin(s, p) <==> p < |s.table.parties| && s.table.parties[p].isUsed
    ensures RejoinGame(s, p) ==
            if !(p < |s.table.parties| && s.table.parties[p].isUsed) then s
            else
              var was := s.table.parties[p];
              s.(table := s.table.(parties := s.table.parties[p :=
                Party(was.id, was.isUsed, PartyNormal, was.refs, 0, s.config.rejoinLimit,
                      Quality(0, 0, 0, false), 0, was.highestReceived, was.stepsInBuffer, 0)]))
  {
    if p < |s.table.parties| && s.table.parties[p].isUsed {
      assert PartyOwns(s.pool, s.table.parties, p);
    }
  }

  // ---- Ticking and dissolving ---------------------------------------------------------------------

  /** Dissolves a party: its participants are marked as leaving, its slot is free at once. */
  function Dissolve(s: Server, p: nat): Server
    requires p < |s.table.parties|
  {
    var party := s.table.parties[p];
    s.(pool := s.pool.(slots := WithStates(s.pool.slots, party.refs, Leaving)),
       table := PartyTable(s.table.parties[p := Reset(party.(state := PartyDissolved))],
                           if s.table.count > 0 then s.table.count - 1 else 0))
  }

  /** One tick of the party in slot p. */
  function TickParty(s: Server, p: nat): Server
    requires p < |s.table.parties|
  {
    var party := s.table.parties[p];
    if !party.isUsed then s
    else
      var (next, outcome) := TickOne(party);
      var ticked := s.(table := s.table.(parties := s.table.parties[p := next]));
      match outcome
      case Keep => ticked
      case StartWaiting => ticked.(pool := s.pool.(slots := WithStates(s.pool.slots, party.refs, WaitingForRejoin)))
      case GiveUp => Dissolve(ticked, p)
  }

  /** One tick of all parties, in order: the first k of them. */
  function TickParties(s: Server, k: nat): (r: Server)
    requires k <= |s.table.parties|
    ensures |r.table.parties| == |s.table.parties|
  {
    if k == 0 then s else TickParty(TickParties(s, k - 1), k - 1)
  }

  /** The party in slot p becomes another one, and its participant takes on a state. */
  function Moved(s: Server, p: nat, next: Party, i: nat, state: ParticipantState): Server
    requires p < |s.table.parties| && i < |s.pool.slots|
  {
    s.(pool := s.pool.(slots := s.pool.slots[i := s.pool.slots[i].(state := state)]),
       table := s.table.(parties := s.table.parties[p := next]))
  }

  /** The server after party p has been given up: its slot is free, and its participant i is leaving. */
  function GivenUp(s: Server, p: nat, i: nat): Server
    requires p < |s.table.parties| && i < |s.pool.slots| && s.table.count > 0
  {
    var was := s.table.parties[p];
    var gone := Party(was.id, false, PartyDissolved, [], 0, was.maxTimer, Quality(0, 0, 0, false), 0,
                      was.highestReceived, was.stepsInBuffer, 0);
    s.(pool := s.pool.(slots := s.pool.slots[i := s.pool.slots[i].(state := Leaving)]),
       table := PartyTable(s.table.parties[p := gone], s.table.count - 1))
  }

  /**
   * What one tick does to a used party and its one participant, and to nothing else. A normal party's
   * counter goes up while it is failing and down otherwise; the tick that takes it past 180 makes party and
   * participant wait. A waiting party's timer goes up; the tick that reaches the limit frees the party slot,
   * and the participant is leaving.
   */
  predicate TickedTo(s: Server, p: nat, i: nat, after: Server)
    requires p < |s.table.parties| && i < |s.pool.slots| && s.table.count > 0
  {
    var party, kept := s.table.parties[p], s.pool.slots[i].state;
    match party.state
    case PartyNormal =>
      if !IsFailing(party.quality) then after == Moved(s, p, party.(impeding := Max(0, party.impeding - 1)), i, kept)
      else if party.impeding < 180 then after == Moved(s, p, party.(impeding := party.impeding + 1), i, kept)
      else after == Moved(s, p, party.(impeding := party.impeding + 1, state := PartyWaiting, timer := 0), i, WaitingForRejoin)
    case PartyWaiting =>
      if party.timer + 1 < party.maxTimer then after == Moved(s, p, party.(timer := party.timer + 1), i, kept)
      else after == GivenUp(s, p, i)
    case PartyDissolved => false
  }

  lemma TickExactly(s: Server, p: nat)
    requires ServerInv(s) && p < |s.table.parties| && s.table.parties[p].isUsed
    ensures |s.table.parties[p].refs| == 1 && s.table.parties[p].refs[0] < |s.pool.slots| && s.table.count > 0
    ensures TickedTo(s, p, s.table.parties[p].refs[0], TickParty(s, p))
  {
    assert PartyOwns(s.pool, s.table.parties, p);
    CountBounds(s.table.parties, IsPartyUsed);
    TickedToByParts(s, p, s.table.parties[p].refs[0]);
  }

  lemma TickedToByParts(s: Server, p: nat, i: nat)
    requires p < |s.table.parties| && s.table.parties[p].isUsed && s.table.parties[p].refs == [i]
    requires i < |s.pool.slots| && s.table.count > 0 && Plausible(s.table.parties[p])
    ensures TickedTo(s, p, i, TickParty(s, p))
  {
    TickByParts(s, p, i);
    match s.table.parties[p].state
    case PartyNormal => NormalTick(s.table.parties[p]);
    case PartyWaiting => WaitingTick(s.table.parties[p]);
  }

  lemma NormalTick(party: Party)
    requires party.state.PartyNormal?
    ensures TickOne(party) ==
            if !IsFailing(party.quality) then (party.(impeding := Max(0, party.impeding - 1)), Keep)
            else if party.impeding < 180 then (party.(impeding := party.impeding + 1), Keep)
            else (party.(impeding := party.impeding + 1, state := PartyWaiting, timer := 0), StartWaiting)
  {
  }

  lemma WaitingTick(party: Party)
    requires party.state.PartyWaiting?
    ensures TickOne(party) == (party.(timer := party.timer + 1), if party.timer + 1 < party.maxTimer then Keep else GiveUp)
  {
  }

  lemma TickByParts(s: Server, p: nat, i: nat)
    requires p < |s.table.parties| && s.table.parties[p].isUsed && s.table.parties[p].refs == [i]
    requires i < |s.pool.slots| && s.table.count > 0
    ensures var (next, outcome) := TickOne(s.table.parties[p]);
            TickParty(s, p) == match outcome
              case Keep => Moved(s, p, next, i, s.pool.slots[i].state)
              case StartWaiting => Moved(s, p, next, i, WaitingForRejoin)
              case GiveUp => GivenUp(s, p, i)
  {
    var slots := s.pool.slots;
    assert slots[i := slots[i].(state := slots[i].state)] == slots;
    TickedTable(s, p);
    OneReference(slots, s.table.parties[p].refs, i, WaitingForRejoin);
    OneReference(slots, s.table.parties[p].refs, i, Leaving);
  }

  lemma OneReference(slots: seq<Participant>, refs: seq<nat>, i: nat, state: ParticipantState)
    requires refs == [i] && i < |slots|
    ensures WithStates(slots, refs, state) == slots[i := slots[i].(state := state)]
  {
  }

  lemma TickedTable(s: Server, p: nat)
    requires p < |s.table.parties| && s.table.parties[p].isUsed
    ensures var party := s.table.parties[p];
            var (next, outcome) := TickOne(party);
            TickParty(s, p).table ==
            if outcome.GiveUp? then PartyTable(s.table.parties[p := Reset(next.(state := PartyDissolved))],
                                               if s.table.count > 0 then s.table.count - 1 else 0)
            else s.table.(parties := s.table.parties[p := next])
  {
    var next := TickOne(s.table.parties[p]).0;
    var gone := Reset(next.(state := PartyDissolved));
    assert s.table.parties[p := next][p := gone] == s.table.parties[p := gone];
  }

  /** A party that moves to waiting or is dissolved has no participant that has just joined. */
  lemma OutcomeSparesNewcomers(s: Server, p: nat)
    requires ServerInv(s)
    requires p < |s.table.parties| && s.table.parties[p].isUsed
    requires !TickOne(s.table.parties[p]).1.Keep?
    ensures PartyOwns(s.pool, s.table.parties, p)
    ensures s.pool.slots[s.table.parties[p].refs[0]].state != JustJoined
  {
  }

  lemma TickKeepsOwnership(s: Server, p: nat)
    requires ServerInv(s) && p < |s.table.parties|
    ensures OwnershipInv(TickParty(s, p).pool, TickParty(s, p).table.parties)
  {
    var party := s.table.parties[p];
    if party.isUsed {
      var (next, outcome) := TickOne(party);
      var ticked := s.table.parties[p := next];
      ReplaceKeepsOwnership(s.pool, s.table.parties, p, next);
      match outcome
      case Keep =>
      case StartWaiting => WaitingKeepsOwnership(s.pool, ticked, p);
      case GiveUp =>
        var gone := Reset(next.(state := PartyDissolved));
        DissolveKeepsOwnership(s.pool, ticked, p, gone);
        assert ticked[p := gone] == s.table.parties[p := gone];
    }
  }

  lemma TickKeepsNewcomers(s: Server, p: nat)
    requires ServerInv(s) && p < |s.table.parties|
    ensures NewcomersSpotless(TickParty(s, p).pool.slots, TickParty(s, p).table.parties)
  {
    var after := TickParty(s, p);
    if s.table.parties[p].isUsed {
      TickFrame(s, p);
      TickTable(s, p);
      forall i | 0 <= i < |after.pool.slots| && after.pool.slots[i].isUsed && after.pool.slots[i].state == JustJoined
        ensures after.pool.slots[i].inParty.Some? && after.pool.slots[i].inParty.value < |after.table.parties|
                && Spotless(after.table.parties[after.pool.slots[i].inParty.value])
      {
        assert after.pool.slots[i] == s.pool.slots[i];
        if s.pool.slots[i].inParty == Some(p) {
          SpotlessTick(s.table.parties[p]);
        }
      }
    }
  }

  /** A tick holds nothing against a spotless party. */
  lemma SpotlessTick(party: Party)
    requires Spotless(party)
    ensures TickOne(party).1.Keep? && Spotless(TickOne(party).0)
  {
  }

  /** Only slot p of the table changes; it stays in use unless the party is given up. */
  lemma TickTable(s: Server, p: nat)
    requires ServerInv(s) && p < |s.table.parties| && s.table.parties[p].isUsed
    ensures var after := TickParty(s, p).table;
            && after.parties == s.table.parties[p := after.parties[p]]
            && (after.parties[p].isUsed ==> Plausible(after.parties[p]) && after.count == s.table.count)
            && (!after.parties[p].isUsed ==> after.count == if s.table.count > 0 then s.table.count - 1 else 0)
  {
    TickSpendsOne(s.table.parties[p]);
  }

  lemma TickKeepsParties(s: Server, p: nat)
    requires ServerInv(s) && p < |s.table.parties|
    ensures PartyInv(TickParty(s, p).pool, TickParty(s, p).table)
  {
    TickKeepsNewcomers(s, p);
    if s.table.parties[p].isUsed {
      TickTable(s, p);
      TableKeepsCount(s.table, TickParty(s, p).table, p);
    }
  }

  lemma TableKeepsCount(table: PartyTable, after: PartyTable, p: nat)
    requires p < |table.parties| && table.parties[p].isUsed && table.count == Count(table.parties, IsPartyUsed)
    requires |after.parties| == |table.parties| && after.parties == table.parties[p := after.parties[p]]
    requires after.count == if after.parties[p].isUsed || table.count == 0 then table.count else table.count - 1
    ensures after.count == Count(after.parties, IsPartyUsed)
  {
    CountUpdate(table.parties, p, after.parties[p], IsPartyUsed);
    CountBounds(table.parties, IsPartyUsed);
  }

  lemma TickKeepsInv(s: Server, p: nat)
    requires ServerInv(s) && p < |s.table.parties|
    ensures ServerInv(TickParty(s, p))
  {
    TickKeepsPool(s, p);
    TickKeepsOwnership(s, p);
    TickKeepsParties(s, p);
  }

  lemma TickKeepsPool(s: Server, p: nat)
    requires ServerInv(s) && p < |s.table.parties|
    ensures var after := TickParty(s, p);
            && PoolInv(after.pool)
            && StepsInv(after.pool, after.Head(), after.config.maxStepOctets)
            && |after.pool.slots| == |s.pool.slots| && |after.table.parties| == |s.table.parties|
            && after.config == s.config && after.auth == s.auth
  {
    TickFrame(s, p);
    RetouchKeepsPool(s.pool, TickParty(s, p).pool.slots);
  }

  /** A tick changes nothing in the pool but states, and those only from normal or waiting to waiting or leaving. */
  lemma TickFrame(s: Server, p: nat)
    requires ServerInv(s) && p < |s.table.parties|
    ensures var after := TickParty(s, p);
            && after.pool.free == s.pool.free && after.pool.count == s.pool.count
            && |after.pool.slots| == |s.pool.slots|
            && (forall i :: 0 <= i < |s.pool.slots| ==>
                  after.pool.slots[i] == s.pool.slots[i].(state := after.pool.slots[i].state))
            && (forall i :: 0 <= i < |s.pool.slots| && s.pool.slots[i].isUsed && after.pool.slots[i] != s.pool.slots[i] ==>
                  s.pool.slots[i].state in {Normal, WaitingForRejoin}
                  && after.pool.slots[i].state in {WaitingForRejoin, Leaving})
            && after.auth == s.auth && after.config == s.config
  {
    var party := s.table.parties[p];
    TickedPool(s, p);
    if party.isUsed && !TickOne(party).1.Keep? {
      OutcomeSparesNewcomers(s, p);
      var r := party.refs[0];
      assert ParticipantOwned(s.pool, s.table.parties, r);
      OneStateChanges(s.pool.slots, party.refs, r, if TickOne(party).1.GiveUp? then Leaving else WaitingForRejoin);
    }
  }

  lemma TickedPool(s: Server, p: nat)
    requires p < |s.table.parties|
    ensures var after, party := TickParty(s, p), s.table.parties[p];
            && after.auth == s.auth && after.config == s.config
            && after.pool ==
               if !party.isUsed || TickOne(party).1.Keep? then s.pool
               else s.pool.(slots := WithStates(s.pool.slots, party.refs, if TickOne(party).1.GiveUp? then Leaving else WaitingForRejoin))
  {
  }

  lemma OneStateChanges(slots: seq<Participant>, refs: seq<nat>, r: nat, state: ParticipantState)
    requires refs == [r] && r < |slots| && slots[r].state in {Normal, WaitingForRejoin}
    ensures var after := WithStates(slots, refs, state);
            && (forall i :: 0 <= i < |slots| ==> after[i] == slots[i].(state := after[i].state))
            && (forall i :: 0 <= i < |slots| && after[i] != slots[i] ==>
                  slots[i].state in {Normal, WaitingForRejoin} && after[i].state == state)
  {
  }
}
