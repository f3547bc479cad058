/** What every step of the server keeps true of its state. */
module Invariants {
  import opened Common
  import opened StepBuffers
  import opened States
  import opened PartyLives
  import opened Pools

  /** The last 32-bit step id, where `0 - 1` wraps to. */
  const LAST_STEP_ID: nat := 0xFFFF_FFFF

  /** A buffer that waits for the last 32-bit id, and passes over every other step. */
  predicate Deaf(b: StepBuffer) { b == Restarted(LAST_STEP_ID) }

  /** A predicted-step buffer starts at or before the authoritative head, and holds short steps. */
  predicate BufferOk(b: StepBuffer, head: nat, maxOctets: nat) {
    && (b.readId <= head || Deaf(b))
    && (forall k :: 0 <= k < |b.entries| ==> |b.entries[k]| <= maxOctets)
  }

  ghost predicate StepsInv(pool: Pool, head: nat, maxOctets: nat) {
    forall i :: 0 <= i < |pool.slots| && pool.slots[i].isUsed ==> BufferOk(pool.slots[i].steps, head, maxOctets)
  }

  /** A used party holds one reference, to a live participant that points back at it. */
  ghost predicate PartyOwns(pool: Pool, parties: seq<Party>, p: nat)
    requires p < |parties|
  {
    && |parties[p].refs| == 1
    && var r := parties[p].refs[0];
       && r < |pool.slots|
       && pool.slots[r].isUsed
       && pool.slots[r].state != Leaving
       && pool.slots[r].inParty == Some(p)
  }

  /** A used participant points at a party slot; unless it is leaving, that party is used and holds it. */
  ghost predicate ParticipantOwned(pool: Pool, parties: seq<Party>, i: nat)
    requires i < |pool.slots|
  {
    && pool.slots[i].state != Destroyed
    && pool.slots[i].inParty.Some?
    && pool.slots[i].inParty.value < |parties|
    && (pool.slots[i].state != Leaving ==>
          parties[pool.slots[i].inParty.value].isUsed && parties[pool.slots[i].inParty.value].refs == [i])
  }

  ghost predicate OwnershipInv(pool: Pool, parties: seq<Party>) {
    && (forall p :: 0 <= p < |parties| ==> parties[p].id == p)
    && (forall p :: 0 <= p < |parties| && parties[p].isUsed ==> PartyOwns(pool, parties, p))
    && (forall p :: 0 <= p < |parties| && !parties[p].isUsed ==> parties[p].refs == [])
    && (forall i :: 0 <= i < |pool.slots| && pool.slots[i].isUsed ==> ParticipantOwned(pool, parties, i))
  }

  /** Nothing has yet been held against a party. */
  predicate Spotless(p: Party) {
    p.state == PartyNormal && p.quality.forcedInRow == 0 && p.impeding == 0
  }

  /** A participant that has just joined sits in a spotless party. */
  ghost predicate NewcomersSpotless(slots: seq<Participant>, parties: seq<Party>) {
    forall i :: 0 <= i < |slots| && slots[i].isUsed && slots[i].state == JustJoined ==>
      slots[i].inParty.Some? && slots[i].inParty.value < |parties| && Spotless(parties[slots[i].inParty.value])
  }

  /** Used parties are where ticks can take them, and are counted. */
  ghost predicate PartyInv(pool: Pool, table: PartyTable) {
    && table.count == Count(table.parties, IsPartyUsed)
    && (forall p :: 0 <= p < |table.parties| && table.parties[p].isUsed ==> Plausible(table.parties[p]))
    && NewcomersSpotless(pool.slots, table.parties)
  }

  ghost predicate ServerInv(s: Server) {
    && ConfigOk(s.config, |s.pool.slots|)
    && |s.table.parties| <= 256
    && PoolInv(s.pool)
    && OwnershipInv(s.pool, s.table.parties)
    && StepsInv(s.pool, s.Head(), s.config.maxStepOctets)
    && PartyInv(s.pool, s.table)
    && |s.auth.entries| <= s.config.window / 2
  }

  /** Distinct used parties hold disjoint references. */
  lemma ReferencesDisjoint(s: Server, p: nat, q: nat, r: nat)
    requires ServerInv(s)
    requires p < |s.table.parties| && q < |s.table.parties| && p != q
    requires s.table.parties[p].isUsed && s.table.parties[q].isUsed
    requires r in s.table.parties[p].refs
    ensures r !in s.table.parties[q].refs
  {
    var pool, parties := s.pool, s.table.parties;
    assert PartyOwns(pool, parties, p) && PartyOwns(pool, parties, q);
  }

  /** The state after set-up and a new game starting at a step id. */
  function InitialServer(config: Config, capacity: nat, partyCapacity: nat, start: nat): Server
    requires capacity < 64 && partyCapacity <= 256
  {
    Server(config, InitialPool(capacity),
           PartyTable(seq(partyCapacity, i requires 0 <= i < partyCapacity => InitialParty(i)), 0),
           Restarted(start))
  }

  lemma InitialServerInv(config: Config, capacity: nat, partyCapacity: nat, start: nat)
    requires capacity < 64 && partyCapacity <= 256 && ConfigOk(config, capacity)
    ensures ServerInv(InitialServer(config, capacity, partyCapacity, start))
  {
    var s := InitialServer(config, capacity, partyCapacity, start);
    InitialPoolInv(capacity);
    CountBounds(s.table.parties, IsPartyUsed);
  }
}
