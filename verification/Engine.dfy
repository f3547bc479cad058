/** The server in the form of the source: objects whose methods change the pool, the parties and the steps in place. */
module Engines {
  import opened Common
  import opened CircularBuffers
  import opened StepBuffers
  import opened States
  import opened PartyLives
  import opened Pools
  import opened Invariants
  import opened Codec
  import opened Composition
  import opened Scheduling
  import opened Parties
  import opened Migration
  import opened Receiving
  import opened Windows
  import opened Requests
  import opened ParticipantPools
  import opened LocalPartyTables
  import opened OutStreams

  /** A server that satisfies its invariant. */
  type ValidServer = s: Server | ServerInv(s)
    ghost witness InitialServer(Config(0, 0, 0, StepCodes(0, 1, 2, 3)), 0, 0, 0)

  // ---- Facts the composing loop relies on ---------------------------------------------------------

  /** What handling slot i needs: a valid pool, and if the slot is in use, a party to answer for it and a readable buffer. */
  ghost predicate Ready(pool: Pool, partyCount: nat, i: nat, h: nat, maxOctets: nat) {
    && i < |pool.slots| && PoolInv(pool) && maxOctets < 256
    && (pool.slots[i].isUsed ==>
          && pool.slots[i].inParty.Some? && pool.slots[i].inParty.value < partyCount
          && pool.slots[i].state != Destroyed
          && BufferOk(pool.slots[i].steps, h, maxOctets))
  }

  /** On the way through the slots of a valid server, each slot is ready when its turn comes. */
  lemma SlotReady(s: Server, k: nat)
    requires ServerInv(s) && k < |s.pool.slots|
    ensures var w := SlotSteps(s.pool, s.table.parties, s.Head(), k);
            && Ready(w.pool, |s.table.parties|, k, s.Head(), s.config.maxStepOctets)
            && w.pool.slots[k] == s.pool.slots[k]
            && w.records == RecordsOf(s.pool.slots, s.table.parties, s.Head(), k)
  {
    InvIsReadable(s);
    LoopIsPointwise(s.pool, s.table.parties, s.Head(), k);
    LoopKeepsPool(s.pool, s.table.parties, s.Head(), k);
    if s.pool.slots[k].isUsed {
      assert ParticipantOwned(s.pool, s.table.parties, k);
    }
  }

  lemma {:induction false} CountPrefix<T>(xs: seq<T>, k: nat, p: T -> bool)
    requires k < |xs| && p(xs[k])
    ensures Count(xs[..k], p) < Count(xs, p)
    decreases |xs|
  {
    var n := |xs| - 1;
    if k < n {
      CountPrefix(xs[..n], k, p);
      assert xs[..n][..k] == xs[..k];
    }
  }

  /** An iteration does not look at the records written before it. */
  lemma SlotStepAppends(pool: Pool, parties: seq<Party>, records: seq<Record>, i: nat, h: nat)
    requires i < |pool.slots|
    ensures var one := SlotStep(Progress(pool, parties, []), i, h);
            SlotStep(Progress(pool, parties, records), i, h) == Progress(one.pool, one.parties, records + one.records)
  {
  }

  /** Fewer records so far than slots. */
  lemma FewerRecords(slots: seq<Participant>, parties: seq<Party>, h: nat, k: nat)
    requires k < |slots| && slots[k].isUsed
    ensures |RecordsOf(slots, parties, h, k)| < |slots|
  {
    RecordCount(slots, parties, h, k);
    CountPrefix(slots, k, IsUsed);
    CountBounds(slots, IsUsed);
  }

  /** Each record takes at most its share of the composing buffer. */
  lemma RoomForRecord(rs: seq<Record>, config: Config, capacity: nat)
    requires |rs| < capacity && ConfigOk(config, capacity) && RecordsOk(rs, config.maxStepOctets)
    ensures |EncodeAll(config.codes, rs)| + 1 + 4 + config.maxStepOctets <= COMPOSE_OCTETS
  {
    EncodeAllLength(config.codes, rs, config.maxStepOctets);
    ShareFits(|EncodeAll(config.codes, rs)|, |rs|, capacity, 4 + config.maxStepOctets);
  }

  /** How far the loop over the slots has come. */
  ghost predicate AtSlot(s: Server, i: nat, w: Progress)
    requires i <= |s.pool.slots|
  {
    w == SlotSteps(s.pool, s.table.parties, s.Head(), i)
  }

  lemma AtFirstSlot(s: Server, octets: Octets)
    ensures AtSlot(s, 0, Progress(s.pool, s.table.parties, []))
    ensures octets == octets + EncodeAll(s.config.codes, [])
  {
  }

  lemma AtNextSlot(s: Server, i: nat, w: Progress, next: Progress)
    requires i < |s.pool.slots| && AtSlot(s, i, w) && i < |w.pool.slots| && next == SlotStep(w, i, s.Head())
    ensures AtSlot(s, i + 1, next)
  {
  }

  /** Everything one iteration needs: the slot is ready, and if it is in use there is room for its record. */
  lemma IterationReady(s: Server, i: nat, w: Progress)
    requires ServerInv(s) && i < |s.pool.slots| && AtSlot(s, i, w)
    ensures Ready(w.pool, |s.table.parties|, i, s.Head(), s.config.maxStepOctets)
    ensures w.pool.slots[i].isUsed ==> |EncodeAll(s.config.codes, w.records)| + 1 + 4 + s.config.maxStepOctets <= COMPOSE_OCTETS
  {
    SlotReady(s, i);
    if w.pool.slots[i].isUsed {
      RecordsEncodable(s.pool, s.table.parties, s.Head(), s.config.maxStepOctets, i);
      FewerRecords(s.pool.slots, s.table.parties, s.Head(), i);
      RoomForRecord(RecordsOf(s.pool.slots, s.table.parties, s.Head(), i), s.config, |s.pool.slots|);
    }
  }

  lemma ShareFits(length: nat, n: nat, capacity: nat, unit: nat)
    requires length <= n * unit && n < capacity && 1 + capacity * unit <= COMPOSE_OCTETS
    ensures length + 1 + unit <= COMPOSE_OCTETS
  {
    MultiplyMonotone(n + 1, capacity, unit);
    assert (n + 1) * unit == n * unit + unit;
  }

  /** The loop writes the records of the step, and they are as many as the participants. */
  lemma LoopRecords(s: Server)
    requires ServerInv(s)
    ensures SlotSteps(s.pool, s.table.parties, s.Head(), |s.pool.slots|).records == StepRecords(s)
    ensures |StepRecords(s)| == s.pool.count
  {
    StepRecordsOk(s);
    ComposeStepMeaning(s);
  }

  /** Composing a step from s leads to this pool and party table, and to these octets. */
  ghost predicate ComposedInto(s: Server, pool: Pool, table: PartyTable, octets: Octets) {
    && ComposeStep(s).pool == pool && ComposeStep(s).table == table
    && octets == EncodeStep(s.config.codes, StepRecords(s))
  }

  /** The composed step, from where the loop over the slots ends. */
  lemma ComposedByParts(s: ValidServer, pool: Pool, table: PartyTable, records: seq<Record>, octets: Octets)
    requires AtSlot(s, |s.pool.slots|, Progress(pool, table.parties, records)) && table.count == s.table.count
    requires octets == [Octet(s.pool.count)] + EncodeAll(s.config.codes, records)
    ensures ComposedInto(s, pool, table, octets)
  {
    LoopRecords(s);
  }

  lemma AppendedIsStep(s: Server, pool: Pool, table: PartyTable, octets: Octets)
    requires ComposedInto(s, pool, table, octets)
    ensures ComposeStep(s) == Server(s.config, pool, table, Appended(s.auth, octets))
  {
  }

  /** Composing from s ends in a state after some more steps. */
  ghost predicate EndsAfter(s: Server, final: Server, todo: nat) { ComposeAll(s) == (final, todo) }

  lemma EndOf(s: Server) returns (final: Server, todo: nat)
    ensures EndsAfter(s, final, todo)
  {
    final, todo := ComposeAll(s).0, ComposeAll(s).1;
  }

  lemma EndsAtRest(s: Server, final: Server, todo: nat)
    requires EndsAfter(s, final, todo) && !ShouldAdvance(s)
    ensures final == s && todo == 0
  {
  }

  /** The state after one more step, and what is left to do from there. */
  lemma Composed(s: ValidServer, final: Server, todo: nat) returns (t: ValidServer, left: nat)
    requires ShouldAdvance(s) && EndsAfter(s, final, todo)
    ensures t == ComposeStep(s)
    ensures left + 1 == todo && EndsAfter(t, final, left)
  {
    ComposeKeepsInv(s);
    t, left := ComposeStep(s), ComposeAll(ComposeStep(s)).1;
    assert ComposeAll(s) == (ComposeAll(t).0, ComposeAll(t).1 + 1);
  }

  ghost predicate LegalRefs(party: Party, slotCount: nat) {
    forall k :: 0 <= k < |party.refs| ==> party.refs[k] < slotCount
  }

  /** What ticking a used party relies on. */
  lemma UsedPartyFacts(s: Server, p: nat)
    requires ServerInv(s) && p < |s.table.parties| && s.table.parties[p].isUsed
    ensures s.table.count > 0
    ensures LegalRefs(s.table.parties[p], |s.pool.slots|)
  {
    CountBounds(s.table.parties, IsPartyUsed);
    assert PartyOwns(s.pool, s.table.parties, p);
  }

  /** The step type in force when the record is written. */
  function FinalType(state: ParticipantState, typeOfRead: StepType): StepType {
    match state
    case WaitingForRejoin => WaitingType
    case JustJoined => JoinedType
    case Leaving => LeftType
    case _ => typeOfRead
  }

  function TypeOfRead(read: ReadResult): StepType {
    if read.CollectionIsEmpty? then NotInTimeType else NormalType
  }

  lemma TypedRecord(p: Participant, partyId: byte, read: ReadResult)
    ensures RecordOfType(FinalType(p.state, TypeOfRead(read)), p.id, partyId, if read.Found? then read.octets else [])
            == RecordFromRead(p, partyId, read)
  {
  }

  lemma UpdateTwice<T>(xs: seq<T>, i: nat, x: T, y: T)
    requires i < |xs|
    ensures xs[i := x][i := y] == xs[i := y]
  {
  }

  /** Dissolving a party, from the outcomes of its parts. */
  lemma DissolvedByParts(s: Server, p: nat, pool: Pool, table: PartyTable)
    requires p < |s.table.parties| && s.table.count != 0
    requires pool == s.pool.(slots := WithStates(s.pool.slots, s.table.parties[p].refs, Leaving))
    requires var party := s.table.parties[p].(state := PartyDissolved);
             table == PartyTable(s.table.parties[p := party][p := Reset(party)], s.table.count - 1)
    ensures Dissolve(s, p) == s.(pool := pool, table := table)
  {
    var party := s.table.parties[p].(state := PartyDissolved);
    UpdateTwice(s.table.parties, p, party, Reset(party));
  }

  /** Creating a party, from the outcomes of its parts. */
  lemma CreateByParts(s: Server, localIndex: nat, p: nat, joined: Result<byte>, pool: Pool)
    requires FirstUnused(s.table.parties, 0) == Some(p)
    requires (joined, pool) == Pools.Join(s.pool, p, s.Head(), localIndex)
    ensures joined.Err? ==> pool == s.pool
    ensures Create(s, localIndex) ==
            var party := Numbered(s.table.parties[p], p);
            if joined.Err? then (Err(joined.code), s.(table := s.table.(parties := s.table.parties[p := party])))
            else (Ok(p), s.(pool := pool, table := PartyTable(s.table.parties[p := Added(party, joined.value)], s.table.count + 1)))
  {
  }

  class Engine {
    const config: Config
    const participants: Participants
    const localParties: LocalParties
    var authoritativeSteps: StepBuffer

    ghost predicate Valid()
      reads this, participants, participants.freeList
    {
      participants.Valid()
    }

    ghost function Repr(): set<object>
    {
      {this} + participants.Repr() + localParties.Repr()
    }

    ghost function Model(): Server
      requires Valid()
      reads this, participants, participants.slots, participants.freeList, participants.freeList.data
      reads localParties, localParties.parties
    {
      Server(config, participants.Model(), localParties.Model(), authoritativeSteps)
    }

    constructor (config: Config, maxParticipants: nat, maxParties: nat, stepId: nat)
      requires maxParticipants < SIZE && maxParties <= 256
      ensures Valid() && fresh(Repr())
      ensures Model() == InitialServer(config, maxParticipants, maxParties, stepId)
    {
      this.config := config;
      participants := new Participants(maxParticipants);
      localParties := new LocalParties(maxParties);
      authoritativeSteps := Restarted(stepId);
    }

    // ---- Composing --------------------------------------------------------------------------------

    /** Reads the step of one participant, and lets its party answer for it. */
    method AskSlot(i: nat, lookingFor: nat) returns (read: ReadResult)
      requires Valid()
      requires i < participants.slots.Length
      requires participants.slots[i].inParty.Some? && participants.slots[i].inParty.value < localParties.parties.Length
      requires BufferOk(participants.slots[i].steps, lookingFor, config.maxStepOctets)
      modifies participants.slots, localParties.parties
      ensures Valid() && !read.Corrupt?
      ensures var p := old(participants.slots[i]);
              && read == ReadExact(p.steps, lookingFor).0
              && participants.Model() == old(participants.Model()).(slots :=
                   old(participants.slots[..])[i := p.(steps := ReadExact(p.steps, lookingFor).1)])
              && localParties.parties[..] == Charged(old(localParties.parties[..]), p.inParty, read)
              && (read.Found? ==> |read.octets| <= config.maxStepOctets)
    {
      var participant := participants.slots[i];
      CorruptExactly(participant.steps, lookingFor);
      var (result, steps) := ReadExact(participant.steps, lookingFor);
      read := result;
      participants.slots[i] := participant.(steps := steps);
      localParties.Charge(participant.inParty.value, read);
    }

    /** Moves a participant on, and lets its state overrule the step type. */
    method SettleSlot(i: nat, typeOfRead: StepType) returns (stepType: StepType)
      requires Valid() && PoolInv(participants.Model())
      requires i < participants.slots.Length && participants.slots[i].isUsed && participants.slots[i].state != Destroyed
      modifies participants.Repr()
      ensures Valid()
      ensures participants.Model() == Settled(old(participants.Model()), i)
      ensures stepType == FinalType(old(participants.slots[i]).state, typeOfRead)
    {
      var participant := participants.slots[i];
      stepType := typeOfRead;
      match participant.state {
        case WaitingForRejoin =>
          stepType := WaitingType;
        case JustJoined =>
          stepType := JoinedType;
          participants.slots[i] := participant.(state := Normal);
        case Leaving =>
          participants.Destroy(participant.id);
          stepType := LeftType;
        case Normal =>
      }
    }

    /** One iteration of the composing loop, for a slot in use. */
    method ComposeSlot(i: nat, lookingFor: nat, out: OutStream) returns (ok: bool)
      requires Valid() && Ready(participants.Model(), localParties.parties.Length, i, lookingFor, config.maxStepOctets)
      requires participants.slots[i].isUsed
      requires |out.octets| + 4 + config.maxStepOctets <= out.capacity
      modifies participants.Repr(), localParties.parties, out
      ensures Valid() && ok
      ensures var w := SlotStep(Progress(old(participants.Model()), old(localParties.parties[..]), []), i, lookingFor);
              && participants.Model() == w.pool
              && localParties.parties[..] == w.parties
              && |w.records| == 1
              && out.octets == old(out.octets) + Encode(config.codes, w.records[0])
    {
      var participant := participants.slots[i];
      var party := participant.inParty.value;
      TouchKeepsPool(participants.Model(), i, participant.(steps := ReadExact(participant.steps, lookingFor).1));
      var read := AskSlot(i, lookingFor);
      var payload := if read.Found? then read.octets else [];
      var stepType := SettleSlot(i, TypeOfRead(read));
      TypedRecord(participant, localParties.parties[party].id, read);
      ok := WriteRecord(out, config.codes, stepType, participant.id, localParties.parties[party].id, payload);
    }

    /** One iteration; the octets written so far are a prefix and the records before this one. */
    method ComposeNext(i: nat, lookingFor: nat, out: OutStream, ghost prefix: Octets, ghost records: seq<Record>)
      returns (ghost more: seq<Record>)
      requires Valid() && Ready(participants.Model(), localParties.parties.Length, i, lookingFor, config.maxStepOctets)
      requires participants.slots[i].isUsed ==> |out.octets| + 4 + config.maxStepOctets <= out.capacity
      requires out.octets == prefix + EncodeAll(config.codes, records)
      modifies participants.Repr(), localParties.parties, out
      ensures Valid()
      ensures Progress(participants.Model(), localParties.parties[..], more)
              == SlotStep(Progress(old(participants.Model()), old(localParties.parties[..]), records), i, lookingFor)
      ensures out.octets == prefix + EncodeAll(config.codes, more)
    {
      more := records;
      if participants.slots[i].isUsed {
        ghost var pool, parties := participants.Model(), localParties.parties[..];
        SlotStepAppends(pool, parties, records, i, lookingFor);
        ghost var record := SlotStep(Progress(pool, parties, []), i, lookingFor).records[0];
        StreamAppend(config.codes, prefix, records, record);
        var ok := ComposeSlot(i, lookingFor, out);
        more := records + [record];
      }
    }

    /** Composing a step from s has come to slot i, and these records have been written. */
    ghost predicate ComposingAt(s: Server, i: nat, out: OutStream, records: seq<Record>)
      reads this, participants, participants.slots, participants.freeList, participants.freeList.data, localParties.parties, out
    {
      && Valid() && i <= |s.pool.slots| == participants.slots.Length && |s.table.parties| == localParties.parties.Length
      && AtSlot(s, i, Progress(participants.Model(), localParties.parties[..], records))
      && out.octets == [Octet(s.pool.count)] + EncodeAll(config.codes, records)
    }

    /** One round of the loop over all slots. */
    method ComposeAt(i: nat, lookingFor: nat, out: OutStream, ghost s: ValidServer, ghost records: seq<Record>)
      returns (ghost more: seq<Record>)
      requires ComposingAt(s, i, out, records) && i < |s.pool.slots|
      requires config == s.config && lookingFor == s.Head() && out.capacity == COMPOSE_OCTETS
      modifies participants.Repr(), localParties.parties, out
      ensures ComposingAt(s, i + 1, out, more)
    {
      ghost var w := Progress(participants.Model(), localParties.parties[..], records);
      IterationReady(s, i, w);
      more := ComposeNext(i, lookingFor, out, [Octet(s.pool.count)], records);
      AtNextSlot(s, i, w, Progress(participants.Model(), localParties.parties[..], more));
    }

    /** The loop over all slots, for a server that was in state s. */
    method ComposeSlots(out: OutStream, ghost s: ValidServer, ghost none: seq<Record>) returns (ghost records: seq<Record>)
      requires ComposingAt(s, 0, out, none)
      requires config == s.config && authoritativeSteps.WriteId() == s.Head() && out.capacity == COMPOSE_OCTETS
      modifies participants.Repr(), localParties.parties, out
      ensures ComposingAt(s, |s.pool.slots|, out, records)
    {
      var lookingFor := authoritativeSteps.WriteId();
      records := none;
      for i := 0 to participants.slots.Length
        invariant ComposingAt(s, i, out, records)
      {
        records := ComposeAt(i, lookingFor, out, s, records);
      }
    }

    /** Composes one step: the count, then one record per slot in use. */
    method ComposeOne(ghost s: ValidServer) returns (octets: Octets)
      requires Valid() && Model() == s
      modifies participants.Repr(), localParties.parties
      ensures Valid() && ComposedInto(s, participants.Model(), localParties.Model(), octets)
    {
      var out := new OutStream(COMPOSE_OCTETS);
      var _ := out.WriteUInt8(Octet(participants.participantCount));
      AtFirstSlot(s, out.octets);
      ghost var records := ComposeSlots(out, s, []);
      octets := out.octets;
      ComposedByParts(s, participants.Model(), localParties.Model(), records, octets);
    }

    /** How far the participant furthest ahead is, and how many participants cannot contribute. */
    method MaxPredictedStepContribution(lookingFor: nat) returns (most: nat, cannot: nat)
      ensures most == MaxContribution(participants.slots[..], lookingFor, participants.slots.Length)
      ensures cannot == CannotContribute(participants.slots[..], lookingFor, participants.slots.Length)
    {
      most, cannot := 0, 0;
      for i := 0 to participants.slots.Length
        invariant most == MaxContribution(participants.slots[..], lookingFor, i)
        invariant cannot == CannotContribute(participants.slots[..], lookingFor, i)
      {
        var participant := participants.slots[i];
        if participant.isUsed {
          var canAdvance := 0;
          if |participant.steps.entries| > 0 && participant.steps.WriteId() > lookingFor {
            canAdvance := participant.steps.WriteId() - lookingFor + 1;
          } else {
            cannot := cannot + 1;
          }
          if canAdvance > most {
            most := canAdvance;
          }
        }
      }
    }

    method ShouldAdvanceAuthoritative(ghost s: Server) returns (r: bool)
      requires Valid() && Model() == s
      ensures Valid() && Model() == s
      ensures r == ShouldAdvance(s)
    {
      var most, cannot := MaxPredictedStepContribution(authoritativeSteps.WriteId());
      r := ((most > 3 && cannot == 0) || most > 5) && |authoritativeSteps.entries| < config.window / 2;
    }

    /** A step is composed and appended. */
    method ComposeAndAppend(ghost s: ValidServer)
      requires Valid() && Model() == s
      modifies Repr()
      ensures Valid() && Model() == ComposeStep(s)
    {
      var octets := ComposeOne(s);
      AppendedIsStep(s, participants.Model(), localParties.Model(), octets);
      authoritativeSteps := Appended(authoritativeSteps, octets);
    }

    /** One round of the composing loop, after which one step fewer is left to do. */
    method Advance(ghost s: ValidServer, ghost final: Server, ghost todo: nat) returns (ghost t: ValidServer, ghost left: nat)
      requires Valid() && Model() == s && ShouldAdvance(s) && EndsAfter(s, final, todo)
      modifies Repr()
      ensures Valid() && Model() == t
      ensures left + 1 == todo && EndsAfter(t, final, left)
    {
      t, left := Composed(s, final, todo);
      ComposeAndAppend(s);
    }

    /** The composing loop, from state s to where it ends. */
    method ComposeWhileDue(ghost start: ValidServer, ghost final: Server, ghost total: nat) returns (written: nat)
      requires Valid() && Model() == start && EndsAfter(start, final, total)
      modifies Repr()
      ensures Valid() && Model() == final && written == total
    {
      written := 0;
      ghost var s, todo := start, total;
      var advance := ShouldAdvanceAuthoritative(s);
      while advance
        invariant Valid() && Model() == s
        invariant advance == ShouldAdvance(s)
        invariant EndsAfter(s, final, todo) && written + todo == total
        decreases todo
      {
        s, todo := Advance(s, final, todo);
        written := written + 1;
        advance := ShouldAdvanceAuthoritative(s);
      }
      EndsAtRest(s, final, todo);
    }

    /** Composes as many steps as the decision and the window allow. */
    method ComposeAuthoritativeSteps() returns (written: nat)
      requires Valid() && ServerInv(Model())
      modifies Repr()
      ensures Valid() && EndsAfter(old(Model()), Model(), written)
    {
      ghost var s := Model();
      ghost var final, total := EndOf(s);
      written := ComposeWhileDue(s, final, total);
    }

    // ---- Joining ----------------------------------------------------------------------------------

    method CreateParty(localIndex: nat) returns (r: Result<nat>)
      requires Valid() && PoolInv(participants.Model())
      modifies participants.Repr(), localParties.Repr()
      ensures Valid() && (r, Model()) == Create(old(Model()), localIndex)
    {
      ghost var s := Model();
      var place := localParties.FindFree();
      if place.None? {
        assert localParties.Model() == s.table;
        return Err(ERR_OUT_OF_PARTICIPANT_MEMORY);
      }
      var p := place.value;
      assert participants.Model() == s.pool;
      var joined := participants.Join(p, authoritativeSteps.WriteId(), localIndex);
      CreateByParts(s, localIndex, p, joined, participants.Model());
      if joined.Err? {
        return Err(joined.code);
      }
      UpdateTwice(s.table.parties, p, Numbered(s.table.parties[p], p), Added(Numbered(s.table.parties[p], p), joined.value));
      localParties.AddParty(p, joined.value);
      return Ok(p);
    }

    /** A join request that needs a new party. */
    method Join(localIndex: nat) returns (r: Result<nat>)
      requires Valid() && PoolInv(participants.Model())
      modifies participants.Repr(), localParties.Repr()
      ensures Valid() && (r, Model()) == JoinGame(old(Model()), localIndex)
    {
      r := CreateParty(localIndex);
      if r.Ok? {
        localParties.parties[r.value] := localParties.parties[r.value].(maxTimer := config.rejoinLimit);
      }
    }

    /** A join request with the secret of an earlier party. */
    method Rejoin(p: nat) returns (ok: bool)
      requires Valid() && p < localParties.parties.Length
      modifies localParties.parties
      ensures Valid() && Model() == RejoinGame(old(Model()), p) && ok == CanRejoin(old(Model()), p)
    {
      ok := |localParties.parties[p].refs| == 1;
      if ok {
        var party := ReInit(localParties.parties[p]);
        localParties.parties[p] := party.(maxTimer := config.rejoinLimit);
      }
    }

    // ---- Ticking ----------------------------------------------------------------------------------

    /** Dissolves a party whose references are legal. */
    method DestroyParty(p: nat)
      requires Valid() && p < localParties.parties.Length && localParties.parties[p].isUsed && localParties.partiesCount != 0
      requires LegalRefs(localParties.parties[p], participants.slots.Length)
      modifies participants.slots, localParties.Repr()
      ensures Valid() && Model() == Dissolve(old(Model()), p)
    {
      ghost var s := Model();
      var party := localParties.parties[p];
      localParties.parties[p] := party.(state := PartyDissolved);
      participants.SetStates(party.refs, Leaving);
      localParties.Remove(p);
      DissolvedByParts(s, p, participants.Model(), localParties.Model());
    }

    /** Sets a party, and its participants, to waiting for a rejoin. */
    method SetToWaitingForRejoin(p: nat)
      requires Valid() && p < localParties.parties.Length
      requires LegalRefs(localParties.parties[p], participants.slots.Length)
      modifies participants.slots, localParties.parties
      ensures Valid() && participants.Model() == old(participants.Model()).(slots :=
                WithStates(old(participants.slots[..]), old(localParties.parties[p]).refs, WaitingForRejoin))
      ensures localParties.parties[..] ==
              old(localParties.parties[..])[p := old(localParties.parties[p]).(state := PartyWaiting, timer := 0)]
    {
      var party := localParties.parties[p];
      localParties.parties[p] := party.(state := PartyWaiting, timer := 0);
      participants.SetStates(party.refs, WaitingForRejoin);
    }

    method TickNormalParty(p: nat)
      requires Valid() && p < localParties.parties.Length && localParties.parties[p].isUsed
      requires localParties.parties[p].state == PartyNormal && LegalRefs(localParties.parties[p], participants.slots.Length)
      modifies participants.slots, localParties.Repr()
      ensures Valid() && Model() == TickParty(old(Model()), p)
    {
      ghost var s := Model();
      var keep := localParties.DelayedTick(p);
      if !keep {
        SetToWaitingForRejoin(p);
      }
      assert localParties.parties[..] == s.table.parties[p := TickOne(s.table.parties[p]).0];
    }

    method TickWaitingParty(p: nat)
      requires Valid() && p < localParties.parties.Length && localParties.parties[p].isUsed && localParties.partiesCount != 0
      requires localParties.parties[p].state == PartyWaiting && LegalRefs(localParties.parties[p], participants.slots.Length)
      modifies participants.slots, localParties.Repr()
      ensures Valid() && Model() == TickParty(old(Model()), p)
    {
      ghost var s := Model();
      var keep := localParties.TickWaiting(p);
      assert Model() == s.(table := s.table.(parties := s.table.parties[p := TickOne(s.table.parties[p]).0]));
      if !keep {
        DestroyParty(p);
      }
    }

    /** One tick of a party that is in use. */
    method TickUsedParty(p: nat)
      requires Valid() && p < localParties.parties.Length && localParties.parties[p].isUsed && localParties.partiesCount != 0
      requires LegalRefs(localParties.parties[p], participants.slots.Length)
      modifies participants.slots, localParties.Repr()
      ensures Valid() && Model() == TickParty(old(Model()), p)
    {
      match localParties.parties[p].state {
        case PartyNormal => TickNormalParty(p);
        case PartyWaiting => TickWaitingParty(p);
        case PartyDissolved => assert localParties.parties[..][p := localParties.parties[p]] == localParties.parties[..];
      }
    }

    /** One round of the ticking loop. */
    method TickNext(p: nat, ghost s: ValidServer) returns (ghost t: ValidServer)
      requires Valid() && Model() == s && p < localParties.parties.Length
      modifies participants.slots, localParties.Repr()
      ensures Valid() && Model() == t && t == TickParty(s, p)
    {
      TickKeepsInv(s, p);
      t := TickParty(s, p);
      if localParties.parties[p].isUsed {
        UsedPartyFacts(s, p);
        TickUsedParty(p);
      }
    }

    /** One tick of all parties. */
    method TickAll()
      requires Valid() && ServerInv(Model())
      modifies participants.slots, localParties.Repr()
      ensures Valid() && Model() == TickParties(old(Model()), localParties.parties.Length)
    {
      ghost var init: ValidServer := Model();
      ghost var s := init;
      for p := 0 to localParties.parties.Length
        invariant Valid() && Model() == s
        invariant s == TickParties(init, p)
      {
        s := TickNext(p, s);
      }
    }

    // ---- Host migration ---------------------------------------------------------------------------

    method PrepareOne(id: byte) returns (r: Result<nat>)
      requires Valid()
      modifies participants, participants.slots, localParties.Repr()
      ensures Valid() && (r, Model()) == PrepareParty(old(Model()), id)
    {
      ghost var s := Model();
      var place := localParties.FindFree();
      if place.None? {
        assert localParties.Model() == s.table;
        return Err(ERR_OUT_OF_PARTICIPANT_MEMORY);
      }
      var p := place.value;
      assert participants.Model() == s.pool;
      var start := MigrationStart(authoritativeSteps.WriteId());
      var prepared := participants.Prepare(id, p, start);
      if prepared.Err? {
        return Err(prepared.code);
      }
      localParties.AddParty(p, id);
      localParties.parties[p] := localParties.parties[p].(state := PartyWaiting, timer := 0);
      assert localParties.parties[..] == s.table.parties[p := Awaited(Numbered(s.table.parties[p], p), id)];
      return Ok(p);
    }

    method ResetParties()
      requires Valid()
      modifies localParties.parties
      ensures Valid() && Model() == Migration.ResetParties(old(Model()))
    {
      localParties.ResetAll();
      assert localParties.parties[..] == Migration.ResetParties(old(Model())).table.parties;
    }

    /** Prepares the listed ids, one party each, up to the first error. */
    method PrepareListed(ids: seq<byte>, ghost s: Server) returns (r: Result<nat>)
      requires Valid() && Model() == s
      modifies participants, participants.slots, localParties.Repr()
      ensures Valid() && (r, Model()) == PrepareAll(s, ids, |ids|)
    {
      r := Ok(0);
      for k := 0 to |ids|
        invariant Valid() && r.Ok? && (r, Model()) == PrepareAll(s, ids, k)
      {
        r := PrepareOne(ids[k]);
        if r.Err? {
          PrepareStops(s, ids, k + 1, |ids|, (r, Model()));
          return;
        }
      }
    }

    /** Sets up parties and participants that are expected to rejoin on this new host. */
    method HostMigration(ids: seq<byte>) returns (r: Result<nat>)
      requires Valid()
      modifies participants.Repr(), localParties.Repr()
      ensures Valid() && (r, Model()) == Migrate(old(Model()), ids)
    {
      ResetParties();
      r := PrepareListed(ids, Model());
      if r.Ok? {
        participants.RebuildFreeList(ids);
        r := Ok(0);
      }
    }

    // ---- Step requests ----------------------------------------------------------------------------

    method ReceiveOne(p: nat, section: Section) returns (r: Result<nat>)
      requires Valid() && p < localParties.parties.Length
      modifies participants.slots, localParties.parties
      ensures Valid() && (r, Model()) == ReceiveSection(old(Model()), p, section)
    {
      ghost var s := Model();
      var party := localParties.parties[p];
      if section.index >= |party.refs| || party.refs[section.index] >= participants.slots.Length {
        return Err(ERR_ILLEGAL_PARTICIPANT_INDEX);
      }
      if section.first.Err? {
        return Err(section.first.code);
      }
      var ref := party.refs[section.index];
      var added := participants.AddSteps(ref, section.first.value, section.steps, config.maxStepOctets);
      assert localParties.parties[..] == s.table.parties;
      if added.Err? {
        return added;
      }
      localParties.parties[p] := Noted(party, added.value, participants.slots[ref].steps);
      return Ok(0);
    }

    /** Reads the sections of a datagram from one party, up to the first error. */
    method DeserializePredictedSteps(p: nat, sections: seq<Section>, ghost s: Server) returns (r: Result<nat>)
      requires Valid() && Model() == s && p < localParties.parties.Length
      modifies participants.slots, localParties.parties
      ensures Valid() && (r, Model()) == ReceiveSections(s, p, sections, |sections|)
    {
      r := Ok(0);
      for k := 0 to |sections|
        invariant Valid() && r.Ok? && (r, Model()) == ReceiveSections(s, p, sections, k)
      {
        r := ReceiveOne(p, sections[k]);
        if r.Err? {
          ReceiveStops(s, p, sections, k + 1, |sections|, (r, Model()));
          return;
        }
      }
    }

    /** Takes in the predicted steps of a datagram. */
    method HandleIncomingSteps(d: Datagram) returns (r: Result<nat>)
      requires Valid() && Assignable(Model(), d)
      modifies participants.slots, localParties.parties
      ensures Valid() && (r, Model()) == Incoming(old(Model()), d)
    {
      if d.party.None? {
        return Err(ERR_SERIALIZE);
      }
      var p := d.party.value;
      if localParties.parties[p].state == PartyDissolved {
        return Err(ERR_DISCONNECTED);
      }
      if d.header.Err? {
        return Err(d.header.code);
      }
      r := DeserializePredictedSteps(p, d.sections, Model());
    }

    method DiscardIfGettingFull()
      requires Valid()
      modifies this
      ensures Valid() && Model() == Discard(old(Model()))
    {
      var maxCapacity := config.window / 3;
      if |authoritativeSteps.entries| > maxCapacity {
        authoritativeSteps := Discarded(authoritativeSteps, |authoritativeSteps.entries| - maxCapacity);
      }
    }

    /** A step request: make room, take in the predicted steps, compose. */
    method HandleStepRequest(d: Datagram, frozen: bool) returns (r: Result<nat>)
      requires Valid() && ServerInv(Model()) && Assignable(Model(), d)
      requires ReachesCompose(Model(), d, frozen) ==> Harmless(Discard(Model()), d)
      modifies Repr()
      ensures Valid() && (r, Model()) == StepRequest(old(Model()), d, frozen)
    {
      IncomingKeepsInvExactly(Model(), d);
      DiscardIfGettingFull();
      r := HandleIncomingSteps(d);
      if r.Err? {
        return;
      }
      r := Ok(0);
      if !frozen {
        var advanced := ComposeAuthoritativeSteps();
        r := Ok(advanced);
      }
    }

    /**
     * The ranges of the reply: those the receive mask asks for, as the library reports them,
     * and the one that continues from the step the client waits for.
     */
    method SendStepRanges(connection: TransportConnection, waiting: nat, pending: Result<seq<Range>>)
      returns (r: Result<seq<Range>>)
      modifies connection
      ensures waiting < authoritativeSteps.readId ==> r == Ok([]) && connection.noRangesToSendCounter == old(connection.noRangesToSendCounter)
      ensures waiting >= authoritativeSteps.readId && pending.Err? ==>
                r == pending && connection.noRangesToSendCounter == old(connection.noRangesToSendCounter)
      ensures waiting >= authoritativeSteps.readId && pending.Ok? ==>
                var next := Continuation(authoritativeSteps, waiting);
                && r == Ok(pending.value + if next.Some? then [next.value] else [])
                && connection.noRangesToSendCounter == if r.value == [] then old(connection.noRangesToSendCounter) + 1 else 0
    {
      if waiting < authoritativeSteps.readId {
        return Ok([]);
      }
      if pending.Err? {
        return pending;
      }
      var ranges := pending.value;
      if authoritativeSteps.WriteId() > waiting {
        var available := authoritativeSteps.WriteId() - waiting;
        if available > MAX_REDUNDANCY {
          available := MAX_REDUNDANCY;
        }
        ranges := ranges + [Range(waiting, available)];
      }
      assert pending.value + [] == pending.value;
      connection.noRangesToSendCounter := if ranges == [] then connection.noRangesToSendCounter + 1 else 0;
      return Ok(ranges);
    }
  }

  class TransportConnection {
    var noRangesToSendCounter: nat
  }
}
