/** Composing one authoritative step out of the predicted steps of all participants. */
module Composition {
  import opened Common
  import opened StepBuffers
  import opened States
  import opened Qualities
  import opened Pools
  import opened Invariants
  import opened Codec

  // ---- The meaning of composing, slot by slot -------------------------------------------------

  /** What the step with id h says about a participant. */
  function RecordOf(p: Participant, partyId: byte, h: nat): (r: Record)
    ensures r.id == p.id
  {
    var step := Lookup(p.steps, h);
    var payload := if step.Some? then step.value else [];
    match p.state
    case WaitingForRejoin => Waiting(p.id)
    case JustJoined => Joined(p.id, partyId, payload)
    case Leaving => Left(p.id)
    case Normal => if step.Some? then Provided(p.id, payload) else NotInTime(p.id)
    case Destroyed => if step.Some? then Provided(p.id, payload) else NotInTime(p.id)
  }

  /** A participant after the step: its older steps are gone, joining is over, leaving has happened. */
  function ParticipantAfter(p: Participant, h: nat): Participant {
    var next := p.(steps := ReadExact(p.steps, h).1);
    if !p.isUsed then p
    else match p.state
      case JustJoined => next.(state := Normal)
      case Leaving => Vacated(next)
      case _ => next
  }

  function PartyIdOf(p: Participant, parties: seq<Party>): byte {
    if p.inParty.Some? && p.inParty.value < |parties| then parties[p.inParty.value].id else 0
  }

  /** One record for each of the first k slots that is in use, in ascending order. */
  function RecordsOf(slots: seq<Participant>, parties: seq<Party>, h: nat, k: nat): seq<Record>
    requires k <= |slots|
  {
    if k == 0 then []
    else
      RecordsOf(slots, parties, h, k - 1) +
      if slots[k - 1].isUsed then [RecordOf(slots[k - 1], PartyIdOf(slots[k - 1], parties), h)] else []
  }

  /** The ids among the first k slots that leave with this step. */
  function LeavingIds(slots: seq<Participant>, k: nat): seq<byte>
    requires k <= |slots|
  {
    if k == 0 then []
    else
      LeavingIds(slots, k - 1) +
      if slots[k - 1].isUsed && slots[k - 1].state == Leaving then [slots[k - 1].id] else []
  }

  /** A party's quality after the participants in the first k slots that point at it have been asked. */
  function QualityAfter(q: Quality, slots: seq<Participant>, party: nat, h: nat, k: nat): Quality
    requires k <= |slots|
  {
    if k == 0 then q
    else
      var before := QualityAfter(q, slots, party, h, k - 1);
      var p := slots[k - 1];
      if p.isUsed && p.inParty == Some(party)
      then if Lookup(p.steps, h).Some? then ProvidedUsableStep(before) else AddedForcedSteps(before, 1)
      else before
  }

  // ---- The loop of the source ------------------------------------------------------------------

  /** The loop's state after some slots: the pool and parties so far, and the records written. */
  datatype Progress = Progress(pool: Pool, parties: seq<Party>, records: seq<Record>)

  /** The quality of the party behind a participant, after the attempt to read its step. */
  function Charged(parties: seq<Party>, party: Option<nat>, read: ReadResult): (r: seq<Party>)
    ensures |r| == |parties|
  {
    if party.None? || party.value >= |parties| then parties
    else
      var p := parties[party.value];
      var q := match read
        case Found(_) => ProvidedUsableStep(p.quality)
        case CollectionIsEmpty => AddedForcedSteps(p.quality, 1)
        case Corrupt => p.quality;
      parties[party.value := p.(quality := q)]
  }

  /** The step type after the read alone, then overruled by the participant's state. */
  function RecordFromRead(p: Participant, partyId: byte, read: ReadResult): Record {
    var payload := if read.Found? then read.octets else [];
    match p.state
    case WaitingForRejoin => Waiting(p.id)
    case JustJoined => Joined(p.id, partyId, payload)
    case Leaving => Left(p.id)
    case _ => if read.CollectionIsEmpty? then NotInTime(p.id) else Provided(p.id, payload)
  }

  /** A participant moves on with the step: it has joined, or it is destroyed. */
  function Settled(pool: Pool, i: nat): (r: Pool)
    requires i < |pool.slots|
    ensures |r.slots| == |pool.slots|
  {
    match pool.slots[i].state
    case JustJoined => pool.(slots := pool.slots[i := pool.slots[i].(state := Normal)])
    case Leaving => Destroy(pool, pool.slots[i].id)
    case _ => pool
  }

  /** One iteration. */
  function SlotStep(w: Progress, i: nat, h: nat): (r: Progress)
    requires i < |w.pool.slots|
    ensures |r.pool.slots| == |w.pool.slots| && |r.parties| == |w.parties|
  {
    var p := w.pool.slots[i];
    if !p.isUsed then w
    else
      var (read, steps) := ReadExact(p.steps, h);
      var asked := w.pool.(slots := w.pool.slots[i := p.(steps := steps)]);
      Progress(Settled(asked, i), Charged(w.parties, p.inParty, read),
               w.records + [RecordFromRead(p, PartyIdOf(p, w.parties), read)])
  }

  ghost predicate IdsMatch(slots: seq<Participant>) {
    forall i :: 0 <= i < |slots| ==> slots[i].id == i
  }

  /** The first k iterations. */
  function SlotSteps(pool: Pool, parties: seq<Party>, h: nat, k: nat): (r: Progress)
    requires k <= |pool.slots|
    ensures |r.pool.slots| == |pool.slots| && |r.parties| == |parties|
  {
    if k == 0 then Progress(pool, parties, [])
    else SlotStep(SlotSteps(pool, parties, h, k - 1), k - 1, h)
  }

  /** Buffers that start no later than h never yield a corrupt read. */
  ghost predicate Readable(slots: seq<Participant>, h: nat) {
    forall i :: 0 <= i < |slots| && slots[i].isUsed ==> slots[i].steps.readId <= h || slots[i].steps.entries == []
  }

  /** One iteration writes the record, moves the participant, and charges the party that it should. */
  lemma SlotStepMeaning(w: Progress, i: nat, h: nat)
    requires i < |w.pool.slots| && w.pool.slots[i].id == i
    requires w.pool.slots[i].isUsed
    requires w.pool.slots[i].steps.readId <= h || w.pool.slots[i].steps.entries == []
    ensures var r := SlotStep(w, i, h);
            var p := w.pool.slots[i];
            && r.pool.slots == w.pool.slots[i := ParticipantAfter(p, h)]
            && r.pool.free == w.pool.free + (if p.state == Leaving then [p.id] else [])
            && r.records == w.records + [RecordOf(p, PartyIdOf(p, w.parties), h)]
            && ReadExact(p.steps, h).0.Found? == Lookup(p.steps, h).Some?
            && !ReadExact(p.steps, h).0.Corrupt?
  {
    ReadExactMeaning(w.pool.slots[i].steps, h);
  }

  /** The pool and the records are as if each of the first k slots had been handled on its own. */
  ghost predicate PoolPointwise(r: Progress, pool: Pool, parties: seq<Party>, h: nat, k: nat)
    requires k <= |pool.slots|
  {
    && |r.pool.slots| == |pool.slots|
    && (forall i :: 0 <= i < k ==> r.pool.slots[i] == ParticipantAfter(pool.slots[i], h))
    && (forall i :: k <= i < |pool.slots| ==> r.pool.slots[i] == pool.slots[i])
    && r.pool.free == pool.free + LeavingIds(pool.slots, k)
    && r.records == RecordsOf(pool.slots, parties, h, k)
  }

  /** Parties change in nothing but their quality. */
  ghost predicate PartiesPointwise(after: seq<Party>, slots: seq<Participant>, parties: seq<Party>, h: nat, k: nat)
    requires k <= |slots|
  {
    && |after| == |parties|
    && (forall p :: 0 <= p < |parties| ==>
          after[p] == parties[p].(quality := QualityAfter(parties[p].quality, slots, p, h, k)))
  }

  ghost predicate SamePartyIds(after: seq<Party>, parties: seq<Party>) {
    |after| == |parties| && forall p :: 0 <= p < |parties| ==> after[p].id == parties[p].id
  }

  lemma {:induction false} LoopKeepsPartyIds(pool: Pool, parties: seq<Party>, h: nat, k: nat)
    requires k <= |pool.slots|
    ensures SamePartyIds(SlotSteps(pool, parties, h, k).parties, parties)
  {
    if k > 0 {
      LoopKeepsPartyIds(pool, parties, h, k - 1);
    }
  }

  lemma PoolStepPointwise(w: Progress, r: Progress, pool: Pool, parties: seq<Party>, h: nat, k: nat)
    requires 0 < k <= |pool.slots| && IdsMatch(pool.slots) && Readable(pool.slots, h)
    requires PoolPointwise(w, pool, parties, h, k - 1) && SamePartyIds(w.parties, parties)
    requires r == SlotStep(w, k - 1, h)
    ensures PoolPointwise(r, pool, parties, h, k)
  {
    var p := pool.slots[k - 1];
    if p.isUsed {
      SlotStepMeaning(w, k - 1, h);
      assert PartyIdOf(p, w.parties) == PartyIdOf(p, parties);
      assert r.pool.free == pool.free + LeavingIds(pool.slots, k);
    }
  }

  lemma PartiesStepPointwise(w: Progress, r: Progress, slots: seq<Participant>, parties: seq<Party>, h: nat, k: nat)
    requires 0 < k <= |slots| && IdsMatch(slots) && Readable(slots, h)
    requires |w.pool.slots| == |slots| && w.pool.slots[k - 1] == slots[k - 1]
    requires PartiesPointwise(w.parties, slots, parties, h, k - 1)
    requires r == SlotStep(w, k - 1, h)
    ensures PartiesPointwise(r.parties, slots, parties, h, k)
  {
    var p := slots[k - 1];
    if p.isUsed {
      SlotStepMeaning(w, k - 1, h);
      assert r.parties == Charged(w.parties, p.inParty, ReadExact(p.steps, h).0);
    }
  }

  lemma {:induction false} LoopPoolPointwise(pool: Pool, parties: seq<Party>, h: nat, k: nat)
    requires k <= |pool.slots| && IdsMatch(pool.slots) && Readable(pool.slots, h)
    ensures PoolPointwise(SlotSteps(pool, parties, h, k), pool, parties, h, k)
  {
    if k > 0 {
      LoopPoolPointwise(pool, parties, h, k - 1);
      LoopKeepsPartyIds(pool, parties, h, k - 1);
      PoolStepPointwise(SlotSteps(pool, parties, h, k - 1), SlotSteps(pool, parties, h, k), pool, parties, h, k);
    }
  }

  lemma NextSlotUntouched(pool: Pool, parties: seq<Party>, h: nat, k: nat)
    requires k < |pool.slots| && IdsMatch(pool.slots) && Readable(pool.slots, h)
    ensures SlotSteps(pool, parties, h, k).pool.slots[k] == pool.slots[k]
  {
    LoopPoolPointwise(pool, parties, h, k);
  }

  lemma {:induction false} LoopPartiesPointwise(pool: Pool, parties: seq<Party>, h: nat, k: nat)
    requires k <= |pool.slots| && IdsMatch(pool.slots) && Readable(pool.slots, h)
    ensures PartiesPointwise(SlotSteps(pool, parties, h, k).parties, pool.slots, parties, h, k)
  {
    if k > 0 {
      LoopPartiesPointwise(pool, parties, h, k - 1);
      NextSlotUntouched(pool, parties, h, k - 1);
      PartiesStepPointwise(SlotSteps(pool, parties, h, k - 1), SlotSteps(pool, parties, h, k), pool.slots, parties, h, k);
    }
  }

  /**
   * The loop, which changes states and destroys participants while it iterates, is a map over the
   * slots that were in use on entry.
   */
  lemma LoopIsPointwise(pool: Pool, parties: seq<Party>, h: nat, k: nat)
    requires k <= |pool.slots| && IdsMatch(pool.slots) && Readable(pool.slots, h)
    ensures PoolPointwise(SlotSteps(pool, parties, h, k), pool, parties, h, k)
    ensures PartiesPointwise(SlotSteps(pool, parties, h, k).parties, pool.slots, parties, h, k)
  {
    LoopPoolPointwise(pool, parties, h, k);
    LoopPartiesPointwise(pool, parties, h, k);
  }

  /** Every intermediate pool is valid, so each destroy finds its slot used and room in the free list. */
  lemma {:induction false} LoopKeepsPool(pool: Pool, parties: seq<Party>, h: nat, k: nat)
    requires PoolInv(pool) && k <= |pool.slots|
    ensures PoolInv(SlotSteps(pool, parties, h, k).pool)
  {
    if k > 0 {
      LoopKeepsPool(pool, parties, h, k - 1);
      SlotStepKeepsPool(SlotSteps(pool, parties, h, k - 1), SlotSteps(pool, parties, h, k), k - 1, h);
    }
  }

  lemma SlotStepKeepsPool(w: Progress, r: Progress, i: nat, h: nat)
    requires PoolInv(w.pool) && i < |w.pool.slots| && r == SlotStep(w, i, h)
    ensures PoolInv(r.pool)
  {
    var p := w.pool.slots[i];
    if p.isUsed {
      var asked := w.pool.(slots := w.pool.slots[i := p.(steps := ReadExact(p.steps, h).1)]);
      TouchKeepsPool(w.pool, i, asked.slots[i]);
      if p.state == Leaving {
        DestroyKeepsPool(asked, p.id);
      } else if p.state == JustJoined {
        TouchKeepsPool(asked, i, asked.slots[i].(state := Normal));
      }
    }
  }

  // ---- The records -----------------------------------------------------------------------------

  /** As many records as slots in use on entry: what the count octet says. */
  lemma {:induction false} RecordCount(slots: seq<Participant>, parties: seq<Party>, h: nat, k: nat)
    requires k <= |slots|
    ensures |RecordsOf(slots, parties, h, k)| == Count(slots[..k], IsUsed)
  {
    if k > 0 {
      RecordCount(slots, parties, h, k - 1);
      assert slots[..k][..k - 1] == slots[..k - 1];
    }
  }

  ghost predicate RecordsOk(rs: seq<Record>, maxOctets: nat) {
    AllEncodable(rs) && forall j :: 0 <= j < |rs| ==> |Payload(rs[j])| <= maxOctets
  }

  lemma {:induction false} RecordsEncodable(pool: Pool, parties: seq<Party>, h: nat, maxOctets: nat, k: nat)
    requires PoolInv(pool) && StepsInv(pool, h, maxOctets) && maxOctets < 256
    requires k <= |pool.slots|
    ensures RecordsOk(RecordsOf(pool.slots, parties, h, k), maxOctets)
  {
    if k > 0 {
      RecordsEncodable(pool, parties, h, maxOctets, k - 1);
    }
  }

  /** The records that speak about one id. */
  function RecordsAbout(rs: seq<Record>, id: nat): seq<Record> {
    if rs == [] then []
    else RecordsAbout(rs[..|rs| - 1], id) + if rs[|rs| - 1].id == id then [rs[|rs| - 1]] else []
  }

  lemma RecordsOfSnoc(slots: seq<Participant>, parties: seq<Party>, h: nat, k: nat, id: nat)
    requires 0 < k <= |slots| && IdsMatch(slots)
    ensures RecordsAbout(RecordsOf(slots, parties, h, k), id) ==
            RecordsAbout(RecordsOf(slots, parties, h, k - 1), id) +
            if id == k - 1 && slots[k - 1].isUsed then [RecordOf(slots[k - 1], PartyIdOf(slots[k - 1], parties), h)] else []
  {
    var before := RecordsOf(slots, parties, h, k - 1);
    if slots[k - 1].isUsed {
      AboutSnoc(before, RecordOf(slots[k - 1], PartyIdOf(slots[k - 1], parties), h), id);
    } else {
      assert RecordsOf(slots, parties, h, k) == before;
    }
  }

  lemma {:induction false} NoRecordAbout(slots: seq<Participant>, parties: seq<Party>, h: nat, k: nat, id: nat)
    requires k <= |slots| && IdsMatch(slots) && (id >= k || !slots[id].isUsed)
    ensures RecordsAbout(RecordsOf(slots, parties, h, k), id) == []
  {
    if k > 0 {
      NoRecordAbout(slots, parties, h, k - 1, id);
      RecordsOfSnoc(slots, parties, h, k, id);
    }
  }

  /** Exactly one record speaks about a used slot, and none about the others. */
  lemma {:induction false} OneRecordAbout(slots: seq<Participant>, parties: seq<Party>, h: nat, k: nat, id: nat)
    requires id < k <= |slots| && IdsMatch(slots) && slots[id].isUsed
    ensures RecordsAbout(RecordsOf(slots, parties, h, k), id) == [RecordOf(slots[id], PartyIdOf(slots[id], parties), h)]
  {
    RecordsOfSnoc(slots, parties, h, k, id);
    if id == k - 1 {
      NoRecordAbout(slots, parties, h, k - 1, id);
    } else {
      OneRecordAbout(slots, parties, h, k - 1, id);
    }
  }

  lemma AboutSnoc(rs: seq<Record>, r: Record, id: nat)
    ensures RecordsAbout(rs + [r], id) == RecordsAbout(rs, id) + if r.id == id then [r] else []
  {
    assert (rs + [r])[..|rs|] == rs;
  }
}
