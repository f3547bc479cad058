/** What a client reads in a composed step, in terms of the state it was composed from. */
module Announcements {
  import opened Common
  import opened StepBuffers
  import opened States
  import opened Invariants
  import opened Codec
  import opened Composition
  import opened Scheduling

  /** The octets of the step that composing from s appends. */
  function NewStep(s: Server): Octets {
    var entries := ComposeStep(s).auth.entries;
    entries[|entries| - 1]
  }

  /** The records that a decoder gets out of the new step. */
  ghost predicate Says(s: Server, rs: seq<Record>) { DecodeStep(s.config.codes, NewStep(s)) == Some(rs) }

  /** r is in the list, and nothing else in the list is about its id. */
  ghost predicate OnlyWord(rs: seq<Record>, r: Record) {
    exists k :: 0 <= k < |rs| && rs[k] == r && SilentElsewhere(rs, k)
  }

  ghost predicate SpeaksOf(rs: seq<Record>, i: nat) { exists a :: 0 <= a < |rs| && rs[a].id == i }

  predicate SilentElsewhere(rs: seq<Record>, k: nat)
    requires k < |rs|
  {
    forall j :: 0 <= j < |rs| && j != k ==> rs[j].id != rs[k].id
  }

  // ---- The list as a whole ------------------------------------------------------------------------

  lemma NewStepReads(s: Server, rs: seq<Record>)
    requires ServerInv(s) && Says(s, rs)
    ensures rs == StepRecords(s)
  {
    ComposedStepDecodes(s);
  }

  lemma {:induction false} RecordsAscend(slots: seq<Participant>, parties: seq<Party>, h: nat, k: nat)
    requires k <= |slots| && IdsMatch(slots)
    ensures Ascends(RecordsOf(slots, parties, h, k), k)
  {
    if k > 0 {
      RecordsAscend(slots, parties, h, k - 1);
    }
  }

  /** In ascending order of their ids, all of them below k. */
  ghost predicate Ascends(rs: seq<Record>, k: nat) {
    && (forall a, b :: 0 <= a < b < |rs| ==> rs[a].id < rs[b].id)
    && (forall a :: 0 <= a < |rs| ==> rs[a].id < k)
  }

  /** The record of slot i in the list, wherever it is. */
  lemma {:induction false} RecordAt(slots: seq<Participant>, parties: seq<Party>, h: nat, k: nat, i: nat) returns (a: nat)
    requires i < k <= |slots| && slots[i].isUsed
    ensures a < |RecordsOf(slots, parties, h, k)|
    ensures RecordsOf(slots, parties, h, k)[a] == RecordOf(slots[i], PartyIdOf(slots[i], parties), h)
  {
    if i == k - 1 {
      a := |RecordsOf(slots, parties, h, k - 1)|;
    } else {
      a := RecordAt(slots, parties, h, k - 1, i);
    }
  }

  lemma {:induction false} RecordFrom(slots: seq<Participant>, parties: seq<Party>, h: nat, k: nat, a: nat) returns (i: nat)
    requires k <= |slots| && a < |RecordsOf(slots, parties, h, k)|
    ensures i < k && slots[i].isUsed
    ensures RecordsOf(slots, parties, h, k)[a] == RecordOf(slots[i], PartyIdOf(slots[i], parties), h)
  {
    if a < |RecordsOf(slots, parties, h, k - 1)| {
      i := RecordFrom(slots, parties, h, k - 1, a);
    } else {
      i := k - 1;
    }
  }

  /** The new step can be read, and its first octet is the number of participants. */
  lemma StepCanBeRead(s: Server) returns (rs: seq<Record>)
    requires ServerInv(s)
    ensures Says(s, rs) && |rs| == s.pool.count
    ensures |NewStep(s)| > 0 && NewStep(s)[0] == s.pool.count
  {
    ComposedStepDecodes(s);
    StepRecordsOk(s);
    rs := StepRecords(s);
  }

  /** It speaks about exactly the slots in use, about each once, and in ascending order. */
  lemma StepSpeaksOfAll(s: Server, rs: seq<Record>, i: byte)
    requires ServerInv(s) && Says(s, rs)
    ensures forall a, b :: 0 <= a < b < |rs| ==> rs[a].id < rs[b].id
    ensures SpeaksOf(rs, i) <==> i < |s.pool.slots| && s.pool.slots[i].isUsed
  {
    NewStepReads(s, rs);
    InvIsReadable(s);
    RecordsAscend(s.pool.slots, s.table.parties, s.Head(), |s.pool.slots|);
    SpokenOf(s.pool.slots, s.table.parties, s.Head(), i);
  }

  lemma SpokenOf(slots: seq<Participant>, parties: seq<Party>, h: nat, i: nat)
    requires IdsMatch(slots)
    ensures var rs := RecordsOf(slots, parties, h, |slots|);
            SpeaksOf(rs, i) <==> i < |slots| && slots[i].isUsed
  {
    var rs := RecordsOf(slots, parties, h, |slots|);
    if a :| 0 <= a < |rs| && rs[a].id == i {
      var j := RecordFrom(slots, parties, h, |slots|, a);
    }
    if i < |slots| && slots[i].isUsed {
      var a := RecordAt(slots, parties, h, |slots|, i);
      assert rs[a].id == i;
    }
  }

  // ---- The record of one participant --------------------------------------------------------------

  lemma OnlyWordOf(s: Server, rs: seq<Record>, i: nat)
    requires ServerInv(s) && Says(s, rs) && i < |s.pool.slots| && s.pool.slots[i].isUsed
    ensures OnlyWord(rs, RecordOf(s.pool.slots[i], PartyIdOf(s.pool.slots[i], s.table.parties), s.Head()))
  {
    NewStepReads(s, rs);
    InvIsReadable(s);
    RecordsAscend(s.pool.slots, s.table.parties, s.Head(), |s.pool.slots|);
    var a := RecordAt(s.pool.slots, s.table.parties, s.Head(), |s.pool.slots|, i);
    assert SilentElsewhere(rs, a);
  }

  /** What a participant has stored for a step. */
  function Stored(p: Participant, id: nat): Octets { if p.steps.Holds(id) then p.steps.At(id) else [] }

  /**
   * A participant that has just joined is announced once, with the number of the party that holds it
   * and with the step it has stored, or an empty one.
   */
  lemma NewcomerAnnounced(s: Server, rs: seq<Record>, i: byte, q: byte)
    requires ServerInv(s) && Says(s, rs)
    requires i < |s.pool.slots| && s.pool.slots[i].isUsed && s.pool.slots[i].state == JustJoined
    requires q < |s.table.parties| && s.table.parties[q].isUsed && s.table.parties[q].refs == [i as nat]
    ensures OnlyWord(rs, Joined(i, q, Stored(s.pool.slots[i], s.Head())))
  {
    OnlyWordOf(s, rs, i);
    HeldBy(s, i, q);
  }

  /** The party that holds a participant is the one the participant points at, and is numbered by its place. */
  lemma HeldBy(s: Server, i: nat, q: nat)
    requires ServerInv(s) && i < |s.pool.slots| && s.pool.slots[i].isUsed
    requires q < |s.table.parties| && s.table.parties[q].isUsed && s.table.parties[q].refs == [i]
    ensures s.pool.slots[i].inParty == Some(q) && s.pool.slots[i].id == i && s.table.parties[q].id == q
  {
    assert PartyOwns(s.pool, s.table.parties, q);
  }

  /** Every newcomer is held by a party. */
  lemma NewcomerIsHeld(s: Server, i: byte) returns (q: byte)
    requires ServerInv(s) && i < |s.pool.slots| && s.pool.slots[i].isUsed && s.pool.slots[i].state == JustJoined
    ensures q < |s.table.parties| && s.table.parties[q].isUsed && s.table.parties[q].refs == [i as nat]
  {
    assert ParticipantOwned(s.pool, s.table.parties, i);
    q := s.pool.slots[i].inParty.value;
  }

  /**
   * Everybody else: a waiting participant is announced as waiting, a leaving one as having left, whatever
   * they have stored; a normal one with the step it has stored, or as not in time.
   */
  lemma OthersAnnounced(s: Server, rs: seq<Record>, i: byte)
    requires ServerInv(s) && Says(s, rs)
    requires i < |s.pool.slots| && s.pool.slots[i].isUsed && s.pool.slots[i].state != JustJoined
    ensures match s.pool.slots[i].state
            case WaitingForRejoin => OnlyWord(rs, Waiting(i))
            case Leaving => OnlyWord(rs, Left(i))
            case Normal =>
              if s.pool.slots[i].steps.Holds(s.Head())
              then OnlyWord(rs, Provided(i, s.pool.slots[i].steps.At(s.Head()))) else OnlyWord(rs, NotInTime(i))
            case _ => false
  {
    OnlyWordOf(s, rs, i);
    assert ParticipantOwned(s.pool, s.table.parties, i);
  }

  // ---- What the step leaves behind ----------------------------------------------------------------

  /**
   * A participant after the step: a newcomer is normal, a leaver is gone and its id free again, everybody
   * else is as before; steps up to the head are used up, later ones still there.
   */
  lemma SlotAfterStep(s: Server, i: byte, id: nat)
    requires ServerInv(s) && i < |s.pool.slots| && s.pool.slots[i].isUsed
    ensures i < |ComposeStep(s).pool.slots|
    ensures var before, after := s.pool.slots[i], ComposeStep(s).pool.slots[i];
            && (after.isUsed <==> before.state != Leaving)
            && (before.state == Leaving ==> after.state == Destroyed && after.inParty == None && after.localIndex == 0
                                            && i in ComposeStep(s).pool.free)
            && (before.state != Leaving ==>
                  after == before.(state := if before.state == JustJoined then Normal else before.state, steps := after.steps))
            && after.steps.WriteId() == before.steps.WriteId()
            && (id > s.Head() ==> (after.steps.Holds(id) <==> before.steps.Holds(id)))
            && (id > s.Head() && before.steps.Holds(id) ==> after.steps.At(id) == before.steps.At(id))
            && !after.steps.Holds(s.Head())
  {
    ComposeStepMeaning(s);
    InvIsReadable(s);
    var steps := s.pool.slots[i].steps;
    ReadExactMeaning(steps, s.Head());
    if id > s.Head() {
      assert Lookup(ReadExact(steps, s.Head()).1, id) == Lookup(steps, id);
    }
    if s.pool.slots[i].state == Leaving {
      ComposeKeepsFree(s, i);
    }
  }

  lemma ComposeKeepsFree(s: Server, i: byte)
    requires ServerInv(s) && i < |s.pool.slots| && s.pool.slots[i].isUsed && s.pool.slots[i].state == Leaving
    ensures i in ComposeStep(s).pool.free
  {
    ComposeStepMeaning(s);
    InvIsReadable(s);
    LeaverListed(s.pool.slots, |s.pool.slots|, i);
  }

  lemma {:induction false} LeaverListed(slots: seq<Participant>, k: nat, i: byte)
    requires i < k <= |slots| && IdsMatch(slots) && slots[i].isUsed && slots[i].state == Leaving
    ensures i in LeavingIds(slots, k)
  {
    if i < k - 1 {
      LeaverListed(slots, k - 1, i);
    }
  }
}
