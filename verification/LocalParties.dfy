/** The table of parties as the source keeps it: an array of slots and a count. */
module LocalPartyTables {
  import opened Common
  import opened StepBuffers
  import opened States
  import opened Qualities
  import opened PartyLives
  import opened Parties
  import opened Composition

  class LocalParties {
    const parties: array<Party>
    var partiesCount: nat

    ghost function Repr(): set<object>
    {
      {this, parties}
    }

    ghost function Model(): PartyTable
      reads this, parties
    {
      PartyTable(parties[..], partiesCount)
    }

    constructor (maxCount: nat)
      requires maxCount <= 256
      ensures fresh(Repr())
      ensures Model() == PartyTable(seq(maxCount, i requires 0 <= i < maxCount => InitialParty(i)), 0)
    {
      parties := new Party[maxCount](_ => InitialParty(0));
      partiesCount := 0;
      new;
      for i := 0 to maxCount
        invariant partiesCount == 0
        invariant forall j :: 0 <= j < i ==> parties[j] == InitialParty(j)
      {
        parties[i] := InitialParty(i);
      }
      assert parties[..] == seq(maxCount, i requires 0 <= i < maxCount => InitialParty(i));
    }

    method ResetAll()
      modifies parties
      ensures forall p :: 0 <= p < parties.Length ==> parties[p] == Reset(old(parties[p]))
    {
      for i := 0 to parties.Length
        invariant forall p :: 0 <= p < i ==> parties[p] == Reset(old(parties[p]))
        invariant forall p :: i <= p < parties.Length ==> parties[p] == old(parties[p])
      {
        parties[i] := Reset(parties[i]);
      }
    }

    /** Looks for a free place, and numbers it, but does not reserve it yet. */
    method FindFree() returns (r: Option<nat>)
      modifies parties
      ensures r == FirstUnused(old(parties[..]), 0)
      ensures parties[..] == if r.Some? then old(parties[..])[r.value := Numbered(old(parties[..])[r.value], r.value)]
                             else old(parties[..])
    {
      for i := 0 to parties.Length
        invariant parties[..] == old(parties[..])
        invariant FirstUnused(old(parties[..]), 0) == FirstUnused(old(parties[..]), i)
      {
        if !parties[i].isUsed {
          parties[i] := Numbered(parties[i], i);
          return Some(i);
        }
      }
      return None;
    }

    /** Reserves a place for a party of one participant. */
    method AddParty(p: nat, ref: nat)
      requires p < parties.Length
      modifies this, parties
      ensures Model() == PartyTable(old(parties[..])[p := Added(old(parties[p]), ref)], old(partiesCount) + 1)
    {
      parties[p] := ReInit(parties[p]);
      partiesCount := partiesCount + 1;
      parties[p] := parties[p].(isUsed := true, refs := [ref]);
    }

    method Remove(p: nat)
      requires p < parties.Length && parties[p].isUsed && partiesCount != 0
      modifies this, parties
      ensures Model() == PartyTable(old(parties[..])[p := Reset(old(parties[p]))], old(partiesCount) - 1)
    {
      partiesCount := partiesCount - 1;
      parties[p] := Reset(parties[p]);
    }

    /** Records at the party of a participant how the attempt to read its step went. */
    method Charge(p: nat, read: ReadResult)
      requires p < parties.Length && !read.Corrupt?
      modifies parties
      ensures parties[..] == Charged(old(parties[..]), Some(p), read)
    {
      if read.CollectionIsEmpty? {
        parties[p] := parties[p].(quality := AddedForcedSteps(parties[p].quality, 1));
      } else {
        parties[p] := parties[p].(quality := ProvidedUsableStep(parties[p].quality));
      }
    }

    /** One tick of the disconnect counter; false recommends to stop keeping the connection. */
    method DelayedTick(p: nat) returns (keep: bool)
      requires p < parties.Length
      modifies parties
      ensures parties[..] == old(parties[..])[p := old(parties[p]).(impeding :=
                               NextImpeding(old(parties[p]).impeding, IsFailing(old(parties[p]).quality)))]
      ensures keep == !Refuses(old(parties[p]).impeding, IsFailing(old(parties[p]).quality))
    {
      if IsFailing(parties[p].quality) {
        parties[p] := parties[p].(impeding := parties[p].impeding + 1);
        if parties[p].impeding > IMPEDING_LIMIT {
          return false;
        }
      } else if parties[p].impeding > 0 {
        parties[p] := parties[p].(impeding := parties[p].impeding - 1);
      }
      return true;
    }

    /** One tick of waiting for a rejoin; false gives up. */
    method TickWaiting(p: nat) returns (keep: bool)
      requires p < parties.Length
      modifies parties
      ensures parties[..] == old(parties[..])[p := old(parties[p]).(timer := old(parties[p]).timer + 1)]
      ensures keep == (old(parties[p]).timer + 1 < old(parties[p]).maxTimer)
    {
      parties[p] := parties[p].(timer := parties[p].timer + 1);
      return parties[p].timer < parties[p].maxTimer;
    }
  }
}
