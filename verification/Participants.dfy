/** The participant pool as the source keeps it: an array of slots, a count and a ring buffer of free ids. */
module ParticipantPools {
  import opened Common
  import opened CircularBuffers
  import opened States
  import opened Pools
  import opened Migration
  import opened Receiving

  class Participants {
    const slots: array<Participant>
    var participantCount: nat
    const freeList: CircularBuffer

    ghost predicate Valid()
      reads this, freeList
    {
      freeList.Valid() && slots.Length < SIZE
    }

    ghost function Repr(): set<object>
    {
      {this, slots, freeList, freeList.data}
    }

    ghost function Model(): Pool
      requires Valid()
      reads this, slots, freeList, freeList.data
    {
      Pool(slots[..], participantCount, freeList.Contents())
    }

    constructor (maxCount: nat)
      requires maxCount < SIZE
      ensures Valid() && fresh(Repr())
      ensures Model() == InitialPool(maxCount)
    {
      slots := new Participant[maxCount](_ => InitialParticipant(0));
      participantCount := 0;
      freeList := new CircularBuffer();
      new;
      for i := 0 to maxCount
        invariant Valid() && freeList.Contents() == Ascending(i)
        invariant fresh(Repr()) && participantCount == 0
      {
        AscendingNext(i);
        freeList.Write(i);
      }
      for i := 0 to maxCount
        invariant Valid() && freeList.Contents() == Ascending(maxCount) && participantCount == 0
        invariant slots[..i] == InitialSlots(i)
      {
        slots[i] := InitialParticipant(i);
        InitialSlotsNext(slots[..], i);
      }
      assert slots[..] == slots[..maxCount];
    }

    /** Takes an id back; it is known to be used, so the count is positive and the free list has room. */
    method Destroy(id: byte)
      requires Valid() && PoolInv(Model())
      requires id < slots.Length && slots[id].isUsed
      modifies Repr()
      ensures Valid() && Model() == Pools.Destroy(old(Model()), id)
    {
      DestroyKeepsPool(Model(), id);
      participantCount := participantCount - 1;
      freeList.Write(id);
      slots[id] := Vacated(slots[id]);
    }

    /** Takes a chosen id into use for host migration; the free list is rebuilt afterwards. */
    method Prepare(id: byte, party: nat, stepId: nat) returns (r: Result<byte>)
      requires Valid()
      modifies this, slots
      ensures Valid() && (r, Model()) == Pools.Prepare(old(Model()), id, party, stepId)
    {
      if participantCount + 1 > slots.Length {
        return Err(ERR_SESSION_FULL);
      }
      if id >= slots.Length {
        return Err(ERR_ILLEGAL_ID);
      }
      if slots[id].isUsed {
        return Err(ERR_ALREADY_USED);
      }
      slots[id] := Occupied(id, party, stepId, 0, WaitingForRejoin);
      participantCount := participantCount + 1;
      return Ok(id);
    }

    /** Hands out the id at the front of the free list. */
    method Join(party: nat, stepId: nat, localIndex: nat) returns (r: Result<byte>)
      requires Valid() && PoolInv(Model())
      modifies Repr()
      ensures Valid() && (r, Model()) == Pools.Join(old(Model()), party, stepId, localIndex)
    {
      if participantCount + 1 > slots.Length {
        return Err(ERR_SESSION_FULL);
      }
      assert freeList.Contents() == Model().free;
      var id := freeList.Read();
      if id >= slots.Length || slots[id].isUsed {
        // The internal errors of the source: the free list only holds ids of unused slots.
        assert false;
      }
      slots[id] := Occupied(id, party, stepId, localIndex, JustJoined);
      participantCount := participantCount + 1;
      return Ok(id);
    }

    /** Gives every slot named by refs a state. */
    method SetStates(refs: seq<nat>, state: ParticipantState)
      requires Valid() && forall k :: 0 <= k < |refs| ==> refs[k] < slots.Length
      modifies slots
      ensures slots[..] == WithStates(old(slots[..]), refs, state)
    {
      for k := 0 to |refs|
        invariant forall i :: 0 <= i < slots.Length ==>
          slots[i] == if i in refs[..k] then old(slots[i]).(state := state) else old(slots[i])
      {
        slots[refs[k]] := slots[refs[k]].(state := state);
        assert refs[..k + 1] == refs[..k] + [refs[k]];
      }
      assert refs[..|refs|] == refs;
    }

    /** Puts an id into the free list unless it is in the given list. */
    method FreeUnlessListed(ids: seq<byte>, i: byte)
      requires Valid() && i < SIZE && freeList.Contents() == Complement(ids, i)
      modifies freeList, freeList.data
      ensures Valid() && freeList.Contents() == Complement(ids, i + 1)
    {
      ComplementNext(ids, i);
      var listed := ContainsParticipantId(ids, i);
      if !listed {
        freeList.Write(i);
      }
    }

    /** Rebuilds the free list: every id that is not in the given list, in ascending order. */
    method RebuildFreeList(ids: seq<byte>)
      requires Valid()
      modifies freeList, freeList.data
      ensures Valid() && Model() == old(Model()).(free := Complement(ids, slots.Length))
    {
      freeList.Init();
      for i := 0 to slots.Length
        invariant Valid() && freeList.Contents() == Complement(ids, i)
      {
        FreeUnlessListed(ids, i);
      }
    }

    /** Adds the steps of a section to the buffer of one participant, up to the first error. */
    method AddSteps(ref: nat, first: nat, steps: seq<StepInput>, maxOctets: nat) returns (r: Result<nat>)
      requires ref < slots.Length
      modifies slots
      ensures r == Receiving.AddSteps(old(slots[ref]).steps, first, steps, |steps|, maxOctets).0
      ensures slots[..] == old(slots[..])[ref := old(slots[ref]).(steps :=
                Receiving.AddSteps(old(slots[ref]).steps, first, steps, |steps|, maxOctets).1)]
    {
      ghost var before := slots[ref];
      var total := 0;
      for i := 0 to |steps|
        invariant (Ok(total), slots[ref].steps) == Receiving.AddSteps(before.steps, first, steps, i, maxOctets)
        invariant slots[..] == old(slots[..])[ref := before.(steps := slots[ref].steps)]
      {
        var (added, b) := AddStep(slots[ref].steps, first + i, steps[i], maxOctets);
        slots[ref] := slots[ref].(steps := b);
        if added.Err? {
          AddStepsStops(before.steps, first, steps, i + 1, |steps|, maxOctets);
          return added;
        }
        total := total + added.value;
      }
      return Ok(total);
    }
  }

  lemma AscendingNext(i: byte)
    ensures Ascending(i + 1) == Ascending(i) + [i]
  {
  }

  lemma InitialSlotsNext(slots: seq<Participant>, i: byte)
    requires i < |slots| && slots[..i] == InitialSlots(i) && slots[i] == InitialParticipant(i)
    ensures slots[..i + 1] == InitialSlots(i + 1)
  {
  }

  /** Whether an id is among those of the parties to migrate, each of which names one. */
  method ContainsParticipantId(ids: seq<byte>, searchFor: nat) returns (found: bool)
    ensures found <==> searchFor in ids
  {
    for k := 0 to |ids|
      invariant searchFor !in ids[..k]
    {
      if ids[k] == searchFor {
        return true;
      }
    }
    return false;
  }

  lemma {:induction false} ComplementShort(ids: seq<byte>, n: nat)
    ensures |Complement(ids, n)| <= n
  {
    if n > 0 {
      ComplementShort(ids, n - 1);
    }
  }

  lemma ComplementNext(ids: seq<byte>, i: byte)
    requires i < SIZE
    ensures |Complement(ids, i)| < SIZE
    ensures Complement(ids, i + 1) == if i in ids then Complement(ids, i) else Complement(ids, i) + [i]
  {
    ComplementShort(ids, i);
  }
}
