/** The participant pool: handing out ids from the free list, preparing chosen ids, taking ids back. */
module Pools {
  import opened Common
  import opened CircularBuffers
  import opened StepBuffers
  import opened States

  /** An untouched slot. */
  function InitialParticipant(id: byte): Participant {
    Participant(id, false, Destroyed, None, 0, Restarted(0))
  }

  function Vacated(p: Participant): Participant {
    p.(isUsed := false, inParty := None, localIndex := 0, state := Destroyed)
  }

  /** A slot taken into use for a party, with an empty step buffer. */
  function Occupied(id: byte, party: nat, stepId: nat, localIndex: nat, state: ParticipantState): Participant {
    Participant(id, true, state, Some(party), localIndex, Restarted(stepId))
  }

  ghost predicate NoDuplicates<T>(s: seq<T>) {
    forall i, j :: 0 <= i < j < |s| ==> s[i] != s[j]
  }

  /** The free list holds unused slots, none twice, and as many as there are. */
  ghost predicate PoolInv(pool: Pool) {
    && |pool.slots| < SIZE
    && (forall i :: 0 <= i < |pool.slots| ==> pool.slots[i].id == i)
    && NoDuplicates(pool.free)
    && (forall k :: 0 <= k < |pool.free| ==> pool.free[k] < |pool.slots| && !pool.slots[pool.free[k]].isUsed)
    && pool.count == Count(pool.slots, IsUsed)
    && |pool.free| + pool.count == |pool.slots|
  }

  /** Distinct unused slots are at most as many as the slots that are not used. */
  lemma {:induction false} DistinctUnusedFit(slots: seq<Participant>, ids: seq<byte>)
    requires NoDuplicates(ids)
    requires forall k :: 0 <= k < |ids| ==> ids[k] < |slots| && !slots[ids[k]].isUsed
    ensures |ids| + Count(slots, IsUsed) <= |slots|
    decreases |ids|
  {
    CountBounds(slots, IsUsed);
    if ids != [] {
      var last := ids[|ids| - 1];
      var taken := slots[last].(isUsed := true);
      CountUpdate(slots, last, taken, IsUsed);
      DistinctUnusedFit(slots[last := taken], ids[..|ids| - 1]);
    }
  }

  /** Hence the free list holds exactly the unused slots. */
  lemma FreeListIsUnusedSlots(pool: Pool, i: byte)
    requires PoolInv(pool)
    ensures i in pool.free <==> i < |pool.slots| && !pool.slots[i].isUsed
  {
    if i < |pool.slots| && !pool.slots[i].isUsed && i !in pool.free {
      DistinctUnusedFit(pool.slots, pool.free + [i]);
    }
  }

  /** 0, 1, ..., n - 1. */
  function Ascending(n: nat): (r: seq<byte>)
    requires n <= 256
    ensures |r| == n && forall i :: 0 <= i < n ==> r[i] == i
  {
    seq(n, i requires 0 <= i < n => i as byte)
  }

  function InitialSlots(n: nat): (r: seq<Participant>)
    requires n <= 256
    ensures |r| == n && forall i :: 0 <= i < n ==> r[i] == InitialParticipant(i)
  {
    seq(n, i requires 0 <= i < n => InitialParticipant(i))
  }

  function InitialPool(capacity: nat): Pool
    requires capacity < SIZE
  {
    Pool(InitialSlots(capacity), 0, Ascending(capacity))
  }

  lemma InitialPoolInv(capacity: nat)
    requires capacity < SIZE
    ensures PoolInv(InitialPool(capacity))
  {
    var pool := InitialPool(capacity);
    CountBounds(pool.slots, IsUsed);
  }

  /** Hands the front of the free list to a new participant. */
  function Join(pool: Pool, party: nat, stepId: nat, localIndex: nat): (Result<byte>, Pool) {
    if pool.count + 1 > |pool.slots| then (Err(ERR_SESSION_FULL), pool)
    else if pool.free == [] || pool.free[0] >= |pool.slots| then (Err(ERR_ILLEGAL_ID), pool)
    else
      var id := pool.free[0];
      var slot := Occupied(id, party, stepId, localIndex, JustJoined);
      (Ok(id), Pool(pool.slots[id := slot], pool.count + 1, pool.free[1..]))
  }

  /** Takes a chosen id into use, without touching the free list. */
  function Prepare(pool: Pool, id: byte, party: nat, stepId: nat): (Result<byte>, Pool) {
    if pool.count + 1 > |pool.slots| then (Err(ERR_SESSION_FULL), pool)
    else if id >= |pool.slots| then (Err(ERR_ILLEGAL_ID), pool)
    else if pool.slots[id].isUsed then (Err(ERR_ALREADY_USED), pool)
    else
      var slot := Occupied(id, party, stepId, 0, WaitingForRejoin);
      (Ok(id), Pool(pool.slots[id := slot], pool.count + 1, pool.free))
  }

  /** Takes an id back. */
  function Destroy(pool: Pool, id: byte): (r: Pool)
    ensures |r.slots| == |pool.slots|
  {
    if id >= |pool.slots| then pool
    else Pool(pool.slots[id := Vacated(pool.slots[id])],
              if pool.count > 0 then pool.count - 1 else 0,
              pool.free + [id])
  }

  /**
   * Joining a valid pool: refused exactly when no slot is free, and then nothing changes;
   * otherwise the id at the front of the free list was unused, and moves into use.
   * The error branches behind the empty free list, the illegal id and the used slot are dead.
   */
  lemma JoinKeepsPool(pool: Pool, party: nat, stepId: nat, localIndex: nat)
    requires PoolInv(pool)
    ensures var (r, after) := Join(pool, party, stepId, localIndex);
            && PoolInv(after)
            && (r.Err? <==> forall i :: 0 <= i < |pool.slots| ==> pool.slots[i].isUsed)
            && (r.Err? ==> r.code == ERR_SESSION_FULL && after == pool)
            && (r.Ok? ==> pool.free == [r.value] + after.free
                          && r.value < |pool.slots|
                          && !pool.slots[r.value].isUsed && after.slots[r.value].isUsed
                          && after.slots == pool.slots[r.value := after.slots[r.value]])
  {
    CountBounds(pool.slots, IsUsed);
    if pool.count < |pool.slots| {
      var id := pool.free[0];
      CountUpdate(pool.slots, id, Occupied(id, party, stepId, localIndex, JustJoined), IsUsed);
    }
  }

  /** Taking back a used id: the free list has room for it, did not hold it, and gains it at the end. */
  lemma DestroyKeepsPool(pool: Pool, id: byte)
    requires PoolInv(pool)
    requires id < |pool.slots| && pool.slots[id].isUsed
    ensures PoolInv(Destroy(pool, id))
    ensures pool.count > 0 && |pool.free| < SIZE && id !in pool.free
  {
    CountUpdate(pool.slots, id, Vacated(pool.slots[id]), IsUsed);
  }

  /** A change to a used slot that keeps it used, and its id, is invisible to the free list. */
  lemma TouchKeepsPool(pool: Pool, i: nat, slot: Participant)
    requires PoolInv(pool)
    requires i < |pool.slots| && slot.isUsed == pool.slots[i].isUsed && slot.id == pool.slots[i].id
    ensures PoolInv(pool.(slots := pool.slots[i := slot]))
  {
    CountUpdate(pool.slots, i, slot, IsUsed);
  }

  /** The same for any number of slots at once. */
  lemma RetouchKeepsPool(pool: Pool, slots: seq<Participant>)
    requires PoolInv(pool)
    requires |slots| == |pool.slots|
    requires forall i :: 0 <= i < |slots| ==> slots[i].isUsed == pool.slots[i].isUsed && slots[i].id == pool.slots[i].id
    ensures PoolInv(pool.(slots := slots))
  {
    CountCongruent(pool.slots, slots, IsUsed);
  }
}
