/** Host migration: rebuilding parties and participants from a list of participant ids. */
module Migration {
  import opened Common
  import opened StepBuffers
  import opened States
  import opened PartyLives
  import opened Pools
  import opened Invariants
  import opened Parties

  /** All parties given back; the count of parties is left as it was. */
  function ResetParties(s: Server): (r: Server)
    ensures |r.table.parties| == |s.table.parties|
  {
    s.(table := s.table.(parties := seq(|s.table.parties|, p requires 0 <= p < |s.table.parties| => Reset(s.table.parties[p]))))
  }

  /** One before the head, in 32-bit arithmetic: the id a migrated participant's buffer starts from. */
  function MigrationStart(head: nat): nat { if head == 0 then LAST_STEP_ID else head - 1 }

  /** A party slot prepared for one participant that is expected to rejoin. */
  function Awaited(party: Party, ref: nat): Party { Added(party, ref).(state := PartyWaiting) }

  /** nimbleServerLocalPartiesPrepare, for a party of one. */
  function PrepareParty(s: Server, id: byte): (r: (Result<nat>, Server))
    ensures |r.1.table.parties| == |s.table.parties|
  {
    match FirstUnused(s.table.parties, 0)
    case None => (Err(ERR_OUT_OF_PARTICIPANT_MEMORY), s)
    case Some(p) =>
      var party := Numbered(s.table.parties[p], p);
      var (prepared, pool) := Prepare(s.pool, id, p, MigrationStart(s.Head()));
      match prepared
      case Err(code) => (Err(code), s.(table := s.table.(parties := s.table.parties[p := party])))
      case Ok(_) =>
        (Ok(p), s.(pool := pool,
                   table := PartyTable(s.table.parties[p := Awaited(party, id)], s.table.count + 1)))
  }

  /** The first k parties of the list, up to the first error. */
  function PrepareAll(s: Server, ids: seq<byte>, k: nat): (Result<nat>, Server)
    requires k <= |ids|
  {
    if k == 0 then (Ok(0), s)
    else
      var (r, before) := PrepareAll(s, ids, k - 1);
      if r.Err? then (r, before) else PrepareParty(before, ids[k - 1])
  }

  /** The ids below n that are not in the list, in ascending order. */
  function Complement(ids: seq<byte>, n: nat): seq<byte> {
    if n == 0 then []
    else Complement(ids, n - 1) + if n - 1 in ids then [] else [((n - 1) % 256) as byte]
  }

  /** nimbleServerHostMigration. */
  function Migrate(s: Server, ids: seq<byte>): (Result<nat>, Server) {
    var (r, prepared) := PrepareAll(ResetParties(s), ids, |ids|);
    if r.Err? then (r, prepared)
    else (Ok(0), prepared.(pool := prepared.pool.(free := Complement(ids, |s.pool.slots|))))
  }

  // ---- When it succeeds, and what it leaves behind ----------------------------------------------

  /** The ids are legal, unused, and none is given twice. */
  ghost predicate Preparable(pool: Pool, ids: seq<byte>) {
    && NoDuplicates(ids)
    && (forall j :: 0 <= j < |ids| ==> ids[j] < |pool.slots| && !pool.slots[ids[j]].isUsed)
  }

  ghost predicate NoPartyUsed(parties: seq<Party>) {
    forall p :: 0 <= p < |parties| ==> !parties[p].isUsed
  }

  /** Exactly the listed ids have come into use, the j-th in party slot j, waiting to rejoin. */
  ghost predicate Prepared(s: Server, ids: seq<byte>, after: Server) {
    && |ids| <= |s.table.parties| == |after.table.parties|
    && |after.pool.slots| == |s.pool.slots|
    && (forall j :: 0 <= j < |ids| ==>
          ids[j] < |s.pool.slots|
          && after.pool.slots[ids[j]] == Occupied(ids[j], j, MigrationStart(s.Head()), 0, WaitingForRejoin))
    && (forall i :: 0 <= i < |s.pool.slots| && i !in ids ==> after.pool.slots[i] == s.pool.slots[i])
    && (forall j :: 0 <= j < |ids| ==> after.table.parties[j] == Awaited(Numbered(s.table.parties[j], j), ids[j]))
    && (forall p :: |ids| <= p < |s.table.parties| ==> after.table.parties[p] == s.table.parties[p])
    && after.pool.count == s.pool.count + |ids| == Count(after.pool.slots, IsUsed)
    && after.table.count == s.table.count + |ids|
    && after.auth == s.auth && after.config == s.config
  }

  /** One slot of a prepared pool. */
  lemma PreparedAt(s: Server, ids: seq<byte>, after: Server, i: nat)
    requires Prepared(s, ids, after) && i < |s.pool.slots|
    ensures i < |after.pool.slots|
    ensures if i in ids then after.pool.slots[i].id == i && after.pool.slots[i].isUsed && after.pool.slots[i].state == WaitingForRejoin
            else after.pool.slots[i] == s.pool.slots[i]
  {
    if i in ids {
      var j :| 0 <= j < |ids| && ids[j] == i;
      assert after.pool.slots[ids[j]] == Occupied(ids[j], j, MigrationStart(s.Head()), 0, WaitingForRejoin);
    }
  }

  lemma SnocNoDuplicates(ids: seq<byte>, k: nat)
    requires k < |ids| && NoDuplicates(ids[..k])
    ensures NoDuplicates(ids[..k + 1]) <==> ids[k] !in ids[..k]
  {
    if ids[k] in ids[..k] {
      var j :| 0 <= j < k && ids[..k][j] == ids[k];
      assert ids[..k + 1][j] == ids[..k + 1][k];
    }
  }

  /** The next party slot is the k-th, and preparing works exactly when the id is legal and still unused. */
  lemma PrepareOneMore(s: Server, ids: seq<byte>, k: nat, before: Server)
    requires NoPartyUsed(s.table.parties) && k < |ids| && k < |s.table.parties|
    requires Prepared(s, ids[..k], before)
    ensures PrepareParty(before, ids[k]).0.Ok? <==>
            ids[k] < |s.pool.slots| && !s.pool.slots[ids[k]].isUsed && ids[k] !in ids[..k]
    ensures PrepareParty(before, ids[k]).0.Ok? ==> Prepared(s, ids[..k + 1], PrepareParty(before, ids[k]).1)
  {
    NextPartySlot(s, ids[..k], before);
    UsedSoFar(s, ids[..k], before, ids[k]);
    CountBounds(before.pool.slots, IsUsed);
    if PrepareParty(before, ids[k]).0.Ok? {
      PreparedExtends(s, ids, k, before, PrepareParty(before, ids[k]).1);
    }
  }

  lemma NextPartySlot(s: Server, done: seq<byte>, before: Server)
    requires NoPartyUsed(s.table.parties) && Prepared(s, done, before) && |done| < |s.table.parties|
    ensures FirstUnused(before.table.parties, 0) == Some(|done|)
  {
    var parties := before.table.parties;
    assert !parties[|done|].isUsed;
    assert forall p :: 0 <= p < |done| ==> parties[p].isUsed;
  }

  lemma UsedSoFar(s: Server, done: seq<byte>, before: Server, id: byte)
    requires Prepared(s, done, before)
    ensures id < |s.pool.slots| ==> (before.pool.slots[id].isUsed <==> s.pool.slots[id].isUsed || id in done)
  {
    if id in done {
      var j :| 0 <= j < |done| && done[j] == id;
      assert before.pool.slots[done[j]].isUsed;
    }
  }

  lemma PreparedExtends(s: Server, ids: seq<byte>, k: nat, before: Server, after: Server)
    requires k < |ids| && k < |s.table.parties|
    requires Prepared(s, ids[..k], before)
    requires ids[k] < |s.pool.slots| && ids[k] !in ids[..k]
    requires after.pool == Pool(before.pool.slots[ids[k] := Occupied(ids[k], k, MigrationStart(s.Head()), 0, WaitingForRejoin)],
                                before.pool.count + 1, before.pool.free)
    requires !before.pool.slots[ids[k]].isUsed
    requires after.table == PartyTable(before.table.parties[k := Awaited(Numbered(before.table.parties[k], k), ids[k])],
                                       before.table.count + 1)
    requires after.auth == before.auth && after.config == before.config
    ensures Prepared(s, ids[..k + 1], after)
  {
    var done, more := ids[..k], ids[..k + 1];
    CountUpdate(before.pool.slots, ids[k], after.pool.slots[ids[k]], IsUsed);
    forall j | 0 <= j < k + 1
      ensures more[j] < |s.pool.slots|
      ensures after.pool.slots[more[j]] == Occupied(more[j], j, MigrationStart(s.Head()), 0, WaitingForRejoin)
      ensures after.table.parties[j] == Awaited(Numbered(s.table.parties[j], j), more[j])
    {
      if j < k {
        assert more[j] == done[j] && done[j] != ids[k];
      }
    }
    forall i | 0 <= i < |s.pool.slots| && i !in more
      ensures after.pool.slots[i] == s.pool.slots[i]
    {
      assert more[k] == ids[k];
      assert forall j :: 0 <= j < k ==> done[j] == more[j];
    }
  }

  /** Preparing the first k ids ends in r. */
  ghost predicate Prepares(s: Server, ids: seq<byte>, k: nat, r: (Result<nat>, Server)) {
    k <= |ids| && PrepareAll(s, ids, k) == r
  }

  lemma PreparesNext(s: Server, ids: seq<byte>, k: nat, before: (Result<nat>, Server), next: (Result<nat>, Server))
    requires Prepares(s, ids, k, before) && k < |ids|
    ensures Prepares(s, ids, k + 1, next) <==> next == if before.0.Err? then before else PrepareParty(before.1, ids[k])
  {
  }

  /** r is a success exactly if the first k ids fit the party slots and are preparable, and then they are prepared in it. */
  ghost predicate PreparedUpTo(s: Server, ids: seq<byte>, k: nat, r: (Result<nat>, Server)) {
    && k <= |ids|
    && (r.0.Ok? <==> k <= |s.table.parties| && Preparable(s.pool, ids[..k]))
    && (r.0.Ok? ==> Prepared(s, ids[..k], r.1))
  }

  lemma PreparedUpToNext(s: Server, ids: seq<byte>, k: nat, before: (Result<nat>, Server), next: (Result<nat>, Server))
    requires NoPartyUsed(s.table.parties) && k < |ids| && PreparedUpTo(s, ids, k, before)
    requires next == if before.0.Err? then before else PrepareParty(before.1, ids[k])
    ensures PreparedUpTo(s, ids, k + 1, next)
  {
    if before.0.Err? {
      if Preparable(s.pool, ids[..k + 1]) {
        PreparablePrefix(s.pool, ids, k + 1);
      }
    } else if k < |s.table.parties| {
      PrepareOneMore(s, ids, k, before.1);
      PreparableExtends(s.pool, ids, k);
    } else {
      NoPlaceLeft(s, ids, k, before.1);
    }
  }

  lemma {:induction false} PreparesExactly(s: Server, ids: seq<byte>, k: nat, r: (Result<nat>, Server))
    requires s.pool.count == Count(s.pool.slots, IsUsed) && NoPartyUsed(s.table.parties)
    requires Prepares(s, ids, k, r)
    ensures PreparedUpTo(s, ids, k, r)
  {
    if k > 0 {
      var before := PrepareAll(s, ids, k - 1);
      PreparesExactly(s, ids, k - 1, before);
      PreparesNext(s, ids, k - 1, before, r);
      PreparedUpToNext(s, ids, k - 1, before, r);
    }
  }

  /** Preparing the list succeeds exactly when it fits the party slots and is preparable. */
  lemma PrepareAllExactly(s: Server, ids: seq<byte>, k: nat)
    requires s.pool.count == Count(s.pool.slots, IsUsed) && NoPartyUsed(s.table.parties)
    requires k <= |ids|
    ensures var (r, after) := PrepareAll(s, ids, k);
            && (r.Ok? <==> k <= |s.table.parties| && Preparable(s.pool, ids[..k]))
            && (r.Ok? ==> Prepared(s, ids[..k], after))
  {
    PreparesExactly(s, ids, k, PrepareAll(s, ids, k));
  }

  /** More ids than party slots. */
  lemma NoPlaceLeft(s: Server, ids: seq<byte>, k: nat, before: Server)
    requires k < |ids| && k == |s.table.parties| && Prepared(s, ids[..k], before)
    ensures PrepareParty(before, ids[k]).0 == Err(-43)
  {
    assert forall p :: 0 <= p < |before.table.parties| ==> before.table.parties[p].isUsed;
  }

  lemma PreparablePrefix(pool: Pool, ids: seq<byte>, k: nat)
    requires 0 < k <= |ids| && Preparable(pool, ids[..k])
    ensures Preparable(pool, ids[..k - 1])
  {
    assert forall j :: 0 <= j < k - 1 ==> ids[..k - 1][j] == ids[..k][j];
  }

  lemma PreparableExtends(pool: Pool, ids: seq<byte>, k: nat)
    requires k < |ids| && Preparable(pool, ids[..k])
    ensures Preparable(pool, ids[..k + 1]) <==>
            ids[k] < |pool.slots| && !pool.slots[ids[k]].isUsed && ids[k] !in ids[..k]
  {
    SnocNoDuplicates(ids, k);
    var more := ids[..k + 1];
    assert more[k] == ids[k];
    assert forall j :: 0 <= j < k ==> more[j] == ids[..k][j];
  }

  // ---- The free list ------------------------------------------------------------------------------

  lemma {:induction false} ComplementMeaning(ids: seq<byte>, n: nat)
    requires n <= 256
    ensures forall i: byte :: i in Complement(ids, n) <==> i < n && i !in ids
    ensures forall a, b :: 0 <= a < b < |Complement(ids, n)| ==> Complement(ids, n)[a] < Complement(ids, n)[b]
  {
    if n > 0 {
      ComplementMeaning(ids, n - 1);
      var below := Complement(ids, n - 1);
      forall a | 0 <= a < |below|
        ensures below[a] < n - 1
      {
        assert below[a] in below;
      }
    }
  }

  /** Where exactly the listed ids are used, the complement has one id for each unused slot. */
  lemma {:induction false} ComplementLength(ids: seq<byte>, slots: seq<Participant>, n: nat)
    requires n <= |slots| <= 256
    requires forall i :: 0 <= i < n ==> (slots[i].isUsed <==> i in ids)
    ensures |Complement(ids, n)| + Count(slots[..n], IsUsed) == n
  {
    if n > 0 {
      ComplementLength(ids, slots, n - 1);
      assert slots[..n][..n - 1] == slots[..n - 1];
    }
  }

  // ---- The whole migration ------------------------------------------------------------------------

  /** It succeeds exactly for a list that fits the party slots, of legal, unused, distinct ids. */
  lemma MigrateExactly(s: Server, ids: seq<byte>)
    requires PoolInv(s.pool)
    ensures var (r, after) := Migrate(s, ids);
            && (r.Ok? <==> |ids| <= |s.table.parties| && Preparable(s.pool, ids))
            && (r.Ok? ==> after.pool.free == Complement(ids, |s.pool.slots|)
                          && Prepared(ResetParties(s), ids, after))
  {
    PrepareAllExactly(ResetParties(s), ids, |ids|);
    assert ids[..|ids|] == ids;
  }

  /** After a success, who is used. */
  lemma MigratedUse(s: Server, ids: seq<byte>)
    requires PoolInv(s.pool) && Migrate(s, ids).0.Ok?
    ensures var after := Migrate(s, ids).1;
            && |after.pool.slots| == |s.pool.slots|
            && (forall i :: 0 <= i < |s.pool.slots| ==>
                  after.pool.slots[i].id == i && (after.pool.slots[i].isUsed <==> s.pool.slots[i].isUsed || i in ids))
  {
    MigrateExactly(s, ids);
    var after := Migrate(s, ids).1;
    forall i | 0 <= i < |s.pool.slots|
      ensures after.pool.slots[i].id == i && (after.pool.slots[i].isUsed <==> s.pool.slots[i].isUsed || i in ids)
    {
      PreparedAt(ResetParties(s), ids, after, i);
    }
  }

  /** A pool in which exactly the listed ids are used is valid with their complement as its free list. */
  lemma ComplementMakesPool(pool: Pool, ids: seq<byte>)
    requires |pool.slots| < 64 && pool.free == Complement(ids, |pool.slots|)
    requires forall i :: 0 <= i < |pool.slots| ==> pool.slots[i].id == i && (pool.slots[i].isUsed <==> i in ids)
    requires pool.count == Count(pool.slots, IsUsed)
    ensures PoolInv(pool)
  {
    ComplementMeaning(ids, |pool.slots|);
    ComplementLength(ids, pool.slots, |pool.slots|);
    assert pool.slots[..|pool.slots|] == pool.slots;
    forall k | 0 <= k < |pool.free|
      ensures pool.free[k] < |pool.slots| && !pool.slots[pool.free[k]].isUsed
    {
      assert pool.free[k] in pool.free;
    }
  }

  /** A used slot outside the list ends up in the free list, so the pool is not valid. */
  lemma LeftoverBreaksPool(pool: Pool, ids: seq<byte>, i: byte)
    requires |pool.slots| < 64 && pool.free == Complement(ids, |pool.slots|)
    requires i < |pool.slots| && pool.slots[i].isUsed && i !in ids
    ensures !PoolInv(pool)
  {
    ComplementMeaning(ids, |pool.slots|);
    var k :| 0 <= k < |pool.free| && pool.free[k] == i;
  }

  /** The pool is valid after a successful migration exactly when nobody was in the game before it. */
  lemma MigrateRestoresPoolExactly(s: Server, ids: seq<byte>)
    requires PoolInv(s.pool) && Migrate(s, ids).0.Ok?
    ensures PoolInv(Migrate(s, ids).1.pool) <==> s.pool.count == 0
  {
    var after := Migrate(s, ids).1;
    MigrateExactly(s, ids);
    MigratedUse(s, ids);
    CountBounds(s.pool.slots, IsUsed);
    if s.pool.count == 0 {
      ComplementMakesPool(after.pool, ids);
    } else {
      var i: nat :| i < |s.pool.slots| && s.pool.slots[i].isUsed;
      LeftoverBreaksPool(after.pool, ids, i);
    }
  }

  /** Preparing a party adds one to the count if it succeeds, and leaves the free list alone. */
  lemma PreparePartyGrows(s: Server, id: byte)
    ensures var (r, after) := PrepareParty(s, id);
            && after.pool.free == s.pool.free && |after.pool.slots| == |s.pool.slots|
            && after.pool.count == s.pool.count + Indicator(r.Ok?)
  {
  }

  /** The free list outlives preparing the list, and the count has grown if already the first id could be prepared. */
  lemma {:induction false} PrepareAllGrows(s: Server, ids: seq<byte>, k: nat)
    requires 0 < k <= |ids|
    ensures var after := PrepareAll(s, ids, k).1;
            && after.pool.free == s.pool.free && |after.pool.slots| == |s.pool.slots|
            && after.pool.count >= s.pool.count + Indicator(PrepareParty(s, ids[0]).0.Ok?)
  {
    if k == 1 {
      assert PrepareAll(s, ids, 0) == (Ok(0), s);
      PreparePartyGrows(s, ids[0]);
    } else {
      PrepareAllGrows(s, ids, k - 1);
      PreparePartyGrows(PrepareAll(s, ids, k - 1).1, ids[k - 1]);
    }
  }

  /** A failed migration leaves a valid pool exactly when already its first id could not be prepared. */
  lemma FailedMigrationExactly(s: Server, ids: seq<byte>)
    requires PoolInv(s.pool) && Migrate(s, ids).0.Err?
    ensures ids != []
    ensures PoolInv(Migrate(s, ids).1.pool) <==>
            |s.table.parties| == 0 || ids[0] >= |s.pool.slots| || s.pool.slots[ids[0]].isUsed
  {
    var reset := ResetParties(s);
    PrepareAllGrows(reset, ids, |ids|);
    FirstFails(s, ids[0]);
    var after := Migrate(s, ids).1;
    if PrepareParty(reset, ids[0]).0.Err? {
      FailedAtOnce(reset, ids, |ids|);
    } else {
      assert |after.pool.free| + after.pool.count > |after.pool.slots|;
    }
  }

  lemma FirstFails(s: Server, id: byte)
    requires PoolInv(s.pool)
    ensures PrepareParty(ResetParties(s), id).0.Err? <==>
            |s.table.parties| == 0 || id >= |s.pool.slots| || s.pool.slots[id].isUsed
    ensures PrepareParty(ResetParties(s), id).0.Err? ==> PrepareParty(ResetParties(s), id).1.pool == s.pool
  {
    CountBounds(s.pool.slots, IsUsed);
  }

  lemma {:induction false} FailedAtOnce(s: Server, ids: seq<byte>, k: nat)
    requires 0 < k <= |ids| && PrepareParty(s, ids[0]).0.Err?
    ensures PrepareAll(s, ids, k) == PrepareParty(s, ids[0])
  {
    if k == 1 {
      assert PrepareAll(s, ids, 0) == (Ok(0), s);
    } else {
      FailedAtOnce(s, ids, k - 1);
    }
  }

  /** Each new buffer starts at or before the head exactly when the head is not the very first step id. */
  lemma MigrateAlignsExactly(s: Server, ids: seq<byte>, j: nat)
    requires PoolInv(s.pool) && Migrate(s, ids).0.Ok?
    requires j < |ids| && s.Head() < LAST_STEP_ID
    ensures ids[j] < |Migrate(s, ids).1.pool.slots|
    ensures Migrate(s, ids).1.pool.slots[ids[j]].steps.readId <= s.Head() <==> s.Head() > 0
    ensures Deaf(Migrate(s, ids).1.pool.slots[ids[j]].steps) <==> s.Head() == 0
  {
    MigrateExactly(s, ids);
  }

  /**
   * What a successful migration sets up for the j-th id: a participant that waits, with an empty buffer
   * for the step before the head, and the party in slot j that holds it. At head 0 the step before is the
   * last 32-bit id.
   */
  lemma MigrationSetsUp(s: Server, ids: seq<byte>, j: nat)
    requires PoolInv(s.pool) && Migrate(s, ids).0.Ok? && j < |ids| && |s.table.parties| <= 256
    ensures j < |s.table.parties| == |Migrate(s, ids).1.table.parties|
    ensures ids[j] < |s.pool.slots| == |Migrate(s, ids).1.pool.slots|
    ensures var was, after := s.table.parties[j], Migrate(s, ids).1;
            && after.pool.slots[ids[j]] ==
               Participant(ids[j], true, WaitingForRejoin, Some(j), 0,
                           StepBuffer(if s.Head() == 0 then 0xFFFF_FFFF else s.Head() - 1, []))
            && after.table.parties[j] ==
               Party(j, true, PartyWaiting, [ids[j]], 0, was.maxTimer, Quality(0, 0, 0, false), 0,
                     was.highestReceived, was.stepsInBuffer, 0)
  {
    MigrateExactly(s, ids);
    PreparedSetsUp(ResetParties(s), ids, Migrate(s, ids).1, j);
  }

  lemma PreparedSetsUp(s: Server, ids: seq<byte>, after: Server, j: nat)
    requires Prepared(s, ids, after) && j < |ids| && |s.table.parties| <= 256
    ensures var was := s.table.parties[j];
            && ids[j] < |s.pool.slots|
            && after.pool.slots[ids[j]] ==
               Participant(ids[j], true, WaitingForRejoin, Some(j), 0,
                           StepBuffer(if s.Head() == 0 then 0xFFFF_FFFF else s.Head() - 1, []))
            && after.table.parties[j] ==
               Party(j, true, PartyWaiting, [ids[j]], 0, was.maxTimer, Quality(0, 0, 0, false), 0,
                     was.highestReceived, was.stepsInBuffer, 0)
  {
  }

  /** And what it does to everything else: other participants stay, other parties are reset, the rest is the free list. */
  lemma MigrationLeaves(s: Server, ids: seq<byte>, i: byte, p: nat)
    requires PoolInv(s.pool) && Migrate(s, ids).0.Ok?
    ensures var after := Migrate(s, ids).1;
            && after.auth == s.auth && after.config == s.config
            && after.pool.count == s.pool.count + |ids| && after.table.count == s.table.count + |ids|
            && |after.pool.slots| == |s.pool.slots| && |after.table.parties| == |s.table.parties|
            && (i < |s.pool.slots| && i !in ids ==> after.pool.slots[i] == s.pool.slots[i])
            && (i in after.pool.free <==> i < |s.pool.slots| && i !in ids)
            && (forall a, b :: 0 <= a < b < |after.pool.free| ==> after.pool.free[a] < after.pool.free[b])
            && (|ids| <= p < |s.table.parties| ==>
                  after.table.parties[p] == s.table.parties[p].(isUsed := false, refs := [], timer := 0, zeroAddedWarnings := 0,
                                                                quality := Quality(0, 0, 0, false), impeding := 0))
  {
    MigrateExactly(s, ids);
    ComplementMeaning(ids, |s.pool.slots|);
  }

  // ---- What it answers ----------------------------------------------------------------------------

  /** Once an id could not be prepared, the rest of the list is not looked at. */
  lemma {:induction false} PrepareStops(s: Server, ids: seq<byte>, k: nat, n: nat, stopped: (Result<nat>, Server))
    requires Prepares(s, ids, k, stopped) && stopped.0.Err? && k <= n <= |ids|
    ensures Prepares(s, ids, n, stopped)
    decreases n - k
  {
    if k < n {
      PreparesNext(s, ids, k, stopped, stopped);
      PrepareStops(s, ids, k + 1, n, stopped);
    }
  }

  /** The first k ids can be prepared, and the next one not. */
  ghost predicate FailsAt(s: Server, ids: seq<byte>, k: nat) {
    && k < |ids| && k <= |s.table.parties| && Preparable(s.pool, ids[..k])
    && !(k < |s.table.parties| && Preparable(s.pool, ids[..k + 1]))
  }

  /**
   * The answer for the first id that cannot be prepared: -43 without a party slot, -54 without a
   * participant slot, an illegal id, or -2 for an id in use or already listed.
   */
  function AnswerAt(s: Server, ids: seq<byte>, k: nat): int
    requires k < |ids|
  {
    if k == |s.table.parties| then -43
    else if s.pool.count + k == |s.pool.slots| then -54
    else if ids[k] >= |s.pool.slots| then ERR_ILLEGAL_ID
    else -2
  }

  lemma NextAnswers(s: Server, ids: seq<byte>, k: nat, before: Server)
    requires NoPartyUsed(s.table.parties) && k < |ids| && Prepared(s, ids[..k], before) && PrepareParty(before, ids[k]).0.Err?
    ensures PrepareParty(before, ids[k]).0 == Err(AnswerAt(s, ids, k))
  {
    CountBounds(before.pool.slots, IsUsed);
    if k == |s.table.parties| {
      NoPlaceLeft(s, ids, k, before);
    } else {
      NextPartySlot(s, ids[..k], before);
    }
  }

  lemma PreparesUpTo(s: Server, ids: seq<byte>, k: nat) returns (before: (Result<nat>, Server))
    requires s.pool.count == Count(s.pool.slots, IsUsed) && NoPartyUsed(s.table.parties) && FailsAt(s, ids, k)
    ensures Prepares(s, ids, k, before) && before.0.Ok? && Prepared(s, ids[..k], before.1)
  {
    PrepareAllExactly(s, ids, k);
    before := PrepareAll(s, ids, k);
  }

  lemma FailsNext(s: Server, ids: seq<byte>, k: nat, next: (Result<nat>, Server))
    requires s.pool.count == Count(s.pool.slots, IsUsed) && NoPartyUsed(s.table.parties) && FailsAt(s, ids, k)
    requires Prepares(s, ids, k + 1, next)
    ensures next.0.Err?
  {
    PrepareAllExactly(s, ids, k + 1);
  }

  lemma PrepareAnswers(s: Server, ids: seq<byte>, k: nat) returns (stopped: (Result<nat>, Server))
    requires s.pool.count == Count(s.pool.slots, IsUsed) && NoPartyUsed(s.table.parties) && FailsAt(s, ids, k)
    ensures Prepares(s, ids, |ids|, stopped) && stopped.0 == Err(AnswerAt(s, ids, k))
  {
    var before := PreparesUpTo(s, ids, k);
    stopped := PrepareParty(before.1, ids[k]);
    PreparesNext(s, ids, k, before, stopped);
    FailsNext(s, ids, k, stopped);
    NextAnswers(s, ids, k, before.1);
    PrepareStops(s, ids, k + 1, |ids|, stopped);
  }

  /** A failed migration gives the answer for the first id that cannot be prepared. */
  lemma MigrationAnswers(s: Server, ids: seq<byte>, k: nat)
    requires PoolInv(s.pool) && FailsAt(s, ids, k)
    ensures Migrate(s, ids).0 ==
            Err(if k == |s.table.parties| then -43
                else if s.pool.count + k == |s.pool.slots| then -54
                else if ids[k] >= |s.pool.slots| then ERR_ILLEGAL_ID
                else -2)
  {
    var stopped := PrepareAnswers(ResetParties(s), ids, k);
  }

  /** Participant ids[j] and party j point at each other, and nothing else is in use. */
  ghost predicate Paired(slots: seq<Participant>, parties: seq<Party>, ids: seq<byte>) {
    && |ids| <= |parties| <= 256
    && (forall p :: 0 <= p < |parties| ==> parties[p].id == p && (parties[p].isUsed <==> p < |ids|))
    && (forall p :: 0 <= p < |parties| ==> parties[p].refs == if p < |ids| then [ids[p]] else [])
    && (forall j :: 0 <= j < |ids| ==>
          ids[j] < |slots| && slots[ids[j]].isUsed
          && slots[ids[j]].state == WaitingForRejoin && slots[ids[j]].inParty == Some(j))
    && (forall i :: 0 <= i < |slots| && slots[i].isUsed ==> i in ids)
  }

  lemma PairsOwn(pool: Pool, parties: seq<Party>, ids: seq<byte>)
    requires Paired(pool.slots, parties, ids)
    ensures OwnershipInv(pool, parties)
  {
    forall i | 0 <= i < |pool.slots| && pool.slots[i].isUsed
      ensures ParticipantOwned(pool, parties, i)
    {
      var j :| 0 <= j < |ids| && ids[j] == i;
      assert pool.slots[ids[j]].inParty == Some(j);
    }
  }

  lemma PreparedPairs(s: Server, ids: seq<byte>, after: Server)
    requires Prepared(s, ids, after) && |s.table.parties| <= 256
    requires forall p :: 0 <= p < |s.table.parties| ==>
      !s.table.parties[p].isUsed && s.table.parties[p].refs == [] && s.table.parties[p].id == p
    requires forall i :: 0 <= i < |s.pool.slots| ==> !s.pool.slots[i].isUsed
    ensures Paired(after.pool.slots, after.table.parties, ids)
  {
  }

  /** After a migration into an empty game, exactly the listed ids are used, waiting, each in a party of its own. */
  lemma MigratedPairs(s: Server, ids: seq<byte>)
    requires PoolInv(s.pool) && s.pool.count == 0 && Migrate(s, ids).0.Ok?
    requires |s.table.parties| <= 256 && forall p :: 0 <= p < |s.table.parties| ==> s.table.parties[p].id == p
    ensures Paired(Migrate(s, ids).1.pool.slots, Migrate(s, ids).1.table.parties, ids)
  {
    var after := Migrate(s, ids).1;
    MigrateExactly(s, ids);
    CountBounds(s.pool.slots, IsUsed);
    PreparedPairs(ResetParties(s), ids, after);
  }

  lemma MigrateKeepsOwnership(s: Server, ids: seq<byte>)
    requires ServerInv(s) && s.pool.count == 0 && Migrate(s, ids).0.Ok?
    ensures OwnershipInv(Migrate(s, ids).1.pool, Migrate(s, ids).1.table.parties)
  {
    MigratedPairs(s, ids);
    PairsOwn(Migrate(s, ids).1.pool, Migrate(s, ids).1.table.parties, ids);
  }

  lemma {:induction false} CountWaiting(parties: seq<Party>, n: nat)
    requires n <= |parties|
    requires forall p :: 0 <= p < n ==> parties[p].isUsed
    requires forall p :: n <= p < |parties| ==> !parties[p].isUsed
    ensures Count(parties, IsPartyUsed) == n
    decreases |parties|
  {
    if parties != [] {
      var m := |parties| - 1;
      CountWaiting(parties[..m], if n == |parties| then m else n);
    }
  }

  lemma NoParticipantsNoParties(s: Server)
    requires ServerInv(s) && s.pool.count == 0
    ensures NoPartyUsed(s.table.parties) && s.table.count == 0
  {
    CountBounds(s.pool.slots, IsUsed);
    assert forall p :: 0 <= p < |s.table.parties| ==> !PartyOwns(s.pool, s.table.parties, p);
    CountBounds(s.table.parties, IsPartyUsed);
  }

  ghost predicate EverySlotUnused(slots: seq<Participant>) {
    forall i :: 0 <= i < |slots| ==> !slots[i].isUsed
  }

  lemma PreparedSteps(s: Server, ids: seq<byte>, after: Server)
    requires Prepared(s, ids, after) && EverySlotUnused(s.pool.slots)
    ensures StepsInv(after.pool, after.Head(), after.config.maxStepOctets)
    ensures forall i :: 0 <= i < |after.pool.slots| && after.pool.slots[i].isUsed ==> after.pool.slots[i].state == WaitingForRejoin
  {
    forall i | 0 <= i < |after.pool.slots| && after.pool.slots[i].isUsed
      ensures BufferOk(after.pool.slots[i].steps, after.Head(), after.config.maxStepOctets)
      ensures after.pool.slots[i].state == WaitingForRejoin
    {
      var j :| 0 <= j < |ids| && ids[j] == i;
      assert after.pool.slots[ids[j]] == Occupied(ids[j], j, MigrationStart(s.Head()), 0, WaitingForRejoin);
    }
  }

  lemma PreparedParties(s: Server, ids: seq<byte>, after: Server)
    requires Prepared(s, ids, after) && EverySlotUnused(s.pool.slots)
    requires NoPartyUsed(s.table.parties) && s.table.count == 0
    ensures PartyInv(after.pool, after.table)
  {
    PreparedSteps(s, ids, after);
    CountWaiting(after.table.parties, |ids|);
  }

  /** The parts of the state that a migration into an empty game sets up or leaves alone. */
  lemma MigratedParts(s: Server, ids: seq<byte>)
    requires ServerInv(s) && s.pool.count == 0 && Migrate(s, ids).0.Ok?
    ensures var after := Migrate(s, ids).1;
            && StepsInv(after.pool, after.Head(), after.config.maxStepOctets)
            && PartyInv(after.pool, after.table)
            && after.config == s.config && after.auth == s.auth
            && |after.pool.slots| == |s.pool.slots| && |after.table.parties| == |s.table.parties|
  {
    MigrateExactly(s, ids);
    NoParticipantsNoParties(s);
    CountBounds(s.pool.slots, IsUsed);
    PreparedSteps(ResetParties(s), ids, Migrate(s, ids).1);
    PreparedParties(ResetParties(s), ids, Migrate(s, ids).1);
  }

  /** Migration into an empty game ends in a valid state, although preparing breaks the free list on the way. */
  lemma MigrateKeepsInv(s: Server, ids: seq<byte>)
    requires ServerInv(s) && s.pool.count == 0 && Migrate(s, ids).0.Ok?
    ensures ServerInv(Migrate(s, ids).1)
  {
    MigrateRestoresPoolExactly(s, ids);
    MigrateKeepsOwnership(s, ids);
    MigratedParts(s, ids);
  }
}
