/**
 * Which participants a party's quality answers for. A leaving participant still points at the party
 * slot it came from, also after that slot has been given to a new party.
 */
module Charges {
  import opened Common
  import opened StepBuffers
  import opened States
  import opened Qualities
  import opened Invariants
  import opened Composition
  import opened Parties

  /** The effect of one participant on the quality of its party: it provided its step, or it did not. */
  function OneCharge(q: Quality, provided: bool): Quality {
    if provided then ProvidedUsableStep(q) else AddedForcedSteps(q, 1)
  }

  function AllCharges(q: Quality, charges: seq<bool>): Quality {
    if charges == [] then q else OneCharge(AllCharges(q, charges[..|charges| - 1]), charges[|charges| - 1])
  }

  /** For each of the first k slots that is in use and points at the party: whether its step is there. */
  function ChargesTo(slots: seq<Participant>, party: nat, h: nat, k: nat): seq<bool>
    requires k <= |slots|
  {
    if k == 0 then []
    else
      ChargesTo(slots, party, h, k - 1) +
      if slots[k - 1].isUsed && slots[k - 1].inParty == Some(party) then [Lookup(slots[k - 1].steps, h).Some?] else []
  }

  lemma {:induction false} QualityIsAllCharges(q: Quality, slots: seq<Participant>, party: nat, h: nat, k: nat)
    requires k <= |slots|
    ensures QualityAfter(q, slots, party, h, k) == AllCharges(q, ChargesTo(slots, party, h, k))
  {
    if k > 0 {
      QualityIsAllCharges(q, slots, party, h, k - 1);
      var before := ChargesTo(slots, party, h, k - 1);
      if slots[k - 1].isUsed && slots[k - 1].inParty == Some(party) {
        assert ChargesTo(slots, party, h, k)[..|before|] == before;
      } else {
        assert ChargesTo(slots, party, h, k) == before;
      }
    }
  }

  /** From counters that stand at n, a list of charges ends with counters far from n, unless all charges are alike. */
  lemma {:induction false} ChargesFromHigh(charges: seq<bool>, n: nat)
    requires |charges| > 0
    ensures var r := AllCharges(Quality(n, n, 0, true), charges);
            if charges[|charges| - 1]
            then r.forcedInRow == 0 && (r.providedInRow == n + |charges| || r.providedInRow < |charges|)
            else r.providedInRow == 0 && (r.forcedInRow == n + |charges| || r.forcedInRow < |charges|)
  {
    if |charges| > 1 {
      ChargesFromHigh(charges[..|charges| - 1], n);
    } else {
      assert charges[..0] == [];
    }
  }

  /** Charging a list has the effect of a single charge on every quality only if the list is that single charge. */
  lemma OnlyOneCharge(charges: seq<bool>, own: bool)
    requires |charges| > 1
    ensures exists q :: AllCharges(q, charges) != OneCharge(q, own)
  {
    var q := Quality(|charges|, |charges|, 0, true);
    ChargesFromHigh(charges, |charges|);
    assert AllCharges(q, charges) != OneCharge(q, own);
  }

  // ---- When a party is failing --------------------------------------------------------------------

  /** The last n charges are all misses. */
  predicate MissedLast(charges: seq<bool>, n: nat) {
    n <= |charges| && forall k :: |charges| - n <= k < |charges| ==> !charges[k]
  }

  /**
   * A party is failing: it has provided a step, and missed the last 20; or it has provided none yet,
   * and missed 200.
   */
  predicate FailsBy(charges: seq<bool>) {
    if true in charges then MissedLast(charges, 20) else |charges| >= 200
  }

  /** The counters after a history of charges. */
  ghost predicate Records(q: Quality, charges: seq<bool>) {
    && (q.hasAddedFirst <==> true in charges)
    && MissedLast(charges, q.forcedInRow)
    && (q.forcedInRow == |charges| || charges[|charges| - 1 - q.forcedInRow])
    && q.providedInRow <= |charges|
    && (forall k :: |charges| - q.providedInRow <= k < |charges| ==> charges[k])
    && (q.providedInRow == |charges| || !charges[|charges| - 1 - q.providedInRow])
  }

  lemma RecordsNext(q: Quality, charges: seq<bool>, provided: bool)
    requires Records(q, charges)
    ensures Records(OneCharge(q, provided), charges + [provided])
  {
    var more := charges + [provided];
    assert more[|charges|] == provided;
    assert forall k :: 0 <= k < |charges| ==> more[k] == charges[k];
    assert true in more <==> true in charges || provided;
  }

  lemma {:induction false} ChargesRecorded(q: Quality, done: seq<bool>, charges: seq<bool>)
    requires Records(q, done)
    ensures Records(AllCharges(q, charges), done + charges)
  {
    if charges == [] {
      assert done + charges == done;
    } else {
      var n := |charges| - 1;
      ChargesRecorded(q, done, charges[..n]);
      RecordsNext(AllCharges(q, charges[..n]), done + charges[..n], charges[n]);
      assert done + charges[..n] + [charges[n]] == done + charges;
    }
  }

  lemma FreshRecords()
    ensures Records(Quality(0, 0, 0, false), [])
  {
  }

  /** Counters that record a history are failing exactly when the history is. */
  lemma RecordedFailing(q: Quality, charges: seq<bool>)
    requires Records(q, charges)
    ensures IsFailing(q) <==> FailsBy(charges)
  {
    if q.forcedInRow < |charges| {
      var last := |charges| - 1 - q.forcedInRow;
      assert charges[last];
    }
  }

  /** From a reset on, a party is failing exactly when its charges say so. */
  lemma FailingExactly(charges: seq<bool>)
    ensures IsFailing(AllCharges(Quality(0, 0, 0, false), charges)) <==>
            if true in charges
            then |charges| >= 20 && forall k :: |charges| - 20 <= k < |charges| ==> !charges[k]
            else |charges| >= 200
  {
    FreshRecords();
    ChargesRecorded(Quality(0, 0, 0, false), [], charges);
    assert [] + charges == charges;
    RecordedFailing(AllCharges(Quality(0, 0, 0, false), charges), charges);
  }

  // ---- Whom a party answers for -------------------------------------------------------------------

  /** Nobody but its own participant points at party p. */
  ghost predicate NoStranger(slots: seq<Participant>, p: nat, own: nat) {
    forall i :: 0 <= i < |slots| && i != own && slots[i].isUsed ==> slots[i].inParty != Some(p)
  }

  lemma {:induction false} ChargeCount(slots: seq<Participant>, p: nat, h: nat, own: nat, k: nat)
    requires k <= |slots| && own < |slots| && slots[own].isUsed && slots[own].inParty == Some(p)
    ensures NoStranger(slots[..k], p, own) ==>
              ChargesTo(slots, p, h, k) == if own < k then [Lookup(slots[own].steps, h).Some?] else []
    ensures !NoStranger(slots[..k], p, own) ==> |ChargesTo(slots, p, h, k)| >= if own < k then 2 else 1
  {
    if k > 0 {
      ChargeCount(slots, p, h, own, k - 1);
      assert forall i :: 0 <= i < k - 1 ==> slots[..k][i] == slots[..k - 1][i];
      assert slots[..k][k - 1] == slots[k - 1];
    }
  }

  /**
   * A party's quality answers for its own participant alone, whatever its quality was,
   * exactly when no leaving participant still points at its slot.
   */
  lemma ChargedForOwnExactly(s: Server, p: nat, h: nat)
    requires ServerInv(s) && p < |s.table.parties| && s.table.parties[p].isUsed
    ensures PartyOwns(s.pool, s.table.parties, p)
    ensures var own := s.table.parties[p].refs[0];
            (forall q :: QualityAfter(q, s.pool.slots, p, h, |s.pool.slots|) == OneCharge(q, Lookup(s.pool.slots[own].steps, h).Some?))
            <==>
            (forall i :: 0 <= i < |s.pool.slots| && s.pool.slots[i].isUsed && s.pool.slots[i].state == Leaving ==>
               s.pool.slots[i].inParty != Some(p))
  {
    var slots := s.pool.slots;
    assert PartyOwns(s.pool, s.table.parties, p);
    var own := s.table.parties[p].refs[0];
    var provided := Lookup(slots[own].steps, h).Some?;
    var charges := ChargesTo(slots, p, h, |slots|);
    ChargeCount(slots, p, h, own, |slots|);
    assert slots[..|slots|] == slots;
    StrangersAreLeaving(s, p, own);
    if NoStranger(slots, p, own) {
      assert charges[..0] == [];
      forall q
        ensures QualityAfter(q, slots, p, h, |slots|) == OneCharge(q, provided)
      {
        QualityIsAllCharges(q, slots, p, h, |slots|);
      }
    } else {
      OnlyOneCharge(charges, provided);
      var q :| AllCharges(q, charges) != OneCharge(q, provided);
      QualityIsAllCharges(q, slots, p, h, |slots|);
    }
  }

  lemma StrangersAreLeaving(s: Server, p: nat, own: nat)
    requires ServerInv(s) && p < |s.table.parties| && s.table.parties[p].isUsed && s.table.parties[p].refs == [own]
    requires own < |s.pool.slots| && s.pool.slots[own].state != Leaving
    ensures NoStranger(s.pool.slots, p, own) <==>
            (forall i :: 0 <= i < |s.pool.slots| && s.pool.slots[i].isUsed && s.pool.slots[i].state == Leaving ==>
               s.pool.slots[i].inParty != Some(p))
  {
    forall i | 0 <= i < |s.pool.slots| && i != own && s.pool.slots[i].isUsed && s.pool.slots[i].inParty == Some(p)
      ensures s.pool.slots[i].state == Leaving
    {
      assert ParticipantOwned(s.pool, s.table.parties, i);
    }
  }

  /**
   * It does happen: a party is given up, and before the next step is composed somebody joins.
   * The participant that is leaving and the one that has just joined then point at the same party.
   */
  lemma LeaverAndNewcomerShareParty(s: Server, p: nat, localIndex: nat)
    requires ServerInv(s) && p < |s.table.parties| && s.table.parties[p].isUsed
    requires s.table.parties[p].state.PartyWaiting? && s.table.parties[p].timer + 1 >= s.table.parties[p].maxTimer
    requires forall q :: 0 <= q < p ==> s.table.parties[q].isUsed
    requires s.pool.free != []
    ensures var r, after := s.table.parties[p].refs, JoinGame(TickParty(s, p), localIndex).1;
            && |r| == 1 && r[0] < |after.pool.slots| && p < |after.table.parties|
            && after.pool.slots[r[0]].isUsed && after.pool.slots[r[0]].state == Leaving
            && after.pool.slots[r[0]].inParty == Some(p)
            && after.table.parties[p].isUsed && after.table.parties[p].refs == [s.pool.free[0] as nat] != r
  {
    GivenUpParty(s, p);
    var ticked := TickParty(s, p);
    FirstIs(ticked.table.parties, p, 0);
    JoinGameExactly(ticked, localIndex);
  }

  /** After the tick that gives a party up, its slot is free and its participant is leaving. */
  lemma GivenUpParty(s: Server, p: nat)
    requires ServerInv(s) && p < |s.table.parties| && s.table.parties[p].isUsed
    requires s.table.parties[p].state.PartyWaiting? && s.table.parties[p].timer + 1 >= s.table.parties[p].maxTimer
    ensures var r, ticked := s.table.parties[p].refs, TickParty(s, p);
            && ServerInv(ticked)
            && |ticked.table.parties| == |s.table.parties| && ticked.pool.free == s.pool.free
            && !ticked.table.parties[p].isUsed
            && (forall q :: 0 <= q < |s.table.parties| && q != p ==> ticked.table.parties[q] == s.table.parties[q])
            && |r| == 1 && r[0] < |ticked.pool.slots|
            && ticked.pool.slots[r[0]].isUsed && ticked.pool.slots[r[0]].state == Leaving
            && ticked.pool.slots[r[0]].inParty == Some(p)
  {
    assert PartyOwns(s.pool, s.table.parties, p);
    TickKeepsInv(s, p);
  }

  lemma {:induction false} FirstIs(parties: seq<Party>, p: nat, k: nat)
    requires k <= p < |parties| && !parties[p].isUsed && forall q :: k <= q < p ==> parties[q].isUsed
    ensures FirstUnused(parties, k) == Some(p)
    decreases p - k
  {
    if k < p {
      FirstIs(parties, p, k + 1);
    }
  }
}
