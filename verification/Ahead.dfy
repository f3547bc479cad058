/** When the server composes, and how many steps, in the step ids that the participants have stored. */
module WriteIds {
  import opened States
  import opened Invariants
  import opened Scheduling

  /** The participant takes part; one that is leaving only if asked for. */
  predicate TakesPart(p: Participant, leavingToo: bool) { p.isUsed && (leavingToo || p.state != Leaving) }

  /** The participant has steps stored, and the next one it would store has at least this id. */
  predicate ReachesTo(p: Participant, id: nat) { p.steps.entries != [] && p.steps.WriteId() >= id }

  ghost predicate SomebodyReaches(slots: seq<Participant>, id: nat, leavingToo: bool) {
    exists i :: 0 <= i < |slots| && TakesPart(slots[i], leavingToo) && ReachesTo(slots[i], id)
  }

  ghost predicate EverybodyReaches(slots: seq<Participant>, id: nat, leavingToo: bool) {
    forall i :: 0 <= i < |slots| && TakesPart(slots[i], leavingToo) ==> ReachesTo(slots[i], id)
  }

  /** Step h is due: somebody has four more stored after it, or two more while nobody lacks it. */
  ghost predicate Due(slots: seq<Participant>, h: nat, leavingToo: bool) {
    || SomebodyReaches(slots, h + 5, leavingToo)
    || (SomebodyReaches(slots, h + 3, leavingToo) && EverybodyReaches(slots, h + 1, leavingToo))
  }

  // ---- Leads in step ids --------------------------------------------------------------------------

  lemma LeadReaches(p: Participant, h: nat, k: nat)
    requires k > 0
    ensures Lead(p, h) >= k <==> ReachesTo(p, h + k)
  {
  }

  lemma SomebodySnoc(slots: seq<Participant>, id: nat, leavingToo: bool, k: nat)
    requires k < |slots|
    ensures SomebodyReaches(slots[..k + 1], id, leavingToo) <==>
            SomebodyReaches(slots[..k], id, leavingToo) || (TakesPart(slots[k], leavingToo) && ReachesTo(slots[k], id))
    ensures EverybodyReaches(slots[..k + 1], id, leavingToo) <==>
            EverybodyReaches(slots[..k], id, leavingToo) && (TakesPart(slots[k], leavingToo) ==> ReachesTo(slots[k], id))
  {
    assert slots[..k + 1][k] == slots[k];
    assert forall i :: 0 <= i < k ==> slots[..k + 1][i] == slots[..k][i];
  }

  /** What the extremes of some leads say about reaching n. */
  predicate Reach(leads: seq<nat>, n: nat, somebody: bool, everybody: bool) {
    && (Largest(leads) >= n <==> somebody)
    && (leads == [] || Smallest(leads) >= n <==> everybody)
  }

  lemma ReachNext(leads: seq<nat>, n: nat, somebody: bool, everybody: bool, lead: nat)
    requires n > 0 && Reach(leads, n, somebody, everybody)
    ensures Reach(leads + [lead], n, somebody || lead >= n, everybody && lead >= n)
  {
    ExtremesOfAppend(leads, lead);
  }

  lemma LeadsNext(slots: seq<Participant>, h: nat, k: nat, leavingToo: bool)
    requires k < |slots|
    ensures Leads(slots, h, k + 1, leavingToo) ==
            if TakesPart(slots[k], leavingToo) then Leads(slots, h, k, leavingToo) + [Lead(slots[k], h)]
            else Leads(slots, h, k, leavingToo)
  {
  }

  /** The largest and the smallest lead of the first k slots, in step ids. */
  ghost predicate ExtremesReachAt(slots: seq<Participant>, h: nat, n: nat, leavingToo: bool, k: nat) {
    && k <= |slots|
    && Reach(Leads(slots, h, k, leavingToo), n,
             SomebodyReaches(slots[..k], h + n, leavingToo), EverybodyReaches(slots[..k], h + n, leavingToo))
  }

  lemma ExtremesReachNext(slots: seq<Participant>, h: nat, n: nat, leavingToo: bool, k: nat)
    requires n > 0 && k < |slots| && ExtremesReachAt(slots, h, n, leavingToo, k)
    ensures ExtremesReachAt(slots, h, n, leavingToo, k + 1)
  {
    SomebodySnoc(slots, h + n, leavingToo, k);
    LeadsNext(slots, h, k, leavingToo);
    if TakesPart(slots[k], leavingToo) {
      LeadReaches(slots[k], h, n);
      ReachNext(Leads(slots, h, k, leavingToo), n, SomebodyReaches(slots[..k], h + n, leavingToo),
                EverybodyReaches(slots[..k], h + n, leavingToo), Lead(slots[k], h));
    }
  }

  lemma {:induction false} ExtremesReach(slots: seq<Participant>, h: nat, n: nat, leavingToo: bool, k: nat)
    requires k <= |slots| && n > 0
    ensures ExtremesReachAt(slots, h, n, leavingToo, k)
  {
    if k > 0 {
      ExtremesReach(slots, h, n, leavingToo, k - 1);
      ExtremesReachNext(slots, h, n, leavingToo, k - 1);
    }
  }

  /** The decision about the n-th step from h on, as the closed form has it. */
  lemma AppetiteReaches(slots: seq<Participant>, h: nat, n: nat, leavingToo: bool)
    ensures var leads := Leads(slots, h, |slots|, leavingToo);
            Appetite(Largest(leads), Smallest(leads)) > n <==> Due(slots, h + n, leavingToo)
  {
    assert slots[..|slots|] == slots;
    ExtremesReach(slots, h, n + 5, leavingToo, |slots|);
    ExtremesReach(slots, h, n + 3, leavingToo, |slots|);
    ExtremesReach(slots, h, n + 1, leavingToo, |slots|);
  }

  // ---- The decision -------------------------------------------------------------------------------

  /** The server decides to compose exactly when the step is due, whoever is leaving included. */
  lemma ShouldComposeExactly(slots: seq<Participant>, h: nat)
    ensures ShouldCompose(slots, h) <==> Due(slots, h, true)
  {
    var leads := Leads(slots, h, |slots|, true);
    DecisionMeaning(slots, h);
    AppetiteStep(Largest(leads), Smallest(leads));
    AppetiteReaches(slots, h, 0, true);
  }

  /** The two numbers that the loop over the participants computes. */
  lemma CountsReach(slots: seq<Participant>, h: nat, n: nat)
    requires n > 0
    ensures MaxContribution(slots, h, |slots|) > n <==> SomebodyReaches(slots, h + n, true)
    ensures CannotContribute(slots, h, |slots|) == 0 <==> EverybodyReaches(slots, h + 1, true)
  {
    assert slots[..|slots|] == slots;
    DecisionInLeads(slots, h, |slots|);
    ExtremesReach(slots, h, n, true, |slots|);
    ExtremesReach(slots, h, 1, true, |slots|);
  }

  /** At rest with the gate open: nobody has step h + 4, and nobody step h + 2 unless somebody lacks step h. */
  lemma AtRestExactly(s: Server)
    requires |s.auth.entries| < s.config.window / 2
    ensures !ShouldAdvance(s) <==>
            && !SomebodyReaches(s.pool.slots, s.Head() + 5, true)
            && (EverybodyReaches(s.pool.slots, s.Head() + 1, true) ==> !SomebodyReaches(s.pool.slots, s.Head() + 3, true))
  {
    ShouldComposeExactly(s.pool.slots, s.Head());
  }

  // ---- How many -----------------------------------------------------------------------------------

  lemma LaterIsDue(slots: seq<Participant>, h: nat, n: nat, leavingToo: bool)
    requires Due(slots, h + n, leavingToo)
    ensures Due(slots, h, leavingToo)
  {
  }

  /**
   * Which steps one call composes. It composes the n-th step after the head exactly when the window has
   * room for it and, n > 0 being decided without those who leave with the first step, it is due.
   */
  lemma ComposesExactly(s: Server, n: nat)
    requires ServerInv(s)
    ensures ComposeAll(s).1 > n <==>
            && |s.auth.entries| + n < s.config.window / 2
            && Due(s.pool.slots, s.Head(), true)
            && (n > 0 ==> Due(s.pool.slots, s.Head() + n, false))
  {
    ShouldComposeExactly(s.pool.slots, s.Head());
    ComposeCountAlways(s);
    if n > 0 {
      var staying := StayingLeads(s);
      AppetiteReaches(s.pool.slots, s.Head(), n, false);
      AppetiteLater(Largest(staying), Smallest(staying), n);
    }
  }

  lemma AppetiteLater(most: nat, least: nat, n: nat)
    requires n > 0
    ensures Appetite(most, least) > n <==> Appetite(Pred(most), Pred(least)) > n - 1
  {
  }

  /** The call of a server that nobody is leaving: the n-th step is composed exactly when it is due and there is room. */
  lemma ComposesExactlyStaying(s: Server, n: nat)
    requires ServerInv(s) && NobodyLeaving(s.pool.slots)
    ensures ComposeAll(s).1 > n <==> |s.auth.entries| + n < s.config.window / 2 && Due(s.pool.slots, s.Head() + n, true)
  {
    ComposesExactly(s, n);
    LeavingMakesNoDifference(s.pool.slots, s.Head() + n);
    if Due(s.pool.slots, s.Head() + n, true) {
      LaterIsDue(s.pool.slots, s.Head(), n, true);
    }
  }

  lemma LeavingMakesNoDifference(slots: seq<Participant>, h: nat)
    requires NobodyLeaving(slots)
    ensures Due(slots, h, true) <==> Due(slots, h, false)
  {
    assert forall i :: 0 <= i < |slots| ==> TakesPart(slots[i], true) == TakesPart(slots[i], false);
  }
}
