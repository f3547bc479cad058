/** How many authoritative steps one call composes: the loop, its decision, and a closed form. */
module Scheduling {
  import opened Common
  import opened StepBuffers
  import opened States
  import opened PartyLives
  import opened Invariants
  import opened Codec
  import opened Composition

  // ---- One step of the server -------------------------------------------------------------------

  lemma InvIsReadable(s: Server)
    requires ServerInv(s)
    ensures IdsMatch(s.pool.slots) && Readable(s.pool.slots, s.Head())
  {
    forall i | 0 <= i < |s.pool.slots| && s.pool.slots[i].isUsed
      ensures s.pool.slots[i].steps.readId <= s.Head() || s.pool.slots[i].steps.entries == []
    {
      assert BufferOk(s.pool.slots[i].steps, s.Head(), s.config.maxStepOctets);
    }
  }

  /** The records of the next step. */
  function StepRecords(s: Server): seq<Record> {
    RecordsOf(s.pool.slots, s.table.parties, s.Head(), |s.pool.slots|)
  }

  /** One record for each participant, and each fits its encoding. */
  lemma StepRecordsOk(s: Server)
    requires ServerInv(s)
    ensures RecordsOk(StepRecords(s), s.config.maxStepOctets) && |StepRecords(s)| == s.pool.count < 64
  {
    var slots := s.pool.slots;
    RecordsEncodable(s.pool, s.table.parties, s.Head(), s.config.maxStepOctets, |slots|);
    RecordCount(slots, s.table.parties, s.Head(), |slots|);
    assert slots[..|slots|] == slots;
  }

  /** Runs the loop over all slots and appends the octets to the authoritative steps. */
  function ComposeStep(s: Server): (r: Server)
    ensures r.config == s.config && |r.auth.entries| == |s.auth.entries| + 1
  {
    var w := SlotSteps(s.pool, s.table.parties, s.Head(), |s.pool.slots|);
    Server(s.config, w.pool, s.table.(parties := w.parties),
           Appended(s.auth, EncodeStep(s.config.codes, StepRecords(s))))
  }

  /** What the step does to slots and parties, read off the loop. */
  lemma ComposeStepMeaning(s: Server)
    requires ServerInv(s)
    ensures var r := ComposeStep(s);
            && |r.pool.slots| == |s.pool.slots| && |r.table.parties| == |s.table.parties|
            && (forall i :: 0 <= i < |s.pool.slots| ==> r.pool.slots[i] == ParticipantAfter(s.pool.slots[i], s.Head()))
            && r.pool.free == s.pool.free + LeavingIds(s.pool.slots, |s.pool.slots|)
            && (forall p :: 0 <= p < |s.table.parties| ==>
                  r.table.parties[p] == s.table.parties[p].(quality := r.table.parties[p].quality))
            && SlotSteps(s.pool, s.table.parties, s.Head(), |s.pool.slots|).records == StepRecords(s)
  {
    InvIsReadable(s);
    LoopIsPointwise(s.pool, s.table.parties, s.Head(), |s.pool.slots|);
  }

  /** The step fits the composing buffer, so no write to it can fail. */
  lemma ComposedOctetsFit(s: Server)
    requires ServerInv(s)
    ensures |EncodeStep(s.config.codes, StepRecords(s))| <= 1 + s.pool.count * (4 + s.config.maxStepOctets) <= COMPOSE_OCTETS
  {
    StepRecordsOk(s);
    CountBounds(s.pool.slots, IsUsed);
    StepLength(s.config, StepRecords(s), |s.pool.slots|);
  }

  /** A decoder recovers exactly the records of the step; the count octet is the number of participants on entry. */
  lemma ComposedStepDecodes(s: Server)
    requires ServerInv(s)
    ensures var octets := EncodeStep(s.config.codes, StepRecords(s));
            DecodeStep(s.config.codes, octets) == Some(StepRecords(s)) && octets[0] == s.pool.count
  {
    StepRecordsOk(s);
    DecodeStepBack(s.config.codes, StepRecords(s));
  }

  lemma StepLength(config: Config, rs: seq<Record>, capacity: nat)
    requires RecordsOk(rs, config.maxStepOctets) && |rs| <= capacity < 256 && ConfigOk(config, capacity)
    ensures |EncodeStep(config.codes, rs)| <= 1 + |rs| * (4 + config.maxStepOctets) <= COMPOSE_OCTETS
  {
    EncodeAllLength(config.codes, rs, config.maxStepOctets);
    MultiplyMonotone(|rs|, capacity, 4 + config.maxStepOctets);
  }

  lemma MultiplyMonotone(a: nat, b: nat, unit: nat)
    requires a <= b
    ensures a * unit <= b * unit
  {
  }

  lemma BufferStaysOk(b: StepBuffer, h: nat, maxOctets: nat)
    requires BufferOk(b, h, maxOctets)
    ensures BufferOk(ReadExact(b, h).1, h + 1, maxOctets)
  {
  }

  lemma ComposeKeepsSteps(s: Server)
    requires ServerInv(s)
    ensures StepsInv(ComposeStep(s).pool, s.Head() + 1, s.config.maxStepOctets)
  {
    ComposeStepMeaning(s);
    var r := ComposeStep(s);
    forall i | 0 <= i < |r.pool.slots| && r.pool.slots[i].isUsed
      ensures BufferOk(r.pool.slots[i].steps, s.Head() + 1, s.config.maxStepOctets)
    {
      BufferStaysOk(s.pool.slots[i].steps, s.Head(), s.config.maxStepOctets);
    }
  }

  lemma ComposeKeepsOwnership(s: Server)
    requires ServerInv(s)
    ensures OwnershipInv(ComposeStep(s).pool, ComposeStep(s).table.parties)
  {
    ComposeStepMeaning(s);
    var r := ComposeStep(s);
    var pool, parties := r.pool, r.table.parties;
    forall p | 0 <= p < |parties| && parties[p].isUsed
      ensures PartyOwns(pool, parties, p)
    {
      assert PartyOwns(s.pool, s.table.parties, p);
    }
    forall i | 0 <= i < |pool.slots| && pool.slots[i].isUsed
      ensures ParticipantOwned(pool, parties, i)
    {
      assert ParticipantOwned(s.pool, s.table.parties, i);
    }
  }

  lemma ComposeKeepsParties(s: Server)
    requires ServerInv(s)
    ensures PartyInv(ComposeStep(s).pool, ComposeStep(s).table)
  {
    ComposeStepMeaning(s);
    var r := ComposeStep(s);
    CountCongruent(s.table.parties, r.table.parties, IsPartyUsed);
    QualityStaysPlausible(s.table.parties, r.table.parties);
    NoNewcomers(s.pool.slots, r.pool.slots, r.table.parties, s.Head());
  }

  /** Whatever happens to their quality, used parties are where ticks can take them. */
  lemma QualityStaysPlausible(parties: seq<Party>, after: seq<Party>)
    requires |after| == |parties| && forall p :: 0 <= p < |parties| ==> after[p] == parties[p].(quality := after[p].quality)
    requires forall p :: 0 <= p < |parties| && parties[p].isUsed ==> Plausible(parties[p])
    ensures forall p :: 0 <= p < |after| && after[p].isUsed ==> Plausible(after[p])
  {
  }

  /** After a composed step, nobody has just joined. */
  lemma NoNewcomers(slots: seq<Participant>, after: seq<Participant>, parties: seq<Party>, h: nat)
    requires |after| == |slots| && forall i :: 0 <= i < |slots| ==> after[i] == ParticipantAfter(slots[i], h)
    ensures NewcomersSpotless(after, parties)
  {
  }

  lemma ComposeKeepsInv(s: Server)
    requires ServerInv(s) && |s.auth.entries| < s.config.window / 2
    ensures ServerInv(ComposeStep(s))
  {
    LoopKeepsPool(s.pool, s.table.parties, s.Head(), |s.pool.slots|);
    ComposeKeepsSteps(s);
    ComposeKeepsOwnership(s);
    ComposeKeepsParties(s);
  }

  // ---- The decision -------------------------------------------------------------------------------

  /** How many steps a participant is ahead of step h; zero if it cannot contribute. */
  function Lead(p: Participant, h: nat): nat {
    if |p.steps.entries| > 0 && p.steps.WriteId() > h then p.steps.WriteId() - h else 0
  }

  /** The count the source works with: one more than the lead. */
  function Contribution(p: Participant, h: nat): nat {
    if Lead(p, h) > 0 then Lead(p, h) + 1 else 0
  }

  function MaxContribution(slots: seq<Participant>, h: nat, k: nat): nat
    requires k <= |slots|
  {
    if k == 0 then 0
    else
      var before := MaxContribution(slots, h, k - 1);
      if slots[k - 1].isUsed && Contribution(slots[k - 1], h) > before then Contribution(slots[k - 1], h) else before
  }

  function CannotContribute(slots: seq<Participant>, h: nat, k: nat): nat
    requires k <= |slots|
  {
    if k == 0 then 0
    else CannotContribute(slots, h, k - 1) + Indicator(slots[k - 1].isUsed && Lead(slots[k - 1], h) == 0)
  }

  predicate ShouldCompose(slots: seq<Participant>, h: nat) {
    var most := MaxContribution(slots, h, |slots|);
    (most > 3 && CannotContribute(slots, h, |slots|) == 0) || most > 5
  }

  predicate GateOpen(s: Server) { |s.auth.entries| < s.config.window / 2 }

  predicate ShouldAdvance(s: Server) { ShouldCompose(s.pool.slots, s.Head()) && GateOpen(s) }

  /** The leads of the first k slots that are in use; leaving participants only if asked for. */
  function Leads(slots: seq<Participant>, h: nat, k: nat, leavingToo: bool): seq<nat>
    requires k <= |slots|
  {
    if k == 0 then []
    else
      Leads(slots, h, k - 1, leavingToo) +
      if slots[k - 1].isUsed && (leavingToo || slots[k - 1].state != Leaving) then [Lead(slots[k - 1], h)] else []
  }

  /** The leads of all participants. */
  function AllLeads(s: Server): seq<nat> { Leads(s.pool.slots, s.Head(), |s.pool.slots|, true) }

  /** The leads of all participants that are not leaving. */
  function StayingLeads(s: Server): seq<nat> { Leads(s.pool.slots, s.Head(), |s.pool.slots|, false) }

  function Largest(xs: seq<nat>): nat {
    if xs == [] then 0 else Max(Largest(xs[..|xs| - 1]), xs[|xs| - 1])
  }

  function Smallest(xs: seq<nat>): nat {
    if |xs| == 0 then 0
    else if |xs| == 1 then xs[0]
    else Min(Smallest(xs[..|xs| - 1]), xs[|xs| - 1])
  }

  lemma ExtremesOfAppend(xs: seq<nat>, x: nat)
    ensures Largest(xs + [x]) == Max(Largest(xs), x)
    ensures Smallest(xs + [x]) == if xs == [] then x else Min(Smallest(xs), x)
  {
    assert (xs + [x])[..|xs|] == xs;
  }

  /** The decision in terms of the largest and the smallest lead. */
  predicate Decides(most: nat, least: nat) { most >= 5 || (most >= 3 && least >= 1) }

  /** What the two counts of the source say about the leads. */
  predicate Summarises(most: nat, cannot: nat, leads: seq<nat>) {
    && most == (if Largest(leads) > 0 then Largest(leads) + 1 else 0)
    && (cannot == 0 <==> leads == [] || Smallest(leads) > 0)
  }

  lemma SummaryNext(most: nat, cannot: nat, leads: seq<nat>, lead: nat)
    requires Summarises(most, cannot, leads)
    ensures Summarises(if lead > 0 && lead + 1 > most then lead + 1 else most, cannot + Indicator(lead == 0), leads + [lead])
  {
    ExtremesOfAppend(leads, lead);
  }

  lemma {:induction false} DecisionInLeads(slots: seq<Participant>, h: nat, k: nat)
    requires k <= |slots|
    ensures Summarises(MaxContribution(slots, h, k), CannotContribute(slots, h, k), Leads(slots, h, k, true))
  {
    if k > 0 {
      DecisionInLeads(slots, h, k - 1);
      var leads := Leads(slots, h, k - 1, true);
      CountsNext(slots, h, k);
      if slots[k - 1].isUsed {
        SummaryNext(MaxContribution(slots, h, k - 1), CannotContribute(slots, h, k - 1), leads, Lead(slots[k - 1], h));
      }
    }
  }

  /** One more slot in the loop over the participants. */
  lemma CountsNext(slots: seq<Participant>, h: nat, k: nat)
    requires 0 < k <= |slots|
    ensures var most, cannot, leads := MaxContribution(slots, h, k - 1), CannotContribute(slots, h, k - 1), Leads(slots, h, k - 1, true);
            var lead := Lead(slots[k - 1], h);
            if slots[k - 1].isUsed
            then && MaxContribution(slots, h, k) == (if lead > 0 && lead + 1 > most then lead + 1 else most)
                 && CannotContribute(slots, h, k) == cannot + Indicator(lead == 0)
                 && Leads(slots, h, k, true) == leads + [lead]
            else && MaxContribution(slots, h, k) == most
                 && CannotContribute(slots, h, k) == cannot
                 && Leads(slots, h, k, true) == leads
  {
  }

  lemma DecisionMeaning(slots: seq<Participant>, h: nat)
    ensures var leads := Leads(slots, h, |slots|, true);
            ShouldCompose(slots, h) <==> Decides(Largest(leads), Smallest(leads))
  {
    DecisionInLeads(slots, h, |slots|);
  }

  // ---- The loop -----------------------------------------------------------------------------------

  /** Composes while the decision and the gate allow it; the window bounds the recursion. */
  function ComposeAll(s: Server): (Server, nat)
    decreases s.config.window / 2 - |s.auth.entries|
  {
    if ShouldAdvance(s) then
      var (r, n) := ComposeAll(ComposeStep(s));
      (r, n + 1)
    else (s, 0)
  }

  function Pred(n: nat): nat { if n > 0 then n - 1 else 0 }

  /** A step later, every lead is one shorter. */
  function Shortened(xs: seq<nat>): (r: seq<nat>)
    ensures |r| == |xs|
    ensures forall i :: 0 <= i < |xs| ==> r[i] == Pred(xs[i])
  {
    seq(|xs|, i requires 0 <= i < |xs| => Pred(xs[i]))
  }

  lemma {:induction false} ShortenedExtremes(xs: seq<nat>)
    ensures Largest(Shortened(xs)) == Pred(Largest(xs))
    ensures Smallest(Shortened(xs)) == Pred(Smallest(xs))
  {
    if xs != [] {
      var n := |xs| - 1;
      assert Shortened(xs)[..n] == Shortened(xs[..n]);
      ShortenedExtremes(xs[..n]);
    }
  }

  lemma LeadAfterStep(p: Participant, h: nat)
    requires p.isUsed && p.state != Leaving
    requires p.steps.readId <= h || p.steps.entries == []
    ensures Lead(ParticipantAfter(p, h), h + 1) == Pred(Lead(p, h))
  {
  }

  /** Composing shortens the lead of everyone who stays, and nobody is leaving afterwards. */
  lemma {:induction false} LeadsAfterStep(slots: seq<Participant>, after: seq<Participant>, h: nat, k: nat, leavingToo: bool)
    requires k <= |slots| == |after|
    requires Readable(slots, h)
    requires forall i :: 0 <= i < k ==> after[i] == ParticipantAfter(slots[i], h)
    ensures Leads(after, h + 1, k, leavingToo) == Shortened(Leads(slots, h, k, false))
  {
    if k > 0 {
      LeadsAfterStep(slots, after, h, k - 1, leavingToo);
      var p := slots[k - 1];
      if p.isUsed && p.state != Leaving {
        LeadAfterStep(p, h);
        ShortenedSnoc(Leads(slots, h, k - 1, false), Lead(p, h));
      }
    }
  }

  lemma ShortenedSnoc(xs: seq<nat>, x: nat)
    ensures Shortened(xs + [x]) == Shortened(xs) + [Pred(x)]
  {
  }

  predicate NobodyLeaving(slots: seq<Participant>) {
    forall i :: 0 <= i < |slots| && slots[i].isUsed ==> slots[i].state != Leaving
  }

  lemma {:induction false} LeadsWithoutLeaving(slots: seq<Participant>, h: nat, k: nat)
    requires k <= |slots| && NobodyLeaving(slots)
    ensures Leads(slots, h, k, true) == Leads(slots, h, k, false)
  {
    if k > 0 {
      LeadsWithoutLeaving(slots, h, k - 1);
    }
  }

  /** How often the decision says yes before it says no. */
  function Appetite(most: int, least: int): nat { Max(0, Max(most - 4, Min(most - 2, least))) }

  function Room(s: Server): nat { Max(0, s.config.window / 2 - |s.auth.entries|) }

  lemma AppetiteStep(most: nat, least: nat)
    ensures !Decides(most, least) ==> Appetite(most, least) == 0
    ensures Decides(most, least) ==> Appetite(most, least) == 1 + Appetite(Pred(most), Pred(least))
  {
  }

  /** The leads after one composed step, over everyone who stays. */
  lemma StepShortensLeads(s: Server)
    requires ServerInv(s)
    ensures AllLeads(ComposeStep(s)) == Shortened(StayingLeads(s))
  {
    InvIsReadable(s);
    ComposeStepMeaning(s);
    LeadsAfterStep(s.pool.slots, ComposeStep(s).pool.slots, s.Head(), |s.pool.slots|, true);
  }

  /** Whoever was leaving has left with the step. */
  lemma StepEndsLeaving(s: Server)
    requires ServerInv(s)
    ensures NobodyLeaving(ComposeStep(s).pool.slots)
  {
    ComposeStepMeaning(s);
    LeaversAreGone(s.pool.slots, ComposeStep(s).pool.slots, s.Head());
  }

  lemma LeaversAreGone(slots: seq<Participant>, after: seq<Participant>, h: nat)
    requires |slots| == |after| && forall i :: 0 <= i < |slots| ==> after[i] == ParticipantAfter(slots[i], h)
    ensures NobodyLeaving(after)
  {
  }

  /** The exact number of steps one call composes, when nobody is leaving. */
  lemma {:induction false} ComposeCount(s: Server)
    requires ServerInv(s) && NobodyLeaving(s.pool.slots)
    ensures var leads := AllLeads(s);
            ComposeAll(s).1 == Min(Appetite(Largest(leads), Smallest(leads)), Room(s))
    decreases s.config.window / 2 - |s.auth.entries|
  {
    var leads := AllLeads(s);
    DecisionMeaning(s.pool.slots, s.Head());
    AppetiteStep(Largest(leads), Smallest(leads));
    if ShouldAdvance(s) {
      ComposeKeepsInv(s);
      StepShortensLeads(s);
      StepEndsLeaving(s);
      LeadsWithoutLeaving(s.pool.slots, s.Head(), |s.pool.slots|);
      ShortenedExtremes(leads);
      ComposeCount(ComposeStep(s));
    }
  }

  /** The exact number in every case: leaving participants take part in the first decision only. */
  lemma ComposeCountAlways(s: Server)
    requires ServerInv(s)
    ensures var staying := StayingLeads(s);
            ComposeAll(s).1 ==
            if !ShouldAdvance(s) then 0
            else 1 + Min(Appetite(Pred(Largest(staying)), Pred(Smallest(staying))), Room(s) - 1)
  {
    if ShouldAdvance(s) {
      ComposeKeepsInv(s);
      StepShortensLeads(s);
      StepEndsLeaving(s);
      ShortenedExtremes(StayingLeads(s));
      ComposeCount(ComposeStep(s));
    }
  }

  /** The result of a call: valid, at rest, ahead by the count, and within the window. */
  lemma {:induction false} ComposeAllMeaning(s: Server)
    requires ServerInv(s)
    ensures var (r, n) := ComposeAll(s);
            && ServerInv(r)
            && r.Head() == s.Head() + n
            && !ShouldAdvance(r)
            && |r.auth.entries| == |s.auth.entries| + n
            && r.config == s.config
            && |r.pool.slots| == |s.pool.slots| && |r.table.parties| == |s.table.parties|
    decreases s.config.window / 2 - |s.auth.entries|
  {
    if ShouldAdvance(s) {
      ComposeKeepsInv(s);
      ComposeStepMeaning(s);
      ComposeAllMeaning(ComposeStep(s));
    }
  }

  /** At rest with the gate open, nobody leads by 5, and by 3 only while someone cannot contribute. */
  lemma AtRest(s: Server)
    requires !ShouldAdvance(s) && GateOpen(s)
    ensures var leads := AllLeads(s);
            Largest(leads) < 5 && (Smallest(leads) > 0 ==> Largest(leads) < 3)
  {
    DecisionMeaning(s.pool.slots, s.Head());
  }

  /** A composed step leaves the new head at least two behind the participant furthest ahead in the decision. */
  lemma HeadStaysBehind(s: Server)
    requires ServerInv(s) && ShouldAdvance(s)
    ensures Largest(AllLeads(s)) >= 3
    ensures exists i :: 0 <= i < |s.pool.slots| && s.pool.slots[i].isUsed
                        && s.pool.slots[i].steps.WriteId() >= ComposeStep(s).Head() + 2
  {
    DecisionMeaning(s.pool.slots, s.Head());
    var i := LargestIsSomebodys(s.pool.slots, s.Head(), |s.pool.slots|);
  }

  lemma {:induction false} LargestIsSomebodys(slots: seq<Participant>, h: nat, k: nat) returns (i: nat)
    requires k <= |slots| && Largest(Leads(slots, h, k, true)) > 0
    ensures i < k && slots[i].isUsed && Lead(slots[i], h) == Largest(Leads(slots, h, k, true))
  {
    var leads := Leads(slots, h, k, true);
    if slots[k - 1].isUsed {
      assert leads[..|leads| - 1] == Leads(slots, h, k - 1, true);
      if Lead(slots[k - 1], h) == Largest(leads) {
        return k - 1;
      }
    } else {
      assert leads == Leads(slots, h, k - 1, true);
    }
    i := LargestIsSomebodys(slots, h, k - 1);
  }
}
