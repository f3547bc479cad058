/** Receiving predicted steps for the participants of one party. */
module Receiving {
  import opened Common
  import opened StepBuffers
  import opened States
  import opened Qualities
  import opened Pools
  import opened Invariants

  /** What the serialization library reports for one step of a datagram: its octets, or a refusal. */
  datatype StepInput = Given(octets: Octets) | Refused(code: int)

  /** The part of a datagram about one local participant: its index, the first step id, the steps. */
  datatype Section = Section(index: byte, first: Result<nat>, steps: seq<StepInput>)

  /**
   * Adds one step to a buffer: a step that is already there counts as zero added,
   * a step past the expected one, or one that is too long, is an error.
   */
  function AddStep(b: StepBuffer, id: nat, input: StepInput, maxOctets: nat): (Result<nat>, StepBuffer) {
    match input
    case Refused(code) => (Err(code), b)
    case Given(octets) =>
      if id < b.WriteId() then (Ok(0), b)
      else if id > b.WriteId() || |octets| > maxOctets then (Err(ERR_STEP_GAP), b)
      else (Ok(1), Appended(b, octets))
  }

  /** The first k steps of a section, up to the first error; yields how many were added. */
  function AddSteps(b: StepBuffer, first: nat, steps: seq<StepInput>, k: nat, maxOctets: nat): (Result<nat>, StepBuffer)
    requires k <= |steps|
  {
    if k == 0 then (Ok(0), b)
    else
      var (before, b1) := AddSteps(b, first, steps, k - 1, maxOctets);
      if before.Err? then (before, b1)
      else
        var (one, b2) := AddStep(b1, first + k - 1, steps[k - 1], maxOctets);
        if one.Err? then (one, b2) else (Ok(before.value + one.value), b2)
  }

  /** The bookkeeping of a party after a section has been read to its end. */
  function Noted(party: Party, added: nat, b: StepBuffer): Party {
    if added == 0 then party.(zeroAddedWarnings := party.zeroAddedWarnings + 1)
    else
      var credited := party.(quality := AddedStepsToBuffer(party.quality, added));
      if b.WriteId() > 0 && b.WriteId() - 1 > party.highestReceived
      then credited.(highestReceived := b.WriteId() - 1, stepsInBuffer := |b.entries|)
      else credited
  }

  function ReceiveSection(s: Server, p: nat, section: Section): (r: (Result<nat>, Server))
    requires p < |s.table.parties|
    ensures |r.1.table.parties| == |s.table.parties|
  {
    var party := s.table.parties[p];
    if section.index >= |party.refs| || party.refs[section.index] >= |s.pool.slots| then
      (Err(ERR_ILLEGAL_PARTICIPANT_INDEX), s)
    else if section.first.Err? then (Err(section.first.code), s)
    else
      var ref := party.refs[section.index];
      var (added, b) := AddSteps(s.pool.slots[ref].steps, section.first.value, section.steps, |section.steps|, s.config.maxStepOctets);
      var stored := s.(pool := s.pool.(slots := s.pool.slots[ref := s.pool.slots[ref].(steps := b)]));
      if added.Err? then (added, stored)
      else (Ok(0), stored.(table := s.table.(parties := s.table.parties[p := Noted(party, added.value, b)])))
  }

  /** The next section, unless one before it was in error. */
  function ReceiveNext(before: (Result<nat>, Server), p: nat, section: Section): (r: (Result<nat>, Server))
    requires p < |before.1.table.parties|
    ensures |r.1.table.parties| == |before.1.table.parties|
    ensures before.0.Err? ==> r == before
  {
    if before.0.Err? then before else ReceiveSection(before.1, p, section)
  }

  /** The first k sections, up to the first error. */
  function ReceiveSections(s: Server, p: nat, sections: seq<Section>, k: nat): (r: (Result<nat>, Server))
    requires p < |s.table.parties| && k <= |sections|
    ensures |r.1.table.parties| == |s.table.parties|
  {
    if k == 0 then (Ok(0), s)
    else
      ReceiveNext(ReceiveSections(s, p, sections, k - 1), p, sections[k - 1])
  }

  /** nimbleServerHandleIncomingSteps: a dissolved party is not listened to. */
  function Receive(s: Server, p: nat, sections: seq<Section>): (Result<nat>, Server)
    requires p < |s.table.parties|
  {
    if s.table.parties[p].state == PartyDissolved then (Err(ERR_DISCONNECTED), s)
    else ReceiveSections(s, p, sections, |sections|)
  }

  // ---- Isolation ----------------------------------------------------------------------------------

  /** b2 is b1 with steps appended. */
  ghost predicate Extends(b1: StepBuffer, b2: StepBuffer) {
    b1.readId == b2.readId && b1.entries <= b2.entries
  }

  /** A participant that at most gained steps. */
  ghost predicate OnlyGainedSteps(before: Participant, after: Participant) {
    after == before.(steps := after.steps) && Extends(before.steps, after.steps)
  }

  /** A party that at most noted what it received; the highest received step never goes back. */
  ghost predicate OnlyNoted(before: Party, after: Party) {
    && after == before.(quality := after.quality, highestReceived := after.highestReceived,
                        stepsInBuffer := after.stepsInBuffer, zeroAddedWarnings := after.zeroAddedWarnings)
    && after.quality == before.quality.(addedToBuffer := after.quality.addedToBuffer)
    && after.highestReceived >= before.highestReceived
  }

  /** From s to r nothing happened but steps for participants of party p. */
  ghost predicate Isolated(s: Server, p: nat, r: Server)
    requires p < |s.table.parties|
  {
    && r == s.(pool := s.pool.(slots := r.pool.slots), table := s.table.(parties := r.table.parties))
    && |r.pool.slots| == |s.pool.slots|
    && |r.table.parties| == |s.table.parties|
    && (forall i :: 0 <= i < |s.pool.slots| ==>
          if i in s.table.parties[p].refs then OnlyGainedSteps(s.pool.slots[i], r.pool.slots[i])
          else r.pool.slots[i] == s.pool.slots[i])
    && (forall q :: 0 <= q < |s.table.parties| && q != p ==> r.table.parties[q] == s.table.parties[q])
    && OnlyNoted(s.table.parties[p], r.table.parties[p])
  }

  lemma {:induction false} AddStepsExtends(b: StepBuffer, first: nat, steps: seq<StepInput>, k: nat, maxOctets: nat)
    requires k <= |steps|
    ensures Extends(b, AddSteps(b, first, steps, k, maxOctets).1)
  {
    if k > 0 {
      AddStepsExtends(b, first, steps, k - 1, maxOctets);
    }
  }

  lemma SectionIsolated(s: Server, p: nat, section: Section)
    requires p < |s.table.parties|
    ensures Isolated(s, p, ReceiveSection(s, p, section).1)
  {
    var party := s.table.parties[p];
    var after := ReceiveSection(s, p, section).1;
    if section.index < |party.refs| && party.refs[section.index] < |s.pool.slots| && section.first.Ok? {
      var ref := party.refs[section.index];
      AddStepsExtends(s.pool.slots[ref].steps, section.first.value, section.steps, |section.steps|, s.config.maxStepOctets);
    }
  }

  lemma IsolatedTransitive(a: Server, p: nat, b: Server, c: Server)
    requires p < |a.table.parties| && Isolated(a, p, b) && Isolated(b, p, c)
    ensures Isolated(a, p, c)
  {
    forall i | 0 <= i < |a.pool.slots| && i in a.table.parties[p].refs
      ensures OnlyGainedSteps(a.pool.slots[i], c.pool.slots[i])
    {
      assert OnlyGainedSteps(a.pool.slots[i], b.pool.slots[i]);
      assert OnlyGainedSteps(b.pool.slots[i], c.pool.slots[i]);
    }
  }

  /** Reading the first k sections ends in r. */
  ghost predicate Reads(s: Server, p: nat, sections: seq<Section>, k: nat, r: (Result<nat>, Server)) {
    p < |s.table.parties| && k <= |sections| && ReceiveSections(s, p, sections, k) == r
  }

  lemma ReadsNext(s: Server, p: nat, sections: seq<Section>, k: nat, before: (Result<nat>, Server), next: (Result<nat>, Server))
    requires Reads(s, p, sections, k, before) && k < |sections|
    ensures p < |before.1.table.parties|
    ensures Reads(s, p, sections, k + 1, next) <==> next == ReceiveNext(before, p, sections[k])
  {
  }

  lemma NextIsolated(a: Server, p: nat, before: (Result<nat>, Server), section: Section, next: (Result<nat>, Server))
    requires p < |a.table.parties| && Isolated(a, p, before.1) && next == ReceiveNext(before, p, section)
    ensures Isolated(a, p, next.1)
  {
    if before.0.Ok? {
      SectionIsolated(before.1, p, section);
      IsolatedTransitive(a, p, before.1, next.1);
    }
  }

  /** From any point of a datagram to any later one. */
  lemma {:induction false} ReadsIsolated(s: Server, p: nat, sections: seq<Section>, j: nat, k: nat,
                                         a: (Result<nat>, Server), b: (Result<nat>, Server))
    requires Reads(s, p, sections, j, a) && Reads(s, p, sections, k, b) && j <= k
    ensures p < |a.1.table.parties| && Isolated(a.1, p, b.1)
    decreases k
  {
    if j < k {
      var before := ReceiveSections(s, p, sections, k - 1);
      ReadsIsolated(s, p, sections, j, k - 1, a, before);
      ReadsNext(s, p, sections, k - 1, before, b);
      NextIsolated(a.1, p, before, sections[k - 1], b);
    }
  }

  /** Whatever a party sends, and wherever reading it stops, only its own participants' buffers change. */
  lemma ReceiveIsolated(s: Server, p: nat, sections: seq<Section>)
    requires p < |s.table.parties|
    ensures Isolated(s, p, Receive(s, p, sections).1)
  {
    ReadsIsolated(s, p, sections, 0, |sections|, (Ok(0), s), ReceiveSections(s, p, sections, |sections|));
  }

  // ---- What is added ------------------------------------------------------------------------------

  /** The octets of steps that are all given. */
  function GivenOctets(steps: seq<StepInput>): (r: seq<Octets>)
    requires forall i :: 0 <= i < |steps| ==> steps[i].Given?
    ensures |r| == |steps| && forall i :: 0 <= i < |steps| ==> r[i] == steps[i].octets
  {
    seq(|steps|, i requires 0 <= i < |steps| => steps[i].octets)
  }

  /** Steps below the expected id are passed over. */
  lemma {:induction false} KnownStepsIgnored(b: StepBuffer, first: nat, steps: seq<StepInput>, k: nat, maxOctets: nat)
    requires k <= |steps| && first + k <= b.WriteId()
    requires forall i :: 0 <= i < |steps| ==> steps[i].Given?
    ensures AddSteps(b, first, steps, k, maxOctets) == (Ok(0), b)
  {
    if k > 0 {
      KnownStepsIgnored(b, first, steps, k - 1, maxOctets);
    }
  }

  /** A section that overlaps or touches what is stored adds exactly the steps not yet stored. */
  lemma {:induction false} AddsOnlyNewSteps(b: StepBuffer, first: nat, steps: seq<StepInput>, k: nat, maxOctets: nat)
    requires k <= |steps| && first <= b.WriteId() <= first + k
    requires forall i :: 0 <= i < |steps| ==> steps[i].Given? && |steps[i].octets| <= maxOctets
    ensures var known := b.WriteId() - first;
            AddSteps(b, first, steps, k, maxOctets) ==
            (Ok(k - known), StepBuffer(b.readId, b.entries + GivenOctets(steps)[known..k]))
  {
    var known := b.WriteId() - first;
    var all := GivenOctets(steps);
    if k == known {
      KnownStepsIgnored(b, first, steps, k, maxOctets);
      assert b.entries + all[known..k] == b.entries;
    } else {
      AddsOnlyNewSteps(b, first, steps, k - 1, maxOctets);
      assert b.entries + all[known..k] == b.entries + all[known..k - 1] + [all[k - 1]];
    }
  }

  /** Sending the same section again changes nothing. */
  lemma ResendingAddsNothing(b: StepBuffer, first: nat, steps: seq<StepInput>, maxOctets: nat)
    requires first <= b.WriteId()
    requires forall i :: 0 <= i < |steps| ==> steps[i].Given? && |steps[i].octets| <= maxOctets
    ensures var once := AddSteps(b, first, steps, |steps|, maxOctets).1;
            AddSteps(once, first, steps, |steps|, maxOctets) == (Ok(0), once)
  {
    if first + |steps| <= b.WriteId() {
      KnownStepsIgnored(b, first, steps, |steps|, maxOctets);
    } else {
      AddsOnlyNewSteps(b, first, steps, |steps|, maxOctets);
      KnownStepsIgnored(AddSteps(b, first, steps, |steps|, maxOctets).1, first, steps, |steps|, maxOctets);
    }
  }

  /** A section that starts past the expected step is refused at its first step. */
  lemma {:induction false} GapIsRefused(b: StepBuffer, first: nat, steps: seq<StepInput>, k: nat, maxOctets: nat)
    requires 0 < k <= |steps| && first > b.WriteId()
    ensures AddSteps(b, first, steps, k, maxOctets).0.Err? && AddSteps(b, first, steps, k, maxOctets).1 == b
  {
    if k > 1 {
      GapIsRefused(b, first, steps, k - 1, maxOctets);
    }
  }

  /** Once a step has been refused, the rest of the section is not looked at. */
  lemma {:induction false} AddStepsStops(b: StepBuffer, first: nat, steps: seq<StepInput>, k: nat, n: nat, maxOctets: nat)
    requires k <= n <= |steps| && AddSteps(b, first, steps, k, maxOctets).0.Err?
    ensures AddSteps(b, first, steps, n, maxOctets) == AddSteps(b, first, steps, k, maxOctets)
    decreases n
  {
    if k < n {
      AddStepsStops(b, first, steps, k, n - 1, maxOctets);
    }
  }

  /** Once a section was in error, the rest of the datagram is not looked at. */
  lemma {:induction false} ReceiveStops(s: Server, p: nat, sections: seq<Section>, k: nat, n: nat, stopped: (Result<nat>, Server))
    requires Reads(s, p, sections, k, stopped) && stopped.0.Err? && k <= n <= |sections|
    ensures Reads(s, p, sections, n, stopped)
    decreases n - k
  {
    if k < n {
      ReadsNext(s, p, sections, k, stopped, stopped);
      ReceiveStops(s, p, sections, k + 1, n, stopped);
    }
  }

  // ---- What a party notes -------------------------------------------------------------------------

  lemma {:induction false} AddedCount(b: StepBuffer, first: nat, steps: seq<StepInput>, k: nat, maxOctets: nat)
    requires k <= |steps| && AddSteps(b, first, steps, k, maxOctets).0.Ok?
    ensures var (added, after) := AddSteps(b, first, steps, k, maxOctets);
            |after.entries| == |b.entries| + added.value
  {
    if k > 0 {
      AddedCount(b, first, steps, k - 1, maxOctets);
    }
  }

  /**
   * A section that is accepted: the participant it is for gains some steps. With none, one more warning is
   * counted. Otherwise the party's quality counts them, and if the newest stored step is the newest ever
   * received, its id and the number of stored steps are noted.
   */
  lemma AcceptedSectionNoted(s: Server, p: nat, section: Section)
    requires p < |s.table.parties| && ReceiveSection(s, p, section).0.Ok?
    ensures section.index < |s.table.parties[p].refs| && s.table.parties[p].refs[section.index] < |s.pool.slots|
    ensures var party, ref, after := s.table.parties[p], s.table.parties[p].refs[section.index], ReceiveSection(s, p, section).1;
            && |after.pool.slots| == |s.pool.slots| && |after.table.parties| == |s.table.parties|
            && var b, b' := s.pool.slots[ref].steps, after.pool.slots[ref].steps;
               var added := |b'.entries| - |b.entries|;
               var newest := b'.WriteId() - 1;
               && added >= 0
               && after.table.parties[p] ==
                  if added == 0 then party.(zeroAddedWarnings := party.zeroAddedWarnings + 1)
                  else party.(quality := party.quality.(addedToBuffer := party.quality.addedToBuffer + added),
                              highestReceived := Max(party.highestReceived, newest),
                              stepsInBuffer := if newest > party.highestReceived then |b'.entries| else party.stepsInBuffer)
  {
    var ref := s.table.parties[p].refs[section.index];
    AddedCount(s.pool.slots[ref].steps, section.first.value, section.steps, |section.steps|, s.config.maxStepOctets);
  }

  /** What a section answers: -4 for an index the party does not have, the library's code for an unreadable header. */
  lemma SectionAnswers(s: Server, p: nat, section: Section)
    requires ServerInv(s) && p < |s.table.parties|
    ensures var (r, after) := ReceiveSection(s, p, section);
            if section.index >= |s.table.parties[p].refs| then r == Err(-4) && after == s
            else if section.first.Err? then r == Err(section.first.code) && after == s
            else r.Ok? ==> r == Ok(0)
  {
    if section.index < |s.table.parties[p].refs| {
      assert PartyOwns(s.pool, s.table.parties, p);
    }
  }

  // ---- What isolation leaves of the invariant -----------------------------------------------------

  lemma IsolatedKeepsOwnership(s: Server, p: nat, r: Server)
    requires ServerInv(s) && p < |s.table.parties| && Isolated(s, p, r)
    ensures OwnershipInv(r.pool, r.table.parties)
  {
    forall q | 0 <= q < |r.table.parties| && r.table.parties[q].isUsed
      ensures PartyOwns(r.pool, r.table.parties, q)
    {
      assert PartyOwns(s.pool, s.table.parties, q);
      var ref := s.table.parties[q].refs[0];
      assert r.pool.slots[ref] == s.pool.slots[ref] || OnlyGainedSteps(s.pool.slots[ref], r.pool.slots[ref]);
    }
    forall i | 0 <= i < |r.pool.slots| && r.pool.slots[i].isUsed
      ensures ParticipantOwned(r.pool, r.table.parties, i)
    {
      assert r.pool.slots[i] == s.pool.slots[i] || OnlyGainedSteps(s.pool.slots[i], r.pool.slots[i]);
      assert ParticipantOwned(s.pool, s.table.parties, i);
    }
  }

  lemma IsolatedKeepsParties(s: Server, p: nat, r: Server)
    requires ServerInv(s) && p < |s.table.parties| && Isolated(s, p, r)
    ensures PartyInv(r.pool, r.table) && PoolInv(r.pool)
  {
    RetouchKeepsPool(s.pool, r.pool.slots);
    CountCongruent(s.table.parties, r.table.parties, IsPartyUsed);
  }
}
