/**
 * Buffers that wait for the last 32-bit step id, and the one way they can take a step.
 * This decides exactly which datagrams keep the server valid.
 */
module DeafBuffers {
  import opened Common
  import opened StepBuffers
  import opened States
  import opened PartyLives
  import opened Invariants
  import opened Receiving

  // ---- One section --------------------------------------------------------------------------------

  /** The section offers the last id, the step is legal, and nothing before it stops the reading. */
  predicate OffersLast(first: nat, steps: seq<StepInput>, maxOctets: nat) {
    && first <= LAST_STEP_ID < first + |steps|
    && (forall i :: 0 <= i < LAST_STEP_ID - first ==> steps[i].Given?)
    && steps[LAST_STEP_ID - first].Given?
    && |steps[LAST_STEP_ID - first].octets| <= maxOctets
  }

  /** Up to the last id a deaf buffer passes over every step, and reading goes on exactly while steps are given. */
  lemma {:induction false} DeafPassesOver(b: StepBuffer, first: nat, steps: seq<StepInput>, k: nat, maxOctets: nat)
    requires Deaf(b) && k <= |steps| && first + k <= LAST_STEP_ID
    ensures AddSteps(b, first, steps, k, maxOctets).1 == b
    ensures AddSteps(b, first, steps, k, maxOctets).0.Ok? <==> forall i :: 0 <= i < k ==> steps[i].Given?
  {
    if k > 0 {
      DeafPassesOver(b, first, steps, k - 1, maxOctets);
    }
  }

  /** Whatever follows in the section, what the buffer has taken stays. */
  lemma {:induction false} TakenStays(b: StepBuffer, first: nat, steps: seq<StepInput>, k: nat, n: nat, maxOctets: nat)
    requires k <= n <= |steps|
    ensures Extends(AddSteps(b, first, steps, k, maxOctets).1, AddSteps(b, first, steps, n, maxOctets).1)
    decreases n
  {
    if k < n {
      TakenStays(b, first, steps, k, n - 1, maxOctets);
    }
  }

  /** A deaf buffer takes a step exactly when the section offers the last id. */
  lemma DeafTakesExactly(b: StepBuffer, first: nat, steps: seq<StepInput>, maxOctets: nat)
    requires Deaf(b)
    ensures var after := AddSteps(b, first, steps, |steps|, maxOctets).1;
            && (!OffersLast(first, steps, maxOctets) ==> after == b)
            && (OffersLast(first, steps, maxOctets) ==> after.readId == LAST_STEP_ID && after.entries != [])
  {
    if first > LAST_STEP_ID {
      if steps != [] {
        GapIsRefused(b, first, steps, |steps|, maxOctets);
      }
    } else if first + |steps| <= LAST_STEP_ID {
      DeafPassesOver(b, first, steps, |steps|, maxOctets);
    } else {
      var k := LAST_STEP_ID - first;
      DeafPassesOver(b, first, steps, k, maxOctets);
      var (r, next) := AddSteps(b, first, steps, k + 1, maxOctets);
      if r.Err? {
        AddStepsStops(b, first, steps, k + 1, |steps|, maxOctets);
      } else {
        TakenStays(b, first, steps, k + 1, |steps|, maxOctets);
      }
    }
  }

  /** A buffer that starts at or before the head stays in order whatever ids are sent. */
  lemma {:induction false} AlignedKeepsOrder(b: StepBuffer, head: nat, first: nat, steps: seq<StepInput>, k: nat, maxOctets: nat)
    requires k <= |steps| && b.readId <= head && BufferOk(b, head, maxOctets)
    ensures BufferOk(AddSteps(b, first, steps, k, maxOctets).1, head, maxOctets)
    ensures AddSteps(b, first, steps, k, maxOctets).1.readId == b.readId
  {
    if k > 0 {
      AlignedKeepsOrder(b, head, first, steps, k - 1, maxOctets);
    }
  }

  /** A section keeps a buffer in order exactly unless it makes a deaf one take the last id. */
  lemma SectionKeepsOrderExactly(b: StepBuffer, head: nat, first: nat, steps: seq<StepInput>, maxOctets: nat)
    requires BufferOk(b, head, maxOctets)
    ensures BufferOk(AddSteps(b, first, steps, |steps|, maxOctets).1, head, maxOctets) <==>
            !(head < LAST_STEP_ID && Deaf(b) && OffersLast(first, steps, maxOctets))
  {
    if b.readId <= head {
      AlignedKeepsOrder(b, head, first, steps, |steps|, maxOctets);
    } else {
      DeafTakesExactly(b, first, steps, maxOctets);
    }
  }

  // ---- One datagram -------------------------------------------------------------------------------

  /** The section reaches a deaf buffer of party p and makes it take the last id, which is still ahead of the head. */
  predicate SpoilsWith(s: Server, p: nat, section: Section)
    requires p < |s.table.parties|
  {
    && s.Head() < LAST_STEP_ID
    && section.index < |s.table.parties[p].refs|
    && s.table.parties[p].refs[section.index] < |s.pool.slots|
    && section.first.Ok?
    && Deaf(s.pool.slots[s.table.parties[p].refs[section.index]].steps)
    && OffersLast(section.first.value, section.steps, s.config.maxStepOctets)
  }

  /** Some section of the datagram that is reached does. */
  predicate Spoils(s: Server, p: nat, sections: seq<Section>)
    requires p < |s.table.parties|
  {
    && s.table.parties[p].state != PartyDissolved
    && exists k :: 0 <= k < |sections| && SpoilsAt(s, p, sections, k)
  }

  predicate SpoilsAt(s: Server, p: nat, sections: seq<Section>, k: nat)
    requires p < |s.table.parties| && k < |sections|
  {
    ReceiveSections(s, p, sections, k).0.Ok? && SpoilsWith(ReceiveSections(s, p, sections, k).1, p, sections[k])
  }

  /** The participants that party p refers to are in use. */
  ghost predicate RefsUsed(s: Server, p: nat)
    requires p < |s.table.parties|
  {
    forall k :: 0 <= k < |s.table.parties[p].refs| ==>
      s.table.parties[p].refs[k] < |s.pool.slots| && s.pool.slots[s.table.parties[p].refs[k]].isUsed
  }

  lemma InvRefsUsed(s: Server, p: nat)
    requires ServerInv(s) && p < |s.table.parties|
    ensures RefsUsed(s, p)
  {
    if s.table.parties[p].isUsed {
      assert PartyOwns(s.pool, s.table.parties, p);
    }
  }

  lemma SectionKeepsStepsExactly(s: Server, p: nat, section: Section)
    requires p < |s.table.parties| && RefsUsed(s, p)
    requires StepsInv(s.pool, s.Head(), s.config.maxStepOctets)
    ensures StepsInv(ReceiveSection(s, p, section).1.pool, s.Head(), s.config.maxStepOctets) <==> !SpoilsWith(s, p, section)
  {
    var party := s.table.parties[p];
    if section.index < |party.refs| && section.first.Ok? {
      var ref := party.refs[section.index];
      var after := ReceiveSection(s, p, section).1;
      assert BufferOk(s.pool.slots[ref].steps, s.Head(), s.config.maxStepOctets);
      SectionKeepsOrderExactly(s.pool.slots[ref].steps, s.Head(), section.first.value, section.steps, s.config.maxStepOctets);
      OneBufferDecides(s, after, ref);
    }
  }

  lemma OneBufferDecides(s: Server, after: Server, ref: nat)
    requires StepsInv(s.pool, s.Head(), s.config.maxStepOctets)
    requires ref < |s.pool.slots| == |after.pool.slots| && s.pool.slots[ref].isUsed
    requires after.pool.slots == s.pool.slots[ref := s.pool.slots[ref].(steps := after.pool.slots[ref].steps)]
    ensures StepsInv(after.pool, s.Head(), s.config.maxStepOctets) <==>
            BufferOk(after.pool.slots[ref].steps, s.Head(), s.config.maxStepOctets)
  {
  }

  lemma IsolatedRefsUsed(s: Server, p: nat, r: Server)
    requires p < |s.table.parties| && RefsUsed(s, p) && Isolated(s, p, r)
    ensures RefsUsed(r, p)
  {
    forall k | 0 <= k < |r.table.parties[p].refs|
      ensures r.table.parties[p].refs[k] < |r.pool.slots| && r.pool.slots[r.table.parties[p].refs[k]].isUsed
    {
      var ref := s.table.parties[p].refs[k];
      assert OnlyGainedSteps(s.pool.slots[ref], r.pool.slots[ref]);
    }
  }

  lemma UnspoiltNext(s: Server, p: nat, before: (Result<nat>, Server), section: Section, next: (Result<nat>, Server))
    requires p < |s.table.parties| && RefsUsed(s, p) && Isolated(s, p, before.1)
    requires StepsInv(before.1.pool, s.Head(), s.config.maxStepOctets)
    requires before.0.Ok? ==> !SpoilsWith(before.1, p, section)
    requires next == ReceiveNext(before, p, section)
    ensures StepsInv(next.1.pool, s.Head(), s.config.maxStepOctets)
  {
    if before.0.Ok? {
      IsolatedRefsUsed(s, p, before.1);
      SectionKeepsStepsExactly(before.1, p, section);
    }
  }

  lemma {:induction false} UnspoiltKeepsSteps(s: Server, p: nat, sections: seq<Section>, k: nat, r: (Result<nat>, Server))
    requires Reads(s, p, sections, k, r) && RefsUsed(s, p)
    requires StepsInv(s.pool, s.Head(), s.config.maxStepOctets)
    requires forall j :: 0 <= j < k ==> !SpoilsAt(s, p, sections, j)
    ensures StepsInv(r.1.pool, s.Head(), s.config.maxStepOctets)
  {
    if k > 0 {
      var before := ReceiveSections(s, p, sections, k - 1);
      UnspoiltKeepsSteps(s, p, sections, k - 1, before);
      ReadsIsolated(s, p, sections, 0, k - 1, (Ok(0), s), before);
      ReadsNext(s, p, sections, k - 1, before, r);
      assert !SpoilsAt(s, p, sections, k - 1);
      UnspoiltNext(s, p, before, sections[k - 1], r);
    }
  }

  /** The buffer of slot ref, in use, holds the last id. */
  predicate HoldsLast(s: Server, ref: nat) {
    && ref < |s.pool.slots| && s.pool.slots[ref].isUsed
    && s.pool.slots[ref].steps.readId == LAST_STEP_ID && s.pool.slots[ref].steps.entries != []
  }

  lemma SpoiltBySection(s: Server, p: nat, section: Section)
    requires p < |s.table.parties| && RefsUsed(s, p) && SpoilsWith(s, p, section)
    ensures HoldsLast(ReceiveSection(s, p, section).1, s.table.parties[p].refs[section.index])
  {
    var ref := s.table.parties[p].refs[section.index];
    DeafTakesExactly(s.pool.slots[ref].steps, section.first.value, section.steps, s.config.maxStepOctets);
  }

  lemma StillHoldsLast(s: Server, p: nat, r: Server, ref: nat)
    requires p < |s.table.parties| && Isolated(s, p, r) && HoldsLast(s, ref)
    ensures HoldsLast(r, ref)
  {
    assert r.pool.slots[ref] == s.pool.slots[ref] || OnlyGainedSteps(s.pool.slots[ref], r.pool.slots[ref]);
  }

  /** What a deaf buffer has taken stays to the end of the datagram. */
  lemma SpoiltStays(s: Server, p: nat, sections: seq<Section>, k: nat,
                    before: (Result<nat>, Server), next: (Result<nat>, Server), after: (Result<nat>, Server)) returns (ref: nat)
    requires k < |sections| && Reads(s, p, sections, k, before) && Reads(s, p, sections, k + 1, next)
    requires Reads(s, p, sections, |sections|, after)
    requires RefsUsed(s, p) && before.0.Ok? && SpoilsWith(before.1, p, sections[k])
    ensures s.Head() < LAST_STEP_ID && HoldsLast(after.1, ref)
  {
    ReadsIsolated(s, p, sections, 0, k, (Ok(0), s), before);
    ReadsNext(s, p, sections, k, before, next);
    ReadsIsolated(s, p, sections, k + 1, |sections|, next, after);
    ref := SpoiltBetween(s, p, before, sections[k], next, after.1);
  }

  /** A datagram that spoils a buffer leaves one behind that holds the last id. */
  lemma SpoiltInTheEnd(s: Server, p: nat, sections: seq<Section>) returns (ref: nat)
    requires p < |s.table.parties| && RefsUsed(s, p) && Spoils(s, p, sections)
    ensures s.Head() < LAST_STEP_ID && HoldsLast(Receive(s, p, sections).1, ref)
  {
    var k :| 0 <= k < |sections| && SpoilsAt(s, p, sections, k);
    ref := SpoiltStays(s, p, sections, k, ReceiveSections(s, p, sections, k), ReceiveSections(s, p, sections, k + 1),
                       ReceiveSections(s, p, sections, |sections|));
  }

  /** A section read from a state that sections of the party have led to, and more sections after it. */
  lemma SpoiltBetween(s: Server, p: nat, before: (Result<nat>, Server), section: Section, next: (Result<nat>, Server), after: Server)
    returns (ref: nat)
    requires p < |s.table.parties| && RefsUsed(s, p) && Isolated(s, p, before.1)
    requires before.0.Ok? && SpoilsWith(before.1, p, section)
    requires next == ReceiveNext(before, p, section) && Isolated(next.1, p, after)
    ensures s.Head() < LAST_STEP_ID && HoldsLast(after, ref)
  {
    IsolatedRefsUsed(s, p, before.1);
    ref := before.1.table.parties[p].refs[section.index];
    SpoiltBySection(before.1, p, section);
    StillHoldsLast(next.1, p, after, ref);
  }

  /** A datagram keeps all buffers in order exactly when it does not spoil one. */
  lemma ReceiveKeepsStepsExactly(s: Server, p: nat, sections: seq<Section>)
    requires ServerInv(s) && p < |s.table.parties|
    ensures var after := Receive(s, p, sections).1;
            StepsInv(after.pool, s.Head(), s.config.maxStepOctets) <==> !Spoils(s, p, sections)
  {
    InvRefsUsed(s, p);
    if Spoils(s, p, sections) {
      var ref := SpoiltInTheEnd(s, p, sections);
      assert !BufferOk(Receive(s, p, sections).1.pool.slots[ref].steps, s.Head(), s.config.maxStepOctets);
    } else if s.table.parties[p].state != PartyDissolved {
      UnspoiltKeepsSteps(s, p, sections, |sections|, Receive(s, p, sections));
    }
  }

  /** A datagram keeps the server valid exactly when it does not spoil a deaf buffer. */
  lemma ReceiveKeepsInvExactly(s: Server, p: nat, sections: seq<Section>)
    requires ServerInv(s) && p < |s.table.parties|
    ensures ServerInv(Receive(s, p, sections).1) <==> !Spoils(s, p, sections)
  {
    var r := Receive(s, p, sections).1;
    ReceiveIsolated(s, p, sections);
    ReceiveKeepsStepsExactly(s, p, sections);
    IsolatedKeepsOwnership(s, p, r);
    IsolatedKeepsParties(s, p, r);
  }

  // ---- The participant itself ---------------------------------------------------------------------

  /** A participant that is not spoilt by a datagram of its party stays deaf. */
  lemma UnspoiltStaysDeaf(s: Server, p: nat, sections: seq<Section>, i: nat)
    requires ServerInv(s) && p < |s.table.parties| && s.Head() < LAST_STEP_ID
    requires i < |s.pool.slots| && s.pool.slots[i].isUsed && Deaf(s.pool.slots[i].steps)
    requires !Spoils(s, p, sections)
    ensures i < |Receive(s, p, sections).1.pool.slots| && Deaf(Receive(s, p, sections).1.pool.slots[i].steps)
  {
    var after := Receive(s, p, sections).1;
    ReceiveIsolated(s, p, sections);
    ReceiveKeepsStepsExactly(s, p, sections);
    assert after.pool.slots[i] == s.pool.slots[i] || OnlyGainedSteps(s.pool.slots[i], after.pool.slots[i]);
    assert BufferOk(after.pool.slots[i].steps, s.Head(), s.config.maxStepOctets);
  }

  /**
   * The deaf participant of party p: a datagram keeps it deaf, and the next read of its step is not
   * corrupt, exactly when no step that is reached offers the last id.
   */
  lemma DeafAndReadableExactly(s: Server, p: nat, sections: seq<Section>, i: nat)
    requires ServerInv(s) && p < |s.table.parties| && s.Head() < LAST_STEP_ID
    requires s.table.parties[p].isUsed && s.table.parties[p].refs == [i]
    requires i < |s.pool.slots| && Deaf(s.pool.slots[i].steps)
    ensures i < |Receive(s, p, sections).1.pool.slots|
    ensures Deaf(Receive(s, p, sections).1.pool.slots[i].steps) <==> !Spoils(s, p, sections)
    ensures ReadExact(Receive(s, p, sections).1.pool.slots[i].steps, s.Head()).0.Corrupt? <==> Spoils(s, p, sections)
  {
    assert PartyOwns(s.pool, s.table.parties, p);
    var after := Receive(s, p, sections).1;
    ReceiveIsolated(s, p, sections);
    CorruptExactly(after.pool.slots[i].steps, s.Head());
    if Spoils(s, p, sections) {
      InvRefsUsed(s, p);
      var ref := SpoiltInTheEnd(s, p, sections);
      OnlyOwnCanSpoil(s, p, sections, i, ref);
    } else {
      UnspoiltStaysDeaf(s, p, sections, i);
    }
  }

  /** A buffer in order before the datagram and holding the last id after it belongs to the party. */
  lemma OnlyOwnCanSpoil(s: Server, p: nat, sections: seq<Section>, i: nat, ref: nat)
    requires ServerInv(s) && p < |s.table.parties| && s.table.parties[p].refs == [i]
    requires s.Head() < LAST_STEP_ID && HoldsLast(Receive(s, p, sections).1, ref)
    ensures ref == i
  {
    ReceiveIsolated(s, p, sections);
    assert BufferOk(s.pool.slots[ref].steps, s.Head(), s.config.maxStepOctets);
  }

  /**
   * The input that does it: one section with one legal step of the last id. It is accepted, the next
   * read is corrupt, and the server is no longer valid.
   */
  lemma LastIdSpoils(s: Server, p: nat, i: nat, octets: Octets)
    requires ServerInv(s) && p < |s.table.parties| && s.Head() < LAST_STEP_ID
    requires s.table.parties[p].isUsed && s.table.parties[p].refs == [i]
    requires i < |s.pool.slots| && Deaf(s.pool.slots[i].steps) && |octets| <= s.config.maxStepOctets
    ensures var (r, after) := Receive(s, p, [Section(0, Ok(LAST_STEP_ID), [Given(octets)])]);
            && r.Ok? && i < |after.pool.slots|
            && ReadExact(after.pool.slots[i].steps, after.Head()).0.Corrupt?
            && !ServerInv(after)
  {
    var section := Section(0, Ok(LAST_STEP_ID), [Given(octets)]);
    var sections := [section];
    assert Plausible(s.table.parties[p]);
    assert ReceiveSections(s, p, sections, 0) == (Ok(0), s);
    assert SpoilsWith(s, p, section);
    assert SpoilsAt(s, p, sections, 0);
    DeafAndReadableExactly(s, p, sections, i);
    ReceiveKeepsInvExactly(s, p, sections);
    ReceiveIsolated(s, p, sections);
    OneSectionAccepted(s, p, i, octets);
  }

  lemma OneSectionAccepted(s: Server, p: nat, i: nat, octets: Octets)
    requires p < |s.table.parties| && s.table.parties[p].state != PartyDissolved && s.table.parties[p].refs == [i]
    requires i < |s.pool.slots| && Deaf(s.pool.slots[i].steps) && |octets| <= s.config.maxStepOctets
    ensures Receive(s, p, [Section(0, Ok(LAST_STEP_ID), [Given(octets)])]).0.Ok?
  {
    var section := Section(0, Ok(LAST_STEP_ID), [Given(octets)]);
    var steps := section.steps;
    assert AddSteps(s.pool.slots[i].steps, LAST_STEP_ID, steps, 0, s.config.maxStepOctets) == (Ok(0), s.pool.slots[i].steps);
    assert ReceiveSections(s, p, [section], 0) == (Ok(0), s);
    ReadsNext(s, p, [section], 0, (Ok(0), s), ReceiveSections(s, p, [section], 1));
  }
}
