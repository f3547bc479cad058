/** A step request and a tick of the whole server, as the source sequences them; both are runs. */
module Requests {
  import opened Common
  import opened States
  import opened Invariants
  import opened Scheduling
  import opened Parties
  import opened Receiving
  import opened DeafBuffers
  import opened Windows
  import opened Runs

  /** A step datagram: the party its connection is assigned to, its header, and its sections. */
  datatype Datagram = Datagram(party: Option<nat>, header: Result<nat>, sections: seq<Section>)

  /** A connection is assigned to a slot of the party table, or to none. */
  predicate Assignable(s: Server, d: Datagram) { d.party.Some? ==> d.party.value < |s.table.parties| }

  /** The sections are looked at: there is a party, it is not dissolved, and the header could be read. */
  predicate ReadsSections(s: Server, d: Datagram)
    requires Assignable(s, d)
  {
    d.party.Some? && s.table.parties[d.party.value].state != PartyDissolved && d.header.Ok?
  }

  /** nimbleServerHandleIncomingSteps. */
  function Incoming(s: Server, d: Datagram): (Result<nat>, Server)
    requires Assignable(s, d)
  {
    if d.party.None? then (Err(ERR_SERIALIZE), s)
    else if s.table.parties[d.party.value].state == PartyDissolved then (Err(ERR_DISCONNECTED), s)
    else if d.header.Err? then (Err(d.header.code), s)
    else Receive(s, d.party.value, d.sections)
  }

  /** The datagram does not spoil a deaf buffer. */
  predicate Harmless(s: Server, d: Datagram)
    requires Assignable(s, d)
  {
    ReadsSections(s, d) ==> !Spoils(s, d.party.value, d.sections)
  }

  /** Discard, receive, and unless that failed or the game is frozen, compose. */
  function StepRequest(s: Server, d: Datagram, frozen: bool): (Result<nat>, Server)
    requires Assignable(s, d)
  {
    var (received, s1) := Incoming(Discard(s), d);
    if received.Err? then (received, s1)
    else if frozen then (Ok(0), s1)
    else
      var (s2, n) := ComposeAll(s1);
      (Ok(n), s2)
  }

  /** The request gets as far as composing. */
  predicate ReachesCompose(s: Server, d: Datagram, frozen: bool)
    requires Assignable(s, d)
  {
    !frozen && Incoming(Discard(s), d).0.Ok?
  }

  lemma IncomingFrame(s: Server, d: Datagram)
    requires Assignable(s, d)
    ensures Incoming(s, d).1.auth == s.auth && Incoming(s, d).1.config == s.config
    ensures !ReadsSections(s, d) ==> Incoming(s, d).0.Err? && Incoming(s, d).1 == s
  {
    if ReadsSections(s, d) {
      ReceiveIsolated(s, d.party.value, d.sections);
    }
  }

  /** A request never starves: with a window of 2, or 4 and more, it composes as soon as the decision says so. */
  lemma RequestNeverStarves(s: Server, d: Datagram)
    requires Assignable(s, d)
    requires s.config.window == 2 || s.config.window >= 4
    requires Incoming(Discard(s), d).0.Ok?
    ensures var s1 := Incoming(Discard(s), d).1;
            && GateOpen(s1)
            && (StepRequest(s, d, false).0.value > 0 <==> ShouldCompose(s1.pool.slots, s1.Head()))
  {
    GateAfterDiscardExactly(s);
    IncomingFrame(Discard(s), d);
    var s1 := Incoming(Discard(s), d).1;
    assert ComposeAll(s1).1 > 0 <==> ShouldAdvance(s1);
  }

  /** The state a request composes from is valid exactly when the datagram is harmless. */
  lemma IncomingKeepsInvExactly(s: Server, d: Datagram)
    requires ServerInv(s) && Assignable(s, d)
    ensures ServerInv(Discard(s)) && ServerInv(Incoming(Discard(s), d).1) <==> Harmless(Discard(s), d)
  {
    DiscardKeepsInv(s);
    if ReadsSections(Discard(s), d) {
      ReceiveKeepsInvExactly(Discard(s), d.party.value, d.sections);
    }
  }

  /**
   * What a request answers. A datagram of a connection without a party is refused with -41, of a dissolved
   * party with -42, an unreadable header with the library's code; each leaves the server as the discard did.
   * An error in a section is passed on, and nothing is composed. A frozen game answers 0, and any other the
   * number of steps by which the head has moved.
   */
  lemma RequestAnswers(s: Server, d: Datagram, frozen: bool)
    requires ServerInv(s) && Assignable(s, d) && (ReachesCompose(s, d, frozen) ==> Harmless(Discard(s), d))
    ensures var (r, after) := StepRequest(s, d, frozen);
            if d.party.None? then r == Err(-41) && after == Discard(s)
            else if s.table.parties[d.party.value].state == PartyDissolved then r == Err(-42) && after == Discard(s)
            else if d.header.Err? then r == Err(d.header.code) && after == Discard(s)
            else
              var (received, s1) := ReceiveSections(Discard(s), d.party.value, d.sections, |d.sections|);
              && (received.Err? ==> r == received && after == s1)
              && (received.Ok? && frozen ==> r == Ok(0) && after == s1)
              && (received.Ok? && !frozen ==> r.Ok? && after.Head() == s.Head() + r.value)
              && (received.Err? || frozen ==> after.Head() == s.Head())
  {
    DiscardKeepsInv(s);
    IncomingFrame(Discard(s), d);
    if ReachesCompose(s, d, frozen) {
      IncomingKeepsInvExactly(s, d);
      ComposeAllMeaning(Incoming(Discard(s), d).1);
    }
  }

  // ---- Both are runs ------------------------------------------------------------------------------

  lemma {:induction false} ExecConcat(w: World, a: seq<Action>, b: seq<Action>)
    ensures Exec(w, a + b) == Exec(Exec(w, a), b)
    decreases |b|
  {
    if b == [] {
      assert a + b == a;
    } else {
      var n := |b| - 1;
      ExecConcat(w, a, b[..n]);
      assert (a + b)[..|a + b| - 1] == a + b[..n];
    }
  }

  lemma ExecOne(w: World, a: Action)
    ensures Exec(w, [a]) == Step(w, a)
  {
    assert [a][..0] == [];
    assert Exec(w, [a][..0]) == w;
  }

  lemma ExecCons(w: World, a: Action, rest: seq<Action>)
    ensures Exec(w, [a] + rest) == Exec(Step(w, a), rest)
  {
    ExecOne(w, a);
    ExecConcat(w, [a], rest);
  }

  function Repeated(a: Action, n: nat): seq<Action> { seq(n, _ => a) }

  /** One call of the composer is a run of that many compose actions. */
  lemma {:induction false} ComposeAllIsRun(w: World)
    ensures Exec(w, Repeated(ComposeAction, ComposeAll(w.server).1)).server == ComposeAll(w.server).0
    decreases w.server.config.window / 2 - |w.server.auth.entries|
  {
    if ShouldAdvance(w.server) {
      var n := ComposeAll(w.server).1;
      var next := Step(w, ComposeAction);
      ComposeAllIsRun(next);
      ExecCons(w, ComposeAction, Repeated(ComposeAction, n - 1));
      assert [ComposeAction] + Repeated(ComposeAction, n - 1) == Repeated(ComposeAction, n);
    } else {
      assert Repeated(ComposeAction, 0) == [];
    }
  }

  function TickActions(n: nat): (r: seq<Action>)
    ensures |r| == n && forall k :: 0 <= k < n ==> r[k] == TickAction(k)
  {
    seq(n, k requires 0 <= k < n => TickAction(k))
  }

  /** A tick of the whole server is a run of one tick per party slot. */
  lemma {:induction false} TickPartiesIsRun(w: World, k: nat)
    requires k <= |w.server.table.parties|
    ensures Exec(w, TickActions(k)).server == TickParties(w.server, k)
  {
    if k > 0 {
      TickPartiesIsRun(w, k - 1);
      assert TickActions(k)[..k - 1] == TickActions(k - 1);
    } else {
      assert TickActions(0) == [];
    }
  }

  /** The receive that a datagram amounts to, if its sections are looked at. */
  function ReceiveActions(s: Server, d: Datagram): seq<Action>
    requires Assignable(s, d)
  {
    if ReadsSections(s, d) then [ReceiveAction(d.party.value, d.sections)] else []
  }

  lemma OpeningIsRun(w: World, d: Datagram)
    requires Assignable(w.server, d) && Harmless(Discard(w.server), d)
    ensures Exec(w, [DiscardAction] + ReceiveActions(w.server, d)).server == Incoming(Discard(w.server), d).1
  {
    var w1 := Step(w, DiscardAction);
    ExecCons(w, DiscardAction, ReceiveActions(w.server, d));
    IncomingFrame(w1.server, d);
    if ReadsSections(w.server, d) {
      ExecOne(w1, ReceiveAction(d.party.value, d.sections));
    }
  }

  /** A request is a run: a discard, a receive if the sections are looked at, and as many compose actions as it answers. */
  lemma RequestIsRun(w: World, d: Datagram, frozen: bool)
    requires Assignable(w.server, d) && Harmless(Discard(w.server), d)
    ensures var (r, after) := StepRequest(w.server, d, frozen);
            var composed := if r.Ok? then r.value else 0;
            Exec(w, [DiscardAction] + ReceiveActions(w.server, d) + Repeated(ComposeAction, composed)).server == after
  {
    var opening := [DiscardAction] + ReceiveActions(w.server, d);
    OpeningIsRun(w, d);
    var w2 := Exec(w, opening);
    if Incoming(Discard(w.server), d).0.Err? || frozen {
      assert opening + Repeated(ComposeAction, 0) == opening;
    } else {
      ComposeAllIsRun(w2);
      ExecConcat(w, opening, Repeated(ComposeAction, ComposeAll(w2.server).1));
    }
  }
}
