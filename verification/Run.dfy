/** Every run of the server: all interleavings of joins, rejoins, migrations, receives, discards, composed steps and ticks. */
module Runs {
  import opened Common
  import opened StepBuffers
  import opened States
  import opened Pools
  import opened Invariants
  import opened Codec
  import opened Composition
  import opened Scheduling
  import opened Parties
  import opened Migration
  import opened Receiving
  import opened DeafBuffers
  import opened Windows
  import opened Logs

  datatype Action =
    | JoinAction(localIndex: nat)
    | RejoinAction(party: nat)
    | MigrateAction(ids: seq<byte>)
    | ReceiveAction(party: nat, sections: seq<Section>)
    | DiscardAction
    | ComposeAction
    | TickAction(party: nat)

  /** The server, the id of its first step, and the log of the run so far. */
  datatype World = World(server: Server, start: nat, log: seq<Event>)

  /**
   * When an action can happen. Migration is meant for a game without participants, and its outcome
   * counts only if it succeeds; a datagram must not spoil a deaf buffer, after which the source stops
   * at its next step; a step is composed only when the server decides to.
   */
  predicate Enabled(s: Server, a: Action) {
    match a
    case MigrateAction(ids) => s.pool.count == 0 && Migrate(s, ids).0.Ok?
    case ReceiveAction(p, sections) => p < |s.table.parties| && !Spoils(s, p, sections)
    case ComposeAction => ShouldAdvance(s)
    case TickAction(p) => p < |s.table.parties|
    case _ => true
  }

  function Apply(s: Server, a: Action): Server
    requires Enabled(s, a)
  {
    match a
    case JoinAction(localIndex) => JoinGame(s, localIndex).1
    case RejoinAction(p) => RejoinGame(s, p)
    case MigrateAction(ids) => Migrate(s, ids).1
    case ReceiveAction(p, sections) => Receive(s, p, sections).1
    case DiscardAction => Discard(s)
    case ComposeAction => ComposeStep(s)
    case TickAction(p) => TickParty(s, p)
  }

  function MigrationEvents(ids: seq<byte>): (es: seq<Event>)
    ensures |es| == |ids| && forall k :: 0 <= k < |ids| ==> es[k] == MigratedIn(ids[k])
  {
    seq(|ids|, k requires 0 <= k < |ids| => MigratedIn(ids[k]))
  }

  function EventsOf(s: Server, a: Action): seq<Event>
    requires Enabled(s, a)
  {
    match a
    case JoinAction(localIndex) => if JoinGame(s, localIndex).0.Ok? then [Handed(s.pool.free[0])] else []
    case MigrateAction(ids) => MigrationEvents(ids)
    case ComposeAction => [Composed(StepRecords(s), EncodeStep(s.config.codes, StepRecords(s)))]
    case _ => []
  }

  // ---- What a run keeps ---------------------------------------------------------------------------

  /** The retained steps are the newest part of a stream whose first step has the id start. */
  ghost predicate Retains(auth: StepBuffer, start: nat, stream: seq<Octets>) {
    && start + |stream| == auth.WriteId()
    && start <= auth.readId
    && auth.entries == stream[auth.readId - start..]
  }

  /** The retained steps are the newest part of the one stream that the log records. */
  ghost predicate HistoryInv(w: World) { Retains(w.server.auth, w.start, Stream(w.log)) }

  /** Each step of a stream decodes to its records. */
  ghost predicate DecodesTo(codes: StepCodes, stream: seq<Octets>, records: seq<seq<Record>>) {
    && |records| == |stream|
    && forall k :: 0 <= k < |stream| ==> DecodeStep(codes, stream[k]) == Some(records[k])
  }

  /** Each composed step is the encoding of its records. */
  ghost predicate LogInv(w: World) { DecodesTo(w.server.config.codes, Stream(w.log), RecordStream(w.log)) }

  ghost predicate WorldInv(w: World) {
    && ServerInv(w.server)
    && HistoryInv(w)
    && LogInv(w)
    && LifeInv(w.server.pool.slots, w.log)
  }

  /** One action; an action that is not enabled does nothing. */
  function Step(w: World, a: Action): World {
    if Enabled(w.server, a) then World(Apply(w.server, a), w.start, w.log + EventsOf(w.server, a)) else w
  }

  lemma ActionKeepsServer(s: Server, a: Action)
    requires ServerInv(s) && Enabled(s, a)
    ensures ServerInv(Apply(s, a))
  {
    match a
    case JoinAction(localIndex) => JoinKeepsInv(s, localIndex);
    case RejoinAction(p) => RejoinKeepsInv(s, p);
    case MigrateAction(ids) => MigrateKeepsInv(s, ids);
    case ReceiveAction(p, sections) => ReceiveKeepsInvExactly(s, p, sections);
    case DiscardAction => DiscardKeepsInv(s);
    case ComposeAction => ComposeKeepsInv(s);
    case TickAction(p) => TickKeepsInv(s, p);
  }

  /** Only composing and discarding touch the authoritative steps; nothing changes the set-up. */
  lemma ActionFrame(s: Server, a: Action)
    requires ServerInv(s) && Enabled(s, a)
    ensures Apply(s, a).config == s.config
    ensures |Apply(s, a).pool.slots| == |s.pool.slots|
    ensures !a.ComposeAction? && !a.DiscardAction? ==> Apply(s, a).auth == s.auth
  {
    match a
    case JoinAction(localIndex) => JoinGameExactly(s, localIndex);
    case RejoinAction(p) =>
    case MigrateAction(ids) => MigrateExactly(s, ids);
    case ReceiveAction(p, sections) => ReceiveIsolated(s, p, sections);
    case DiscardAction =>
    case ComposeAction => ComposeStepMeaning(s);
    case TickAction(p) => TickFrame(s, p);
  }

  // ---- The stream ---------------------------------------------------------------------------------

  lemma StepStream(w: World, a: Action)
    requires ServerInv(w.server) && Enabled(w.server, a)
    ensures var w' := Step(w, a);
            var octets := EncodeStep(w.server.config.codes, StepRecords(w.server));
            && Stream(w'.log) == Stream(w.log) + (if a.ComposeAction? then [octets] else [])
            && RecordStream(w'.log) == RecordStream(w.log) + (if a.ComposeAction? then [StepRecords(w.server)] else [])
  {
    if a.ComposeAction? {
      StreamSnoc(w.log, Composed(StepRecords(w.server), EncodeStep(w.server.config.codes, StepRecords(w.server))));
    } else {
      EventsUncomposed(w.server, a);
      StreamUncomposed(w.log, EventsOf(w.server, a));
      assert Stream(w.log) + [] == Stream(w.log) && RecordStream(w.log) + [] == RecordStream(w.log);
    }
  }

  lemma EventsUncomposed(s: Server, a: Action)
    requires ServerInv(s) && Enabled(s, a) && !a.ComposeAction?
    ensures forall k :: 0 <= k < |EventsOf(s, a)| ==> !EventsOf(s, a)[k].Composed?
  {
  }

  lemma AppendRetains(auth: StepBuffer, start: nat, stream: seq<Octets>, octets: Octets)
    requires Retains(auth, start, stream)
    ensures Retains(Appended(auth, octets), start, stream + [octets])
  {
    assert (stream + [octets])[auth.readId - start..] == stream[auth.readId - start..] + [octets];
  }

  lemma DiscardRetains(auth: StepBuffer, start: nat, stream: seq<Octets>, n: nat)
    requires Retains(auth, start, stream) && n <= |auth.entries|
    ensures Retains(Discarded(auth, n), start, stream)
  {
    assert stream[auth.readId - start..][n..] == stream[auth.readId + n - start..];
  }

  lemma ActionKeepsHistory(w: World, a: Action)
    requires ServerInv(w.server) && HistoryInv(w) && Enabled(w.server, a)
    ensures HistoryInv(Step(w, a))
  {
    StepStream(w, a);
    if a.ComposeAction? {
      AppendRetains(w.server.auth, w.start, Stream(w.log), EncodeStep(w.server.config.codes, StepRecords(w.server)));
    } else {
      assert Stream(w.log) + [] == Stream(w.log);
      UncomposedRetains(w.server, a, w.start, Stream(w.log));
    }
  }

  lemma UncomposedRetains(s: Server, a: Action, start: nat, stream: seq<Octets>)
    requires ServerInv(s) && Enabled(s, a) && !a.ComposeAction? && Retains(s.auth, start, stream)
    ensures Retains(Apply(s, a).auth, start, stream)
  {
    ActionFrame(s, a);
    if a.DiscardAction? && |s.auth.entries| > s.config.window / 3 {
      DiscardRetains(s.auth, start, stream, |s.auth.entries| - s.config.window / 3);
    }
  }

  lemma DecodesToSnoc(codes: StepCodes, stream: seq<Octets>, records: seq<seq<Record>>, octets: Octets, rs: seq<Record>)
    requires DecodesTo(codes, stream, records) && DecodeStep(codes, octets) == Some(rs)
    ensures DecodesTo(codes, stream + [octets], records + [rs])
  {
  }

  lemma ActionKeepsLog(w: World, a: Action)
    requires ServerInv(w.server) && LogInv(w) && Enabled(w.server, a)
    ensures LogInv(Step(w, a))
  {
    var s := w.server;
    StepStream(w, a);
    ActionFrame(s, a);
    if a.ComposeAction? {
      ComposedStepDecodes(s);
      DecodesToSnoc(s.config.codes, Stream(w.log), RecordStream(w.log), EncodeStep(s.config.codes, StepRecords(s)), StepRecords(s));
    } else {
      assert Stream(w.log) + [] == Stream(w.log) && RecordStream(w.log) + [] == RecordStream(w.log);
    }
  }

  // ---- Lifetimes ----------------------------------------------------------------------------------

  /** One migration mark for each time an id is listed. */
  function ListedMarks(ids: seq<byte>, id: nat): seq<Mark> {
    if ids == [] then []
    else ListedMarks(ids[..|ids| - 1], id) + if ids[|ids| - 1] == id then [Migrated] else []
  }

  lemma {:induction false} ListedOnce(ids: seq<byte>, id: nat)
    requires NoDuplicates(ids)
    ensures ListedMarks(ids, id) == if id in ids then [Migrated] else []
    decreases |ids|
  {
    if ids != [] {
      var n := |ids| - 1;
      ListedOnce(ids[..n], id);
      assert id in ids <==> id in ids[..n] || ids[n] == id;
      assert ids[n] !in ids[..n];
    }
  }

  lemma {:induction false} MigrationTrace(log: seq<Event>, ids: seq<byte>, id: nat)
    ensures Trace(log + MigrationEvents(ids), id) == Trace(log, id) + ListedMarks(ids, id)
    decreases |ids|
  {
    if ids == [] {
      assert log + MigrationEvents(ids) == log;
    } else {
      var n := |ids| - 1;
      MigrationTrace(log, ids[..n], id);
      TraceSnoc(log + MigrationEvents(ids[..n]), MigratedIn(ids[n]), id);
      MigrationEventsSnoc(log, ids, n);
    }
  }

  lemma MigrationEventsSnoc(log: seq<Event>, ids: seq<byte>, n: nat)
    requires |ids| == n + 1
    ensures log + MigrationEvents(ids) == log + MigrationEvents(ids[..n]) + [MigratedIn(ids[n])]
  {
  }

  /** The one mark, if any, that an action adds to the trace of an id. */
  function MarkAdded(s: Server, a: Action, id: nat): Option<Mark>
    requires Enabled(s, a)
  {
    match a
    case JoinAction(localIndex) =>
      if JoinGame(s, localIndex).0.Ok? && s.pool.free[0] == id then Some(HandedOut) else None
    case MigrateAction(ids) => if id in ids then Some(Migrated) else None
    case ComposeAction =>
      if id < |s.pool.slots| && s.pool.slots[id].isUsed
      then Some(MarkOf(RecordOf(s.pool.slots[id], PartyIdOf(s.pool.slots[id], s.table.parties), s.Head())))
      else None
    case _ => None
  }

  lemma ComposeTrace(s: Server, log: seq<Event>, id: nat)
    requires ServerInv(s)
    ensures Trace(log + [Composed(StepRecords(s), EncodeStep(s.config.codes, StepRecords(s)))], id) ==
            Trace(log, id) +
            if id < |s.pool.slots| && s.pool.slots[id].isUsed
            then [MarkOf(RecordOf(s.pool.slots[id], PartyIdOf(s.pool.slots[id], s.table.parties), s.Head()))]
            else []
  {
    TraceSnoc(log, Composed(StepRecords(s), EncodeStep(s.config.codes, StepRecords(s))), id);
    OneMarkEach(s.pool.slots, s.table.parties, s.Head(), id);
  }

  lemma OneMarkEach(slots: seq<Participant>, parties: seq<Party>, h: nat, id: nat)
    requires IdsMatch(slots)
    ensures MarksOf(RecordsAbout(RecordsOf(slots, parties, h, |slots|), id)) ==
            if id < |slots| && slots[id].isUsed then [MarkOf(RecordOf(slots[id], PartyIdOf(slots[id], parties), h))] else []
  {
    if id < |slots| && slots[id].isUsed {
      OneRecordAbout(slots, parties, h, |slots|, id);
    } else {
      NoRecordAbout(slots, parties, h, |slots|, id);
    }
  }

  lemma TraceOfAction(s: Server, log: seq<Event>, a: Action, id: nat)
    requires ServerInv(s) && Enabled(s, a)
    ensures Trace(log + EventsOf(s, a), id) ==
            match MarkAdded(s, a, id) case None => Trace(log, id) case Some(m) => Trace(log, id) + [m]
  {
    var t := Trace(log, id);
    assert t + [] == t && log + [] == log;
    match a
    case JoinAction(localIndex) =>
      if JoinGame(s, localIndex).0.Ok? {
        TraceSnoc(log, Handed(s.pool.free[0]), id);
      }
    case MigrateAction(ids) =>
      MigrateExactly(s, ids);
      MigrationTrace(log, ids, id);
      ListedOnce(ids, id);
    case ComposeAction => ComposeTrace(s, log, id);
    case _ =>
  }

  /** The slot of an id and the mark an action adds move together. */
  lemma SlotFollowsTrace(s: Server, a: Action, id: nat, t: seq<Mark>)
    requires ServerInv(s) && Enabled(s, a) && id < |s.pool.slots| && InStep(s.pool.slots[id], t)
    ensures id < |Apply(s, a).pool.slots|
    ensures match MarkAdded(s, a, id)
            case None => InStep(Apply(s, a).pool.slots[id], t)
            case Some(m) => FitsAt(t + [m], |t|) && InStep(Apply(s, a).pool.slots[id], t + [m])
  {
    ActionFrame(s, a);
    match a
    case JoinAction(localIndex) => JoinFollowsTrace(s, localIndex, id, t);
    case RejoinAction(p) =>
    case MigrateAction(ids) => MigrationFollowsTrace(s, ids, id, t);
    case ReceiveAction(p, sections) => ReceiveFollowsTrace(s, p, sections, id, t);
    case DiscardAction =>
    case ComposeAction => ComposeFollowsTrace(s, id, t);
    case TickAction(p) => TickFollowsTrace(s, p, id, t);
  }

  lemma JoinFollowsTrace(s: Server, localIndex: nat, id: nat, t: seq<Mark>)
    requires ServerInv(s) && id < |s.pool.slots| && InStep(s.pool.slots[id], t)
    ensures var (r, after) := JoinGame(s, localIndex);
            && id < |after.pool.slots|
            && if r.Ok? && s.pool.free[0] == id
               then FitsAt(t + [HandedOut], |t|) && InStep(after.pool.slots[id], t + [HandedOut])
               else InStep(after.pool.slots[id], t)
  {
    JoinGameExactly(s, localIndex);
  }

  lemma ReceiveFollowsTrace(s: Server, p: nat, sections: seq<Section>, id: nat, t: seq<Mark>)
    requires p < |s.table.parties| && id < |s.pool.slots| && InStep(s.pool.slots[id], t)
    ensures id < |Receive(s, p, sections).1.pool.slots| && InStep(Receive(s, p, sections).1.pool.slots[id], t)
  {
    ReceiveIsolated(s, p, sections);
  }

  lemma ComposeFollowsTrace(s: Server, id: nat, t: seq<Mark>)
    requires ServerInv(s) && id < |s.pool.slots| && InStep(s.pool.slots[id], t)
    ensures id < |ComposeStep(s).pool.slots|
    ensures var slot, after := s.pool.slots[id], ComposeStep(s).pool.slots[id];
            var m := MarkOf(RecordOf(slot, PartyIdOf(slot, s.table.parties), s.Head()));
            if slot.isUsed then FitsAt(t + [m], |t|) && InStep(after, t + [m]) else InStep(after, t)
  {
    ComposeStepMeaning(s);
    if s.pool.slots[id].isUsed {
      ComposeStaysInStep(s.pool.slots[id], PartyIdOf(s.pool.slots[id], s.table.parties), s.Head(), t);
    }
  }

  lemma TickFollowsTrace(s: Server, p: nat, id: nat, t: seq<Mark>)
    requires ServerInv(s) && p < |s.table.parties| && id < |s.pool.slots| && InStep(s.pool.slots[id], t)
    ensures id < |TickParty(s, p).pool.slots| && InStep(TickParty(s, p).pool.slots[id], t)
  {
    TickFrame(s, p);
  }

  lemma MigrationFollowsTrace(s: Server, ids: seq<byte>, id: nat, t: seq<Mark>)
    requires ServerInv(s) && Enabled(s, MigrateAction(ids)) && id < |s.pool.slots| && InStep(s.pool.slots[id], t)
    ensures id < |Migrate(s, ids).1.pool.slots|
    ensures if id in ids
            then FitsAt(t + [Migrated], |t|) && InStep(Migrate(s, ids).1.pool.slots[id], t + [Migrated])
            else InStep(Migrate(s, ids).1.pool.slots[id], t)
  {
    MigrateExactly(s, ids);
    CountBounds(s.pool.slots, IsUsed);
    PreparedAt(ResetParties(s), ids, Migrate(s, ids).1, id);
    if id in ids {
      MigrationOpens(s.pool.slots[id], Migrate(s, ids).1.pool.slots[id], t);
    }
  }

  lemma MigrationOpens(before: Participant, after: Participant, t: seq<Mark>)
    requires !before.isUsed && InStep(before, t) && after.isUsed && after.state == WaitingForRejoin
    ensures FitsAt(t + [Migrated], |t|) && InStep(after, t + [Migrated])
  {
  }

  /** Ids outside the pool are never heard of. */
  lemma NoMarkOutside(s: Server, a: Action, id: nat)
    requires ServerInv(s) && Enabled(s, a) && id >= |s.pool.slots|
    ensures MarkAdded(s, a, id) == None
  {
    match a
    case JoinAction(localIndex) => JoinGameExactly(s, localIndex);
    case MigrateAction(ids) => MigrateExactly(s, ids);
    case _ =>
  }

  lemma ActionKeepsLives(w: World, a: Action)
    requires ServerInv(w.server) && LifeInv(w.server.pool.slots, w.log) && Enabled(w.server, a)
    ensures LifeInv(Step(w, a).server.pool.slots, Step(w, a).log)
  {
    ActionFrame(w.server, a);
    forall id: nat
      ensures Lifetimes(Trace(Step(w, a).log, id))
      ensures id < |w.server.pool.slots| ==> InStep(Step(w, a).server.pool.slots[id], Trace(Step(w, a).log, id))
    {
      OneLifeGoesOn(w, a, id);
    }
  }

  lemma OneLifeGoesOn(w: World, a: Action, id: nat)
    requires ServerInv(w.server) && LifeInv(w.server.pool.slots, w.log) && Enabled(w.server, a)
    ensures Lifetimes(Trace(Step(w, a).log, id))
    ensures id < |w.server.pool.slots| ==>
              id < |Apply(w.server, a).pool.slots| && InStep(Apply(w.server, a).pool.slots[id], Trace(Step(w, a).log, id))
  {
    var t := Trace(w.log, id);
    assert Lifetimes(t);
    TraceOfAction(w.server, w.log, a, id);
    if id < |w.server.pool.slots| {
      SlotFollowsTrace(w.server, a, id, t);
      if MarkAdded(w.server, a, id).Some? {
        LifetimesSnoc(t, MarkAdded(w.server, a, id).value);
      }
    } else {
      NoMarkOutside(w.server, a, id);
    }
  }

  // ---- All runs -----------------------------------------------------------------------------------

  lemma StepKeepsWorld(w: World, a: Action)
    requires WorldInv(w)
    ensures WorldInv(Step(w, a))
  {
    if Enabled(w.server, a) {
      ActionKeepsServer(w.server, a);
      ActionKeepsHistory(w, a);
      ActionKeepsLog(w, a);
      ActionKeepsLives(w, a);
    }
  }

  /** The world after a list of actions. */
  function Exec(w: World, actions: seq<Action>): World
    decreases |actions|
  {
    if actions == [] then w else Step(Exec(w, actions[..|actions| - 1]), actions[|actions| - 1])
  }

  lemma {:induction false} ExecKeepsWorld(w: World, actions: seq<Action>)
    requires WorldInv(w)
    ensures WorldInv(Exec(w, actions))
    decreases |actions|
  {
    if actions != [] {
      ExecKeepsWorld(w, actions[..|actions| - 1]);
      StepKeepsWorld(Exec(w, actions[..|actions| - 1]), actions[|actions| - 1]);
    }
  }

  function InitialWorld(config: Config, capacity: nat, partyCapacity: nat, start: nat): World
    requires capacity < 64 && partyCapacity <= 256
  {
    World(InitialServer(config, capacity, partyCapacity, start), start, [])
  }

  lemma InitialLives(slots: seq<Participant>)
    requires forall i :: 0 <= i < |slots| ==> !slots[i].isUsed
    ensures LifeInv(slots, [])
  {
  }

  lemma InitialHistory(w: World)
    requires w.server.auth == Restarted(w.start) && w.log == []
    ensures HistoryInv(w) && LogInv(w)
  {
  }

  lemma InitialWorldInv(config: Config, capacity: nat, partyCapacity: nat, start: nat)
    requires capacity < 64 && partyCapacity <= 256 && ConfigOk(config, capacity)
    ensures WorldInv(InitialWorld(config, capacity, partyCapacity, start))
  {
    var w := InitialWorld(config, capacity, partyCapacity, start);
    InitialServerInv(config, capacity, partyCapacity, start);
    InitialHistory(w);
    InitialLives(w.server.pool.slots);
  }

  /** What the set-up demands of its parameters. */
  predicate SetupOk(config: Config, capacity: nat, partyCapacity: nat) {
    capacity < 64 && partyCapacity <= 256 && ConfigOk(config, capacity)
  }

  /** A run of a freshly set-up server. */
  function RunFrom(config: Config, capacity: nat, partyCapacity: nat, start: nat, actions: seq<Action>): World
    requires SetupOk(config, capacity, partyCapacity)
  {
    Exec(InitialWorld(config, capacity, partyCapacity, start), actions)
  }

  /** Every world of every run is valid. */
  lemma EveryRunIsValid(config: Config, capacity: nat, partyCapacity: nat, start: nat, actions: seq<Action>)
    requires SetupOk(config, capacity, partyCapacity)
    ensures WorldInv(RunFrom(config, capacity, partyCapacity, start, actions))
  {
    InitialWorldInv(config, capacity, partyCapacity, start);
    ExecKeepsWorld(InitialWorld(config, capacity, partyCapacity, start), actions);
  }
}
