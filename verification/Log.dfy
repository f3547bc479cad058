/** What a run has done so far: ids handed out, ids migrated in, steps composed; and the life of one id in it. */
module Logs {
  import opened Common
  import opened States
  import opened Codec
  import opened Composition

  datatype Event =
    | Handed(id: byte)
    | MigratedIn(id: byte)
    | Composed(records: seq<Record>, octets: Octets)

  /** The authoritative stream: the octets of all composed steps, oldest first. */
  function Stream(log: seq<Event>): seq<Octets> {
    if log == [] then []
    else Stream(log[..|log| - 1]) + if log[|log| - 1].Composed? then [log[|log| - 1].octets] else []
  }

  /** The record lists of all composed steps, oldest first. */
  function RecordStream(log: seq<Event>): seq<seq<Record>> {
    if log == [] then []
    else RecordStream(log[..|log| - 1]) + if log[|log| - 1].Composed? then [log[|log| - 1].records] else []
  }

  lemma StreamSnoc(log: seq<Event>, e: Event)
    ensures Stream(log + [e]) == Stream(log) + if e.Composed? then [e.octets] else []
    ensures RecordStream(log + [e]) == RecordStream(log) + if e.Composed? then [e.records] else []
  {
    assert (log + [e])[..|log|] == log;
  }

  lemma {:induction false} StreamUncomposed(log: seq<Event>, more: seq<Event>)
    requires forall k :: 0 <= k < |more| ==> !more[k].Composed?
    ensures Stream(log + more) == Stream(log) && RecordStream(log + more) == RecordStream(log)
    decreases |more|
  {
    if more == [] {
      assert log + more == log;
    } else {
      var n := |more| - 1;
      StreamUncomposed(log, more[..n]);
      StreamSnoc(log + more[..n], more[n]);
      assert log + more == log + more[..n] + [more[n]];
    }
  }

  // ---- The life of one id -------------------------------------------------------------------------

  datatype Mark = HandedOut | Migrated | JoinedGame | Stepped | LeftGame

  function MarkOf(r: Record): Mark {
    if r.Joined? then JoinedGame else if r.Left? then LeftGame else Stepped
  }

  function MarksOf(rs: seq<Record>): (m: seq<Mark>)
    ensures |m| == |rs| && forall k :: 0 <= k < |rs| ==> m[k] == MarkOf(rs[k])
  {
    seq(|rs|, k requires 0 <= k < |rs| => MarkOf(rs[k]))
  }

  /** What one event says about an id. */
  function EventMarks(e: Event, id: nat): seq<Mark> {
    match e
    case Handed(i) => if i == id then [HandedOut] else []
    case MigratedIn(i) => if i == id then [Migrated] else []
    case Composed(rs, _) => MarksOf(RecordsAbout(rs, id))
  }

  /** Everything a log says about an id. */
  function Trace(log: seq<Event>, id: nat): seq<Mark> {
    if log == [] then [] else Trace(log[..|log| - 1], id) + EventMarks(log[|log| - 1], id)
  }

  lemma TraceSnoc(log: seq<Event>, e: Event, id: nat)
    ensures Trace(log + [e], id) == Trace(log, id) + EventMarks(e, id)
  {
    assert (log + [e])[..|log|] == log;
  }

  predicate Opens(m: Mark) { m == HandedOut || m == Migrated }

  /** The mark at i opens a lifetime exactly if none is open, and is a Joined record exactly if one was just handed out. */
  predicate FitsAt(t: seq<Mark>, i: nat)
    requires i < |t|
  {
    && (Opens(t[i]) <==> i == 0 || t[i - 1] == LeftGame)
    && (t[i] == JoinedGame <==> i > 0 && t[i - 1] == HandedOut)
  }

  /**
   * Repeated lifetimes. A lifetime opens with a hand-out, at once followed by its one Joined record,
   * or with a migration; it goes on until its one Left record; and only after that, the next one opens.
   */
  ghost predicate Lifetimes(t: seq<Mark>) {
    forall i :: 0 <= i < |t| ==> FitsAt(t, i)
  }

  lemma LifetimesSnoc(t: seq<Mark>, m: Mark)
    requires Lifetimes(t) && FitsAt(t + [m], |t|)
    ensures Lifetimes(t + [m])
  {
    forall i | 0 <= i < |t|
      ensures FitsAt(t + [m], i)
    {
      assert FitsAt(t, i);
    }
  }

  /** Between two openings of an id lies a Left record: an id is not reused before the stream says it has left. */
  lemma LeftBetweenOpenings(t: seq<Mark>, i: nat, j: nat)
    requires Lifetimes(t) && i < j < |t| && Opens(t[i]) && Opens(t[j])
    ensures exists k :: i < k < j && t[k] == LeftGame
  {
    assert FitsAt(t, j);
    assert t[j - 1] == LeftGame;
  }

  /** Between two Joined records of an id lies a Left record. */
  lemma LeftBetweenJoins(t: seq<Mark>, i: nat, j: nat)
    requires Lifetimes(t) && i < j < |t| && t[i] == JoinedGame && t[j] == JoinedGame
    ensures exists k :: i < k < j && t[k] == LeftGame
  {
    assert FitsAt(t, j) && FitsAt(t, j - 1);
    assert t[j - 2] == LeftGame;
  }

  /** After a Left record, the next thing heard of an id is that it has been handed out or migrated in. */
  lemma NothingAfterLeft(t: seq<Mark>, i: nat)
    requires Lifetimes(t) && i + 1 < |t| && t[i] == LeftGame
    ensures Opens(t[i + 1])
  {
    assert FitsAt(t, i + 1);
  }

  // ---- A slot and the trace of its id -------------------------------------------------------------

  /** Where in a lifetime a slot is. */
  predicate InStep(p: Participant, t: seq<Mark>) {
    if !p.isUsed then t == [] || t[|t| - 1] == LeftGame
    else t != [] && match p.state
      case JustJoined => t[|t| - 1] == HandedOut
      case Destroyed => false
      case _ => t[|t| - 1] in {Migrated, JoinedGame, Stepped}
  }

  ghost predicate LifeInv(slots: seq<Participant>, log: seq<Event>) {
    && (forall id: nat :: Lifetimes(Trace(log, id)))
    && (forall id :: 0 <= id < |slots| ==> InStep(slots[id], Trace(log, id)))
  }

  /** The slot and the trace move together when a step is composed. */
  lemma ComposeStaysInStep(p: Participant, partyId: byte, h: nat, t: seq<Mark>)
    requires p.isUsed && InStep(p, t)
    ensures FitsAt(t + [MarkOf(RecordOf(p, partyId, h))], |t|)
    ensures InStep(ParticipantAfter(p, h), t + [MarkOf(RecordOf(p, partyId, h))])
  {
  }
}
