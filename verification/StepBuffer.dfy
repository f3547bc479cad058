/**
 * The contract assumed of the external step buffer (NbsSteps): a contiguous run of steps.
 * The entry at position k holds the step with id readId + k.
 */
module StepBuffers {
  import opened Common

  datatype StepBuffer = StepBuffer(readId: nat, entries: seq<Octets>) {

    /** expectedWriteId: one past the newest stored step. */
    function WriteId(): nat { readId + |entries| }

    predicate Holds(id: nat) { readId <= id < WriteId() }

    function At(id: nat): Octets
      requires Holds(id)
    {
      entries[id - readId]
    }
  }

  /** nbsStepsReInit: empty, waiting for the given id. */
  function Restarted(id: nat): StepBuffer { StepBuffer(id, []) }

  /** nbsStepsWrite of the expected id. */
  function Appended(b: StepBuffer, step: Octets): (r: StepBuffer)
    ensures r.WriteId() == b.WriteId() + 1
  {
    StepBuffer(b.readId, b.entries + [step])
  }

  /** nbsStepsDiscardCount: drops the n oldest steps. */
  function Discarded(b: StepBuffer, n: nat): (r: StepBuffer)
    requires n <= |b.entries|
    ensures r.WriteId() == b.WriteId()
    ensures forall id :: r.Holds(id) ==> b.Holds(id) && r.At(id) == b.At(id)
  {
    StepBuffer(b.readId + n, b.entries[n..])
  }

  /** The three ways reading one exact id can end. */
  datatype ReadResult = Found(octets: Octets) | CollectionIsEmpty | Corrupt

  /** Everything older than id dropped. */
  function DroppedBelow(b: StepBuffer, id: nat): (r: StepBuffer)
    ensures r.WriteId() == b.WriteId()
  {
    if id <= b.readId then b
    else if id < b.WriteId() then StepBuffer(id, b.entries[id - b.readId..])
    else StepBuffer(b.WriteId(), [])
  }

  /** nbsStepsReadExactStepId: drop older steps, then consume the one asked for. */
  function ReadExact(b: StepBuffer, id: nat): (r: (ReadResult, StepBuffer))
    ensures r.1.WriteId() == b.WriteId()
  {
    var d := DroppedBelow(b, id);
    if d.entries == [] then (CollectionIsEmpty, d)
    else if d.readId == id then (Found(d.entries[0]), StepBuffer(id + 1, d.entries[1..]))
    else (Corrupt, d)
  }

  /** The step stored for an id, if there is one. */
  function Lookup(b: StepBuffer, id: nat): Option<Octets> {
    if b.Holds(id) then Some(b.At(id)) else None
  }

  /** Reading yields exactly what was stored for the id, unless the buffer starts after it. */
  lemma ReadExactMeaning(b: StepBuffer, id: nat)
    requires b.readId <= id || b.entries == []
    ensures ReadExact(b, id).0 == match Lookup(b, id) case Some(o) => Found(o) case None => CollectionIsEmpty
    ensures forall k :: k > id ==> Lookup(ReadExact(b, id).1, k) == Lookup(b, k)
    ensures b.readId <= id ==> ReadExact(b, id).1.readId <= id + 1
    ensures id < b.readId ==> ReadExact(b, id).1 == b
  {
  }

  /** The corrupt outcome needs a buffer that is not empty and starts after the id asked for. */
  lemma CorruptExactly(b: StepBuffer, id: nat)
    ensures ReadExact(b, id).0.Corrupt? <==> b.entries != [] && id < b.readId
  {
  }
}
