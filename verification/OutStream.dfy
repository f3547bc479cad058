/** The stream a composed step is written to, and the writing of one record. */
module OutStreams {
  import opened Common
  import opened States
  import opened Codec

  /** A bounded output stream: a write that does not fit fails and writes nothing. */
  class OutStream {
    const capacity: nat
    var octets: Octets

    constructor (capacity: nat)
      ensures octets == [] && this.capacity == capacity
    {
      this.capacity := capacity;
      octets := [];
    }

    method WriteUInt8(x: byte) returns (ok: bool)
      modifies this
      ensures ok == (|old(octets)| < capacity)
      ensures octets == if ok then old(octets) + [x] else old(octets)
    {
      ok := |octets| < capacity;
      if ok {
        octets := octets + [x];
      }
    }

    method WriteOctets(o: Octets) returns (ok: bool)
      modifies this
      ensures ok == (|old(octets)| + |o| <= capacity)
      ensures octets == if ok then old(octets) + o else old(octets)
    {
      ok := |octets| + |o| <= capacity;
      if ok {
        octets := octets + o;
      }
    }
  }

  datatype StepType = NormalType | NotInTimeType | WaitingType | JoinedType | LeftType

  function TypeCode(codes: StepCodes, t: StepType): byte {
    match t
    case NormalType => 0
    case NotInTimeType => codes.notInTime
    case WaitingType => codes.waiting
    case JoinedType => codes.joined
    case LeftType => codes.left
  }

  /** The record that a step type and its accompanying values stand for. */
  function RecordOfType(t: StepType, id: byte, partyId: byte, payload: Octets): Record {
    match t
    case NormalType => Provided(id, payload)
    case NotInTimeType => NotInTime(id)
    case WaitingType => Waiting(id)
    case JoinedType => Joined(id, partyId, payload)
    case LeftType => Left(id)
  }

  /** The octets before the payload part of a record. */
  function Opening(codes: StepCodes, t: StepType, id: byte, partyId: byte): Octets
    requires id < MASK
  {
    if t == NormalType then [id]
    else [MASK + id, TypeCode(codes, t)] + if t == JoinedType then [partyId] else []
  }

  /** Writes the opening. Only the first write is checked; with room for it, none can fail. */
  method WriteOpening(out: OutStream, codes: StepCodes, t: StepType, id: byte, partyId: byte) returns (ok: bool)
    requires id < MASK && |out.octets| + 3 <= out.capacity
    modifies out
    ensures ok && out.octets == old(out.octets) + Opening(codes, t, id, partyId)
  {
    var mask: byte := if t == NormalType then 0 else MASK;
    ok := out.WriteUInt8(mask + id);
    if !ok {
      return;
    }
    if mask != 0 {
      var _ := out.WriteUInt8(TypeCode(codes, t));
      if t == JoinedType {
        var _ := out.WriteUInt8(partyId);
      }
    }
  }

  /** Writes a record field by field. */
  method WriteRecord(out: OutStream, codes: StepCodes, t: StepType, id: byte, partyId: byte, payload: Octets) returns (ok: bool)
    requires id < MASK && |payload| < 256
    requires |out.octets| + 4 + |payload| <= out.capacity
    modifies out
    ensures ok && out.octets == old(out.octets) + Encode(codes, RecordOfType(t, id, partyId, payload))
  {
    ghost var opening := Opening(codes, t, id, partyId);
    ok := WriteOpening(out, codes, t, id, partyId);
    if t == NormalType || t == JoinedType {
      var _ := out.WriteUInt8(|payload|);
      var _ := out.WriteOctets(payload);
      assert Encode(codes, RecordOfType(t, id, partyId, payload)) == opening + [Octet(|payload|)] + payload;
    } else {
      assert Encode(codes, RecordOfType(t, id, partyId, payload)) == opening;
    }
  }
}
