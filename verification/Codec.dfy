/** The octets of one authoritative step: a record count, then one record per participant. */
module Codec {
  import opened Common
  import opened States

  /** What one authoritative step says about one participant. */
  datatype Record =
    | Provided(id: byte, payload: Octets)
    | NotInTime(id: byte)
    | Waiting(id: byte)
    | Joined(id: byte, partyId: byte, payload: Octets)
    | Left(id: byte)

  const MASK: byte := 0x80

  function Payload(r: Record): Octets {
    if r.Provided? || r.Joined? then r.payload else []
  }

  /** Ids leave the mask bit free, and payload lengths fit one octet. */
  predicate Encodable(r: Record) { r.id < MASK && |Payload(r)| < 256 }

  ghost predicate AllEncodable(rs: seq<Record>) {
    forall i :: 0 <= i < |rs| ==> Encodable(rs[i])
  }

  /** The id octet with the mask bit set. */
  function Masked(id: byte): byte { if id < MASK then MASK + id else id }

  /** A size cast to one octet. */
  function Octet(n: nat): (o: byte)
    ensures n < 256 ==> o == n
  {
    if n < 256 then n else (n % 256) as byte
  }

  function Encode(codes: StepCodes, r: Record): Octets {
    match r
    case Provided(id, payload) => [id, Octet(|payload|)] + payload
    case NotInTime(id) => [Masked(id), codes.notInTime]
    case Waiting(id) => [Masked(id), codes.waiting]
    case Joined(id, partyId, payload) => [Masked(id), codes.joined, partyId, Octet(|payload|)] + payload
    case Left(id) => [Masked(id), codes.left]
  }

  function EncodeAll(codes: StepCodes, rs: seq<Record>): Octets {
    if rs == [] then [] else Encode(codes, rs[0]) + EncodeAll(codes, rs[1..])
  }

  function EncodeStep(codes: StepCodes, rs: seq<Record>): Octets {
    [Octet(|rs|)] + EncodeAll(codes, rs)
  }

  /** A length octet and that many octets, split off the front. */
  function TakeCounted(o: Octets): Option<(Octets, Octets)> {
    if o == [] || 1 + o[0] > |o| then None
    else Some((o[1..1 + o[0]], o[1 + o[0]..]))
  }

  /** Splits one record off the front. */
  function DecodeOne(codes: StepCodes, o: Octets): Option<(Record, Octets)> {
    if o == [] then None
    else if o[0] < MASK then
      match TakeCounted(o[1..])
      case None => None
      case Some((payload, rest)) => Some((Provided(o[0], payload), rest))
    else if |o| < 2 then None
    else
      var id := o[0] - MASK;
      var rest := o[2..];
      if o[1] == codes.notInTime then Some((NotInTime(id), rest))
      else if o[1] == codes.waiting then Some((Waiting(id), rest))
      else if o[1] == codes.left then Some((Left(id), rest))
      else if o[1] != codes.joined || rest == [] then None
      else match TakeCounted(rest[1..])
        case None => None
        case Some((payload, tail)) => Some((Joined(id, rest[0], payload), tail))
  }

  function DecodeAll(codes: StepCodes, o: Octets, n: nat): Option<(seq<Record>, Octets)> {
    if n == 0 then Some(([], o))
    else match DecodeOne(codes, o)
      case None => None
      case Some((r, rest)) =>
        match DecodeAll(codes, rest, n - 1)
        case None => None
        case Some((rs, tail)) => Some(([r] + rs, tail))
  }

  /** The record list of one step; every octet must be used up. */
  function DecodeStep(codes: StepCodes, o: Octets): Option<seq<Record>> {
    if o == [] then None
    else match DecodeAll(codes, o[1..], o[0])
      case None => None
      case Some((rs, tail)) => if tail == [] then Some(rs) else None
  }

  /** One record of each kind, and a step of two, octet by octet. */
  lemma WireSamples(codes: StepCodes)
    ensures Encode(codes, Joined(3, 1, [7, 8])) == [0x83, codes.joined, 1, 2, 7, 8]
    ensures Encode(codes, Provided(4, [9])) == [4, 1, 9]
    ensures Encode(codes, NotInTime(5)) == [0x85, codes.notInTime]
    ensures Encode(codes, Left(6)) == [0x86, codes.left]
    ensures Encode(codes, Waiting(10)) == [0x8A, codes.waiting]
    ensures EncodeStep(codes, [Provided(4, [9]), Left(6)]) == [2, 4, 1, 9, 0x86, codes.left]
  {
    var rs := [Provided(4, [9]), Left(6)];
    assert rs[1..] == [Left(6)] && [Left(6)][1..] == [];
    assert EncodeAll(codes, [Left(6)]) == Encode(codes, Left(6));
  }

  lemma TakeCountedBack(payload: Octets, rest: Octets)
    requires |payload| < 256
    ensures TakeCounted([Octet(|payload|)] + payload + rest) == Some((payload, rest))
  {
    var o := [Octet(|payload|)] + payload + rest;
    assert o[1..1 + o[0]] == payload;
    assert o[1 + o[0]..] == rest;
  }

  lemma DecodeProvidedBack(codes: StepCodes, id: byte, payload: Octets, rest: Octets)
    requires id < MASK && |payload| < 256
    ensures DecodeOne(codes, Encode(codes, Provided(id, payload)) + rest) == Some((Provided(id, payload), rest))
  {
    var o := Encode(codes, Provided(id, payload)) + rest;
    assert o[1..] == [Octet(|payload|)] + payload + rest;
    TakeCountedBack(payload, rest);
  }

  lemma DecodeJoinedBack(codes: StepCodes, id: byte, partyId: byte, payload: Octets, rest: Octets)
    requires codes.Distinct() && id < MASK && |payload| < 256
    ensures DecodeOne(codes, Encode(codes, Joined(id, partyId, payload)) + rest) == Some((Joined(id, partyId, payload), rest))
  {
    var o := Encode(codes, Joined(id, partyId, payload)) + rest;
    assert o[2..][1..] == [Octet(|payload|)] + payload + rest;
    TakeCountedBack(payload, rest);
  }

  lemma DecodeOneBack(codes: StepCodes, r: Record, rest: Octets)
    requires codes.Distinct() && Encodable(r)
    ensures DecodeOne(codes, Encode(codes, r) + rest) == Some((r, rest))
  {
    match r
    case Provided(id, payload) => DecodeProvidedBack(codes, id, payload, rest);
    case Joined(id, partyId, payload) => DecodeJoinedBack(codes, id, partyId, payload, rest);
    case _ => assert (Encode(codes, r) + rest)[2..] == rest;
  }

  lemma DecodeAllCons(codes: StepCodes, o: Octets, r: Record, rest: Octets, rs: seq<Record>, tail: Octets)
    requires DecodeOne(codes, o) == Some((r, rest)) && DecodeAll(codes, rest, |rs|) == Some((rs, tail))
    ensures DecodeAll(codes, o, |rs| + 1) == Some(([r] + rs, tail))
  {
  }

  lemma {:induction false} DecodeAllBack(codes: StepCodes, rs: seq<Record>, rest: Octets)
    requires codes.Distinct() && AllEncodable(rs)
    ensures DecodeAll(codes, EncodeAll(codes, rs) + rest, |rs|) == Some((rs, rest))
  {
    if rs != [] {
      var r, more := rs[0], rs[1..];
      var tail := EncodeAll(codes, more) + rest;
      DecodeOneBack(codes, r, tail);
      DecodeAllBack(codes, more, rest);
      DecodeAllCons(codes, Encode(codes, r) + tail, r, tail, more, rest);
      EncodeAllCons(codes, r, more, rest);
      assert rs == [r] + more;
    } else {
      assert EncodeAll(codes, rs) + rest == rest;
    }
  }

  /** A decoder recovers exactly the record list that was composed. */
  lemma DecodeStepBack(codes: StepCodes, rs: seq<Record>)
    requires codes.Distinct() && AllEncodable(rs) && |rs| < 256
    ensures DecodeStep(codes, EncodeStep(codes, rs)) == Some(rs)
  {
    var o := EncodeStep(codes, rs);
    assert o[1..] == EncodeAll(codes, rs) + [];
    DecodeAllBack(codes, rs, []);
  }

  lemma TakeCountedSound(o: Octets)
    ensures match TakeCounted(o)
            case None => true
            case Some((payload, rest)) => |payload| < 256 && o == [Octet(|payload|)] + payload + rest
  {
  }

  /** r and rest, put together again, are o. */
  ghost predicate Restores(codes: StepCodes, o: Octets, d: Option<(Record, Octets)>) {
    d.Some? ==> Encodable(d.value.0) && o == Encode(codes, d.value.0) + d.value.1
  }

  lemma DecodeProvidedSound(codes: StepCodes, o: Octets)
    requires o != [] && o[0] < MASK
    ensures Restores(codes, o, DecodeOne(codes, o))
  {
    TakeCountedSound(o[1..]);
    assert o == [o[0]] + o[1..];
  }

  lemma DecodeJoinedSound(codes: StepCodes, o: Octets)
    requires |o| > 2 && o[0] >= MASK && o[1] == codes.joined && codes.joined !in {codes.notInTime, codes.waiting, codes.left}
    ensures Restores(codes, o, DecodeOne(codes, o))
  {
    var rest := o[2..][1..];
    TakeCountedSound(rest);
    assert o == [o[0], o[1], o[2]] + rest;
  }

  lemma DecodeShortSound(codes: StepCodes, o: Octets)
    requires |o| >= 2 && o[0] >= MASK && o[1] in {codes.notInTime, codes.waiting, codes.left}
    ensures Restores(codes, o, DecodeOne(codes, o))
  {
    assert o == [o[0], o[1]] + o[2..];
  }

  lemma DecodeOneSound(codes: StepCodes, o: Octets)
    ensures Restores(codes, o, DecodeOne(codes, o))
  {
    if DecodeOne(codes, o).Some? {
      if o[0] < MASK {
        DecodeProvidedSound(codes, o);
      } else if o[1] in {codes.notInTime, codes.waiting, codes.left} {
        DecodeShortSound(codes, o);
      } else {
        DecodeJoinedSound(codes, o);
      }
    }
  }

  lemma {:induction false} DecodeAllSound(codes: StepCodes, o: Octets, n: nat)
    ensures match DecodeAll(codes, o, n)
            case None => true
            case Some((rs, tail)) => |rs| == n && AllEncodable(rs) && o == EncodeAll(codes, rs) + tail
  {
    if n > 0 && DecodeAll(codes, o, n).Some? {
      DecodeOneSound(codes, o);
      var (r, rest) := DecodeOne(codes, o).value;
      DecodeAllSound(codes, rest, n - 1);
      var (rs, tail) := DecodeAll(codes, rest, n - 1).value;
      EncodeAllCons(codes, r, rs, tail);
    }
  }

  lemma EncodeAllCons(codes: StepCodes, r: Record, rs: seq<Record>, tail: Octets)
    ensures EncodeAll(codes, [r] + rs) + tail == Encode(codes, r) + (EncodeAll(codes, rs) + tail)
  {
    assert ([r] + rs)[1..] == rs;
  }

  /** The wire format is canonical: an octet string decodes to a list exactly when it is that list's encoding. */
  lemma DecodeStepExactly(codes: StepCodes, o: Octets, rs: seq<Record>)
    requires codes.Distinct()
    ensures DecodeStep(codes, o) == Some(rs) <==> AllEncodable(rs) && |rs| < 256 && o == EncodeStep(codes, rs)
  {
    if DecodeStep(codes, o) == Some(rs) {
      DecodeAllSound(codes, o[1..], o[0]);
      assert o == [o[0]] + o[1..];
    }
    if AllEncodable(rs) && |rs| < 256 && o == EncodeStep(codes, rs) {
      DecodeStepBack(codes, rs);
    }
  }

  lemma {:induction false} EncodeAllAppend(codes: StepCodes, rs: seq<Record>, r: Record)
    ensures EncodeAll(codes, rs + [r]) == EncodeAll(codes, rs) + Encode(codes, r)
  {
    if rs != [] {
      EncodeAllAppend(codes, rs[1..], r);
      assert (rs + [r])[1..] == rs[1..] + [r];
    }
  }

  /** The same after a prefix, as a stream sees it. */
  lemma StreamAppend(codes: StepCodes, prefix: Octets, rs: seq<Record>, r: Record)
    ensures prefix + EncodeAll(codes, rs + [r]) == prefix + EncodeAll(codes, rs) + Encode(codes, r)
  {
    EncodeAllAppend(codes, rs, r);
  }

  /** A record takes at most four octets besides its payload. */
  lemma {:induction false} EncodeAllLength(codes: StepCodes, rs: seq<Record>, bound: nat)
    requires forall i :: 0 <= i < |rs| ==> |Payload(rs[i])| <= bound
    ensures |EncodeAll(codes, rs)| <= |rs| * (4 + bound)
  {
    if rs != [] {
      EncodeAllLength(codes, rs[1..], bound);
      EncodeLength(codes, rs[0], bound);
      OneShareMore(|EncodeAll(codes, rs[1..])|, |Encode(codes, rs[0])|, |rs[1..]|, 4 + bound);
    }
  }

  lemma EncodeLength(codes: StepCodes, r: Record, bound: nat)
    requires |Payload(r)| <= bound
    ensures |Encode(codes, r)| <= 4 + bound
  {
  }

  lemma OneShareMore(length: nat, more: nat, n: nat, unit: nat)
    requires length <= n * unit && more <= unit
    ensures more + length <= (n + 1) * unit
  {
    assert (n + 1) * unit == n * unit + unit;
  }
}
