/**
 * The state of the lockstep server as values.
 * The source keeps participants and parties in two fixed arrays of structs and points into them;
 * here a pointer into such an array is the index of the slot.
 */
module States {
  import opened Common
  import opened StepBuffers

  datatype ParticipantState = JustJoined | Normal | WaitingForRejoin | Leaving | Destroyed

  datatype Participant = Participant(
    id: byte,
    isUsed: bool,
    state: ParticipantState,
    inParty: Option<nat>,
    localIndex: nat,
    steps: StepBuffer)

  predicate IsUsed(p: Participant) { p.isUsed }

  /** The participant pool: all slots, the number in use, and the queue of free ids. */
  datatype Pool = Pool(slots: seq<Participant>, count: nat, free: seq<byte>)

  datatype Quality = Quality(
    forcedInRow: nat,
    providedInRow: nat,
    addedToBuffer: nat,
    hasAddedFirst: bool)

  datatype PartyState = PartyNormal | PartyWaiting | PartyDissolved

  datatype Party = Party(
    id: byte,
    isUsed: bool,
    state: PartyState,
    refs: seq<nat>,
    timer: nat,
    maxTimer: nat,
    quality: Quality,
    impeding: nat,
    highestReceived: nat,
    stepsInBuffer: nat,
    zeroAddedWarnings: nat)

  predicate IsPartyUsed(p: Party) { p.isUsed }

  datatype PartyTable = PartyTable(parties: seq<Party>, count: nat)

  /** Wire codes of the step types that are written out; a normal step writes none. */
  datatype StepCodes = StepCodes(notInTime: byte, joined: byte, waiting: byte, left: byte) {
    predicate Distinct() {
      && notInTime != joined && notInTime != waiting && notInTime != left
      && joined != waiting && joined != left && waiting != left
    }
  }

  /** What the set-up fixes: the step window, the octet bound of one step, the rejoin limit. */
  datatype Config = Config(window: nat, maxStepOctets: nat, rejoinLimit: nat, codes: StepCodes)

  datatype Server = Server(config: Config, pool: Pool, table: PartyTable, auth: StepBuffer) {
    /** The id of the next authoritative step. */
    function Head(): nat { auth.WriteId() }
  }

  /** The composing buffer of the source. */
  const COMPOSE_OCTETS: nat := 1024

  /** Every composed step fits the composing buffer, and a step length fits its length octet. */
  predicate ConfigOk(c: Config, capacity: nat) {
    && c.codes.Distinct()
    && c.maxStepOctets < 256
    && 1 + capacity * (4 + c.maxStepOctets) <= COMPOSE_OCTETS
  }

  /** The slots named by refs take on a state; the others stay as they are. */
  function WithStates(slots: seq<Participant>, refs: seq<nat>, state: ParticipantState): (r: seq<Participant>)
    ensures |r| == |slots|
    ensures forall i :: 0 <= i < |r| ==> r[i] == if i in refs then slots[i].(state := state) else slots[i]
  {
    seq(|slots|, i requires 0 <= i < |slots| => if i in refs then slots[i].(state := state) else slots[i])
  }
}
