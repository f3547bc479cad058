/** The life of one party: normal, waiting for a rejoin, dissolved; and when it ends. */
module PartyLives {
  import opened Common
  import opened States
  import opened Qualities

  const INITIAL_REJOIN_LIMIT: nat := 62 * 20

  /** Before first use: no participants, not used. */
  function InitialParty(id: byte): Party {
    Party(id, false, PartyNormal, [], 0, INITIAL_REJOIN_LIMIT, FRESH, 0, 0, 0, 0)
  }

  /** Reused for a new or returning transport connection; the participants are left alone. */
  function ReInit(p: Party): Party {
    p.(state := PartyNormal, quality := FRESH, impeding := 0, timer := 0, zeroAddedWarnings := 0)
  }

  /** Given back to the pool. */
  function Reset(p: Party): Party {
    p.(isUsed := false, refs := [], timer := 0, zeroAddedWarnings := 0, quality := FRESH, impeding := 0)
  }

  /** A join or rejoin also installs the configured limit on waiting. */
  function Rejoined(p: Party, limit: nat): Party { ReInit(p).(maxTimer := limit) }

  datatype TickOutcome = Keep | StartWaiting | GiveUp

  /** One tick of a used party. */
  function TickOne(p: Party): (Party, TickOutcome) {
    match p.state
    case PartyNormal =>
      var bad := IsFailing(p.quality);
      var next := p.(impeding := NextImpeding(p.impeding, bad));
      if Refuses(p.impeding, bad)
      then (next.(state := PartyWaiting, timer := 0), StartWaiting)
      else (next, Keep)
    case PartyWaiting =>
      (p.(timer := p.timer + 1), if p.timer + 1 < p.maxTimer then Keep else GiveUp)
    case PartyDissolved => (p, Keep)
  }

  /** What the world does to a party: a tick under some quality, or a rejoin. */
  datatype Beat = Tick(quality: Quality) | Rejoin

  /** How many ticks pass until the party is given up, if it ever is. */
  function TicksUntilGivenUp(p: Party, beats: seq<Beat>): (n: Option<nat>)
    ensures n.Some? ==> 1 <= n.value <= |beats|
    decreases |beats|
  {
    if beats == [] then None
    else match beats[0]
      case Rejoin => TicksUntilGivenUp(Rejoined(p, p.maxTimer), beats[1..])
      case Tick(q) =>
        var (next, outcome) := TickOne(p.(quality := q));
        if outcome.GiveUp? then Some(1)
        else match TicksUntilGivenUp(next, beats[1..])
          case None => None
          case Some(k) => Some(k + 1)
  }

  /** A used party whose counters are where its own ticks can take them. */
  predicate Plausible(p: Party) {
    match p.state
    case PartyNormal => p.impeding <= IMPEDING_LIMIT
    case PartyWaiting => (p.timer == 0 || p.timer < p.maxTimer) && p.impeding <= IMPEDING_LIMIT + 1
    case PartyDissolved => false
  }

  /** Ticks that must still pass before the party can be given up. */
  function TicksLeft(p: Party): int
    requires Plausible(p)
  {
    match p.state
    case PartyNormal => IMPEDING_LIMIT + 1 - p.impeding + Max(1, p.maxTimer)
    case PartyWaiting => Max(1, p.maxTimer) - p.timer
    case PartyDissolved => 0
  }

  /** A tick uses up at most one of the ticks left, and giving up needs exactly the last one. */
  lemma TickSpendsOne(p: Party)
    requires Plausible(p)
    ensures var (next, outcome) := TickOne(p);
            && next.maxTimer == p.maxTimer
            && (outcome.GiveUp? ==> TicksLeft(p) == 1)
            && (!outcome.GiveUp? ==> Plausible(next) && TicksLeft(next) >= TicksLeft(p) - 1)
            && (!outcome.GiveUp? && IsFailing(p.quality) ==> TicksLeft(next) == TicksLeft(p) - 1)
            && (!outcome.GiveUp? && p.state.PartyWaiting? ==> next.state.PartyWaiting? && TicksLeft(next) == TicksLeft(p) - 1)
            && (TicksLeft(p) == 1 ==> outcome.GiveUp?)
  {
  }

  /** No schedule of ticks and rejoins, whatever the quality, gives a party up early. */
  lemma {:induction false} NeverGivenUpEarly(p: Party, beats: seq<Beat>)
    requires Plausible(p)
    ensures match TicksUntilGivenUp(p, beats) case None => true case Some(n) => n >= TicksLeft(p)
    decreases |beats|
  {
    if beats != [] {
      match beats[0]
      case Rejoin =>
        NeverGivenUpEarly(Rejoined(p, p.maxTimer), beats[1..]);
      case Tick(q) =>
        TickSpendsOne(p.(quality := q));
        var (next, outcome) := TickOne(p.(quality := q));
        if !outcome.GiveUp? {
          NeverGivenUpEarly(next, beats[1..]);
        }
    }
  }

  /** Without rejoins, a party that always fails, or is already waiting, is given up as early as it can be. */
  lemma {:induction false} GivenUpOnTime(p: Party, beats: seq<Beat>)
    requires Plausible(p)
    requires TicksLeft(p) <= |beats|
    requires forall i :: 0 <= i < |beats| ==> beats[i].Tick?
    requires p.state.PartyWaiting? || forall i :: 0 <= i < |beats| ==> IsFailing(beats[i].quality)
    ensures TicksUntilGivenUp(p, beats) == Some(TicksLeft(p))
    decreases |beats|
  {
    var q := beats[0].quality;
    TickSpendsOne(p.(quality := q));
    var (next, outcome) := TickOne(p.(quality := q));
    if !outcome.GiveUp? {
      GivenUpOnTime(next, beats[1..]);
    }
  }

  /** A freshly initialised party: never before tick 181 + max(1, T). */
  lemma FreshPartyNeverGivenUpEarly(p: Party, beats: seq<Beat>)
    requires p.state.PartyNormal? && p.impeding == 0
    ensures match TicksUntilGivenUp(p, beats) case None => true case Some(n) => n >= 181 + Max(1, p.maxTimer)
  {
    NeverGivenUpEarly(p, beats);
  }

  /** Constant failure: exactly at that tick. */
  lemma FailingPartyGivenUpExactly(p: Party, beats: seq<Beat>)
    requires p.state.PartyNormal? && p.impeding == 0
    requires |beats| >= 181 + Max(1, p.maxTimer)
    requires forall i :: 0 <= i < |beats| ==> beats[i].Tick? && IsFailing(beats[i].quality)
    ensures TicksUntilGivenUp(p, beats) == Some(181 + Max(1, p.maxTimer))
  {
    GivenUpOnTime(p, beats);
  }

  /** A party prepared by host migration that nobody rejoins: exactly at tick max(1, T), whatever its quality. */
  lemma MigratedPartyGivenUpExactly(p: Party, beats: seq<Beat>)
    requires p.state.PartyWaiting? && p.timer == 0 && p.impeding == 0
    requires |beats| >= Max(1, p.maxTimer)
    requires forall i :: 0 <= i < |beats| ==> beats[i].Tick?
    ensures TicksUntilGivenUp(p, beats) == Some(Max(1, p.maxTimer))
  {
    GivenUpOnTime(p, beats);
  }

  /** Which ticks of a schedule find the party failing. */
  function Bads(beats: seq<Beat>): (r: seq<bool>)
    requires forall i :: 0 <= i < |beats| ==> beats[i].Tick?
    ensures |r| == |beats|
    ensures forall i :: 0 <= i < |beats| ==> r[i] == IsFailing(beats[i].quality)
  {
    seq(|beats|, i requires 0 <= i < |beats| => IsFailing(beats[i].quality))
  }

  /** The tick at which a counter standing at c first refuses. */
  function RefusalTick(c: nat, bads: seq<bool>): (k: Option<nat>)
    ensures k.Some? ==> 0 < k.value <= |bads|
    decreases |bads|
  {
    if bads == [] then None
    else if Refuses(c, bads[0]) then Some(1)
    else match RefusalTick(NextImpeding(c, bads[0]), bads[1..])
      case None => None
      case Some(k) => Some(k + 1)
  }

  /** The exact give-up tick of any schedule without rejoins: max(1, T) ticks after the first refusal. */
  lemma {:induction false} GivenUpAfterRefusal(p: Party, beats: seq<Beat>)
    requires p.state.PartyNormal? && p.impeding <= IMPEDING_LIMIT
    requires forall i :: 0 <= i < |beats| ==> beats[i].Tick?
    ensures TicksUntilGivenUp(p, beats) ==
            match RefusalTick(p.impeding, Bads(beats))
            case None => None
            case Some(k) => if k + Max(1, p.maxTimer) <= |beats| then Some(k + Max(1, p.maxTimer)) else None
    decreases |beats|
  {
    if beats != [] {
      var (next, outcome) := TickOne(p.(quality := beats[0].quality));
      assert Bads(beats)[1..] == Bads(beats[1..]);
      if outcome == Keep {
        GivenUpAfterRefusal(next, beats[1..]);
      } else if Max(1, p.maxTimer) < |beats| {
        GivenUpOnTime(next, beats[1..]);
      } else {
        NeverGivenUpEarly(next, beats[1..]);
      }
    }
  }

  /** The party after a schedule of ticks. */
  function AfterTicks(p: Party, beats: seq<Beat>): Party
    requires forall i :: 0 <= i < |beats| ==> beats[i].Tick?
  {
    if beats == [] then p
    else TickOne(AfterTicks(p, beats[..|beats| - 1]).(quality := beats[|beats| - 1].quality)).0
  }

  /** Until a tick refuses, the counter of a party is the reflected walk of its ticks since the reset. */
  lemma {:induction false} CounterIsWalk(p: Party, beats: seq<Beat>)
    requires p.state.PartyNormal? && p.impeding == 0
    requires forall i :: 0 <= i < |beats| ==> beats[i].Tick?
    requires forall k :: 0 <= k < |beats| ==> Walk(Bads(beats)[..k]) <= IMPEDING_LIMIT
    ensures AfterTicks(p, beats).impeding == Walk(Bads(beats))
    ensures AfterTicks(p, beats).state.PartyNormal? <==> Walk(Bads(beats)) <= IMPEDING_LIMIT
  {
    if beats != [] {
      var n := |beats| - 1;
      var init := beats[..n];
      assert Bads(init) == Bads(beats)[..n];
      assert forall k :: 0 <= k < n ==> Bads(init)[..k] == Bads(beats)[..k];
      CounterIsWalk(p, init);
    }
  }

  /** Tick k is the first of `bads` whose history, after the ticks in `done`, has a suffix balance past the limit. */
  ghost predicate IsFirstPastLimit(done: seq<bool>, bads: seq<bool>, k: nat) {
    && 0 < k <= |bads|
    && Walk(done + bads[..k]) > IMPEDING_LIMIT
    && forall j :: 0 <= j < k ==> Walk(done + bads[..j]) <= IMPEDING_LIMIT
  }

  lemma ShiftHistory(done: seq<bool>, bads: seq<bool>, k: nat)
    requires 0 < k <= |bads|
    ensures done + bads[..k] == done + [bads[0]] + bads[1..][..k - 1]
    ensures Walk(done + [bads[0]]) == NextImpeding(Walk(done), bads[0])
  {
    assert (done + [bads[0]])[..|done|] == done;
  }

  /** The first refusal is the first tick at which the largest suffix balance passes the limit. */
  lemma {:induction false} RefusalIsFirstPastLimit(done: seq<bool>, bads: seq<bool>, k: nat)
    requires Walk(done) <= IMPEDING_LIMIT
    ensures RefusalTick(Walk(done), bads) == Some(k) <==> IsFirstPastLimit(done, bads, k)
    decreases |bads|
  {
    assert done + bads[..0] == done;
    if 0 < k <= |bads| {
      var done' := done + [bads[0]];
      ShiftHistory(done, bads, 1);
      assert done + bads[..1] == done';
      if Refuses(Walk(done), bads[0]) {
        assert k > 1 ==> Walk(done + bads[..1]) > IMPEDING_LIMIT;
      } else if k > 1 {
        RefusalIsFirstPastLimit(done', bads[1..], k - 1);
        ShiftPredicate(done, bads, k);
      }
    }
  }

  lemma ShiftPredicate(done: seq<bool>, bads: seq<bool>, k: nat)
    requires Walk(done) <= IMPEDING_LIMIT
    requires 1 < k <= |bads|
    ensures IsFirstPastLimit(done, bads, k) <==> IsFirstPastLimit(done + [bads[0]], bads[1..], k - 1)
  {
    var done' := done + [bads[0]];
    ShiftHistory(done, bads, k);
    assert done + bads[..0] == done;
    if IsFirstPastLimit(done, bads, k) {
      forall j | 0 <= j < k - 1
        ensures Walk(done' + bads[1..][..j]) <= IMPEDING_LIMIT
      {
        ShiftHistory(done, bads, j + 1);
      }
    }
    if IsFirstPastLimit(done', bads[1..], k - 1) {
      forall j | 0 < j < k
        ensures Walk(done + bads[..j]) <= IMPEDING_LIMIT
      {
        ShiftHistory(done, bads, j);
        assert Walk(done' + bads[1..][..j - 1]) <= IMPEDING_LIMIT;
      }
    }
  }
}
