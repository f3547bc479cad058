/** Connection quality, and the delayed decision that turns bad quality into a recommendation to stop waiting. */
module Qualities {
  import opened States

  const FRESH := Quality(0, 0, 0, false)

  const FORCED_LIMIT: nat := 20
  const FORCED_LIMIT_BEFORE_FIRST: nat := 200
  const IMPEDING_LIMIT: nat := 180

  function ProvidedUsableStep(q: Quality): Quality {
    Quality(0, q.providedInRow + 1, 0, true)
  }

  function AddedForcedSteps(q: Quality, n: nat): Quality {
    q.(providedInRow := 0, forcedInRow := q.forcedInRow + n)
  }

  function AddedStepsToBuffer(q: Quality, n: nat): Quality {
    q.(addedToBuffer := q.addedToBuffer + n)
  }

  predicate IsFailing(q: Quality) {
    q.forcedInRow >= if q.hasAddedFirst then FORCED_LIMIT else FORCED_LIMIT_BEFORE_FIRST
  }

  /** One tick of the disconnect counter. */
  function NextImpeding(c: nat, bad: bool): nat {
    if bad then c + 1 else if c > 0 then c - 1 else 0
  }

  predicate Refuses(c: nat, bad: bool) { bad && NextImpeding(c, bad) > IMPEDING_LIMIT }

  /** The counter after a history of ticks since the last reset. */
  function Walk(bads: seq<bool>): nat {
    if bads == [] then 0 else NextImpeding(Walk(bads[..|bads| - 1]), bads[|bads| - 1])
  }

  /** Bad ticks minus good ticks. */
  function Balance(bads: seq<bool>): int {
    if bads == [] then 0
    else Balance(bads[..|bads| - 1]) + if bads[|bads| - 1] then 1 else -1
  }

  /** v is the largest balance of any suffix, the empty one included. */
  ghost predicate IsMaxSuffixBalance(bads: seq<bool>, v: int) {
    && (forall i :: 0 <= i <= |bads| ==> Balance(bads[i..]) <= v)
    && (exists i :: 0 <= i <= |bads| && Balance(bads[i..]) == v)
  }

  lemma SuffixOfLast(bads: seq<bool>, i: nat)
    requires i < |bads|
    ensures Balance(bads[i..]) == Balance(bads[..|bads| - 1][i..]) + if bads[|bads| - 1] then 1 else -1
  {
    var s := bads[i..];
    assert s[..|s| - 1] == bads[..|bads| - 1][i..];
  }

  /** The counter is a reflected walk: the maximum over all suffixes of bad minus good ticks. */
  lemma {:induction false} WalkIsMaxSuffixBalance(bads: seq<bool>)
    ensures IsMaxSuffixBalance(bads, Walk(bads))
  {
    if bads == [] {
      assert bads[0..] == [];
    } else {
      var n := |bads| - 1;
      var init := bads[..n];
      WalkIsMaxSuffixBalance(init);
      var w := Walk(bads);
      assert bads[|bads|..] == [];
      forall i | 0 <= i <= |bads|
        ensures Balance(bads[i..]) <= w
      {
        if i < |bads| {
          SuffixOfLast(bads, i);
          assert Balance(init[i..]) <= Walk(init);
        }
      }
      var k :| 0 <= k <= n && Balance(init[k..]) == Walk(init);
      SuffixOfLast(bads, k);
      if Balance(bads[k..]) != w {
        assert Balance(bads[|bads|..]) == w;
      }
    }
  }

  /** The maximum is unique, so it determines the counter. */
  lemma MaxSuffixBalanceUnique(bads: seq<bool>, v: int)
    requires IsMaxSuffixBalance(bads, v)
    ensures v == Walk(bads)
  {
    WalkIsMaxSuffixBalance(bads);
    var i :| 0 <= i <= |bads| && Balance(bads[i..]) == v;
    var j :| 0 <= j <= |bads| && Balance(bads[j..]) == Walk(bads);
    assert Balance(bads[j..]) <= v;
  }

  /**
   * While no earlier tick has refused, the newest tick refuses exactly when the largest suffix
   * balance exceeds the limit, and the counter is then at most one past it.
   */
  lemma {:induction false} RefusesExactly(bads: seq<bool>, bad: bool, v: int)
    requires IsMaxSuffixBalance(bads + [bad], v)
    requires Walk(bads) <= IMPEDING_LIMIT
    ensures Refuses(Walk(bads), bad) <==> v > IMPEDING_LIMIT
    ensures v <= IMPEDING_LIMIT + 1
  {
    MaxSuffixBalanceUnique(bads + [bad], v);
    assert (bads + [bad])[..|bads|] == bads;
  }
}
