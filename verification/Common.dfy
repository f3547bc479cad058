/** Values shared by every module: octets, optional values, results, and counting. */
module Common {

  type byte = x: int | 0 <= x < 256

  type Octets = seq<byte>

  datatype Option<+T> = None | Some(value: T)

  /** A C return value: zero or more on success, a negative code on error. */
  datatype Result<+T> = Ok(value: T) | Err(code: int)

  const ERR_SESSION_FULL := -54
  const ERR_OUT_OF_PARTICIPANT_MEMORY := -43
  const ERR_SERIALIZE := -41
  const ERR_DISCONNECTED := -42
  const ERR_ALREADY_USED := -2
  const ERR_ILLEGAL_PARTICIPANT_INDEX := -4
  // The source stops through its error log on an illegal id; it has no code for it.
  const ERR_ILLEGAL_ID := -1000
  // What the external step buffer answers to a step past the expected one, or too long.
  const ERR_STEP_GAP := -3

  function Max(a: int, b: int): int { if a >= b then a else b }

  function Min(a: int, b: int): int { if a <= b then a else b }

  function Indicator(b: bool): nat { if b then 1 else 0 }

  /** How many elements satisfy p. */
  function Count<T>(xs: seq<T>, p: T -> bool): nat {
    if xs == [] then 0 else Count(xs[..|xs| - 1], p) + Indicator(p(xs[|xs| - 1]))
  }

  lemma {:induction false} CountUpdate<T>(xs: seq<T>, i: nat, x: T, p: T -> bool)
    requires i < |xs|
    ensures Count(xs[i := x], p) == Count(xs, p) - Indicator(p(xs[i])) + Indicator(p(x))
  {
    var n := |xs| - 1;
    if i == n {
      assert xs[i := x][..n] == xs[..n];
    } else {
      assert xs[i := x][..n] == xs[..n][i := x];
      CountUpdate(xs[..n], i, x, p);
    }
  }

  /** Counting sees only the value of the predicate at each position. */
  lemma {:induction false} CountCongruent<T>(xs: seq<T>, ys: seq<T>, p: T -> bool)
    requires |xs| == |ys|
    requires forall i :: 0 <= i < |xs| ==> p(xs[i]) == p(ys[i])
    ensures Count(xs, p) == Count(ys, p)
  {
    if xs != [] {
      CountCongruent(xs[..|xs| - 1], ys[..|ys| - 1], p);
    }
  }

  lemma {:induction false} CountBounds<T>(xs: seq<T>, p: T -> bool)
    ensures Count(xs, p) <= |xs|
    ensures Count(xs, p) == 0 <==> forall i :: 0 <= i < |xs| ==> !p(xs[i])
    ensures Count(xs, p) == |xs| <==> forall i :: 0 <= i < |xs| ==> p(xs[i])
  {
    if xs != [] {
      var n := |xs| - 1;
      CountBounds(xs[..n], p);
      assert forall i :: 0 <= i < n ==> xs[..n][i] == xs[i];
    }
  }
}
