/** The window of retained authoritative steps: discarding old ones and serving the rest. */
module Windows {
  import opened Common
  import opened StepBuffers
  import opened States
  import opened Invariants
  import opened Scheduling

  const MAX_REDUNDANCY: nat := 20

  /** Keeps at most a third of the window. */
  function Discard(s: Server): Server {
    var keep := s.config.window / 3;
    if |s.auth.entries| > keep then s.(auth := Discarded(s.auth, |s.auth.entries| - keep)) else s
  }

  lemma DiscardKeepsInv(s: Server)
    requires ServerInv(s)
    ensures ServerInv(Discard(s))
    ensures Discard(s).Head() == s.Head()
    ensures |Discard(s).auth.entries| == Min(|s.auth.entries|, s.config.window / 3)
  {
  }

  /** After a discard the gate is open exactly for windows of 2 and of 4 or more, or 3 with nothing stored. */
  lemma GateAfterDiscardExactly(s: Server)
    ensures GateOpen(Discard(s)) <==>
            s.config.window == 2 || s.config.window >= 4 || (s.config.window == 3 && s.auth.entries == [])
  {
    var w := s.config.window;
    if w >= 6 {
      assert w / 3 < w / 2;
    }
  }

  // ---- Serving ------------------------------------------------------------------------------------

  datatype Range = Range(start: nat, count: nat)

  /** The range that continues from the step a client waits for; none if that step is no longer, or not yet, here. */
  function Continuation(auth: StepBuffer, waiting: nat): Option<Range> {
    if waiting < auth.readId then None
    else if auth.WriteId() > waiting then Some(Range(waiting, Min(auth.WriteId() - waiting, MAX_REDUNDANCY)))
    else None
  }

  /** Every step of a served range is retained. */
  predicate InWindow(auth: StepBuffer, r: Range) {
    auth.readId <= r.start && r.start + r.count <= auth.WriteId()
  }

  /** The octets sent for a range. */
  function Served(auth: StepBuffer, r: Range): (o: seq<Octets>)
    requires InWindow(auth, r)
    ensures |o| == r.count
    ensures forall k :: 0 <= k < r.count ==> o[k] == auth.At(r.start + k)
  {
    auth.entries[r.start - auth.readId..r.start - auth.readId + r.count]
  }

  lemma ContinuationInWindow(auth: StepBuffer, waiting: nat)
    ensures Continuation(auth, waiting).Some? <==> auth.Holds(waiting)
    ensures Continuation(auth, waiting).Some? ==>
              var r := Continuation(auth, waiting).value;
              r.start == waiting && 0 < r.count <= 20 && InWindow(auth, r)
  {
  }

  /** The ranges a client gets by asking again from the end of each reply. */
  function Replies(auth: StepBuffer, waiting: nat): seq<Range>
    decreases if auth.WriteId() > waiting then auth.WriteId() - waiting else 0
  {
    match Continuation(auth, waiting)
    case None => []
    case Some(r) => [r] + Replies(auth, waiting + r.count)
  }

  /** Everything served by a list of ranges, in order. */
  function AllServed(auth: StepBuffer, rs: seq<Range>): seq<Octets>
    requires forall k :: 0 <= k < |rs| ==> InWindow(auth, rs[k])
  {
    if rs == [] then [] else Served(auth, rs[0]) + AllServed(auth, rs[1..])
  }

  lemma OneReplyMore(n: nat, count: nat)
    requires 0 < n && count == Min(n, 20)
    ensures (n + 19) / 20 == (n - count + 19) / 20 + 1
  {
  }

  /**
   * Asking again covers everything from the awaited step to the head, without gap or overlap,
   * in ceil(n / 20) replies.
   */
  lemma {:induction false} RepliesCover(auth: StepBuffer, waiting: nat)
    requires auth.readId <= waiting <= auth.WriteId()
    ensures var rs := Replies(auth, waiting);
            && (forall k :: 0 <= k < |rs| ==> InWindow(auth, rs[k]))
            && AllServed(auth, rs) == auth.entries[waiting - auth.readId..]
            && |rs| == (auth.WriteId() - waiting + 19) / 20
            && (forall k :: 0 <= k < |rs| ==> rs[k].start == waiting + k * 20)
    decreases auth.WriteId() - waiting
  {
    if waiting < auth.WriteId() {
      var r := Continuation(auth, waiting).value;
      RepliesCover(auth, waiting + r.count);
      var rest := Replies(auth, waiting + r.count);
      var rs := Replies(auth, waiting);
      assert rs[1..] == rest;
      forall k | 0 < k < |rs|
        ensures InWindow(auth, rs[k]) && rs[k].start == waiting + k * 20
      {
        assert rs[k] == rest[k - 1];
      }
      OneReplyMore(auth.WriteId() - waiting, r.count);
      var from := waiting - auth.readId;
      assert auth.entries[from..] == auth.entries[from..from + r.count] + auth.entries[from + r.count..];
    }
  }
}
