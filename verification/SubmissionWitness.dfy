/**
 Two runs the protocol's designers will not have meant.  In one, a credit is overwritten and the
 fallback bit stays up for good although nothing is pending.  In the other, a goroutine sleeps
 before its CAS on the ticket while 2^32 - 1 pushes go by, and wins the ticket while another
 holds it.
 */
module SubmissionWitness {
  import opened Arith
  import opened Submission
  import opened SubmissionInvariant
  import opened SubmissionSteps
  import opened SubmissionTheorems
  import opened SubmissionRuns

  function AtRest(c: Config): State {
    var e := Sqe(Task(0, 0), 0);
    State(0, 0, 0, 0, 0, seq(c.entries, _ => e), seq(c.entries, _ => 0), [], map[], LIdle, map[], Free,
          [], [], [], 0, 0, 0)
  }

  lemma Starts(c: Config) returns (v: State)
    requires c.Valid()
    ensures v == AtRest(c) && Reachable(c, v) && Inv(c, v)
  {
    v := AtRest(c);
    assert Leads(c, v, [], v);
    InitInv(c, v);
  }

  ghost predicate AllIdle(pc: map<nat, Pc>) {
    forall s :: s in pc ==> pc[s].Idle?
  }

  // ---------------------------------------------------------------- a lost credit

  /** Goroutine 1 has made `k` pushes and credited them; the kernel has read nothing yet. */
  ghost predicate Filled(v: State, k: nat) {
    && v.pc.Keys <= {1} && PcOf(v, 1).Idle? && v.owner.Free? && v.loop.LIdle? && v.chan == []
    && |v.pushed| == v.barrier == v.finished == k && v.consumed == []
    && v.lost == v.late == v.served == 0
  }

  lemma FillsOne(c: Config, v: State, k: nat) returns (w: State)
    requires c.Valid() && Inv(c, v) && Filled(v, k) && k < c.entries
    ensures Gets(c, v, w) && Inv(c, w) && Filled(w, k + 1)
  {
    hide Inv, Gets;
    var v1 := Intends(c, v, 1);
    var v2 := Claims(c, v1, 1);
    Joined(c, v, v1, v2);
    var v3 := Pushes(c, v2, 1, 7);
    Joined(c, v, v2, v3);
    w := Credits(c, v3, 1);
    Joined(c, v, v3, w);
  }

  lemma {:induction false} Fills(c: Config, v: State, k: nat) returns (w: State)
    requires c.Valid() && Inv(c, v) && Filled(v, 0) && k <= c.entries
    ensures Gets(c, v, w) && Inv(c, w) && Filled(w, k)
    decreases k
  {
    hide Inv, Gets, Filled;
    if k == 0 {
      Stays(c, v);
      w := v;
    } else {
      var v1 := Fills(c, v, k - 1);
      w := FillsOne(c, v1, k - 1);
      Joined(c, v, v1, w);
    }
  }

  /** Goroutine 0 has filled the queue and not yet credited; goroutine 1 then found it full and raised the bit. */
  ghost predicate UncreditedAndRaised(c: Config, v: State) {
    && v.pc == map[0 := Credit, 1 := Idle] && v.loop.LIdle? && |v.chan| == 1
    && v.barrier == FALLBACK_BIT + c.entries + 1 && v.finished == c.entries - 1
    && |v.pushed| == c.entries && |v.consumed| == 0 && v.lost == v.late == v.served == 0
  }

  lemma SmallEpoch(n: nat)
    requires n < FALLBACK_BIT
    ensures !Active(n) && Epoch(n) == n
  {
  }

  lemma RaisesUncredited(c: Config, v: State) returns (w: State)
    requires c.Valid() && Inv(c, v) && c.entries > 0 && Filled(v, c.entries - 1)
    ensures Gets(c, v, w) && Inv(c, w) && UncreditedAndRaised(c, w)
  {
    hide Inv, Gets, Epoch, Active;
    SmallEpoch(c.entries);
    SmallEpoch(c.entries + 1);
    SmallEpoch(c.entries - 1);
    var v1 := Intends(c, v, 0);
    var v2 := Claims(c, v1, 0);
    Joined(c, v, v1, v2);
    var v3 := Pushes(c, v2, 0, 7);
    Joined(c, v, v2, v3);
    var v4 := Intends(c, v3, 1);
    Joined(c, v, v3, v4);
    var v5 := Claims(c, v4, 1);
    Joined(c, v, v4, v5);
    w := Raises(c, v5, 1);
    Joined(c, v, v5, w);
    assert w.pc == map[0 := Credit, 1 := Idle];
  }

  /** The loop counts that push into its batch; the credit comes too late, and the batch lacks a task. */
  ghost predicate BatchLacksTask(c: Config, v: State) {
    && AllIdle(v.pc) && v.late == 1 && v.lost == 0 && v.chan == [] && v.loop == LNext(v.barrier, 1)
    && Active(v.barrier) && Epoch(v.barrier) + 1 < FALLBACK_BIT && |v.pushed| == c.entries + 1 && |v.consumed| == 1
  }

  lemma RaisedEpoch(n: nat)
    requires n < FALLBACK_BIT
    ensures Active(FALLBACK_BIT + n) && Epoch(FALLBACK_BIT + n) == n
  {
  }

  lemma CreditComesLate(c: Config, v: State) returns (w: State)
    requires c.Valid() && Inv(c, v) && UncreditedAndRaised(c, v)
    ensures Gets(c, v, w) && Inv(c, w) && BatchLacksTask(c, w)
  {
    hide Inv, Gets, Epoch, Active, Batch, LoopControl;
    RaisedEpoch(c.entries + 1);
    Facts(c, v);
    var v1 := Receives(c, v);
    var v2 := Credits(c, v1, 0);
    Joined(c, v, v1, v2);
    var v3 := Consumes(c, v2);
    Joined(c, v, v2, v3);
    w := Publishes(c, v3, 8);
    Joined(c, v, v3, w);
  }

  /** One more call completes the batch, disturbs its snapshot, and so the store overwrites the credit. */
  lemma StoreOverwrites(c: Config, v: State) returns (w: State)
    requires c.Valid() && Inv(c, v) && BatchLacksTask(c, v)
    ensures Gets(c, v, w) && Inv(c, w) && AllIdle(w.pc) && w.lost == 1
    ensures w.chan == [] && Hand(w.loop) == []
  {
    hide Inv, Gets;
    var v1 := Feeds(c, v, 2);
    Facts(c, v1);
    var v2 := Loops(c, v1);
    Joined(c, v, v1, v2);
    var v3 := Consumes(c, v2);
    Joined(c, v, v2, v3);
    var v4 := Publishes(c, v3, 9);
    Joined(c, v, v3, v4);
    w := Stores(c, v4);
    Joined(c, v, v4, w);
  }

  /** The kernel reads everything. */
  lemma {:induction false} Empties(c: Config, v: State) returns (w: State)
    requires c.Valid() && Inv(c, v)
    ensures Gets(c, v, w) && Inv(c, w) && |w.consumed| == |w.pushed|
    ensures w == v.(sqHead := w.sqHead, consumed := w.consumed)
    decreases |v.pushed| - |v.consumed|
  {
    hide Inv, Gets;
    Facts(c, v);
    if |v.consumed| < |v.pushed| {
      var v1 := Consumes(c, v);
      w := Empties(c, v1);
      Joined(c, v, v1, w);
    } else {
      Stays(c, v);
      w := v;
    }
  }

  /** In a queue of any size a credit can be lost, and the bit then stays up with every submission long done. */
  lemma CreditCanBeLost(c: Config) returns (v: State)
    requires c.Valid()
    ensures Reachable(c, v) && Inv(c, v) && v.lost > 0 && Active(v.barrier)
    ensures v.chan == [] && Hand(v.loop) == [] && |v.consumed| == |v.pushed| && AllIdle(v.pc)
  {
    hide Reachable, Inv, Gets, UncreditedAndRaised, BatchLacksTask;
    var v0 := Starts(c);
    Facts(c, v0);
    var v1 := Fills(c, v0, c.entries - 1);
    var v2 := RaisesUncredited(c, v1);
    Joined(c, v0, v1, v2);
    var v3 := CreditComesLate(c, v2);
    Joined(c, v0, v2, v3);
    var v4 := StoreOverwrites(c, v3);
    Joined(c, v0, v3, v4);
    v := Empties(c, v4);
    Joined(c, v0, v4, v);
    StillReachable(c, v0, v);
    Facts(c, v);
  }

  /** Fallback mode need not end: from that state on, no run whatsoever clears the bit again. */
  lemma FallbackNeedNotEnd(c: Config) returns (v: State)
    requires c.Valid()
    ensures Reachable(c, v) && v.chan == [] && |v.consumed| == |v.pushed| && AllIdle(v.pc)
    ensures forall w: State :: Gets(c, v, w) ==> Active(w.barrier)
  {
    v := CreditCanBeLost(c);
    hide Reachable, Inv, Leads;
    forall w: State | Gets(c, v, w) ensures Active(w.barrier) {
      var es: seq<Event> :| Leads(c, v, es, w);
      LostCreditPinsFallback(c, v, es, w);
    }
  }

  // ---------------------------------------------------------------- a lapped ticket

  /** Between two rounds: goroutine 0 sleeps before its CAS, everybody else is idle, and all is consumed. */
  ghost predicate Resting(v: State, n: nat) {
    && v.pc.Keys <= {0, 1} && PcOf(v, 0) == CasTicket(0, 0) && PcOf(v, 1).Idle? && CallsOf(v, 0) > 0
    && |v.pushed| == |v.consumed| == n && v.barrier == n + 1 && v.owner.Free? && v.loop.LIdle?
  }

  /** One push of goroutine 1, credited and consumed. */
  lemma Round(c: Config, v: State, n: nat) returns (w: State)
    requires c.Valid() && Inv(c, v) && Resting(v, n) && n < W32
    ensures Gets(c, v, w) && Inv(c, w) && Resting(w, n + 1)
  {
    hide Inv, Gets;
    var v1 := Intends(c, v, 1);
    var v2 := Claims(c, v1, 1);
    Joined(c, v, v1, v2);
    var v3 := Pushes(c, v2, 1, 7);
    Joined(c, v, v2, v3);
    var v4 := Credits(c, v3, 1);
    Joined(c, v, v3, v4);
    w := Consumes(c, v4);
    Joined(c, v, v4, w);
  }

  /** Any number of rounds, up to a lap. */
  lemma {:induction false} Rounds(c: Config, v: State, n: nat) returns (w: State)
    requires c.Valid() && Inv(c, v) && Resting(v, 0) && n <= W32
    ensures Gets(c, v, w) && Inv(c, w) && Resting(w, n)
    decreases n
  {
    hide Inv, Gets, Resting;
    if n == 0 {
      Stays(c, v);
      w := v;
    } else {
      var v1 := Rounds(c, v, n - 1);
      w := Round(c, v1, n - 1);
      Joined(c, v, v1, w);
    }
  }

  lemma SleepsBeforeCas(c: Config) returns (v: State)
    requires c.Valid()
    ensures Reachable(c, v) && Inv(c, v) && Resting(v, 0)
  {
    hide Reachable, Inv, Gets;
    var v0 := Starts(c);
    var v1 := Intends(c, v0, 0);
    v := Looks(c, v1, 0);
    Joined(c, v0, v1, v);
    StillReachable(c, v0, v);
  }

  /**
   In a queue of any size: 2^32 - 1 pushes after goroutine 0 read the tail, and with goroutine 1 holding the ticket, the
   CAS of goroutine 0 wins: both are then inside.
   */
  lemma LappedCasWins(c: Config) returns (v: State)
    requires c.Valid()
    ensures Reachable(c, v) && Enabled(c, v, Step(0)) && v.owner == Direct(1)
    ensures PcOf(v, 0).CasTicket? && v.ticketTail == PcOf(v, 0).tail && !NoLap(v, Step(0))
    ensures var w := Apply(c, v, Step(0)); Owns(PcOf(w, 0)) && Owns(PcOf(w, 1))
  {
    hide Reachable, Inv, Gets;
    var v0 := SleepsBeforeCas(c);
    var v1 := Rounds(c, v0, W32 - 1);
    var v2 := Intends(c, v1, 1);
    Joined(c, v0, v1, v2);
    v := Claims(c, v2, 1);
    Joined(c, v0, v2, v);
    StillReachable(c, v0, v);
    LapFacts(c, v);
  }

  lemma LapFacts(c: Config, v: State)
    requires c.Valid() && Inv(c, v) && |v.pushed| == W32 - 1 && v.owner.Direct?
    ensures v.ticketTail == 0 && |v.sq| == |v.sqArray| == c.entries > 0
  {
    Facts(c, v);
  }
}
