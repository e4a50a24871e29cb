/**
 When fallback mode can end.  A credit that is lost, or that has come too late for the batch in
 hand, keeps the bit up for good; without one, some run clears it: hand over every task on its
 way, feed the batch from fresh calls of submit while the credits wait, give the credits once
 the loop is between two batches, and let one more batch run undisturbed.
 */
module SubmissionExit {
  import opened Arith
  import opened Submission
  import opened SubmissionInvariant
  import opened SubmissionSteps
  import opened SubmissionTheorems
  import opened SubmissionRuns

  // ---------------------------------------------------------------- handing over

  /** No goroutine is so far behind that its CAS on the ticket would be a lap late. */
  ghost predicate Unlapped(v: State) {
    forall s: nat :: PcOf(v, s).CasTicket? ==> |v.pushed| + 2 < PcOf(v, s).seen + W32
  }

  function StepsToSend(p: Pc): nat {
    match p
    case LoadTicket => 4
    case LoadTail(_) => 3
    case CasTicket(_, _) => 2
    case Recheck => 1
    case _ => 0
  }

  /** One step of a goroutine on its way to the channel. */
  lemma Approaches(c: Config, v: State, s: nat) returns (w: State)
    requires c.Valid() && Inv(c, v) && Active(v.barrier) && Unlapped(v)
    requires PhaseOf(PcOf(v, s)).Pending? && !PcOf(v, s).Send? && !PcOf(v, s).SendHeld?
    ensures Gets(c, v, w) && Inv(c, w) && Unlapped(w)
    ensures s in w.pc && w == v.(pc := v.pc[s := w.pc[s]])
    ensures PhaseOf(PcOf(w, s)).Pending? && StepsToSend(PcOf(w, s)) < StepsToSend(PcOf(v, s))
  {
    hide Inv, Gets;
    Facts(c, v);
    Control1(c, v, s);
    if PcOf(v, s).CasTicket? && v.ticketTail == PcOf(v, s).tail { TicketHeld(c, v, s); }
    Stays(c, v);
    w := Apply(c, v, Step(s));
    Next(c, v, v, Step(s), w);
    forall r: nat ensures PcOf(w, r).CasTicket? ==> |w.pushed| + 2 < PcOf(w, r).seen + W32 {
      assert r != s ==> PcOf(w, r) == PcOf(v, r);
    }
  }

  lemma TicketHeld(c: Config, v: State, s: nat)
    requires Inv(c, v) && PcOf(v, s).CasTicket? && |v.pushed| + 2 < PcOf(v, s).seen + W32
    requires v.ticketTail == PcOf(v, s).tail
    ensures v.owner.Free?
  {
    assert SubmitterControl(c, v, s);
    TicketCasMeansFree(c, v, PcOf(v, s).tail, PcOf(v, s).seen);
  }

  /** A goroutine on its way hands its task over. */
  lemma {:induction false} HandsOver(c: Config, v: State, s: nat) returns (w: State)
    requires c.Valid() && Inv(c, v) && Active(v.barrier) && Unlapped(v) && PhaseOf(PcOf(v, s)).Pending?
    ensures Gets(c, v, w) && Inv(c, w) && Unlapped(w)
    ensures w == v.(pc := v.pc[s := Idle], chan := w.chan, placed := w.placed)
    decreases StepsToSend(PcOf(v, s))
  {
    hide Inv, Gets, Unlapped;
    if PcOf(v, s).Send? || PcOf(v, s).SendHeld? {
      Control1(c, v, s);
      w := Sends(c, v, s);
      LessLapped(v, w, s);
    } else {
      var v1 := Approaches(c, v, s);
      w := HandsOver(c, v1, s);
      Joined(c, v, v1, w);
      assert v.pc[s := v1.pc[s]][s := Idle] == v.pc[s := Idle];
    }
  }

  lemma LessLapped(v: State, w: State, s: nat)
    requires Unlapped(v) && w.pc == v.pc[s := Idle] && w.pushed == v.pushed
    ensures Unlapped(w)
  {
    forall r: nat ensures PcOf(w, r).CasTicket? ==> |w.pushed| + 2 < PcOf(w, r).seen + W32 {
      assert r != s ==> PcOf(w, r) == PcOf(v, r);
    }
  }

  /** Every goroutine on its way hands its task over. */
  lemma {:induction false} AllHandOver(c: Config, v: State) returns (w: State)
    requires c.Valid() && Inv(c, v) && Active(v.barrier) && Unlapped(v)
    ensures Gets(c, v, w) && Inv(c, w) && In(w.pc, Pending) == {}
    ensures In(w.pc, Uncredited) == In(v.pc, Uncredited)
    ensures w == v.(pc := w.pc, chan := w.chan, placed := w.placed)
    decreases |In(v.pc, Pending)|
  {
    hide Inv, Gets, Unlapped;
    if In(v.pc, Pending) == {} {
      Stays(c, v);
      w := v;
    } else {
      var s :| s in In(v.pc, Pending);
      var v1 := HandsOver(c, v, s);
      InUpdate(v, s, Idle, Pending);
      InUpdate(v, s, Idle, Uncredited);
      w := AllHandOver(c, v1);
      Joined(c, v, v1, w);
    }
  }

  // ---------------------------------------------------------------- feeding the batch

  /** Tasks the batch, or the one the loop is about to begin, waits for and that nobody has handed over. */
  ghost function Need(v: State): nat {
    var l, here := v.loop, |v.chan| + |Hand(v.loop)|;
    if l.LIdle? then |In(v.pc, Uncredited)| + (if v.chan == [] then 1 else 0)
    else if l.LLoadBarrier? || l.LLoadFinished? then |In(v.pc, Uncredited)|
    else if InBatch(l) && !l.LStore? && l.m > here then l.m - here
    else 0
  }

  /** Fallback mode, nothing lost or late, nobody on the way, and an epoch with room for what is needed and more. */
  ghost predicate Calm(c: Config, v: State, spare: nat) {
    && Inv(c, v) && Active(v.barrier) && v.lost == 0 && v.late == 0 && In(v.pc, Pending) == {}
    && Epoch(v.barrier) + Need(v) + spare < FALLBACK_BIT
  }

  /** Moreover no credit is outstanding and nothing has disturbed the loop's snapshot. */
  ghost predicate Clean(v: State) {
    var l := v.loop;
    && In(v.pc, Uncredited) == {} && !l.LAgain? && (l.LIdle? ==> v.chan != [])
    && (l.LLoadFinished? || InBatch(l) || l.LClear? ==> l.snap == v.barrier)
  }

  function Stage(l: LoopPc): nat {
    match l
    case LIdle => 4
    case LLoadBarrier(_) => 3
    case LLoadFinished(_, _) => 2
    case LStore(_) => 0
    case LClear(_) => 0
    case LAgain => 0
    case LReleaseLoad => 0
    case LReleaseStore(_) => 0
    case _ => 1
  }

  function Todo(l: LoopPc): nat {
    if InBatch(l) && !l.LStore? then l.m else 0
  }

  function Place(l: LoopPc): nat {
    match l
    case LNext(_, _) => 8
    case LLoadTail(_, _, _) => 7
    case LLoadHead(_, _, _, _) => 6
    case LTakeTicket(_, _, _) => 5
    case LAddSlot(_, _, _) => 4
    case LWriteEntry(_, _, _, _) => 3
    case LPublish(_, _, _, _, _) => 2
    case LStore(_) => 2
    case LClear(_) => 1
    case _ => 0
  }

  /** The loop waits: for a task, or for room in the queue. */
  function Stuck(c: Config, v: State): nat {
    if LoopBlocked(v) || (v.loop.LLoadHead? && |v.pushed| >= |v.consumed| + c.entries) then 1 else 0
  }

  ghost predicate Nearer(c: Config, v: State, w: State) {
    var a, b := Stage(v.loop), Stage(w.loop);
    b < a || (b == a &&
      (Todo(w.loop) < Todo(v.loop) || (Todo(w.loop) == Todo(v.loop) &&
        (Place(w.loop) < Place(v.loop) || (Place(w.loop) == Place(v.loop) && Stuck(c, w) < Stuck(c, v))))))
  }

  /** Out of fallback mode, or calm and nearer to the end of the batch. */
  ghost predicate Onward(c: Config, v: State, w: State, k: nat) {
    !Active(w.barrier) || (Calm(c, w, k) && (w.loop.LAgain? || Nearer(c, v, w)))
  }

  lemma FreshGoroutine(v: State) returns (s: nat)
    ensures s !in v.pc && PcOf(v, s).Idle?
  {
    s := Beyond(v.pc.Keys);
  }

  lemma {:induction false} Beyond(keys: set<nat>) returns (s: nat)
    ensures forall x :: x in keys ==> x < s
    decreases keys
  {
    if keys == {} {
      s := 0;
    } else {
      var x :| x in keys;
      var s0 := Beyond(keys - {x});
      s := if x < s0 then s0 else x + 1;
      forall y | y in keys ensures y < s {
        assert y == x || y in keys - {x};
      }
    }
  }

  /** A blocked loop is fed by one fresh call of submit. */
  lemma FeedsLoop(c: Config, v: State, k: nat) returns (w: State)
    requires c.Valid() && Calm(c, v, k) && LoopBlocked(v) && !v.loop.LAgain?
    ensures Gets(c, v, w) && Onward(c, v, w, k) && !Clean(v)
  {
    hide Inv, Gets;
    CalmLedger(c, v, k);
    var s := FreshGoroutine(v);
    w := Feeds(c, v, s);
    InUpdate(v, s, Idle, Pending);
    InUpdate(v, s, Idle, Uncredited);
  }

  /** The ledger of a calm state: what the batch counts is what is here and what is uncredited. */
  lemma CalmLedger(c: Config, v: State, k: nat)
    requires c.Valid() && Calm(c, v, k)
    ensures v.barrier < 2 * FALLBACK_BIT && Batch(v) && LoopControl(c, v)
    ensures Epoch(v.barrier) == v.finished + |In(v.pc, Uncredited)| + |v.chan| + |Hand(v.loop)| + v.served
    ensures InBatch(v.loop) && !v.loop.LStore? ==>
              v.loop.m <= |In(v.pc, Uncredited)| + |v.chan| + |Hand(v.loop)|
    ensures LoopBlocked(v) && !v.loop.LAgain? ==> !Clean(v) && Need(v) > 0
  {
    hide Inv;
    Facts(c, v);
  }

  /** A full queue is given room by the kernel. */
  lemma MakesRoom(c: Config, v: State, k: nat) returns (w: State)
    requires c.Valid() && Calm(c, v, k) && v.loop.LLoadHead? && |v.pushed| >= |v.consumed| + c.entries
    ensures Gets(c, v, w) && Onward(c, v, w, k) && (Clean(v) ==> Clean(w))
  {
    hide Inv, Gets;
    Facts(c, v);
    w := Consumes(c, v);
  }

  lemma AddsSlot(c: Config, v: State, k: nat) returns (w: State)
    requires c.Valid() && Calm(c, v, k) && v.loop.LAddSlot?
    ensures Gets(c, v, w) && Onward(c, v, w, k) && (Clean(v) ==> Clean(w))
  {
    hide Inv, Gets;
    w := LoopAdds(c, v, 0);
  }

  /** The loop takes a task on and reads the barrier. */
  lemma Begins(c: Config, v: State, k: nat) returns (w: State)
    requires c.Valid() && Calm(c, v, k) && !v.loop.LAgain? && Stuck(c, v) == 0 && !v.loop.LAddSlot?
    requires v.loop.LIdle? || v.loop.LLoadBarrier?
    ensures Gets(c, v, w) && Onward(c, v, w, k)
    ensures Clean(v) ==> !Active(w.barrier) || Clean(w)
  {
    hide Inv, Gets;
    Facts(c, v);
    CalmLedger(c, v, k);
    w := Loops(c, v);
  }

  /** The loop computes its batch count. */
  lemma Counts(c: Config, v: State, k: nat) returns (w: State)
    requires c.Valid() && Calm(c, v, k) && !v.loop.LAgain? && Stuck(c, v) == 0 && !v.loop.LAddSlot?
    requires v.loop.LLoadFinished?
    ensures Gets(c, v, w) && Onward(c, v, w, k)
    ensures Clean(v) ==> !Active(w.barrier) || Clean(w)
  {
    hide Inv, Gets;
    Facts(c, v);
    CalmLedger(c, v, k);
    CalmCount(c, v, k);
    w := Loops(c, v);
  }

  /** The loop finds room and takes the ticket further. */
  lemma Prepares(c: Config, v: State, k: nat) returns (w: State)
    requires c.Valid() && Calm(c, v, k) && !v.loop.LAgain? && Stuck(c, v) == 0 && !v.loop.LAddSlot?
    requires v.loop.LLoadTail? || v.loop.LLoadHead? || v.loop.LTakeTicket? || v.loop.LWriteEntry?
    ensures Gets(c, v, w) && Onward(c, v, w, k)
    ensures Clean(v) ==> !Active(w.barrier) || Clean(w)
  {
    hide Inv, Gets;
    Facts(c, v);
    CalmLedger(c, v, k);
    w := Loops(c, v);
  }

  /** The loop publishes a task of its batch. */
  lemma Serves(c: Config, v: State, k: nat) returns (w: State)
    requires c.Valid() && Calm(c, v, k) && !v.loop.LAgain? && Stuck(c, v) == 0 && !v.loop.LAddSlot?
    requires v.loop.LPublish?
    ensures Gets(c, v, w) && Onward(c, v, w, k)
    ensures Clean(v) ==> !Active(w.barrier) || Clean(w)
  {
    hide Inv, Gets;
    Facts(c, v);
    CalmLedger(c, v, k);
    w := Loops(c, v);
  }

  /** The loop takes the next task of its batch. */
  lemma GoesOn(c: Config, v: State, k: nat) returns (w: State)
    requires c.Valid() && Calm(c, v, k) && !v.loop.LAgain? && Stuck(c, v) == 0 && !v.loop.LAddSlot?
    requires v.loop.LNext?
    ensures Gets(c, v, w) && Onward(c, v, w, k)
    ensures Clean(v) ==> !Active(w.barrier) || Clean(w)
  {
    hide Inv, Gets;
    Facts(c, v);
    CalmLedger(c, v, k);
    w := Loops(c, v);
  }

  /** The end of a batch. */
  lemma Ends(c: Config, v: State, k: nat) returns (w: State)
    requires c.Valid() && Calm(c, v, k) && !v.loop.LAgain? && Stuck(c, v) == 0 && !v.loop.LAddSlot?
    requires v.loop.LStore? || v.loop.LClear?
    ensures Gets(c, v, w) && Onward(c, v, w, k)
    ensures Clean(v) ==> !Active(w.barrier) || Clean(w)
  {
    hide Inv, Gets;
    Facts(c, v);
    CalmLedger(c, v, k);
    w := Loops(c, v);
  }

  lemma CalmCount(c: Config, v: State, k: nat)
    requires c.Valid() && Calm(c, v, k) && v.loop.LLoadFinished?
    ensures var m := Sub64(Epoch(v.loop.snap), v.finished % FALLBACK_BIT);
            && 1 <= m && Epoch(v.loop.snap) == v.finished + m
            && m <= |In(v.pc, Uncredited)| + |v.chan| + 1
  {
    CalmLedger(c, v, k);
    Facts(c, v);
    BatchCountAtLeastOne(v);
  }

  lemma Steps(c: Config, v: State, k: nat) returns (w: State)
    requires c.Valid() && Calm(c, v, k) && !v.loop.LAgain?
    ensures Gets(c, v, w) && Onward(c, v, w, k)
    ensures Clean(v) ==> !Active(w.barrier) || Clean(w)
  {
    CalmLedger(c, v, k);
    NotReleasing(c, v, k);
    hide Inv, Gets, Calm, Clean, Onward, Need;
    if LoopBlocked(v) { w := FeedsLoop(c, v, k); }
    else if Stuck(c, v) == 1 { w := MakesRoom(c, v, k); }
    else if v.loop.LAddSlot? { w := AddsSlot(c, v, k); }
    else if v.loop.LIdle? || v.loop.LLoadBarrier? { w := Begins(c, v, k); }
    else if v.loop.LLoadFinished? { w := Counts(c, v, k); }
    else if v.loop.LPublish? { w := Serves(c, v, k); }
    else if v.loop.LNext? { w := GoesOn(c, v, k); }
    else if v.loop.LStore? || v.loop.LClear? { w := Ends(c, v, k); }
    else { w := Prepares(c, v, k); }
  }

  lemma NotReleasing(c: Config, v: State, k: nat)
    requires c.Valid() && Calm(c, v, k)
    ensures !Releasing(v.loop)
  {
    Facts(c, v);
  }

  /** From a calm state the loop gets out of fallback mode or to the end of its batch; undisturbed, out. */
  lemma {:induction false} RunsOn(c: Config, v: State, k: nat) returns (w: State)
    requires c.Valid() && Calm(c, v, k)
    ensures Gets(c, v, w) && (!Active(w.barrier) || (Calm(c, w, k) && w.loop.LAgain?))
    ensures Clean(v) ==> !Active(w.barrier)
    decreases Stage(v.loop), Todo(v.loop), Place(v.loop), Stuck(c, v)
  {
    if v.loop.LAgain? {
      Stays(c, v);
      w := v;
    } else {
      w := Steps(c, v, k);
      hide Inv, Gets, Calm, Clean, Stage, Todo, Place, Stuck;
      if Active(w.barrier) && !w.loop.LAgain? {
        var v1 := w;
        w := RunsOn(c, v1, k);
        Joined(c, v, v1, w);
      } else if Active(w.barrier) {
        NotClean(w);
      }
    }
  }

  lemma NotClean(v: State)
    requires v.loop.LAgain?
    ensures !Clean(v)
  {
  }

  // ---------------------------------------------------------------- credits and the last batch

  /** Between two batches every outstanding credit is given. */
  lemma {:induction false} AllCredit(c: Config, v: State, k: nat) returns (w: State)
    requires c.Valid() && Calm(c, v, k) && v.loop.LAgain?
    ensures Gets(c, v, w) && Calm(c, w, k) && In(w.pc, Uncredited) == {} && w.loop.LAgain?
    decreases |In(v.pc, Uncredited)|
  {
    if In(v.pc, Uncredited) == {} {
      Stays(c, v);
      w := v;
    } else {
      var s :| s in In(v.pc, Uncredited);
      InUpdate(v, s, Idle, Pending);
      InUpdate(v, s, Idle, Uncredited);
      hide Inv, Gets;
      var v1 := Credits(c, v, s);
      w := AllCredit(c, v1, k);
      Joined(c, v, v1, w);
    }
  }

  /** With all credits given, one more batch clears the bit. */
  lemma LastBatch(c: Config, v: State) returns (w: State)
    requires c.Valid() && Calm(c, v, 1) && v.loop.LAgain? && In(v.pc, Uncredited) == {}
    ensures Gets(c, v, w) && !Active(w.barrier)
  {
    var v1 := HasTask(c, v);
    var v2 := TakesTask(c, v1);
    hide Inv, Gets, Calm, Clean;
    w := RunsOn(c, v2, 0);
    Joined(c, v, v1, v2);
    Joined(c, v, v2, w);
  }

  lemma HasTask(c: Config, v: State) returns (w: State)
    requires c.Valid() && Calm(c, v, 1) && v.loop.LAgain? && In(v.pc, Uncredited) == {}
    ensures Gets(c, v, w) && Calm(c, w, 0) && w.loop.LAgain? && w.chan != [] && In(w.pc, Uncredited) == {}
  {
    hide Inv, Gets;
    Facts(c, v);
    if v.chan != [] {
      Stays(c, v);
      w := v;
    } else {
      var s := FreshGoroutine(v);
      w := Feeds(c, v, s);
      InUpdate(v, s, Idle, Pending);
      InUpdate(v, s, Idle, Uncredited);
    }
  }

  lemma TakesTask(c: Config, v: State) returns (w: State)
    requires c.Valid() && Calm(c, v, 0) && v.loop.LAgain? && v.chan != [] && In(v.pc, Uncredited) == {}
    ensures Gets(c, v, w) && Calm(c, w, 0) && Clean(w)
  {
    hide Inv, Gets;
    Facts(c, v);
    w := Loops(c, v);
  }

  // ---------------------------------------------------------------- exactly when

  lemma PhaseCount(v: State, ph: Phase)
    ensures |In(v.pc, ph)| <= |v.pc|
  {
    var rest := v.pc.Keys - In(v.pc, ph);
    assert v.pc.Keys == In(v.pc, ph) + rest;
  }

  /** Without a lost or late credit some run leaves fallback mode. */
  lemma SomeRunLeaves(c: Config, v: State) returns (w: State)
    requires c.Valid() && Inv(c, v) && Active(v.barrier) && Unlapped(v)
    requires v.lost == 0 && v.late == 0 && Epoch(v.barrier) + |v.pc| + 2 < FALLBACK_BIT
    ensures Gets(c, v, w) && !Active(w.barrier)
  {
    var v1 := AllHandOver(c, v);
    PhaseCount(v, Uncredited);
    BecomesCalm(c, v, v1);
    hide Inv, Gets, Calm, Clean, Unlapped, In, Need;
    var v2 := RunsOn(c, v1, 1);
    Joined(c, v, v1, v2);
    if Active(v2.barrier) {
      var v3 := AllCredit(c, v2, 1);
      w := LastBatch(c, v3);
      Joined(c, v, v2, v3);
      Joined(c, v, v3, w);
    } else {
      w := v2;
    }
  }

  lemma BecomesCalm(c: Config, v: State, w: State)
    requires c.Valid() && Inv(c, w) && Active(v.barrier) && In(w.pc, Pending) == {}
    requires |In(w.pc, Uncredited)| <= |v.pc| && w == v.(pc := w.pc, chan := w.chan, placed := w.placed)
    requires v.lost == 0 && v.late == 0 && Epoch(v.barrier) + |v.pc| + 2 < FALLBACK_BIT
    ensures Calm(c, w, 1)
  {
    Facts(c, w);
  }

  /**
   Fallback mode can be left from here if and only if no credit is lost and none has come too
   late for the batch in hand.
   */
  lemma FallbackEndsWhen(c: Config, v: State)
    requires c.Valid() && Reachable(c, v) && Active(v.barrier)
    requires Unlapped(v) && Epoch(v.barrier) + |v.pc| + 2 < FALLBACK_BIT  // no counter is about to wrap
    ensures (exists w: State :: Gets(c, v, w) && !Active(w.barrier)) <==> v.lost + v.late == 0
  {
    ReachableInv(c, v);
    hide Inv, Leads, Unlapped, Reachable;
    if v.lost + v.late == 0 {
      var w := SomeRunLeaves(c, v);
    } else {
      forall w: State | Gets(c, v, w) ensures Active(w.barrier) {
        var es: seq<Event> :| Leads(c, v, es, w);
        LostCreditPinsFallback(c, v, es, w);
      }
    }
  }
}
