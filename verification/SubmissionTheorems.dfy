/** What the submission protocol guarantees in every reachable state. */
module SubmissionTheorems {
  import opened Arith
  import opened Submission
  import opened SubmissionInvariant
  import opened SubmissionSteps

  // ---------------------------------------------------------------- mutual exclusion

  datatype Agent = Goroutine(id: nat) | Loop

  /** The agent may allocate a slot, write an SQE or move SQTail before it next gives way. */
  predicate Exclusive(v: State, a: Agent) {
    match a
    case Goroutine(s) => Owns(PcOf(v, s))
    case Loop => !v.loop.LIdle?
  }

  lemma MutualExclusion(c: Config, v: State, a: Agent, b: Agent)
    requires c.Valid() && Reachable(c, v)
    requires Exclusive(v, a) && Exclusive(v, b)
    ensures a == b
  {
    ReachableInv(c, v);
    if a.Goroutine? { assert SubmitterControl(c, v, a.id); }
    if b.Goroutine? { assert SubmitterControl(c, v, b.id); }
  }

  /** The ticket is level with the tail when free, one ahead when held, two in a loop dispatch. */
  lemma TicketDistance(c: Config, v: State)
    requires c.Valid() && Reachable(c, v)
    ensures Sub32(v.ticketTail, v.sqTail) == if Dispatching(v.loop) then 2 else if v.owner.Free? then 0 else 1
    ensures v.owner.Free? <==> v.ticketTail == v.sqTail
    ensures (forall s: nat :: !Owns(PcOf(v, s))) && v.loop.LIdle? && !Active(v.barrier) ==> v.owner.Free?
  {
    ReachableInv(c, v);
    WrappedDistance(|v.pushed| + Held(v), |v.pushed|, W32);
    if v.owner.Direct? {
      assert SubmitterControl(c, v, v.owner.who);
    }
  }

  /**
   The ticket CAS compares 32-bit values: it wins exactly when the ticket has moved by a
   multiple of 2^32 since the tail was loaded.  Short of a lap, it wins exactly when the
   ticket is free and nothing was pushed in between.
   */
  lemma TicketCasWinsWhen(c: Config, v: State, s: nat)
    requires c.Valid() && Reachable(c, v) && PcOf(v, s).CasTicket?
    ensures v.ticketTail == PcOf(v, s).tail <==> (|v.pushed| + Held(v) - PcOf(v, s).seen) % W32 == 0
    ensures |v.pushed| + 2 < PcOf(v, s).seen + W32 ==>
              (v.ticketTail == PcOf(v, s).tail <==> v.owner.Free? && |v.pushed| == PcOf(v, s).seen)
  {
    ReachableInv(c, v);
    assert SubmitterControl(c, v, s);
    SameRegister(|v.pushed| + Held(v), PcOf(v, s).seen, W32);
    if v.ticketTail == PcOf(v, s).tail && |v.pushed| + 2 < PcOf(v, s).seen + W32 {
      TicketCasMeansFree(c, v, PcOf(v, s).tail, PcOf(v, s).seen);
    }
  }

  /**
   A goroutine goes on to its CAS exactly if the ticket it read is level with all pushes made
   until now, and its CAS then aims at that very tail; otherwise it looks at the fallback bit again.
   */
  lemma TriesWhenLevel(c: Config, v: State, s: nat)
    requires c.Valid() && Reachable(c, v) && PcOf(v, s).LoadTail? && Enabled(c, v, Step(s))
    ensures var p, n := PcOf(StepSubmitter(c, v, s), s), |v.pushed|;
            p == if PcOf(v, s).ticket == n % W32 then CasTicket(n % W32, n) else Recheck
  {
    ReachableInv(c, v);
  }

  lemma SameRegister(a: nat, b: nat, w: nat)
    requires b <= a && w > 0
    ensures a % w == b % w <==> (a - b) % w == 0
  {
    var q := a / w - b / w;
    assert a == w * (a / w) + a % w;
    assert b == w * (b / w) + b % w;
    assert w * q == w * (a / w) - w * (b / w);
    if a % w == b % w {
      ModUnique(a - b, w, q, 0);
    } else if (a - b) % w == 0 {
      var d := (a - b) / w;
      assert a - b == w * d;
      assert w * (b / w + d) == w * (b / w) + w * d;
      ModUnique(a, w, b / w + d, b % w);
    }
  }

  // ---------------------------------------------------------------- the epoch ledger

  /**
   Every epoch increment is accounted for: credited, published but uncredited, waiting to be
   published, served in the current batch, or overwritten by a store of the loop.
   */
  lemma EpochLedger(c: Config, v: State)
    requires c.Valid() && Reachable(c, v)
    ensures Epoch(v.barrier) == v.finished + |In(v.pc, Uncredited)| + Waiting(v) + v.served + v.lost
  {
    ReachableInv(c, v);
  }

  /** The batch count is at least one where the loop computes it and never wraps as it falls. */
  lemma BatchCountNeverWraps(c: Config, v: State)
    requires c.Valid() && Reachable(c, v) && Enabled(c, v, LoopStep)
    ensures v.loop.LLoadFinished? ==> StepLoop(c, v).loop.m >= 1
    ensures v.loop.LPublish? ==>
              v.loop.m >= 1 && Sub64(v.loop.m, 1) == v.loop.m - 1
  {
    ReachableInv(c, v);
    if v.loop.LLoadFinished? {
      BatchCountAtLeastOne(v);
    }
  }

  /**
   Leaving fallback mode is safe: the CAS that clears the bit wins only when no submission is
   waiting, uncredited or lost, and no goroutine can still be on its way to the channel.
   */
  lemma SafeExit(c: Config, v: State)
    requires c.Valid() && Reachable(c, v)
    requires v.loop.LClear? && Enabled(c, v, LoopStep)
    requires Active(v.barrier) && !Active(StepLoop(c, v).barrier)
    ensures v.chan == [] && v.lost == 0 && v.finished == Epoch(v.barrier)
    ensures forall s: nat :: PhaseOf(PcOf(v, s)).Outside? || PhaseOf(PcOf(v, s)).Intending?
  {
    ReachableInv(c, v);
    ClearedOnlyWhenQuiet(v);
    forall s: nat ensures PhaseOf(PcOf(v, s)).Outside? || PhaseOf(PcOf(v, s)).Intending? {
      assert s !in In(v.pc, Pending) && s !in In(v.pc, Uncredited);
    }
  }

  /**
   A credit that is overwritten, or that has come too late for the batch in hand, keeps the ring
   in fallback mode for good: `lost + late` never falls, and while it is positive the bit is set.
   `SubmissionExit.FallbackEndsWhen` has the converse.
   */
  lemma {:induction false} LostCreditPinsFallback(c: Config, v: State, es: seq<Event>, v': State)
    requires c.Valid() && Inv(c, v) && v.lost + v.late > 0
    requires Leads(c, v, es, v')
    ensures v'.lost + v'.late >= v.lost + v.late && Active(v'.barrier)
    decreases |es|
  {
    if es != [] {
      var w := Apply(c, v, es[0]);
      EventKeepsInv(c, v, es[0]);
      OwedNeverFalls(c, v, es[0]);
      hide Inv, Apply, Enabled;
      LostCreditPinsFallback(c, w, es[1..], v');
    }
  }

  lemma OwedNeverFalls(c: Config, v: State, e: Event)
    requires Batch(v) && Enabled(c, v, e)
    ensures Apply(c, v, e).lost + Apply(c, v, e).late >= v.lost + v.late
  {
    hide StepSubmitter;
    if e.Step? { SubmitterOwes(c, v, e.who); }
  }

  lemma SubmitterOwes(c: Config, v: State, s: nat)
    requires |v.sq| == |v.sqArray| == c.entries > 0 && CallsOf(v, s) > 0
    ensures StepSubmitter(c, v, s).lost == v.lost && StepSubmitter(c, v, s).late >= v.late
  {
  }

  /**
   The batch count is a difference of 63-bit epochs in 64-bit arithmetic.  Where the loop
   computes it from a snapshot of the true epoch `epoch` and the true count `finished`, it is
   the number of outstanding submissions exactly when both are in the same lap of 2^63.
   */
  lemma BatchCountExactWithinLap(c: Config, v: State, epoch: nat, finished: nat)
    requires Enabled(c, v, LoopStep) && v.loop.LLoadFinished?
    requires Epoch(v.loop.snap) == epoch % FALLBACK_BIT && v.finished == finished % W64
    requires finished <= epoch < finished + FALLBACK_BIT
    ensures StepLoop(c, v).loop.m == epoch - finished <==> epoch / FALLBACK_BIT == finished / FALLBACK_BIT
  {
    WrapThenIndex(finished, W64, FALLBACK_BIT, 2);
  }

  // ---------------------------------------------------------------- exactly once, in order

  /**
   Every task handed over is published, in the loop's hand or in the channel, exactly once:
   read in that order, goroutine `s` finds its own calls 0, 1, 2, ... with none missing and
   none repeated.  Once `submit` has returned, that includes the call that returned.
   */
  lemma ExactlyOnceInOrder(c: Config, v: State, s: nat)
    requires c.Valid() && Reachable(c, v)
    ensures 0 <= CallsPlaced(v, s) <= CallsOf(v, s)
    ensures Of(Tasks(v.pushed) + Hand(v.loop) + v.chan, s) == FirstCalls(s, CallsPlaced(v, s))
    ensures PcOf(v, s).Idle? || PcOf(v, s).Credit? ==> CallsPlaced(v, s) == CallsOf(v, s)
  {
    ReachableInv(c, v);
    assert ProgramOrder(v, s);
  }

  /** The submission queue itself holds each goroutine's calls in program order. */
  lemma QueueFollowsProgramOrder(c: Config, v: State, s: nat)
    requires c.Valid() && Reachable(c, v)
    ensures var n := |Of(Tasks(v.pushed), s)|;
            n <= CallsOf(v, s) && Of(Tasks(v.pushed), s) == FirstCalls(s, n)
  {
    ExactlyOnceInOrder(c, v, s);
    var rest := Hand(v.loop) + v.chan;
    OfConcat(Tasks(v.pushed), rest, s);
    assert Tasks(v.pushed) + Hand(v.loop) + v.chan == Tasks(v.pushed) + rest;
    var all := FirstCalls(s, CallsPlaced(v, s));
    assert Of(Tasks(v.pushed), s) == all[..|Of(Tasks(v.pushed), s)|];
  }

  lemma NoneOf(s: nat)
    ensures Of([], s) == []
  {
  }

  lemma {:induction false} OfConcat(p: seq<Task>, q: seq<Task>, s: nat)
    ensures Of(p + q, s) == Of(p, s) + Of(q, s)
    decreases |q|
  {
    NoneOf(s);
    hide Of;
    if q == [] {
      assert p + q == p;
    } else {
      var init, last := q[..|q| - 1], q[|q| - 1];
      OfConcat(p, init, s);
      assert p + q == (p + init) + [last];
      OfAppend(p + init, last, s);
      OfAppend(init, last, s);
      assert q == init + [last];
    }
  }

  // ---------------------------------------------------------------- the bounded queue

  /**
   The queue never holds more than `entries` entries, the registers measure it exactly, no
   entry the kernel has still to read is overwritten, and the kernel reads the published
   entries, all of them, in order.
   */
  lemma BoundedFifo(c: Config, v: State)
    requires c.Valid() && Reachable(c, v)
    ensures Sub32(v.sqTail, v.sqHead) == |v.pushed| - |v.consumed| <= c.entries
    ensures v.consumed == v.pushed[..|v.consumed|]
    ensures |v.sq| == |v.sqArray| == c.entries > 0
    ensures forall i :: |v.consumed| <= i < |v.pushed| ==>
              v.sqArray[i % c.entries] == i % c.entries && v.sq[i % c.entries] == v.pushed[i]
  {
    ReachableInv(c, v);
    FullTest(c, v);
  }

  /** A step of the kernel appends exactly the oldest unread entry. */
  lemma KernelConsumesInOrder(c: Config, v: State)
    requires c.Valid() && Reachable(c, v) && Enabled(c, v, Consume)
    ensures |v.consumed| < |v.pushed|
    ensures Apply(c, v, Consume).consumed == v.pushed[..|v.consumed| + 1]
  {
    ReachableInv(c, v);
    KernelKeepsRegisters(c, v);
  }
}
