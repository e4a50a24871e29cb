/** Every step of the submission protocol keeps the invariant. */
module SubmissionSteps {
  import opened Arith
  import opened Submission
  import opened SubmissionInvariant

  lemma InitInv(c: Config, v: State)
    requires c.Valid() && Init(c, v)
    ensures Inv(c, v)
  {
    assert In(v.pc, Pending) == {} && In(v.pc, Uncredited) == {};
    forall s: nat ensures SubmitterControl(c, v, s) && ProgramOrder(v, s) {
    }
  }

  // ---------------------------------------------------------------- control

  /** A CAS on the ticket succeeds only when nobody holds it. */
  lemma TicketCasMeansFree(c: Config, v: State, tail: nat, seen: nat)
    requires Registers(c, v)
    requires tail == seen % W32 && seen <= |v.pushed| && |v.pushed| + 2 < seen + W32
    requires v.ticketTail == tail
    ensures v.owner == Free && |v.pushed| == seen
  {
    WrappedDistance(|v.pushed| + Held(v), seen, W32);
  }

  /** The room test on wrapped counters is the room test on true counts. */
  lemma FullTest(c: Config, v: State)
    requires c.Valid() && Registers(c, v)
    ensures Sub32(v.sqTail, v.sqHead) == |v.pushed| - |v.consumed|
  {
    WrappedDistance(|v.pushed|, |v.consumed|, W32);
  }

  lemma TailStep(v: State)
    ensures (|v.pushed| % W32 + 1) % W32 == (|v.pushed| + 1) % W32
    ensures ((|v.pushed| + Held(v)) % W32 + 1) % W32 == (|v.pushed| + Held(v) + 1) % W32
    ensures (|v.consumed| % W32 + 1) % W32 == (|v.consumed| + 1) % W32
  {
    WrappedNext(|v.pushed|, W32);
    WrappedNext(|v.pushed| + Held(v), W32);
    WrappedNext(|v.consumed|, W32);
  }

  /** A goroutine that did not move keeps its control facts. */
  lemma Bystander(c: Config, v: State, v': State, r: nat)
    requires SubmitterControl(c, v, r)
    requires PcOf(v', r) == PcOf(v, r) && CallsOf(v', r) == CallsOf(v, r)
    requires v.owner == Direct(r) <==> v'.owner == Direct(r)
    requires Active(v.barrier) && (PcOf(v, r).Send? || PcOf(v, r).SendHeld?) ==> Active(v'.barrier)
    requires Owns(PcOf(v, r)) ==> v'.sqTail == v.sqTail && |v'.pushed| == |v.pushed|
    requires |v.pushed| <= |v'.pushed| && |v.consumed| <= |v'.consumed|
    ensures SubmitterControl(c, v', r)
  {
  }

  lemma SubmitterKeepsRegisters(c: Config, v: State, s: nat)
    requires c.Valid() && Registers(c, v) && LoopControl(c, v) && SubmitterControl(c, v, s)
    requires Enabled(c, v, Step(s)) && NoLap(v, Step(s))
    ensures Registers(c, StepSubmitter(c, v, s))
  {
    hide Registers, StepSubmitter, LoopControl;
    if PcOf(v, s).CasTicket? || PcOf(v, s).Publish? {
      SubmitterMovesTail(c, v, s);
    } else {
      SubmitterLeavesTail(c, v, s);
    }
  }

  /** The CAS that moves the ticket and the store that moves the tail. */
  lemma SubmitterMovesTail(c: Config, v: State, s: nat)
    requires c.Valid() && Registers(c, v) && LoopControl(c, v) && SubmitterControl(c, v, s)
    requires Enabled(c, v, Step(s)) && NoLap(v, Step(s)) && (PcOf(v, s).CasTicket? || PcOf(v, s).Publish?)
    ensures Registers(c, StepSubmitter(c, v, s))
  {
    TailStep(v);
    if PcOf(v, s).CasTicket? && v.ticketTail == PcOf(v, s).tail {
      TicketCasMeansFree(c, v, PcOf(v, s).tail, PcOf(v, s).seen);
    }
  }

  lemma SubmitterLeavesTail(c: Config, v: State, s: nat)
    requires Registers(c, v) && LoopControl(c, v) && SubmitterControl(c, v, s) && Enabled(c, v, Step(s))
    requires !PcOf(v, s).CasTicket? && !PcOf(v, s).Publish?
    ensures Registers(c, StepSubmitter(c, v, s))
  {
  }

  lemma SubmitterKeepsLoop(c: Config, v: State, s: nat)
    requires c.Valid() && Registers(c, v) && LoopControl(c, v) && SubmitterControl(c, v, s)
    requires Enabled(c, v, Step(s)) && NoLap(v, Step(s))
    ensures LoopControl(c, StepSubmitter(c, v, s))
  {
    if PcOf(v, s).CasTicket? && v.ticketTail == PcOf(v, s).tail {
      TicketCasMeansFree(c, v, PcOf(v, s).tail, PcOf(v, s).seen);
    }
  }

  lemma SubmitterKeepsOwn(c: Config, v: State, s: nat)
    requires c.Valid() && Registers(c, v) && LoopControl(c, v) && SubmitterControl(c, v, s)
    requires Enabled(c, v, Step(s)) && NoLap(v, Step(s))
    ensures SubmitterControl(c, StepSubmitter(c, v, s), s)
  {
    FullTest(c, v);
    if PcOf(v, s).CasTicket? && v.ticketTail == PcOf(v, s).tail {
      TicketCasMeansFree(c, v, PcOf(v, s).tail, PcOf(v, s).seen);
    }
  }

  lemma SubmitterKeepsOthers(c: Config, v: State, s: nat, r: nat)
    requires c.Valid() && Registers(c, v) && LoopControl(c, v)
    requires SubmitterControl(c, v, s) && SubmitterControl(c, v, r) && r != s
    requires Enabled(c, v, Step(s)) && NoLap(v, Step(s))
    ensures SubmitterControl(c, StepSubmitter(c, v, s), r)
  {
    if PcOf(v, s).CasTicket? && v.ticketTail == PcOf(v, s).tail {
      TicketCasMeansFree(c, v, PcOf(v, s).tail, PcOf(v, s).seen);
    }
    Bystander(c, v, StepSubmitter(c, v, s), r);
  }

  lemma SubmitterKeepsControl(c: Config, v: State, s: nat)
    requires c.Valid() && Control(c, v)
    requires Enabled(c, v, Step(s)) && NoLap(v, Step(s))
    ensures Control(c, StepSubmitter(c, v, s))
  {
    assert SubmitterControl(c, v, s);
    SubmitterKeepsRegisters(c, v, s);
    SubmitterKeepsLoop(c, v, s);
    forall r: nat ensures SubmitterControl(c, StepSubmitter(c, v, s), r) {
      assert SubmitterControl(c, v, r);
      if r == s {
        SubmitterKeepsOwn(c, v, s);
      } else {
        SubmitterKeepsOthers(c, v, s, r);
      }
    }
  }

  lemma LoopKeepsRegisters(c: Config, v: State)
    requires c.Valid() && Registers(c, v) && LoopControl(c, v) && Ledger(v) && Batch(v)
    requires Enabled(c, v, LoopStep)
    ensures Registers(c, StepLoop(c, v))
  {
    hide Ledger;
    if v.loop.LTakeTicket? || v.loop.LPublish? {
      LoopMovesTail(c, v);
    } else if v.loop.LReleaseStore? {
      LoopReleases(c, v);
    } else {
      LoopLeavesTail(c, v);
    }
  }

  /** The two steps of a dispatch in the loop that move the ticket and the tail. */
  lemma LoopMovesTail(c: Config, v: State)
    requires c.Valid() && Registers(c, v) && LoopControl(c, v) && Enabled(c, v, LoopStep)
    requires v.loop.LTakeTicket? || v.loop.LPublish?
    ensures Registers(c, StepLoop(c, v))
  {
    TailStep(v);
  }

  lemma LoopReleases(c: Config, v: State)
    requires c.Valid() && Registers(c, v) && LoopControl(c, v) && Enabled(c, v, LoopStep)
    requires v.loop.LReleaseStore?
    ensures Registers(c, StepLoop(c, v))
  {
  }

  lemma LoopLeavesTail(c: Config, v: State)
    requires c.Valid() && Registers(c, v) && LoopControl(c, v) && Batch(v) && Enabled(c, v, LoopStep)
    requires !v.loop.LTakeTicket? && !v.loop.LPublish? && !v.loop.LReleaseStore?
    ensures Registers(c, StepLoop(c, v))
  {
  }

  lemma LoopKeepsOwn(c: Config, v: State)
    requires c.Valid() && Registers(c, v) && LoopControl(c, v) && Ledger(v) && Batch(v)
    requires Enabled(c, v, LoopStep)
    ensures LoopControl(c, StepLoop(c, v))
  {
    FullTest(c, v);
  }

  /** The fallback bit is cleared only when nothing is waiting, uncredited or lost. */
  lemma ClearedOnlyWhenQuiet(v: State)
    requires Ledger(v) && Batch(v)
    requires v.loop.LClear? && v.barrier == v.loop.snap
    ensures Waiting(v) == 0 && In(v.pc, Uncredited) == {} && In(v.pc, Pending) == {}
    ensures v.chan == [] && v.lost == 0 && v.finished == Epoch(v.barrier)
  {
  }

  lemma LoopKeepsControl(c: Config, v: State)
    requires c.Valid() && Control(c, v) && Ledger(v) && Batch(v)
    requires Enabled(c, v, LoopStep)
    ensures Control(c, StepLoop(c, v))
  {
    LoopKeepsRegisters(c, v);
    LoopKeepsOwn(c, v);
    hide Registers, LoopControl, Ledger, Batch, StepLoop, SubmitterControl;
    forall r: nat ensures SubmitterControl(c, StepLoop(c, v), r) {
      LoopKeepsSubmitter(c, v, r);
    }
  }

  lemma LoopKeepsSubmitter(c: Config, v: State, r: nat)
    requires c.Valid() && LoopControl(c, v) && SubmitterControl(c, v, r) && Ledger(v) && Batch(v)
    requires Enabled(c, v, LoopStep)
    ensures SubmitterControl(c, StepLoop(c, v), r)
  {
    if v.loop.LClear? && v.barrier == v.loop.snap {
      ClearedOnlyWhenQuiet(v);
      assert r !in In(v.pc, Pending);
    }
    Bystander(c, v, StepLoop(c, v), r);
  }

  /** What the kernel finds at its head is the oldest entry it has not read. */
  lemma KernelReadsOldest(c: Config, v: State)
    requires c.Valid() && Registers(c, v) && Ring(c, v) && v.sqHead != v.sqTail
    ensures |v.consumed| < |v.pushed|
    ensures v.sqArray[v.sqHead % c.entries] == v.sqHead % c.entries
    ensures v.sq[v.sqHead % c.entries] == v.pushed[|v.consumed|]
  {
    Index32(|v.consumed|, c.entries);
  }

  lemma KernelKeepsRegisters(c: Config, v: State)
    requires c.Valid() && Registers(c, v) && LoopControl(c, v) && Ring(c, v) && Enabled(c, v, Consume)
    ensures Registers(c, StepKernel(c, v)) && LoopControl(c, StepKernel(c, v))
    ensures StepKernel(c, v).consumed == v.consumed + [v.pushed[|v.consumed|]]
  {
    hide Ring;
    KernelReadsOldest(c, v);
    TailStep(v);
  }

  lemma KernelKeepsControl(c: Config, v: State)
    requires c.Valid() && Control(c, v) && Ring(c, v) && Enabled(c, v, Consume)
    ensures Control(c, StepKernel(c, v))
  {
    KernelKeepsRegisters(c, v);
    forall r: nat ensures SubmitterControl(c, StepKernel(c, v), r) {
      assert SubmitterControl(c, v, r);
      Bystander(c, v, StepKernel(c, v), r);
    }
  }

  lemma OthersKeepControl(c: Config, v: State, e: Event)
    requires c.Valid() && Control(c, v) && Enabled(c, v, e)
    requires e.Begin? || e.StepAdd? || e.LoopAdd?
    ensures Control(c, Apply(c, v, e))
  {
    forall r: nat ensures SubmitterControl(c, Apply(c, v, e), r) {
      assert SubmitterControl(c, v, r);
      if e.LoopAdd? || r != e.who {
        Bystander(c, v, Apply(c, v, e), r);
      }
    }
  }

  // ---------------------------------------------------------------- ledger

  /** The goroutine's CAS on the barrier succeeds: one more submission is under way. */
  predicate Bumps(v: State, s: nat) {
    PcOf(v, s).IntentCas? && v.barrier == PcOf(v, s).b
  }

  predicate Places(p: Pc) {
    p.Send? || p.SendHeld? || p.Publish?
  }

  function NextPhase(v: State, s: nat): Phase {
    var p := PcOf(v, s);
    if Bumps(v, s) then Pending
    else if p.Send? || p.SendHeld? || p.Credit? then Outside
    else if p.Publish? then Uncredited
    else PhaseOf(p)
  }

  /** What one step of goroutine `s` does to its own phase. */
  ghost predicate PcShape(v: State, v': State, s: nat) {
    && s in v'.pc && v'.pc == v.pc[s := v'.pc[s]] && PhaseOf(v'.pc[s]) == NextPhase(v, s)
    && v'.calls == v.calls
  }

  /** What one step of goroutine `s` does to the counters. */
  ghost predicate CountShape(v: State, v': State, s: nat) {
    var p := PcOf(v, s);
    && v'.loop == v.loop && v'.served == v.served && v'.lost == v.lost
    && Epoch(v'.barrier) == Epoch(v.barrier) + (if Bumps(v, s) then 1 else 0)
    && (Active(v.barrier) ==> Active(v'.barrier))
    && v'.finished == v.finished + (if p.Credit? then 1 else 0)
    && v'.late == v.late + (if p.Credit? && InBatch(v.loop) then 1 else 0)
    && |v'.chan| == |v.chan| + (if p.Send? || p.SendHeld? then 1 else 0)
    && v'.placed == if Places(p) && CallsOf(v, s) > 0 then v.placed + [Current(v, s)] else v.placed
  }

  ghost predicate Shape(v: State, v': State, s: nat) {
    PcShape(v, v', s) && CountShape(v, v', s)
  }

  lemma SubmitterPcShape(c: Config, v: State, s: nat)
    requires Enabled(c, v, Step(s))
    ensures PcShape(v, StepSubmitter(c, v, s), s)
  {
    hide PcShape, StepSubmitter;
    if PcOf(v, s).WriteEntry? || PcOf(v, s).Publish? {
      StoringPcShape(c, v, s);
    } else if PcOf(v, s).Send? || PcOf(v, s).SendHeld? || PcOf(v, s).Credit? {
      LeavingPcShape(c, v, s);
    } else if PcOf(v, s).IntentLoad? || PcOf(v, s).IntentCas? {
      IntendingPcShape(c, v, s);
    } else {
      PendingPcShape(c, v, s);
    }
  }

  lemma StoringPcShape(c: Config, v: State, s: nat)
    requires Enabled(c, v, Step(s)) && (PcOf(v, s).WriteEntry? || PcOf(v, s).Publish?)
    ensures PcShape(v, StepSubmitter(c, v, s), s)
  {
    hide StoreEntry, PublishEntry;
    StoreMovesNoGoroutine(c, v);
  }

  lemma LeavingPcShape(c: Config, v: State, s: nat)
    requires Enabled(c, v, Step(s)) && (PcOf(v, s).Send? || PcOf(v, s).SendHeld? || PcOf(v, s).Credit?)
    ensures PcShape(v, StepSubmitter(c, v, s), s)
  {
  }

  lemma IntendingPcShape(c: Config, v: State, s: nat)
    requires Enabled(c, v, Step(s)) && (PcOf(v, s).IntentLoad? || PcOf(v, s).IntentCas?)
    ensures PcShape(v, StepSubmitter(c, v, s), s)
  {
  }

  /** The steps between two phases' ends: the goroutine's submission stays pending. */
  lemma PendingPcShape(c: Config, v: State, s: nat)
    requires Enabled(c, v, Step(s)) && PhaseOf(PcOf(v, s)).Pending?
    requires !PcOf(v, s).Send? && !PcOf(v, s).SendHeld? && !PcOf(v, s).WriteEntry? && !PcOf(v, s).Publish?
    ensures PcShape(v, StepSubmitter(c, v, s), s)
  {
  }

  lemma StoreMovesNoGoroutine(c: Config, v: State)
    requires |v.sq| == |v.sqArray| == c.entries > 0
    ensures forall e: Sqe :: StoreEntry(c, v, e).pc == v.pc && StoreEntry(c, v, e).calls == v.calls
    ensures forall e: Sqe, tail: nat :: PublishEntry(v, e, tail).pc == v.pc && PublishEntry(v, e, tail).calls == v.calls
  {
  }

  lemma SubmitterCountShape(c: Config, v: State, s: nat)
    requires v.barrier < 2 * FALLBACK_BIT && v.finished < FALLBACK_BIT
    requires Enabled(c, v, Step(s)) && NoLap(v, Step(s))
    ensures CountShape(v, StepSubmitter(c, v, s), s)
  {
    if PcOf(v, s).IntentCas? || PcOf(v, s).RaiseCas? {
      BarrierCountShape(c, v, s);
    } else {
      OtherCountShape(c, v, s);
    }
  }

  lemma BarrierCountShape(c: Config, v: State, s: nat)
    requires v.barrier < 2 * FALLBACK_BIT && Enabled(c, v, Step(s)) && NoLap(v, Step(s))
    requires PcOf(v, s).IntentCas? || PcOf(v, s).RaiseCas?
    ensures CountShape(v, StepSubmitter(c, v, s), s)
  {
  }

  lemma OtherCountShape(c: Config, v: State, s: nat)
    requires v.finished < FALLBACK_BIT && Enabled(c, v, Step(s))
    requires !PcOf(v, s).IntentCas? && !PcOf(v, s).RaiseCas?
    ensures CountShape(v, StepSubmitter(c, v, s), s)
  {
  }

  lemma SubmitterShape(c: Config, v: State, s: nat)
    requires v.barrier < 2 * FALLBACK_BIT && v.finished < FALLBACK_BIT
    requires Enabled(c, v, Step(s)) && NoLap(v, Step(s))
    ensures Shape(v, StepSubmitter(c, v, s), s)
  {
    SubmitterPcShape(c, v, s);
    SubmitterCountShape(c, v, s);
  }

  lemma ShapeKeepsLedger(v: State, v': State, s: nat)
    requires Ledger(v) && Shape(v, v', s)
    ensures Ledger(v')
    ensures PcOf(v, s).Publish? || Waiting(v') == Waiting(v) + (if Bumps(v, s) then 1 else 0)
  {
    InCount(v, s, v'.pc[s], Pending);
    InCount(v, s, v'.pc[s], Uncredited);
  }

  lemma ShapeKeepsBatch(v: State, v': State, s: nat)
    requires Ledger(v) && Batch(v) && Shape(v, v', s)
    requires PcOf(v, s).Publish? ==> v.loop.LIdle?
    ensures Batch(v')
  {
    ShapeKeepsLedger(v, v', s);
  }

  lemma SubmitterKeepsLedger(c: Config, v: State, s: nat)
    requires LoopControl(c, v) && SubmitterControl(c, v, s) && v.barrier < 2 * FALLBACK_BIT
    requires Ledger(v) && Batch(v)
    requires Enabled(c, v, Step(s)) && NoLap(v, Step(s))
    ensures Ledger(StepSubmitter(c, v, s)) && Batch(StepSubmitter(c, v, s))
  {
    SubmitterShape(c, v, s);
    ShapeKeepsLedger(v, StepSubmitter(c, v, s), s);
    ShapeKeepsBatch(v, StepSubmitter(c, v, s), s);
  }

  /** The batch count the loop computes is the number of submissions it has to account for. */
  lemma BatchCountAtLeastOne(v: State)
    requires Ledger(v) && Batch(v) && v.loop.LLoadFinished?
    ensures var m := Sub64(Epoch(v.loop.snap), v.finished % FALLBACK_BIT);
            1 <= m < FALLBACK_BIT && Epoch(v.loop.snap) == v.finished + m
  {
  }

  lemma LoopKeepsLedger(c: Config, v: State)
    requires LoopControl(c, v) && Ledger(v) && Batch(v)
    requires Enabled(c, v, LoopStep)
    ensures Ledger(StepLoop(c, v))
  {
    LoopMovesNoGoroutine(c, v);
    hide In;
    if v.loop.LStore? || v.loop.LClear? {
      BatchEndKeepsLedger(c, v);
    } else {
      RestKeepsLedger(c, v);
    }
  }

  /** The store that may overwrite credits, and the CAS on the barrier. */
  lemma BatchEndKeepsLedger(c: Config, v: State)
    requires Ledger(v) && Batch(v) && Enabled(c, v, LoopStep) && (v.loop.LStore? || v.loop.LClear?)
    ensures Ledger(StepLoop(c, v))
  {
    hide In;
  }

  lemma RestKeepsLedger(c: Config, v: State)
    requires Ledger(v) && Batch(v) && Enabled(c, v, LoopStep) && !v.loop.LStore? && !v.loop.LClear?
    ensures Ledger(StepLoop(c, v))
  {
    hide In;
  }

  lemma LoopKeepsBatch(c: Config, v: State)
    requires LoopControl(c, v) && Ledger(v) && Batch(v) && v.barrier < 2 * FALLBACK_BIT
    requires Enabled(c, v, LoopStep)
    ensures Batch(StepLoop(c, v))
  {
    if v.loop.LLoadFinished? {
      BatchCountAtLeastOne(v);
    } else if InBatch(v.loop) {
      LoopKeepsInsideBatch(c, v);
    } else {
      LoopKeepsOutsideBatch(c, v);
    }
  }

  lemma LoopKeepsInsideBatch(c: Config, v: State)
    requires LoopControl(c, v) && Batch(v) && v.barrier < 2 * FALLBACK_BIT
    requires Enabled(c, v, LoopStep) && InBatch(v.loop)
    ensures Batch(StepLoop(c, v))
  {
  }

  lemma LoopKeepsOutsideBatch(c: Config, v: State)
    requires LoopControl(c, v) && Ledger(v) && Batch(v) && v.barrier < 2 * FALLBACK_BIT
    requires Enabled(c, v, LoopStep) && !InBatch(v.loop) && !v.loop.LLoadFinished?
    ensures Batch(StepLoop(c, v))
  {
  }

  lemma OthersKeepLedger(c: Config, v: State, e: Event)
    requires Ledger(v) && Batch(v) && Enabled(c, v, e)
    requires !e.Step? && !e.LoopStep?
    ensures Ledger(Apply(c, v, e)) && Batch(Apply(c, v, e))
  {
    if e.Begin? {
      InCount(v, e.who, IntentLoad, Pending);
      InCount(v, e.who, IntentLoad, Uncredited);
    } else if e.StepAdd? {
      InCount(v, e.who, WriteEntry(e.slot), Pending);
      InCount(v, e.who, WriteEntry(e.slot), Uncredited);
    }
  }

  // ---------------------------------------------------------------- ring contents

  /** Writing at the tail of a ring with room touches no entry the kernel has still to read. */
  lemma StoreKeepsWindow(c: Config, v: State, e: Sqe)
    requires c.Valid() && Registers(c, v) && Ring(c, v) && Room(c, v)
    ensures var v' := StoreEntry(c, v, e);
            && Stored(c, v', e)
            && forall i :: |v.consumed| <= i < |v.pushed| ==>
                 v'.sqArray[i % c.entries] == i % c.entries && v'.sq[i % c.entries] == v.pushed[i]
  {
    Index32(|v.pushed|, c.entries);
    forall i | |v.consumed| <= i < |v.pushed| ensures i % c.entries != |v.pushed| % c.entries {
      SlotsDistinct(i, |v.pushed|, c.entries);
    }
  }

  /** Steps that neither store an entry nor move SQTail leave the ring facts alone. */
  lemma RingFrame(c: Config, v: State, v': State)
    requires Ring(c, v)
    requires v'.sq == v.sq && v'.sqArray == v.sqArray
    requires v'.pushed == v.pushed && v'.consumed == v.consumed && v'.calls == v.calls
    requires forall r: nat :: PcOf(v', r).Publish? ==> PcOf(v, r) == PcOf(v', r)
    requires v'.loop.LPublish? ==> v'.loop == v.loop
    ensures Ring(c, v')
  {
    forall r: nat ensures StoredBy(c, v', r) {
      assert StoredBy(c, v, r);
    }
  }

  lemma SubmitterStores(c: Config, v: State, s: nat)
    requires c.Valid() && Control(c, v) && Ring(c, v)
    requires Enabled(c, v, Step(s)) && PcOf(v, s).WriteEntry?
    ensures Ring(c, StepSubmitter(c, v, s))
  {
    var e := Sqe(Current(v, s), PcOf(v, s).slot);
    assert SubmitterControl(c, v, s);
    StoreKeepsWindow(c, v, e);
    var w := StoreEntry(c, v, e);
    var v' := Goto(w, s, Publish(e.userData, v.sqTail));
    forall r: nat ensures StoredBy(c, v', r) {
      assert SubmitterControl(c, v, r);
    }
  }

  lemma SubmitterPublishes(c: Config, v: State, s: nat)
    requires c.Valid() && Control(c, v) && Ring(c, v)
    requires Enabled(c, v, Step(s)) && PcOf(v, s).Publish?
    ensures Ring(c, StepSubmitter(c, v, s))
  {
    var v' := StepSubmitter(c, v, s);
    assert SubmitterControl(c, v, s) && StoredBy(c, v, s);
    forall r: nat ensures StoredBy(c, v', r) {
      assert SubmitterControl(c, v, r);
    }
  }

  lemma SubmitterKeepsRing(c: Config, v: State, s: nat)
    requires c.Valid() && Control(c, v) && Ring(c, v)
    requires Enabled(c, v, Step(s))
    ensures Ring(c, StepSubmitter(c, v, s))
  {
    if PcOf(v, s).WriteEntry? {
      SubmitterStores(c, v, s);
    } else if PcOf(v, s).Publish? {
      SubmitterPublishes(c, v, s);
    } else {
      SubmitterLeavesRing(c, v, s);
    }
  }

  lemma SubmitterLeavesRing(c: Config, v: State, s: nat)
    requires Ring(c, v) && Enabled(c, v, Step(s)) && !PcOf(v, s).WriteEntry? && !PcOf(v, s).Publish?
    ensures Ring(c, StepSubmitter(c, v, s))
  {
    hide Ring, StepSubmitter;
    SubmitterFrame(c, v, s);
    SubmitterPcShape(c, v, s);
    NotToPublish(c, v, s);
    RingFrame(c, v, StepSubmitter(c, v, s));
  }

  lemma SubmitterFrame(c: Config, v: State, s: nat)
    requires Enabled(c, v, Step(s)) && !PcOf(v, s).WriteEntry? && !PcOf(v, s).Publish?
    ensures var v' := StepSubmitter(c, v, s);
            && v'.sq == v.sq && v'.sqArray == v.sqArray && v'.loop == v.loop
            && v'.pushed == v.pushed && v'.consumed == v.consumed
  {
    hide Epoch, Active, Sub32;
  }

  lemma NotToPublish(c: Config, v: State, s: nat)
    requires Enabled(c, v, Step(s)) && !PcOf(v, s).WriteEntry? && !PcOf(v, s).Publish?
    ensures !PcOf(StepSubmitter(c, v, s), s).Publish?
  {
    hide Epoch, Active, Sub32;
  }

  lemma LoopKeepsRing(c: Config, v: State)
    requires c.Valid() && Control(c, v) && Ring(c, v)
    requires Enabled(c, v, LoopStep)
    ensures Ring(c, StepLoop(c, v))
  {
    if v.loop.LWriteEntry? || v.loop.LPublish? {
      LoopStoresAndPublishes(c, v);
    } else {
      LoopLeavesRing(c, v);
    }
  }

  lemma LoopLeavesRing(c: Config, v: State)
    requires Ring(c, v) && Enabled(c, v, LoopStep) && !v.loop.LWriteEntry? && !v.loop.LPublish?
    ensures Ring(c, StepLoop(c, v))
  {
    hide Ring, StepLoop;
    LoopFrame(c, v);
    LoopMovesNoGoroutine(c, v);
    RingFrame(c, v, StepLoop(c, v));
  }

  lemma LoopFrame(c: Config, v: State)
    requires Enabled(c, v, LoopStep) && !v.loop.LWriteEntry? && !v.loop.LPublish?
    ensures var v' := StepLoop(c, v);
            && v'.sq == v.sq && v'.sqArray == v.sqArray && v'.pushed == v.pushed && v'.consumed == v.consumed
            && !v'.loop.LPublish?
  {
    hide Epoch, Sub32, Sub64;
  }

  lemma LoopStoresAndPublishes(c: Config, v: State)
    requires c.Valid() && Control(c, v) && Ring(c, v)
    requires Enabled(c, v, LoopStep) && (v.loop.LWriteEntry? || v.loop.LPublish?)
    ensures Ring(c, StepLoop(c, v))
  {
    var v' := StepLoop(c, v);
    if v.loop.LWriteEntry? {
      StoreKeepsWindow(c, v, Sqe(v.loop.task, v.loop.slot));
    }
    forall r: nat ensures StoredBy(c, v', r) {
      assert SubmitterControl(c, v, r);
    }
  }

  lemma OthersKeepRing(c: Config, v: State, e: Event)
    requires c.Valid() && Registers(c, v) && Ring(c, v)
    requires Enabled(c, v, e) && !e.Step? && !e.LoopStep?
    ensures Ring(c, Apply(c, v, e))
  {
    if e.Consume? {
      KernelKeepsRing(c, v);
    } else {
      EntryKeepsRing(c, v, e);
    }
  }

  /** Beginning a call or getting a slot moves nobody to where an entry is stored. */
  lemma EntryKeepsRing(c: Config, v: State, e: Event)
    requires Ring(c, v) && Enabled(c, v, e) && (e.Begin? || e.StepAdd? || e.LoopAdd?)
    ensures Ring(c, Apply(c, v, e))
  {
    var v' := Apply(c, v, e);
    forall r: nat ensures StoredBy(c, v', r) {
      assert StoredBy(c, v, r);
    }
  }

  lemma KernelKeepsRing(c: Config, v: State)
    requires c.Valid() && Registers(c, v) && Ring(c, v) && Enabled(c, v, Consume)
    ensures Ring(c, StepKernel(c, v))
  {
    KernelReadsOldest(c, v);
    forall r: nat ensures StoredBy(c, StepKernel(c, v), r) {
      assert StoredBy(c, v, r);
    }
  }

  // ---------------------------------------------------------------- order

  lemma OfAppend(q: seq<Task>, t: Task, s: nat)
    ensures Of(q + [t], s) == if t.issuer == s then Of(q, s) + [t] else Of(q, s)
  {
    assert (q + [t])[..|q|] == q;
  }

  lemma SubmitterKeepsQueue(c: Config, v: State, s: nat)
    requires LoopControl(c, v) && SubmitterControl(c, v, s) && Queue(v)
    requires Enabled(c, v, Step(s))
    ensures Queue(StepSubmitter(c, v, s))
  {
  }

  lemma ShapeKeepsProgramOrder(v: State, v': State, s: nat, r: nat)
    requires CallsOf(v, s) > 0 && ProgramOrder(v, r) && Shape(v, v', s)
    ensures ProgramOrder(v', r)
  {
    hide Of, FirstCalls, In;
    OfAppend(v.placed, Current(v, s), r);
    if CallsPlaced(v, r) >= 0 { FirstCallsStep(r, CallsPlaced(v, r)); }
  }

  lemma FirstCallsStep(s: nat, n: nat)
    ensures FirstCalls(s, n + 1) == FirstCalls(s, n) + [Task(s, n)]
  {
  }

  lemma SubmitterKeepsOrder(c: Config, v: State, s: nat)
    requires Control(c, v) && Ledger(v) && Order(v)
    requires Enabled(c, v, Step(s)) && NoLap(v, Step(s))
    ensures Order(StepSubmitter(c, v, s))
  {
    assert SubmitterControl(c, v, s);
    SubmitterKeepsQueue(c, v, s);
    SubmitterShape(c, v, s);
    forall r: nat ensures ProgramOrder(StepSubmitter(c, v, s), r) {
      assert ProgramOrder(v, r);
      ShapeKeepsProgramOrder(v, StepSubmitter(c, v, s), s, r);
    }
  }

  lemma LoopKeepsOrder(c: Config, v: State)
    requires Order(v) && Enabled(c, v, LoopStep)
    ensures Order(StepLoop(c, v))
  {
    LoopKeepsQueue(c, v);
    forall r: nat ensures ProgramOrder(StepLoop(c, v), r) {
      LoopMovesNoGoroutine(c, v);
      LoopPlacesNothing(c, v);
      assert ProgramOrder(v, r);
    }
  }

  lemma LoopMovesNoGoroutine(c: Config, v: State)
    requires Enabled(c, v, LoopStep)
    ensures StepLoop(c, v).pc == v.pc && StepLoop(c, v).calls == v.calls
  {
    hide StoreEntry, PublishEntry, Epoch, Sub32, Sub64;
    StoreMovesNoGoroutine(c, v);
  }

  lemma LoopPlacesNothing(c: Config, v: State)
    requires Enabled(c, v, LoopStep)
    ensures StepLoop(c, v).placed == v.placed
  {
    hide Epoch, Sub32, Sub64;
  }

  lemma LoopKeepsQueue(c: Config, v: State)
    requires Queue(v) && Enabled(c, v, LoopStep)
    ensures Queue(StepLoop(c, v))
  {
    hide Queue, StepLoop;
    if v.loop.LPublish? {
      LoopPublishes(c, v);
    } else if v.loop.LIdle? || v.loop.LNext? || v.loop.LAgain? {
      LoopTakes(c, v);
    } else if v.loop.LWriteEntry? {
      LoopWrites(c, v);
    } else {
      LoopHolds(c, v);
    }
  }

  /** From the hand to the end of what is published. */
  lemma LoopPublishes(c: Config, v: State)
    requires Queue(v) && Enabled(c, v, LoopStep) && v.loop.LPublish?
    ensures Queue(StepLoop(c, v))
  {
    var v' := StepLoop(c, v);
    assert Tasks(v'.pushed) == Tasks(v.pushed) + Hand(v.loop);
  }

  /** From the head of the channel to the hand. */
  lemma LoopTakes(c: Config, v: State)
    requires Queue(v) && Enabled(c, v, LoopStep) && (v.loop.LIdle? || v.loop.LNext? || v.loop.LAgain?)
    ensures Queue(StepLoop(c, v))
  {
    var v' := StepLoop(c, v);
    hide Tasks;
    assert Hand(v'.loop) + v'.chan == Hand(v.loop) + v.chan;
  }

  lemma LoopWrites(c: Config, v: State)
    requires Queue(v) && Enabled(c, v, LoopStep) && v.loop.LWriteEntry?
    ensures Queue(StepLoop(c, v))
  {
    hide Tasks;
  }

  lemma LoopHolds(c: Config, v: State)
    requires Queue(v) && Enabled(c, v, LoopStep) && !v.loop.LPublish? && !v.loop.LWriteEntry?
    requires !v.loop.LIdle? && !v.loop.LNext? && !v.loop.LAgain?
    ensures Queue(StepLoop(c, v))
  {
    hide Tasks;
  }

  lemma OthersKeepOrder(c: Config, v: State, e: Event)
    requires Order(v) && Enabled(c, v, e) && !e.Step? && !e.LoopStep?
    ensures Order(Apply(c, v, e))
  {
    forall r: nat ensures ProgramOrder(Apply(c, v, e), r) {
      assert ProgramOrder(v, r);
    }
  }

  // ---------------------------------------------------------------- every step, every run

  lemma EventKeepsInv(c: Config, v: State, e: Event)
    requires c.Valid() && Inv(c, v) && Enabled(c, v, e) && NoLap(v, e)
    ensures Inv(c, Apply(c, v, e))
  {
    match e
    case Step(s) =>
      SubmitterKeepsControl(c, v, s);
      assert SubmitterControl(c, v, s);
      SubmitterKeepsLedger(c, v, s);
      SubmitterKeepsRing(c, v, s);
      SubmitterKeepsOrder(c, v, s);
    case LoopStep =>
      LoopKeepsControl(c, v);
      LoopKeepsLedger(c, v);
      LoopKeepsBatch(c, v);
      LoopKeepsRing(c, v);
      LoopKeepsOrder(c, v);
    case _ =>
      if e.Consume? { KernelKeepsControl(c, v); } else { OthersKeepControl(c, v, e); }
      OthersKeepLedger(c, v, e);
      OthersKeepRing(c, v, e);
      OthersKeepOrder(c, v, e);
  }

  lemma {:induction false} RunKeepsInv(c: Config, v: State, es: seq<Event>, v': State)
    requires c.Valid() && Inv(c, v) && Leads(c, v, es, v')
    ensures Inv(c, v')
    decreases |es|
  {
    if es != [] {
      EventKeepsInv(c, v, es[0]);
      RunKeepsInv(c, Apply(c, v, es[0]), es[1..], v');
    }
  }

  lemma ReachableInv(c: Config, v: State)
    requires c.Valid() && Reachable(c, v)
    ensures Inv(c, v)
  {
    var v0: State, es: seq<Event> :| Init(c, v0) && Leads(c, v0, es, v);
    InitInv(c, v0);
    RunKeepsInv(c, v0, es, v);
  }
}
