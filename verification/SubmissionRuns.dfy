/** Runs of the submission protocol, put together from whole stretches of one agent's steps. */
module SubmissionRuns {
  import opened Arith
  import opened Submission
  import opened SubmissionInvariant
  import opened SubmissionSteps

  /** Some run leads from `v` to `w`. */
  ghost predicate Gets(c: Config, v: State, w: State) {
    exists es: seq<Event> :: Leads(c, v, es, w)
  }

  lemma Stays(c: Config, v: State)
    ensures Gets(c, v, v)
  {
    assert Leads(c, v, [], v);
  }

  lemma {:induction false} LeadsJoin(c: Config, u: State, es: seq<Event>, v: State, fs: seq<Event>, w: State)
    requires Leads(c, u, es, v) && Leads(c, v, fs, w)
    ensures Leads(c, u, es + fs, w)
    decreases |es|
  {
    hide Apply, Enabled, NoLap;
    if es == [] {
      assert es + fs == fs;
    } else {
      LeadsJoin(c, Apply(c, u, es[0]), es[1..], v, fs, w);
      assert (es + fs)[1..] == es[1..] + fs;
    }
  }

  lemma Joined(c: Config, u: State, v: State, w: State)
    requires Gets(c, u, v) && Gets(c, v, w)
    ensures Gets(c, u, w)
  {
    hide Leads;
    var es: seq<Event> :| Leads(c, u, es, v);
    var fs: seq<Event> :| Leads(c, v, fs, w);
    LeadsJoin(c, u, es, v, fs, w);
  }

  lemma OneStep(c: Config, v: State, e: Event)
    requires Enabled(c, v, e) && NoLap(v, e)
    ensures Gets(c, v, Apply(c, v, e))
  {
    hide Apply, Enabled, NoLap;
    assert Leads(c, Apply(c, v, e), [], Apply(c, v, e));
    assert [e][1..] == [];
    assert Leads(c, v, [e], Apply(c, v, e));
  }

  lemma StillReachable(c: Config, v: State, w: State)
    requires Reachable(c, v) && Gets(c, v, w)
    ensures Reachable(c, w)
  {
    hide Leads;
    var v0: State, es: seq<Event> :| Init(c, v0) && Leads(c, v0, es, v);
    var fs: seq<Event> :| Leads(c, v, fs, w);
    LeadsJoin(c, v0, es, v, fs, w);
  }

  /** One step more: from `u` to `v`, and then by `e` to `w`. */
  lemma Next(c: Config, u: State, v: State, e: Event, w: State)
    requires c.Valid() && Gets(c, u, v) && Inv(c, v) && Enabled(c, v, e) && NoLap(v, e) && w == Apply(c, v, e)
    ensures Gets(c, u, w) && Inv(c, w)
  {
    hide Inv, Gets, Leads, Apply, Enabled, NoLap;
    OneStep(c, v, e);
    Joined(c, u, v, w);
    EventKeepsInv(c, v, e);
  }

  /** What the invariant says of the registers and counts. */
  lemma Facts(c: Config, v: State)
    requires c.Valid() && Inv(c, v)
    ensures |v.sq| == |v.sqArray| == c.entries > 0 && v.barrier < 2 * FALLBACK_BIT
    ensures v.sqTail == |v.pushed| % W32 && v.ticketTail == (|v.pushed| + Held(v)) % W32
    ensures Sub32(v.sqTail, v.sqHead) == |v.pushed| - |v.consumed| <= c.entries
    ensures |v.consumed| < |v.pushed| ==> v.sqHead != v.sqTail && v.sqHead == |v.consumed| % W32
    ensures Epoch(v.barrier) ==
            v.finished + |In(v.pc, Uncredited)| + |In(v.pc, Pending)| + |v.chan| + |Hand(v.loop)| + v.served + v.lost
    ensures Batch(v) && LoopControl(c, v)
  {
    FullTest(c, v);
    if |v.consumed| < |v.pushed| { SlotsDistinct(|v.consumed|, |v.pushed|, W32); }
  }

  lemma Control1(c: Config, v: State, s: nat)
    requires Inv(c, v)
    ensures SubmitterControl(c, v, s)
  {
  }

  lemma Bumped(b: nat)
    requires b < 2 * FALLBACK_BIT && Epoch(b) + 1 < FALLBACK_BIT
    ensures (if Active(b) then FALLBACK_BIT else 0) + (Epoch(b) + 1) % FALLBACK_BIT == b + 1
  {
  }

  lemma Raised(b: nat)
    requires b < 2 * FALLBACK_BIT
    ensures (if Active(b) then b else b + FALLBACK_BIT) == Epoch(b) + FALLBACK_BIT
  {
  }

  // ---------------------------------------------------------------- a goroutine

  /** A goroutine enters submit and bumps the epoch. */
  lemma Intends(c: Config, v: State, s: nat) returns (w: State)
    requires c.Valid() && Inv(c, v) && PcOf(v, s).Idle? && Epoch(v.barrier) + 1 < FALLBACK_BIT
    ensures Gets(c, v, w) && Inv(c, w) && CallsOf(w, s) > 0
    ensures w == v.(pc := v.pc[s := AfterStatus(v.barrier)], calls := v.calls[s := CallsOf(v, s) + 1],
                    barrier := v.barrier + 1)
  {
    hide Inv, Gets, Epoch, Active;
    Facts(c, v);
    Bumped(v.barrier);
    Stays(c, v);
    var v1 := v.(pc := v.pc[s := IntentLoad], calls := v.calls[s := CallsOf(v, s) + 1]);
    Next(c, v, v, Begin(s), v1);
    var v2 := v1.(pc := v1.pc[s := IntentCas(v.barrier)]);
    Next(c, v, v1, Step(s), v2);
    w := v2.(pc := v2.pc[s := AfterStatus(v.barrier)], barrier := v.barrier + 1);
    Next(c, v, v2, Step(s), w);
    assert w.pc == v.pc[s := AfterStatus(v.barrier)];
  }

  /** A goroutine that finds the ticket free takes it. */
  lemma Claims(c: Config, v: State, s: nat) returns (w: State)
    requires c.Valid() && Inv(c, v) && CallsOf(v, s) > 0 && PcOf(v, s).LoadTicket? && v.owner.Free?
    ensures Gets(c, v, w) && Inv(c, w)
    ensures w == v.(pc := v.pc[s := LoadHead(v.sqTail)], ticketTail := (v.sqTail + 1) % W32, owner := Direct(s))
  {
    w := Looks(c, v, s);
    hide Inv, Gets;
    Facts(c, v);
    var v2 := w;
    w := v2.(pc := v2.pc[s := LoadHead(v.sqTail)], ticketTail := (v.sqTail + 1) % W32, owner := Direct(s));
    Next(c, v, v2, Step(s), w);
    assert w.pc == v.pc[s := LoadHead(v.sqTail)];
  }

  /** A goroutine reads a free ticket and the tail, and is about to try its CAS. */
  lemma Looks(c: Config, v: State, s: nat) returns (w: State)
    requires c.Valid() && Inv(c, v) && CallsOf(v, s) > 0 && PcOf(v, s).LoadTicket? && v.owner.Free?
    ensures Gets(c, v, w) && Inv(c, w)
    ensures w == v.(pc := v.pc[s := CasTicket(v.sqTail, |v.pushed|)])
  {
    hide Inv, Gets;
    Facts(c, v);
    Stays(c, v);
    var v1 := v.(pc := v.pc[s := LoadTail(v.ticketTail)]);
    Next(c, v, v, Step(s), v1);
    w := v1.(pc := v1.pc[s := CasTicket(v.sqTail, |v.pushed|)]);
    Next(c, v, v1, Step(s), w);
    assert w.pc == v.pc[s := CasTicket(v.sqTail, |v.pushed|)];
  }

  /** With room in the queue, the ticket holder pushes its own task, up to the credit. */
  lemma Pushes(c: Config, v: State, s: nat, slot: nat) returns (w: State)
    requires c.Valid() && Inv(c, v) && CallsOf(v, s) > 0 && PcOf(v, s) == LoadHead(v.sqTail)
    requires |v.pushed| < |v.consumed| + c.entries
    ensures Gets(c, v, w) && Inv(c, w)
    ensures w == v.(pc := v.pc[s := Credit], sqTail := (v.sqTail + 1) % W32, sq := w.sq, sqArray := w.sqArray,
                    pushed := v.pushed + [Sqe(Current(v, s), slot)], placed := v.placed + [Current(v, s)],
                    owner := Free)
  {
    hide Inv, Gets;
    Facts(c, v);
    Stays(c, v);
    var v1 := v.(pc := v.pc[s := AddSlot]);
    Next(c, v, v, Step(s), v1);
    var v2 := v1.(pc := v1.pc[s := WriteEntry(slot)]);
    Next(c, v, v1, StepAdd(s, slot), v2);
    var e := Sqe(Current(v, s), slot);
    var v3 := StoreEntry(c, v2, e).(pc := v2.pc[s := Publish(slot, v.sqTail)]);
    Next(c, v, v2, Step(s), v3);
    w := v3.(pc := v3.pc[s := Credit], sqTail := (v.sqTail + 1) % W32, pushed := v.pushed + [e],
             placed := v.placed + [Current(v, s)], owner := Free);
    Next(c, v, v3, Step(s), w);
    assert w.pc == v.pc[s := Credit];
  }

  lemma Credits(c: Config, v: State, s: nat) returns (w: State)
    requires c.Valid() && Inv(c, v) && PcOf(v, s).Credit?
    ensures Gets(c, v, w) && Inv(c, w)
    ensures w == v.(pc := v.pc[s := Idle], finished := v.finished + 1,
                    late := if InBatch(v.loop) then v.late + 1 else v.late)
  {
    hide Inv, Gets;
    Facts(c, v);
    Control1(c, v, s);
    Stays(c, v);
    w := v.(pc := v.pc[s := Idle], finished := v.finished + 1, late := if InBatch(v.loop) then v.late + 1 else v.late);
    Next(c, v, v, Step(s), w);
  }

  /** With the queue full, the ticket holder raises the bit and hands its task over. */
  lemma Raises(c: Config, v: State, s: nat) returns (w: State)
    requires c.Valid() && Inv(c, v) && CallsOf(v, s) > 0 && PcOf(v, s) == LoadHead(v.sqTail)
    requires |v.pushed| == |v.consumed| + c.entries
    ensures Gets(c, v, w) && Inv(c, w)
    ensures w == v.(pc := v.pc[s := Idle], barrier := Epoch(v.barrier) + FALLBACK_BIT, owner := Fallback,
                    chan := v.chan + [Current(v, s)], placed := v.placed + [Current(v, s)])
  {
    hide Inv, Gets, Epoch, Active;
    Facts(c, v);
    Raised(v.barrier);
    Stays(c, v);
    var v1 := v.(pc := v.pc[s := RaiseLoad]);
    Next(c, v, v, Step(s), v1);
    var v2 := v1.(pc := v1.pc[s := RaiseCas(v.barrier)]);
    Next(c, v, v1, Step(s), v2);
    var v3 := v2.(pc := v2.pc[s := SendHeld], barrier := Epoch(v.barrier) + FALLBACK_BIT, owner := Fallback);
    Next(c, v, v2, Step(s), v3);
    w := v3.(pc := v3.pc[s := Idle], chan := v.chan + [Current(v, s)], placed := v.placed + [Current(v, s)]);
    Next(c, v, v3, Step(s), w);
    assert w.pc == v.pc[s := Idle];
  }

  /** A goroutine that has seen the bit hands its task over. */
  lemma Sends(c: Config, v: State, s: nat) returns (w: State)
    requires c.Valid() && Inv(c, v) && CallsOf(v, s) > 0 && (PcOf(v, s).Send? || PcOf(v, s).SendHeld?)
    ensures Gets(c, v, w) && Inv(c, w)
    ensures w == v.(pc := v.pc[s := Idle], chan := v.chan + [Current(v, s)], placed := v.placed + [Current(v, s)])
  {
    hide Inv, Gets;
    Facts(c, v);
    Stays(c, v);
    w := v.(pc := v.pc[s := Idle], chan := v.chan + [Current(v, s)], placed := v.placed + [Current(v, s)]);
    Next(c, v, v, Step(s), w);
  }

  /** In fallback mode, a whole call of submit: one epoch more and one task more in the channel. */
  lemma Feeds(c: Config, v: State, s: nat) returns (w: State)
    requires c.Valid() && Inv(c, v) && PcOf(v, s).Idle? && Active(v.barrier) && Epoch(v.barrier) + 1 < FALLBACK_BIT
    ensures Gets(c, v, w) && Inv(c, w) && |w.chan| == |v.chan| + 1
    ensures w == v.(pc := v.pc[s := Idle], calls := w.calls, barrier := v.barrier + 1,
                    chan := w.chan, placed := w.placed)
  {
    hide Inv, Gets;
    var v1 := Intends(c, v, s);
    w := Sends(c, v1, s);
    Joined(c, v, v1, w);
    assert w.pc == v.pc[s := Idle];
  }

  // ---------------------------------------------------------------- kernel and loop

  lemma Taken(c: Config, v: State)
    requires c.Valid() && Inv(c, v) && Enabled(c, v, Consume)
    ensures |v.consumed| < |v.pushed| && StepKernel(c, v).consumed == v.consumed + [v.pushed[|v.consumed|]]
  {
    KernelReadsOldest(c, v);
    KernelKeepsRegisters(c, v);
  }

  lemma Consumes(c: Config, v: State) returns (w: State)
    requires c.Valid() && Inv(c, v) && |v.consumed| < |v.pushed|
    ensures Gets(c, v, w) && Inv(c, w)
    ensures w == v.(sqHead := (v.sqHead + 1) % W32, consumed := v.consumed + [v.pushed[|v.consumed|]])
  {
    hide Inv, Gets;
    Facts(c, v);
    Taken(c, v);
    Stays(c, v);
    w := Apply(c, v, Consume);
    Next(c, v, v, Consume, w);
  }

  /** One step of the loop. */
  lemma Loops(c: Config, v: State) returns (w: State)
    requires c.Valid() && Inv(c, v) && !LoopBlocked(v) && !v.loop.LAddSlot?
    requires |v.sq| == |v.sqArray| == c.entries > 0
    ensures Gets(c, v, w) && Inv(c, w) && w == StepLoop(c, v)
  {
    hide Inv, Gets, StepLoop;
    Stays(c, v);
    w := StepLoop(c, v);
    Next(c, v, v, LoopStep, w);
  }

  lemma LoopAdds(c: Config, v: State, slot: nat) returns (w: State)
    requires c.Valid() && Inv(c, v) && v.loop.LAddSlot?
    ensures Gets(c, v, w) && Inv(c, w)
    ensures w == v.(loop := LWriteEntry(v.loop.task, v.loop.snap, v.loop.m, slot))
  {
    hide Inv, Gets;
    Facts(c, v);
    Stays(c, v);
    w := Apply(c, v, LoopAdd(slot));
    Next(c, v, v, LoopAdd(slot), w);
  }

  /** The loop takes a task from the channel and computes its batch count. */
  lemma Receives(c: Config, v: State) returns (w: State)
    requires c.Valid() && Inv(c, v) && v.loop.LIdle? && v.chan != []
    ensures Gets(c, v, w) && Inv(c, w)
    ensures w == v.(chan := v.chan[1..], late := 0,
                    loop := LLoadTail(v.chan[0], v.barrier, Epoch(v.barrier) - v.finished))
    ensures Epoch(v.barrier) > v.finished
  {
    Facts(c, v);
    var v1 := Loops(c, v);
    var v2 := Loops(c, v1);
    Facts(c, v2);
    BatchCountAtLeastOne(v2);
    hide Inv, Gets;
    w := Loops(c, v2);
    Joined(c, v, v1, v2);
    Joined(c, v, v2, w);
  }

  function AfterTask(snap: nat, m: nat): LoopPc
    requires m > 0
  {
    if m == 1 then LStore(snap) else LNext(snap, m - 1)
  }

  /** With room in the queue the loop takes the ticket further. */
  lemma MovesTicket(c: Config, v: State) returns (w: State)
    requires c.Valid() && Inv(c, v) && v.loop.LLoadTail? && |v.pushed| < |v.consumed| + c.entries
    ensures Gets(c, v, w) && Inv(c, w)
    ensures w == v.(loop := LAddSlot(v.loop.task, v.loop.snap, v.loop.m), ticketTail := (v.ticketTail + 1) % W32)
  {
    hide Inv, Gets, Batch, Epoch;
    Facts(c, v);
    var v1 := Loops(c, v);
    var v2 := Loops(c, v1);
    w := Loops(c, v2);
    Joined(c, v, v1, v2);
    Joined(c, v, v2, w);
  }

  /** It writes and publishes the task in its hand. */
  lemma Emits(c: Config, v: State, slot: nat) returns (w: State)
    requires c.Valid() && Inv(c, v) && v.loop.LAddSlot? && 0 < v.loop.m < FALLBACK_BIT
    ensures Gets(c, v, w) && Inv(c, w)
    ensures w == v.(loop := AfterTask(v.loop.snap, v.loop.m), sqTail := (v.sqTail + 1) % W32,
                    sq := w.sq, sqArray := w.sqArray,
                    pushed := v.pushed + [Sqe(v.loop.task, slot)], served := v.served + 1)
  {
    hide Inv, Gets, Batch, LoopControl, Sub32, Epoch, StepLoop;
    Facts(c, v);
    var v1 := LoopAdds(c, v, slot);
    Writes(c, v1);
    var v2 := Loops(c, v1);
    Joined(c, v, v1, v2);
    Tops(c, v2);
    w := Loops(c, v2);
    Joined(c, v, v2, w);
  }

  lemma Writes(c: Config, v: State)
    requires |v.sq| == |v.sqArray| == c.entries > 0 && v.loop.LWriteEntry?
    ensures var l, w := v.loop, StepLoop(c, v);
            && w == v.(loop := LPublish(l.task, l.snap, l.m, l.slot, v.sqTail), sq := w.sq, sqArray := w.sqArray)
            && |w.sq| == |w.sqArray| == c.entries
  {
  }

  lemma Tops(c: Config, v: State)
    requires |v.sq| == |v.sqArray| == c.entries > 0 && v.loop.LPublish? && 0 < v.loop.m < FALLBACK_BIT
    ensures var l := v.loop;
            StepLoop(c, v) == v.(loop := AfterTask(l.snap, l.m), sqTail := (l.tail + 1) % W32,
                                 pushed := v.pushed + [Sqe(l.task, l.slot)], served := v.served + 1)
  {
  }

  /** The loop publishes the task in its hand. */
  lemma Publishes(c: Config, v: State, slot: nat) returns (w: State)
    requires c.Valid() && Inv(c, v) && v.loop.LLoadTail? && |v.pushed| < |v.consumed| + c.entries
    ensures Gets(c, v, w) && Inv(c, w) && v.loop.m > 0
    ensures w == v.(loop := AfterTask(v.loop.snap, v.loop.m), ticketTail := (v.ticketTail + 1) % W32,
                    sqTail := (v.sqTail + 1) % W32, sq := w.sq, sqArray := w.sqArray,
                    pushed := v.pushed + [Sqe(v.loop.task, slot)], served := v.served + 1)
  {
    hide Inv, Gets;
    Facts(c, v);
    var v1 := MovesTicket(c, v);
    w := Emits(c, v1, slot);
    Joined(c, v, v1, w);
  }

  /** The end of a batch that another submission has overtaken. */
  lemma Stores(c: Config, v: State) returns (w: State)
    requires c.Valid() && Inv(c, v) && v.loop.LStore? && v.barrier != v.loop.snap
    ensures Gets(c, v, w) && Inv(c, w)
    ensures w == v.(finished := Epoch(v.loop.snap), loop := LAgain, lost := v.lost + v.late, late := 0, served := 0)
  {
    hide Inv, Gets;
    Facts(c, v);
    var v1 := Loops(c, v);
    w := Loops(c, v1);
    Joined(c, v, v1, w);
  }
}
