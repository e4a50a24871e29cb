/**
 What has been handed to the channel can always be published and read.  From every reachable state
 the fallback loop and the kernel can do it by themselves, whether or not credits are lost: in each
 state that is not yet empty one of them has a step that brings the end nearer.
 */
module SubmissionDrain {
  import opened Arith
  import opened Submission
  import opened SubmissionInvariant
  import opened SubmissionSteps
  import opened SubmissionRuns

  predicate FarSide(e: Event) {
    e.LoopStep? || e.LoopAdd? || e.Consume?
  }

  /** Some run of the loop and the kernel alone leads from `v` to `w`. */
  ghost predicate Drains(c: Config, v: State, w: State) {
    exists es: seq<Event> :: Leads(c, v, es, w) && forall i :: 0 <= i < |es| ==> FarSide(es[i])
  }

  /** Channel and hand are empty and the kernel has read everything. */
  predicate Drained(v: State) {
    Left(v) == 0 && |v.consumed| >= |v.pushed|
  }

  /** Tasks handed over and not yet published. */
  function Left(v: State): nat {
    |v.chan| + |Hand(v.loop)|
  }

  function Unread(v: State): nat {
    if |v.consumed| <= |v.pushed| then |v.pushed| - |v.consumed| else 0
  }

  /** How far the loop is from publishing its next task. */
  function Distance(l: LoopPc): nat {
    match l
    case LStore(_) => 13
    case LClear(_) => 12
    case LIdle => 11
    case LNext(_, _) => 11
    case LAgain => 11
    case LLoadBarrier(_) => 10
    case LLoadFinished(_, _) => 9
    case LLoadTail(_, _, _) => 8
    case LLoadHead(_, _, _, _) => 6
    case LTakeTicket(_, _, _) => 5
    case LAddSlot(_, _, _) => 4
    case LWriteEntry(_, _, _, _) => 3
    case LPublish(_, _, _, _, _) => 2
    case LReleaseLoad => 1
    case LReleaseStore(_) => 0
  }

  /** Nothing is left to publish, or the loop has read a tail that leaves no room. */
  predicate KernelsTurn(c: Config, v: State) {
    Left(v) == 0 || (v.loop.LLoadHead? && |v.pushed| >= |v.consumed| + c.entries)
  }

  predicate Nearer(v: State, w: State) {
    || Left(w) < Left(v)
    || (Left(w) == Left(v) && Distance(w.loop) < Distance(v.loop))
    || (Left(w) == Left(v) && Distance(w.loop) == Distance(v.loop) && Unread(w) < Unread(v))
  }

  /** The step that brings the end nearer. */
  function NextEvent(c: Config, v: State, slot: nat): Event {
    if KernelsTurn(c, v) then Consume
    else if v.loop.LAddSlot? then LoopAdd(slot)
    else LoopStep
  }

  lemma DrainStep(c: Config, v: State, slot: nat)
    requires c.Valid() && Inv(c, v) && !Drained(v)
    ensures Enabled(c, v, NextEvent(c, v, slot))
    ensures var w := Apply(c, v, NextEvent(c, v, slot));
            && Nearer(v, w) && w.pc == v.pc && w.placed == v.placed
  {
    Facts(c, v);
    if KernelsTurn(c, v) {
      MakesRoom(c, v);
    } else if !v.loop.LAddSlot? {
      GoesOn(c, v);
    }
  }

  lemma MakesRoom(c: Config, v: State)
    requires c.Valid() && Inv(c, v) && KernelsTurn(c, v) && !Drained(v)
    ensures Enabled(c, v, Consume)
    ensures var w := StepKernel(c, v); Nearer(v, w) && w.pc == v.pc && w.placed == v.placed
  {
    Facts(c, v);
    Taken(c, v);
    hide Inv;
  }

  lemma GoesOn(c: Config, v: State)
    requires c.Valid() && Inv(c, v) && !KernelsTurn(c, v) && !v.loop.LAddSlot?
    ensures Enabled(c, v, LoopStep)
    ensures var w := StepLoop(c, v); Nearer(v, w) && w.pc == v.pc && w.placed == v.placed
  {
    Facts(c, v);
    if v.loop.LClear? { DisturbedClear(c, v); }
    hide Inv, Nearer, StepLoop, Sub32;
    LoopMovesNoGoroutine(c, v);
    LoopPlacesNothing(c, v);
    if v.loop.LWriteEntry? || v.loop.LPublish? { Dispatches(c, v); } else { Approaches(c, v); }
  }

  lemma Dispatches(c: Config, v: State)
    requires Enabled(c, v, LoopStep) && (v.loop.LWriteEntry? || v.loop.LPublish?)
    ensures Nearer(v, StepLoop(c, v))
  {
  }

  lemma Approaches(c: Config, v: State)
    requires Enabled(c, v, LoopStep) && !KernelsTurn(c, v) && !v.loop.LWriteEntry? && !v.loop.LPublish?
    requires Sub32(v.sqTail, v.sqHead) == |v.pushed| - |v.consumed|
    requires LoopControl(c, v) && (v.loop.LClear? ==> v.barrier != v.loop.snap)
    requires !v.loop.LAddSlot?
    ensures Nearer(v, StepLoop(c, v))
  {
    hide Sub32, Sub64, Epoch;
  }

  /** With a task waiting the CAS that clears the bit fails. */
  lemma DisturbedClear(c: Config, v: State)
    requires Inv(c, v) && v.loop.LClear? && Left(v) > 0
    ensures v.barrier != v.loop.snap
  {
    if v.barrier == v.loop.snap { ClearedOnlyWhenQuiet(v); }
  }

  lemma DrainsOn(c: Config, v: State, e: Event, w: State)
    requires Enabled(c, v, e) && NoLap(v, e) && FarSide(e) && Drains(c, Apply(c, v, e), w)
    ensures Drains(c, v, w)
  {
    hide Apply, Enabled, NoLap;
    var es: seq<Event> :| Leads(c, Apply(c, v, e), es, w) && forall i :: 0 <= i < |es| ==> FarSide(es[i]);
    var fs := [e] + es;
    assert fs[1..] == es;
    assert Leads(c, v, fs, w);
  }

  /** The run that publishes everything handed over. */
  lemma {:induction false} Publishes(c: Config, v: State) returns (w: State)
    requires c.Valid() && Inv(c, v)
    ensures Drains(c, v, w) && Inv(c, w) && Drained(w) && w.pc == v.pc && w.placed == v.placed
    decreases Left(v), Distance(v.loop), Unread(v)
  {
    hide Inv, Leads, Drains, Distance;
    if Drained(v) {
      NoSteps(c, v);
      w := v;
    } else {
      var e := NextEvent(c, v, 0);
      DrainStep(c, v, 0);
      EventKeepsInv(c, v, e);
      hide Apply, Enabled, Left, Unread;
      w := Publishes(c, Apply(c, v, e));
      DrainsOn(c, v, e, w);
    }
  }

  lemma NoSteps(c: Config, v: State)
    ensures Drains(c, v, v)
  {
    assert Leads(c, v, [], v);
  }

  /**
   From every reachable state the loop and the kernel alone can empty channel, hand and queue.
   Everything that was ever handed over is then in the submission queue's history, in order, and
   the kernel has read it all.
   */
  lemma HandedOverIsPublished(c: Config, v: State)
    requires c.Valid() && Reachable(c, v)
    ensures exists w: State ::
              Drains(c, v, w) && v.placed == w.placed == Tasks(w.pushed) && w.consumed == w.pushed
  {
    ReachableInv(c, v);
    var w := Publishes(c, v);
    NothingElsewhere(c, w);
  }

  lemma NothingElsewhere(c: Config, v: State)
    requires Inv(c, v) && Drained(v)
    ensures Tasks(v.pushed) == v.placed && v.consumed == v.pushed
  {
    assert v.placed == Tasks(v.pushed) + Hand(v.loop) + v.chan;
  }
}
