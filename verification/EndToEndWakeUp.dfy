/**
 No wake-up is lost, end to end: a worker that sleeps has returned from `submit`, so its task is
 published, in the loop's hand or in the channel; the fallback loop, the kernel and the poller
 can bring it back by themselves, with no step of any worker.
 */
module EndToEndWakeUp {
  import opened EndToEnd
  import S = Submission
  import SI = SubmissionInvariant
  import SS = SubmissionSteps
  import SD = SubmissionDrain
  import C = Completion
  import CI = CompletionInvariant
  import CS = CompletionSteps
  import CT = CompletionTheorems

  /** A step of the fallback loop, the kernel or the poller. */
  predicate FarSide(e: Event) {
    match e
    case Enters(_) => false
    case Submits(s) => SD.FarSide(s)
    case Completes(e) => CT.FarSide(e)
  }

  predicate FarRun(es: seq<Event>) {
    forall i :: 0 <= i < |es| ==> FarSide(es[i])
  }

  // ---------------------------------------------------------------- who is in which call

  predicate InCall(p: C.Pc) {
    p.Submitting? || p.Submitted? || p.Unlocking? || p.Waiting?
  }

  /** The goroutine's last call of submit is for the operation it is in; beyond submit, that call has returned. */
  ghost predicate LastCall(u: State, g: nat) {
    var p, n := C.PcOf(u.com, g), S.CallsOf(u.sub, g);
    InCall(p) ==>
      && n > 0 && S.Task(g, n - 1) in u.ops && u.ops[S.Task(g, n - 1)] == p.op
      && (!p.Submitting? ==> S.PcOf(u.sub, g).Idle?)
  }

  ghost predicate LastCalls(u: State) {
    forall g: nat :: LastCall(u, g)
  }

  /** A goroutine outside submit stays there until it begins a call. */
  lemma StaysOut(c: S.Config, v: S.State, e: S.Event, g: nat)
    requires S.Enabled(c, v, e) && !e.Begin? && S.PcOf(v, g).Idle?
    ensures S.PcOf(S.Apply(c, v, e), g).Idle?
  {
    hide S.StepSubmitter, S.StepLoop;
    if e.Step? { SS.SubmitterPcShape(c, v, e.who); } else if e.LoopStep? { SS.LoopMovesNoGoroutine(c, v); }
  }

  /** A worker comes into a call by submitting, and out of submit by returning from it. */
  lemma StaysIn(v: C.State, e: C.Event, g: nat)
    requires C.Enabled(v, e) && !e.ESubmit?
    ensures var p, q := C.PcOf(v, g), C.PcOf(C.Apply(v, e), g);
            InCall(q) ==> InCall(p) && q.op == p.op && (q.Submitting? ==> p.Submitting?) &&
                          (p.Submitting? && !q.Submitting? ==> e == C.EMove(g))
  {
  }

  lemma EventKeepsCalls(c: S.Config, u: State, e: Event)
    requires LastCalls(u) && Enabled(c, u, e)
    ensures LastCalls(Apply(c, u, e))
  {
    forall g: nat ensures LastCall(Apply(c, u, e), g) {
      assert LastCall(u, g);
      match e
      case Enters(_) =>
      case Submits(s) => SubmitsKeepsCall(c, u, s, g);
      case Completes(k) => StaysIn(u.com, k, g);
    }
  }

  lemma SubmitsKeepsCall(c: S.Config, u: State, s: S.Event, g: nat)
    requires LastCall(u, g) && Enabled(c, u, Submits(s))
    ensures LastCall(Apply(c, u, Submits(s)), g)
  {
    SubPublishes(c, u.sub, s);
    if S.PcOf(u.sub, g).Idle? { StaysOut(c, u.sub, s, g); }
    hide S.Apply, S.Enabled;
  }

  lemma {:induction false} RunKeepsCalls(c: S.Config, u: State, es: seq<Event>, w: State)
    requires LastCalls(u) && Leads(c, u, es, w)
    ensures LastCalls(w)
    decreases |es|
  {
    hide LastCalls, Apply, Enabled;
    if es != [] {
      EventKeepsCalls(c, u, es[0]);
      RunKeepsCalls(c, Apply(c, u, es[0]), es[1..], w);
    }
  }

  lemma ReachableCalls(c: S.Config, u: State)
    requires Reachable(c, u)
    ensures LastCalls(u)
  {
    var u0: State, es: seq<Event> :| Init(c, u0) && Leads(c, u0, es, u);
    assert LastCalls(u0);
    RunKeepsCalls(c, u0, es, u);
  }

  // ---------------------------------------------------------------- published

  lemma LeadsFrom(c: S.Config, u: State, e: Event, es: seq<Event>, w: State)
    requires Enabled(c, u, e) && FarSide(e) && FarRun(es) && Leads(c, Apply(c, u, e), es, w)
    ensures Leads(c, u, [e] + es, w) && FarRun([e] + es)
  {
    hide Enabled, Apply;
    assert ([e] + es)[1..] == es;
  }

  lemma {:induction false} LeadsJoin(c: S.Config, u: State, es: seq<Event>, v: State, fs: seq<Event>, w: State)
    requires Leads(c, u, es, v) && Leads(c, v, fs, w)
    ensures Leads(c, u, es + fs, w)
    decreases |es|
  {
    hide Enabled, Apply;
    if es == [] {
      assert es + fs == fs;
    } else {
      LeadsJoin(c, Apply(c, u, es[0]), es[1..], v, fs, w);
      assert (es + fs)[1..] == es[1..] + fs;
    }
  }

  /** One step of the loop or the kernel towards an empty channel and an empty queue. */
  lemma NextOffered(c: S.Config, u: State) returns (s: S.Event)
    requires c.Valid() && SI.Inv(c, u.sub) && !SD.Drained(u.sub)
    ensures SD.FarSide(s) && Offered(c, u, s)
    ensures SD.Nearer(u.sub, S.Apply(c, u.sub, s)) && S.Apply(c, u.sub, s).placed == u.sub.placed
  {
    hide SI.Inv, SD.Nearer, SD.Drained, S.Apply, S.Enabled;
    var slot := CT.FreshSlot(u.com.q.slots.Keys);
    SD.DrainStep(c, u.sub, slot);
    s := SD.NextEvent(c, u.sub, slot);
  }

  /** A step of the submission protocol moves no worker on the completion path. */
  lemma MovesNoWorker(c: S.Config, u: State, s: S.Event)
    requires Enabled(c, u, Submits(s))
    ensures var w := Apply(c, u, Submits(s)); w.sub == S.Apply(c, u.sub, s) && w.com.pc == u.com.pc && w.ops == u.ops
  {
    hide S.Apply, S.Enabled;
  }

  lemma DrainStep(c: S.Config, u: State) returns (e: Event)
    requires c.Valid() && Sound(c, u) && !SD.Drained(u.sub)
    ensures FarSide(e) && Enabled(c, u, e)
    ensures var w := Apply(c, u, e);
            && Sound(c, w) && SD.Nearer(u.sub, w.sub)
            && w.com.pc == u.com.pc && w.sub.placed == u.sub.placed && w.ops == u.ops
  {
    SS.ReachableInv(c, u.sub);
    hide S.Reachable, C.Reachable, SI.Inv, Agree, Carried, Answered, SD.Nearer, SD.Drained, SD.FarSide;
    hide S.Apply, S.Enabled, Allowed;
    var s := NextOffered(c, u);
    DispatchAllowed(c, u, s);
    e := Submits(s);
    EventKeeps(c, u, e);
    MovesNoWorker(c, u, s);
  }

  lemma {:induction false} Drains(c: S.Config, u: State) returns (es: seq<Event>, w: State)
    requires c.Valid() && Sound(c, u)
    ensures FarRun(es) && Leads(c, u, es, w) && Sound(c, w) && SD.Drained(w.sub)
    ensures w.com.pc == u.com.pc && w.sub.placed == u.sub.placed && w.ops == u.ops
    decreases SD.Left(u.sub), SD.Distance(u.sub.loop), SD.Unread(u.sub)
  {
    hide Sound, Enabled, Apply, FarSide, SD.Drained;
    if SD.Drained(u.sub) {
      es, w := [], u;
    } else {
      var e := DrainStep(c, u);
      var rest;
      rest, w := Drains(c, Apply(c, u, e));
      LeadsFrom(c, u, e, rest, w);
      es := [e] + rest;
    }
  }

  lemma {:induction false} OfSubset(q: seq<S.Task>, t: S.Task, s: nat)
    requires t in SI.Of(q, s)
    ensures t in q
    decreases |q|
  {
    if t !in SI.Of(q[..|q| - 1], s) { assert t == q[|q| - 1]; } else { OfSubset(q[..|q| - 1], t, s); }
  }

  /** A call of submit that has returned has handed its task over. */
  lemma ReturnedIsPlaced(c: S.Config, v: S.State, g: nat)
    requires SI.Inv(c, v) && S.PcOf(v, g).Idle? && S.CallsOf(v, g) > 0
    ensures S.Task(g, S.CallsOf(v, g) - 1) in v.placed
  {
    assert SI.ProgramOrder(v, g);
    var n := S.CallsOf(v, g);
    assert SI.FirstCalls(g, n)[n - 1] == S.Task(g, n - 1);
    OfSubset(v.placed, S.Task(g, n - 1), g);
  }

  /** With channel and queue empty, a sleeping worker's operation has been dispatched and its entry read. */
  lemma SleeperDispatched(c: S.Config, u: State, w: State, g: nat)
    requires c.Valid() && Sound(c, u) && LastCalls(u) && C.PcOf(u.com, g).Waiting?
    requires Sound(c, w) && SD.Drained(w.sub) && w.sub.placed == u.sub.placed && w.ops == u.ops
    ensures C.PcOf(u.com, g).op !in w.com.q.tasks && w.sub.consumed == w.sub.pushed
  {
    SS.ReachableInv(c, u.sub);
    SS.ReachableInv(c, w.sub);
    hide S.Reachable, C.Reachable, Carried, Answered;
    assert LastCall(u, g);
    ReturnedIsPlaced(c, u.sub, g);
    SD.NothingElsewhere(c, w.sub);
    hide SI.Inv, LastCall;
    assert S.Task(g, S.CallsOf(u.sub, g) - 1) in SI.Tasks(w.sub.pushed);
  }

  // ---------------------------------------------------------------- answered and woken

  /** The worker sleeps and its operation has been dispatched. */
  ghost predicate OnItsWay(v: C.State, g: nat, op: nat, cell: nat) {
    && CI.Inv(v) && C.PcOf(v, g) == C.Waiting(op, cell)
    && op in v.h.stage && !v.h.stage[op].Queued?
  }

  /** The kernel has read whatever it is to answer. */
  ghost predicate AllRead(u: State) {
    forall slot :: slot in u.com.q.sqes ==> Entry(u.ops, u.sub.consumed, u.com.q.sqes[slot], slot)
  }

  ghost predicate Closer(v: C.State, w: C.State, op: nat) {
    var r, s := CT.RankOf(v, op), CT.RankOf(w, op);
    || s < r
    || (s == r && |w.q.cq| < |v.q.cq|)
    || (s == r && |w.q.cq| == |v.q.cq| && CT.PollerRank(w.poller) < CT.PollerRank(v.poller))
  }

  lemma FarEventJoint(c: S.Config, u: State, k: C.Event)
    requires AllRead(u) && C.Enabled(u.com, k) && CT.FarSide(k) && !k.EDispatch?
    ensures Enabled(c, u, Completes(k)) && Apply(c, u, Completes(k)) == u.(com := C.Apply(u.com, k))
    ensures AllRead(Apply(c, u, Completes(k)))
  {
    KernelSide(u.com, k);
    hide C.Apply, Entry;
  }

  lemma KernelOrPoller(v: C.State, g: nat, op: nat, cell: nat, res: int, flags: nat) returns (k: C.Event)
    requires OnItsWay(v, g, op, cell)
    ensures C.Enabled(v, k) && CT.FarSide(k) && !k.EDispatch?
    ensures var w := C.Apply(v, k);
            C.PcOf(w, g) == C.Resumed(op, cell) || (OnItsWay(w, g, op, cell) && Closer(v, w, op))
  {
    hide CI.Inv, C.Apply, C.Enabled, CT.PollerRank, CT.FarSide, C.PcOf;
    var slot := CT.FreshSlot(v.q.slots.Keys);
    CT.FarStep(v, g, slot, res, flags);
    k := CT.NextFar(v, op, slot, res, flags);
    CS.EventKeepsInv(v, k);
  }

  lemma WakeStep(c: S.Config, u: State, g: nat, op: nat, cell: nat, res: int, flags: nat)
      returns (e: Event, v: State)
    requires OnItsWay(u.com, g, op, cell) && AllRead(u)
    ensures FarSide(e) && Enabled(c, u, e) && v == Apply(c, u, e) && AllRead(v)
    ensures C.PcOf(v.com, g) == C.Resumed(op, cell) || (OnItsWay(v.com, g, op, cell) && Closer(u.com, v.com, op))
  {
    hide OnItsWay, AllRead, Closer, C.Apply, C.Enabled, CT.FarSide, C.PcOf, Apply, Enabled;
    var k := KernelOrPoller(u.com, g, op, cell, res, flags);
    FarEventJoint(c, u, k);
    e, v := Completes(k), u.(com := C.Apply(u.com, k));
  }

  /** From there kernel and poller alone bring the worker back. */
  lemma {:induction false} Wakes(c: S.Config, u: State, g: nat, op: nat, cell: nat, res: int, flags: nat)
      returns (es: seq<Event>, w: State)
    requires OnItsWay(u.com, g, op, cell) && AllRead(u)
    ensures FarRun(es) && Leads(c, u, es, w) && C.PcOf(w.com, g) == C.Resumed(op, cell)
    decreases CT.RankOf(u.com, op), |u.com.q.cq|, CT.PollerRank(u.com.poller)
  {
    var e, v := WakeStep(c, u, g, op, cell, res, flags);
    hide OnItsWay, AllRead, Apply, Enabled, CT.PollerRank, CT.RankOf, Leads, FarSide, FarRun, C.PcOf;
    if C.PcOf(v.com, g) == C.Resumed(op, cell) {
      NoSteps(c, v);
      es, w := [], v;
    } else {
      es, w := Wakes(c, v, g, op, cell, res, flags);
    }
    LeadsFrom(c, u, e, es, w);
    es := [e] + es;
  }

  lemma NoSteps(c: S.Config, u: State)
    ensures Leads(c, u, [], u) && FarRun([])
  {
  }

  /** Whoever sleeps, in whatever reachable state, can be woken without a step of any worker. */
  lemma NoLostWakeUp(c: S.Config, u: State, g: nat, res: int, flags: nat) returns (es: seq<Event>, w: State)
    requires c.Valid() && Reachable(c, u) && C.PcOf(u.com, g).Waiting?
    ensures FarRun(es) && Leads(c, u, es, w)
    ensures C.PcOf(w.com, g) == C.Resumed(C.PcOf(u.com, g).op, C.PcOf(u.com, g).cell)
  {
    ReachableSound(c, u);
    ReachableCalls(c, u);
    hide Reachable, Leads, FarSide, S.Reachable, C.Reachable, Agree, Answered, LastCalls, SD.Drained, C.PcOf, Entry;
    var op, cell := C.PcOf(u.com, g).op, C.PcOf(u.com, g).cell;
    var fs, v := Drains(c, u);
    SleeperDispatched(c, u, v, g);
    SameWorkers(u.com, v.com, g);
    Undispatched(v.com, g, op, cell);
    var hs;
    hs, w := Wakes(c, v, g, op, cell, res, flags);
    LeadsJoin(c, u, fs, v, hs, w);
    es := fs + hs;
  }

  lemma SameWorkers(v: C.State, w: C.State, g: nat)
    requires v.pc == w.pc
    ensures C.PcOf(v, g) == C.PcOf(w, g)
  {
  }

  lemma Undispatched(v: C.State, g: nat, op: nat, cell: nat)
    requires C.Reachable(v) && C.PcOf(v, g) == C.Waiting(op, cell) && op !in v.q.tasks
    ensures OnItsWay(v, g, op, cell)
  {
    CS.ReachableInv(v);
    hide C.Reachable;
    CT.WaitsForCas(v, g);
  }
}
