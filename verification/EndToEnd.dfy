/**
 The submission protocol under the completion path.  Completion takes submission at its interface:
 a task handed to `submit` is dispatched at some later step, once, under a free slot index.  Here
 the two run together.  A worker that submits begins a call of `submit`; the step that publishes
 the call's entry is the dispatch; the kernel answers an entry under its user data once it has read
 it; all other steps of either side are its own.  `ops` records for which operation each call was
 made.

 Nothing in the submission protocol asks the completion path for leave: what is proved is that
 whenever it publishes an entry, the dispatch is one the completion path allows.
 */
module EndToEnd {
  import opened Options
  import S = Submission
  import SI = SubmissionInvariant
  import SS = SubmissionSteps
  import ST = SubmissionTheorems
  import SR = SubmissionRuns
  import C = Completion
  import CI = CompletionInvariant
  import CS = CompletionSteps
  import CT = CompletionTheorems
  import CL = CompletionSlots

  datatype State = State(sub: S.State, com: C.State, ops: map<S.Task, nat>)

  datatype Event =
    | Enters(who: nat)          // a worker whose cell is armed calls submit
    | Submits(s: S.Event)       // a step of the submission protocol, other than the beginning of a call
    | Completes(e: C.Event)     // a step of the completion path, other than submitting and dispatching

  /** The entry that a step of the submission protocol publishes. */
  function Published(v: S.State, e: S.Event): Option<S.Sqe> {
    match e
    case Step(s) =>
      if S.PcOf(v, s).Publish? && S.CallsOf(v, s) > 0 then Some(S.Sqe(S.Current(v, s), S.PcOf(v, s).slot)) else None
    case LoopStep => if v.loop.LPublish? then Some(S.Sqe(v.loop.task, v.loop.slot)) else None
    case _ => None
  }

  /** A step the submission protocol may take; where it calls slots.Add, the index is one not in use. */
  predicate Offered(c: S.Config, u: State, s: S.Event) {
    && !s.Begin? && S.Enabled(c, u.sub, s) && S.NoLap(u.sub, s)
    && (s.StepAdd? || s.LoopAdd? ==> s.slot !in u.com.q.slots)
  }

  /** The completion path allows the dispatch that the step amounts to, if it amounts to one. */
  predicate Allowed(u: State, s: S.Event) {
    var p := Published(u.sub, s);
    p.Some? ==> p.value.task in u.ops && C.Enabled(u.com, C.EDispatch(u.ops[p.value.task], p.value.userData))
  }

  /** An entry for the operation, under that slot index, is in the history `q`. */
  ghost predicate Entry(ops: map<S.Task, nat>, q: seq<S.Sqe>, op: nat, slot: nat) {
    exists t :: t in ops && ops[t] == op && S.Sqe(t, slot) in q
  }

  ghost predicate Enabled(c: S.Config, u: State, e: Event) {
    match e
    case Enters(g) => S.Enabled(c, u.sub, S.Begin(g)) && C.Enabled(u.com, C.ESubmit(g))
    case Submits(s) => Offered(c, u, s) && Allowed(u, s)
    case Completes(e) =>
      && !e.ESubmit? && !e.EDispatch? && C.Enabled(u.com, e)
      && (e.EMove? && C.PcOf(u.com, e.g).Submitting? ==> S.PcOf(u.sub, e.g).Idle?)  // submit has returned
      && (e.EAnswer? ==> Entry(u.ops, u.sub.consumed, u.com.q.sqes[e.slot], e.slot))
  }

  ghost function Apply(c: S.Config, u: State, e: Event): State
    requires Enabled(c, u, e)
  {
    match e
    case Enters(g) =>
      State(S.Apply(c, u.sub, S.Begin(g)), C.Apply(u.com, C.ESubmit(g)),
            u.ops[S.Task(g, S.CallsOf(u.sub, g)) := C.PcOf(u.com, g).op])
    case Submits(s) =>
      var p := Published(u.sub, s);
      u.(sub := S.Apply(c, u.sub, s),
         com := if p.None? then u.com
                else C.Apply(u.com, C.EDispatch(u.ops[p.value.task], p.value.userData)))
    case Completes(e) => u.(com := C.Apply(u.com, e))
  }

  ghost predicate Init(c: S.Config, u: State) {
    S.Init(c, u.sub) && C.Init(u.com) && u.ops == map[]
  }

  ghost predicate Leads(c: S.Config, u: State, es: seq<Event>, w: State)
    decreases |es|
  {
    if es == [] then w == u
    else Enabled(c, u, es[0]) && Leads(c, Apply(c, u, es[0]), es[1..], w)
  }

  ghost predicate Reachable(c: S.Config, u: State) {
    exists u0: State, es: seq<Event> :: Init(c, u0) && Leads(c, u0, es, u)
  }

  // ---------------------------------------------------------------- the invariant

  predicate HoldsSlot(p: S.Pc) {
    p.WriteEntry? || p.Publish?
  }

  predicate LoopHoldsSlot(l: S.LoopPc) {
    l.LWriteEntry? || l.LPublish?
  }

  /** A slot index that has been handed out and not yet published is still unused. */
  ghost predicate Spare(u: State) {
    && (forall s: nat :: HoldsSlot(S.PcOf(u.sub, s)) ==> S.PcOf(u.sub, s).slot !in u.com.q.slots)
    && (LoopHoldsSlot(u.sub.loop) ==> u.sub.loop.slot !in u.com.q.slots)
  }

  /** The operation has been handed to submit. */
  predicate Handed(v: C.State, op: nat) {
    op in v.h.stage && !v.h.stage[op].Fresh?
  }

  /** Calls begun and operations handed over are the same, one to one. */
  ghost predicate Paired(u: State) {
    && (forall t: S.Task :: t in u.ops <==> t.call < S.CallsOf(u.sub, t.issuer))
    && (forall t, t' :: t in u.ops && t' in u.ops && u.ops[t] == u.ops[t'] ==> t == t')
    && (forall op: nat :: Handed(u.com, op) <==> op in u.ops.Values)
  }

  /** An operation waits for its dispatch exactly until its entry is published. */
  ghost predicate InStep(u: State) {
    forall t :: t in u.ops ==> (u.ops[t] in u.com.q.tasks <==> t !in SI.Tasks(u.sub.pushed))
  }

  ghost predicate Agree(u: State) {
    Spare(u) && Paired(u) && InStep(u)
  }

  /** What the kernel is to answer is in the queue's history, under its slot index. */
  ghost predicate Carried(u: State) {
    forall slot :: slot in u.com.q.sqes ==> Entry(u.ops, u.sub.pushed, u.com.q.sqes[slot], slot)
  }

  /** What it has answered it had read. */
  ghost predicate Answered(u: State) {
    forall op :: op in u.com.h.said ==> exists slot: nat :: Entry(u.ops, u.sub.consumed, op, slot)
  }

  /** Each side is where it can be on its own, and they agree. */
  ghost predicate Sound(c: S.Config, u: State) {
    S.Reachable(c, u.sub) && C.Reachable(u.com) && Agree(u) && Carried(u) && Answered(u)
  }

  // ---------------------------------------------------------------- once

  lemma {:induction false} OfMember(q: seq<S.Task>, t: S.Task)
    requires t in q
    ensures t in SI.Of(q, t.issuer)
    decreases |q|
  {
    if q[|q| - 1] != t { OfMember(q[..|q| - 1], t); }
  }

  /** What has been handed over was called for. */
  lemma PlacedKnown(c: S.Config, v: S.State, t: S.Task)
    requires SI.Inv(c, v) && t in v.placed
    ensures t.call < SI.CallsPlaced(v, t.issuer) <= S.CallsOf(v, t.issuer)
  {
    assert SI.ProgramOrder(v, t.issuer);
    OfMember(v.placed, t);
  }

  /** Where calls are in program order, their numbers tell the earlier ones from the later ones. */
  lemma Numbered(a: seq<S.Task>, b: seq<S.Task>, t: S.Task, n: nat)
    requires a + b == SI.FirstCalls(t.issuer, n)
    ensures t in a ==> t.call < |a|
    ensures t in b ==> |a| <= t.call
  {
    if t in a {
      var k :| 0 <= k < |a| && a[k] == t;
      assert (a + b)[k] == t;
    }
    if t in b {
      var l :| 0 <= l < |b| && b[l] == t;
      assert (a + b)[|a| + l] == t;
    }
  }

  lemma EarlierOrLater(p: seq<S.Task>, r: seq<S.Task>, t: S.Task, n: nat)
    requires SI.Of(p + r, t.issuer) == SI.FirstCalls(t.issuer, n)
    ensures t in p ==> t.call < |SI.Of(p, t.issuer)|
    ensures t in r ==> |SI.Of(p, t.issuer)| <= t.call
  {
    if t in p { OfMember(p, t); }
    if t in r { OfMember(r, t); }
    ST.OfConcat(p, r, t.issuer);
    hide SI.Of, SI.FirstCalls;
    Numbered(SI.Of(p, t.issuer), SI.Of(r, t.issuer), t, n);
  }

  /** Nothing is handed over twice. */
  lemma PlacedOnce(c: S.Config, v: S.State, i: nat, j: nat)
    requires SI.Inv(c, v) && i < j < |v.placed|
    ensures v.placed[i] != v.placed[j]
  {
    var t, p, r := v.placed[i], v.placed[..j], v.placed[j..];
    assert SI.ProgramOrder(v, t.issuer);
    hide SI.Inv, SI.Of, SI.FirstCalls;
    assert v.placed == p + r && p[i] == t && r[0] == v.placed[j];
    EarlierOrLater(p, r, t, SI.CallsPlaced(v, t.issuer));
  }

  /** No task is published twice. */
  lemma PublishedOnce(c: S.Config, v: S.State, i: nat, j: nat)
    requires SI.Inv(c, v) && i < j < |v.pushed|
    ensures v.pushed[i].task != v.pushed[j].task
  {
    PlacedOnce(c, v, i, j);
    assert v.placed[i] == v.pushed[i].task && v.placed[j] == v.pushed[j].task;
  }

  /** What is about to be published was called for, and has not been published before. */
  lemma PublishedNew(c: S.Config, v: S.State, e: S.Event)
    requires SI.Inv(c, v) && S.Enabled(c, v, e) && Published(v, e).Some?
    ensures var t := Published(v, e).value.task;
            t.call < S.CallsOf(v, t.issuer) && t !in SI.Tasks(v.pushed)
  {
    var t, done := Published(v, e).value.task, SI.Tasks(v.pushed);
    assert v.placed == done + SI.Hand(v.loop) + v.chan;
    if e.LoopStep? {
      assert v.placed[|done|] == t;
      PlacedKnown(c, v, t);
      if t in done {
        var i :| 0 <= i < |done| && done[i] == t;
        PlacedOnce(c, v, i, |done|);
      }
    } else if t in done {
      assert t in v.placed;
      PlacedKnown(c, v, t);
    }
  }

  // ---------------------------------------------------------------- steps of the submission protocol

  /** A step publishes the entry it is said to, and begins no call. */
  lemma SubPublishes(c: S.Config, v: S.State, e: S.Event)
    requires S.Enabled(c, v, e) && !e.Begin?
    ensures var w := S.Apply(c, v, e);
            && w.calls == v.calls
            && w.pushed == v.pushed + (if Published(v, e).Some? then [Published(v, e).value] else [])
            && v.consumed <= w.consumed
  {
    hide S.StepSubmitter, S.StepLoop;
    if e.Step? {
      SS.SubmitterPcShape(c, v, e.who);
      if HoldsSlot(S.PcOf(v, e.who)) { SubWrites(c, v, e.who); } else { SS.SubmitterFrame(c, v, e.who); }
    } else if e.LoopStep? {
      SS.LoopMovesNoGoroutine(c, v);
      if LoopHoldsSlot(v.loop) { LoopWrites(c, v); } else { SS.LoopFrame(c, v); }
    }
  }

  lemma SubWrites(c: S.Config, v: S.State, s: nat)
    requires S.Enabled(c, v, S.Step(s)) && HoldsSlot(S.PcOf(v, s))
    ensures var w, p := S.StepSubmitter(c, v, s), S.PcOf(v, s);
            && w.pushed == v.pushed + (if p.Publish? then [S.Sqe(S.Current(v, s), p.slot)] else [])
            && (if p.Publish? then S.PcOf(w, s).Credit? else S.PcOf(w, s) == S.Publish(p.slot, v.sqTail))
            && w.loop == v.loop && w.consumed == v.consumed
  {
  }

  lemma LoopWrites(c: S.Config, v: S.State)
    requires S.Enabled(c, v, S.LoopStep) && LoopHoldsSlot(v.loop)
    ensures var w, l := S.StepLoop(c, v), v.loop;
            && w.pushed == v.pushed + (if l.LPublish? then [S.Sqe(l.task, l.slot)] else [])
            && (LoopHoldsSlot(w.loop) ==> l.LWriteEntry? && w.loop.slot == l.slot) && w.consumed == v.consumed
  {
  }

  /** Only slots.Add gives a goroutine a slot index. */
  lemma SubHolds(c: S.Config, v: S.State, e: S.Event, s: nat)
    requires S.Enabled(c, v, e)
    ensures var p, q := S.PcOf(v, s), S.PcOf(S.Apply(c, v, e), s);
            HoldsSlot(q) ==> (HoldsSlot(p) && q.slot == p.slot) || e == S.StepAdd(s, q.slot)
  {
    hide S.StepSubmitter, S.StepLoop;
    if e.LoopStep? {
      SS.LoopMovesNoGoroutine(c, v);
    } else if e.Step? {
      SS.SubmitterPcShape(c, v, e.who);
      if e.who == s {
        if HoldsSlot(S.PcOf(v, s)) { SubWrites(c, v, s); } else { NoSlotYet(c, v, s); }
      }
    }
  }

  lemma NoSlotYet(c: S.Config, v: S.State, s: nat)
    requires S.Enabled(c, v, S.Step(s)) && !HoldsSlot(S.PcOf(v, s))
    ensures !HoldsSlot(S.PcOf(S.StepSubmitter(c, v, s), s))
  {
    hide S.Epoch, S.Active;
  }

  /** And only slots.Add gives the loop one. */
  lemma LoopHolds(c: S.Config, v: S.State, e: S.Event)
    requires S.Enabled(c, v, e)
    ensures var l, m := v.loop, S.Apply(c, v, e).loop;
            LoopHoldsSlot(m) ==> (LoopHoldsSlot(l) && m.slot == l.slot) || e == S.LoopAdd(m.slot)
  {
    hide S.StepSubmitter, S.StepLoop;
    if e.Step? {
      if HoldsSlot(S.PcOf(v, e.who)) { SubWrites(c, v, e.who); } else { SS.SubmitterFrame(c, v, e.who); }
    } else if e.LoopStep? {
      if LoopHoldsSlot(v.loop) { LoopWrites(c, v); } else { NoLoopSlotYet(c, v); }
    }
  }

  lemma NoLoopSlotYet(c: S.Config, v: S.State)
    requires S.Enabled(c, v, S.LoopStep) && !LoopHoldsSlot(v.loop)
    ensures !LoopHoldsSlot(S.StepLoop(c, v).loop)
  {
    hide S.Epoch;
  }

  /** While one agent publishes, no other holds a slot index. */
  lemma PublisherAlone(c: S.Config, v: S.State, e: S.Event, s: nat)
    requires SI.Inv(c, v) && S.Enabled(c, v, e) && Published(v, e).Some?
    ensures !HoldsSlot(S.PcOf(S.Apply(c, v, e), s))
    ensures !LoopHoldsSlot(S.Apply(c, v, e).loop)
  {
    assert SI.SubmitterControl(c, v, s);
    if e.Step? { assert SI.SubmitterControl(c, v, e.who); SubWrites(c, v, e.who); } else { LoopWrites(c, v); }
    SubHolds(c, v, e, s);
  }

  // ---------------------------------------------------------------- steps of the completion path

  /** A step that neither submits nor dispatches hands nothing over, dispatches nothing and takes up no slot. */
  lemma ComKeeps(v: C.State, e: C.Event)
    requires C.Reachable(v) && C.Enabled(v, e) && !e.ESubmit? && !e.EDispatch?
    ensures var w := C.Apply(v, e);
            && w.q.tasks == v.q.tasks && w.q.slots.Keys <= v.q.slots.Keys
            && forall op: nat :: Handed(w, op) <==> Handed(v, op)
  {
    CS.ReachableInv(v);
    ComQueues(v, e);
    hide C.Reachable, CI.WorkersInv, CI.CellInv;
    forall op: nat ensures Handed(C.Apply(v, e), op) <==> Handed(v, op) { StillHanded(v, e, op); }
  }

  lemma ComQueues(v: C.State, e: C.Event)
    requires C.Enabled(v, e) && !e.ESubmit? && !e.EDispatch?
    ensures var w := C.Apply(v, e); w.q.tasks == v.q.tasks && w.q.slots.Keys <= v.q.slots.Keys
  {
  }

  lemma StillHanded(v: C.State, e: C.Event, op: nat)
    requires CI.Inv(v) && C.Enabled(v, e) && !e.ESubmit? && !e.EDispatch?
    ensures Handed(C.Apply(v, e), op) <==> Handed(v, op)
  {
    hide CI.WorkersInv, CI.CellInv, CI.OpsInv;
    if e.EArm? || e.EAnswer? || e.ETake? {
      hide CI.PollerInv;
    } else if e.EGoReady? || e.EReclaim? {
      PollerFinishes(v, e, op);
    } else if e.ELookUp? || e.EWrite? || e.ETryDone? {
      PollerHandsNothing(v, e, op);
    }
  }

  lemma PollerHandsNothing(v: C.State, e: C.Event, op: nat)
    requires CI.PollerInv(v) && C.Enabled(v, e)
    requires e.ELookUp? || e.EWrite? || e.ETryDone?
    ensures Handed(C.Apply(v, e), op) <==> Handed(v, op)
  {
  }

  lemma PollerFinishes(v: C.State, e: C.Event, op: nat)
    requires CI.PollerInv(v) && C.Enabled(v, e) && (e.EGoReady? || e.EReclaim?)
    ensures Handed(C.Apply(v, e), op) <==> Handed(v, op)
  {
    hide C.PcOf;
  }

  // ---------------------------------------------------------------- every step, every run

  /** The completion path allows the dispatch: the operation waits for it and the index is unused. */
  lemma DispatchAllowed(c: S.Config, u: State, s: S.Event)
    requires SI.Inv(c, u.sub) && Agree(u) && Offered(c, u, s)
    ensures Allowed(u, s)
  {
    if Published(u.sub, s).Some? {
      PublishedNew(c, u.sub, s);
      hide SI.Inv, S.Enabled;
    }
  }

  lemma EntersKeeps(c: S.Config, u: State, g: nat)
    requires SI.Inv(c, u.sub) && C.Reachable(u.com) && Agree(u) && Enabled(c, u, Enters(g))
    ensures Agree(Apply(c, u, Enters(g)))
  {
    var t, op := S.Task(g, S.CallsOf(u.sub, g)), C.PcOf(u.com, g).op;
    assert C.PcOf(u.com, g).Armed?;
    hide SI.Inv, C.Reachable, Enabled, Apply, Spare, InStep, S.CallsOf, C.PcOf;
    ArmedIsFresh(u.com, g);
    if t in SI.Tasks(u.sub.pushed) { PushedKnown(c, u.sub, t); }
    EntersSpares(c, u, g);
    EntersOutline(c, u, g);
    NewPair(u, Apply(c, u, Enters(g)), t, op);
    NewWaits(u, Apply(c, u, Enters(g)), t, op);
  }

  lemma EntersSpares(c: S.Config, u: State, g: nat)
    requires Spare(u) && Enabled(c, u, Enters(g))
    ensures Spare(Apply(c, u, Enters(g)))
  {
    var w := Apply(c, u, Enters(g));
    forall s: nat ensures HoldsSlot(S.PcOf(w.sub, s)) ==> S.PcOf(w.sub, s).slot !in w.com.q.slots {
      assert s != g ==> S.PcOf(w.sub, s) == S.PcOf(u.sub, s);
    }
  }

  lemma EntersOutline(c: S.Config, u: State, g: nat)
    requires Enabled(c, u, Enters(g))
    ensures var w, t, op := Apply(c, u, Enters(g)), S.Task(g, S.CallsOf(u.sub, g)), C.PcOf(u.com, g).op;
            && w.ops == u.ops[t := op] && w.sub.pushed == u.sub.pushed
            && w.sub.calls == u.sub.calls[g := t.call + 1]
            && w.com.h.stage == u.com.h.stage[op := C.Queued]
            && op in w.com.q.tasks && w.com.q.tasks.Keys == u.com.q.tasks.Keys + {op}
  {
  }

  /** A new call goes with an operation that had not been handed over. */
  lemma NewPair(u: State, w: State, t: S.Task, op: nat)
    requires Paired(u) && !Handed(u.com, op) && t.call == S.CallsOf(u.sub, t.issuer)
    requires w.ops == u.ops[t := op] && w.sub.calls == u.sub.calls[t.issuer := t.call + 1]
    requires w.com.h.stage == u.com.h.stage[op := C.Queued]
    ensures Paired(w)
  {
    assert t !in u.ops && op !in u.ops.Values;
    ValuesGrow(u.ops, t, op);
    forall a, b | a in w.ops && b in w.ops && w.ops[a] == w.ops[b] ensures a == b {
      assert a != t ==> u.ops[a] in u.ops.Values;
      assert b != t ==> u.ops[b] in u.ops.Values;
    }
    forall a: S.Task ensures a in w.ops <==> a.call < S.CallsOf(w.sub, a.issuer) {
      assert a in u.ops <==> a.call < S.CallsOf(u.sub, a.issuer);
    }
  }

  lemma NewWaits(u: State, w: State, t: S.Task, op: nat)
    requires Paired(u) && InStep(u) && !Handed(u.com, op) && t !in u.ops && t !in SI.Tasks(u.sub.pushed)
    requires w.ops == u.ops[t := op] && w.sub.pushed == u.sub.pushed
    requires w.com.q.tasks.Keys == u.com.q.tasks.Keys + {op}
    ensures InStep(w)
  {
    forall a | a in w.ops ensures w.ops[a] in w.com.q.tasks <==> a !in SI.Tasks(w.sub.pushed) {
      assert a != t ==> u.ops[a] in u.ops.Values;
    }
  }

  lemma ValuesGrow(m: map<S.Task, nat>, t: S.Task, op: nat)
    requires t !in m
    ensures m[t := op].Values == m.Values + {op}
  {
    var n := m[t := op];
    assert n[t] == op;
    forall x | x in m.Values ensures x in n.Values {
      var k :| k in m && m[k] == x;
      assert n[k] == x;
    }
  }

  lemma ArmedIsFresh(v: C.State, g: nat)
    requires C.Reachable(v) && C.PcOf(v, g).Armed?
    ensures var op := C.PcOf(v, g).op; op in v.h.stage && v.h.stage[op].Fresh?
  {
    CS.ReachableInv(v);
    hide C.Reachable, CI.CqInv, CI.SlotInv, CI.CellInv, CI.PollerInv;
    assert CI.WorkerInv(v, g);
    assert CI.OpInv(v, C.PcOf(v, g).op);
  }

  lemma PushedKnown(c: S.Config, v: S.State, t: S.Task)
    requires SI.Inv(c, v) && t in SI.Tasks(v.pushed)
    ensures t.call < S.CallsOf(v, t.issuer)
  {
    assert t in v.placed;
    PlacedKnown(c, v, t);
  }

  lemma QuietKeeps(c: S.Config, u: State, s: S.Event)
    requires SI.Inv(c, u.sub) && Agree(u) && Enabled(c, u, Submits(s)) && Published(u.sub, s).None?
    ensures Agree(Apply(c, u, Submits(s)))
  {
    SubPublishes(c, u.sub, s);
    LoopHolds(c, u.sub, s);
    var w := Apply(c, u, Submits(s));
    forall r: nat ensures HoldsSlot(S.PcOf(w.sub, r)) ==> S.PcOf(w.sub, r).slot !in w.com.q.slots {
      SubHolds(c, u.sub, s, r);
    }
    hide S.Apply, S.Enabled, SI.Inv;
    assert w.sub.pushed == u.sub.pushed;
  }

  lemma PublishKeeps(c: S.Config, u: State, s: S.Event)
    requires SI.Inv(c, u.sub) && Agree(u) && Enabled(c, u, Submits(s)) && Published(u.sub, s).Some?
    ensures Agree(Apply(c, u, Submits(s)))
  {
    var x := Published(u.sub, s).value;
    PublishedNew(c, u.sub, s);
    PublishSpares(c, u, s);
    PublishOutline(c, u, s);
    hide SI.Inv, Enabled, Apply, Spare, Paired, InStep;
    DonePair(u, Apply(c, u, Submits(s)), u.ops[x.task], x.userData);
    DoneWaits(u, Apply(c, u, Submits(s)), x);
  }

  lemma PublishSpares(c: S.Config, u: State, s: S.Event)
    requires SI.Inv(c, u.sub) && Enabled(c, u, Submits(s)) && Published(u.sub, s).Some?
    ensures Spare(Apply(c, u, Submits(s)))
  {
    PublisherAlone(c, u.sub, s, 0);
    forall r: nat ensures !HoldsSlot(S.PcOf(S.Apply(c, u.sub, s), r)) { PublisherAlone(c, u.sub, s, r); }
    hide SI.Inv, S.Apply, S.Enabled;
  }

  lemma PublishOutline(c: S.Config, u: State, s: S.Event)
    requires Enabled(c, u, Submits(s)) && Published(u.sub, s).Some?
    ensures var w, x := Apply(c, u, Submits(s)), Published(u.sub, s).value;
            && x.task in u.ops && w.ops == u.ops
            && w.sub.calls == u.sub.calls && w.sub.pushed == u.sub.pushed + [x]
            && w.com.h.stage == u.com.h.stage[u.ops[x.task] := C.Kernel(x.userData)]
            && w.com.q.tasks == u.com.q.tasks - {u.ops[x.task]}
  {
    SubPublishes(c, u.sub, s);
    hide S.Apply, S.Enabled;
  }

  lemma DonePair(u: State, w: State, op: nat, slot: nat)
    requires Paired(u) && op in u.ops.Values && w.ops == u.ops && w.sub.calls == u.sub.calls
    requires w.com.h.stage == u.com.h.stage[op := C.Kernel(slot)]
    ensures Paired(w)
  {
    forall a: S.Task ensures a in w.ops <==> a.call < S.CallsOf(w.sub, a.issuer) {
      assert a in u.ops <==> a.call < S.CallsOf(u.sub, a.issuer);
    }
    assert Handed(u.com, op);
    forall o: nat ensures Handed(w.com, o) <==> o in w.ops.Values {
      assert Handed(u.com, o) <==> o in u.ops.Values;
    }
  }

  lemma DoneWaits(u: State, w: State, x: S.Sqe)
    requires Paired(u) && InStep(u) && x.task in u.ops && w.ops == u.ops && w.sub.pushed == u.sub.pushed + [x]
    requires w.com.q.tasks == u.com.q.tasks - {u.ops[x.task]}
    ensures InStep(w)
  {
    TasksAdd(u.sub.pushed, x);
  }

  lemma TasksAdd(q: seq<S.Sqe>, x: S.Sqe)
    ensures SI.Tasks(q + [x]) == SI.Tasks(q) + [x.task]
  {
  }

  lemma CompletesKeeps(c: S.Config, u: State, e: C.Event)
    requires C.Reachable(u.com) && Agree(u) && Enabled(c, u, Completes(e))
    ensures Agree(Apply(c, u, Completes(e)))
  {
    hide C.Reachable, C.Apply, C.Enabled, Spare;
    ComKeeps(u.com, e);
    SparesShrink(u, Apply(c, u, Completes(e)));
  }

  lemma SparesShrink(u: State, w: State)
    requires Spare(u) && w.sub == u.sub && w.com.q.slots.Keys <= u.com.q.slots.Keys
    ensures Spare(w)
  {
  }

  /** Histories only grow, and so do the calls made. */
  lemma EntryStays(ops: map<S.Task, nat>, q: seq<S.Sqe>, ops': map<S.Task, nat>, q': seq<S.Sqe>, op: nat, slot: nat)
    requires Entry(ops, q, op, slot) && q <= q'
    requires forall t :: t in ops ==> t in ops' && ops'[t] == ops[t]
    ensures Entry(ops', q', op, slot)
  {
    var t :| t in ops && ops[t] == op && S.Sqe(t, slot) in q;
    assert t in ops';
  }

  lemma EntriesStay(u: State, w: State)
    requires u.sub.pushed <= w.sub.pushed && u.sub.consumed <= w.sub.consumed
    requires forall t :: t in u.ops ==> t in w.ops && w.ops[t] == u.ops[t]
    ensures forall op, slot :: Entry(u.ops, u.sub.pushed, op, slot) ==> Entry(w.ops, w.sub.pushed, op, slot)
    ensures forall op, slot :: Entry(u.ops, u.sub.consumed, op, slot) ==> Entry(w.ops, w.sub.consumed, op, slot)
  {
    hide Entry;
    forall op, slot | Entry(u.ops, u.sub.pushed, op, slot) ensures Entry(w.ops, w.sub.pushed, op, slot) {
      EntryStays(u.ops, u.sub.pushed, w.ops, w.sub.pushed, op, slot);
    }
    forall op, slot | Entry(u.ops, u.sub.consumed, op, slot) ensures Entry(w.ops, w.sub.consumed, op, slot) {
      EntryStays(u.ops, u.sub.consumed, w.ops, w.sub.consumed, op, slot);
    }
  }

  /** How every step leaves the histories and the calls. */
  lemma EventGrows(c: S.Config, u: State, e: Event)
    requires Agree(u) && Enabled(c, u, e)
    ensures var w := Apply(c, u, e);
            && u.sub.pushed <= w.sub.pushed && u.sub.consumed <= w.sub.consumed
            && forall t :: t in u.ops ==> t in w.ops && w.ops[t] == u.ops[t]
  {
    if e.Submits? { SubPublishes(c, u.sub, e.s); }
    hide S.StepSubmitter, S.StepLoop, C.Apply;
  }

  /** What a step does to the SQEs in the kernel and to its answers. */
  lemma KernelSide(v: C.State, e: C.Event)
    requires C.Enabled(v, e) && !e.EDispatch?
    ensures var w := C.Apply(v, e);
            && (forall slot :: slot in w.q.sqes ==> slot in v.q.sqes && w.q.sqes[slot] == v.q.sqes[slot])
            && (forall op :: op in w.h.said ==> op in v.h.said || (e.EAnswer? && op == v.q.sqes[e.slot]))
  {
  }

  lemma EventCarries(c: S.Config, u: State, e: Event)
    requires Agree(u) && Carried(u) && Answered(u) && Enabled(c, u, e)
    ensures Carried(Apply(c, u, e)) && Answered(Apply(c, u, e))
  {
    EventGrows(c, u, e);
    EntriesStay(u, Apply(c, u, e));
    match e
    case Enters(g) => KernelSide(u.com, C.ESubmit(g)); hide S.Apply, C.Apply, C.Enabled, S.Enabled, Entry;
    case Submits(s) => PublishCarries(c, u, s);
    case Completes(k) => KernelSide(u.com, k); hide C.Apply, C.Enabled, Entry;
  }

  lemma PublishCarries(c: S.Config, u: State, s: S.Event)
    requires Agree(u) && Carried(u) && Answered(u) && Enabled(c, u, Submits(s))
    requires var w := Apply(c, u, Submits(s));
             && (forall op, slot :: Entry(u.ops, u.sub.pushed, op, slot) ==> Entry(w.ops, w.sub.pushed, op, slot))
             && (forall op, slot :: Entry(u.ops, u.sub.consumed, op, slot) ==> Entry(w.ops, w.sub.consumed, op, slot))
    ensures Carried(Apply(c, u, Submits(s))) && Answered(Apply(c, u, Submits(s)))
  {
    SubPublishes(c, u.sub, s);
    hide S.Apply, S.Enabled;
    var w := Apply(c, u, Submits(s));
    if Published(u.sub, s).Some? {
      var x := Published(u.sub, s).value;
      assert x in w.sub.pushed && Entry(w.ops, w.sub.pushed, u.ops[x.task], x.userData);
    }
    hide Entry;
  }

  /** Both sides run as they do alone, and they stay in step. */
  lemma EventKeeps(c: S.Config, u: State, e: Event)
    requires c.Valid() && Sound(c, u) && Enabled(c, u, e)
    ensures Sound(c, Apply(c, u, e))
  {
    SS.ReachableInv(c, u.sub);
    hide S.Reachable, C.Reachable, Agree, Carried, Answered, SI.Inv, S.Apply, C.Apply, S.Enabled, C.Enabled, S.NoLap;
    EventCarries(c, u, e);
    match e
    case Enters(g) =>
      SubGoesOn(c, u.sub, S.Begin(g));
      CL.StillReachable(u.com, C.ESubmit(g));
      EntersKeeps(c, u, g);
    case Submits(s) =>
      SubGoesOn(c, u.sub, s);
      if Published(u.sub, s).Some? {
        var p := Published(u.sub, s).value;
        CL.StillReachable(u.com, C.EDispatch(u.ops[p.task], p.userData));
        PublishKeeps(c, u, s);
      } else {
        QuietKeeps(c, u, s);
      }
    case Completes(k) =>
      CL.StillReachable(u.com, k);
      CompletesKeeps(c, u, k);
  }

  lemma SubGoesOn(c: S.Config, v: S.State, e: S.Event)
    requires S.Reachable(c, v) && S.Enabled(c, v, e) && (e.Begin? || S.NoLap(v, e))
    ensures S.Reachable(c, S.Apply(c, v, e))
  {
    assert S.NoLap(v, e);
    hide S.Reachable, S.Apply, S.Enabled, S.NoLap;
    SR.OneStep(c, v, e);
    SR.StillReachable(c, v, S.Apply(c, v, e));
  }

  lemma {:induction false} RunKeeps(c: S.Config, u: State, es: seq<Event>, w: State)
    requires c.Valid() && Sound(c, u) && Leads(c, u, es, w)
    ensures Sound(c, w)
    decreases |es|
  {
    hide Sound, Apply, Enabled;
    if es != [] {
      EventKeeps(c, u, es[0]);
      RunKeeps(c, Apply(c, u, es[0]), es[1..], w);
    }
  }

  lemma ReachableSound(c: S.Config, u: State)
    requires c.Valid() && Reachable(c, u)
    ensures Sound(c, u)
  {
    hide Sound;
    var u0: State, es: seq<Event> :| Init(c, u0) && Leads(c, u0, es, u);
    InitSound(c, u0);
    RunKeeps(c, u0, es, u);
  }

  lemma InitSound(c: S.Config, u: State)
    requires Init(c, u)
    ensures Sound(c, u)
  {
    assert S.Leads(c, u.sub, [], u.sub) && C.Leads(u.com, [], u.com);
  }

  // ---------------------------------------------------------------- what follows

  /**
   The submission protocol is never held up by the completion path: in every reachable state,
   whatever step it may take is one that the two can take together.
   */
  lemma DispatchNeverBlocks(c: S.Config, u: State, s: S.Event)
    requires c.Valid() && Reachable(c, u) && Offered(c, u, s)
    ensures Enabled(c, u, Submits(s))
  {
    ReachableSound(c, u);
    SS.ReachableInv(c, u.sub);
    DispatchAllowed(c, u, s);
  }

  /** A submitted operation waits for its dispatch exactly until its entry is in the queue's history, and that once. */
  lemma DispatchedOnce(c: S.Config, u: State, t: S.Task)
    requires c.Valid() && Reachable(c, u) && t.call < S.CallsOf(u.sub, t.issuer)
    ensures t in u.ops && (u.ops[t] in u.com.q.tasks <==> t !in SI.Tasks(u.sub.pushed))
    ensures forall i, j :: 0 <= i < j < |u.sub.pushed| ==> u.sub.pushed[i].task != u.sub.pushed[j].task
  {
    ReachableSound(c, u);
    SS.ReachableInv(c, u.sub);
    forall i, j | 0 <= i < j < |u.sub.pushed| ensures u.sub.pushed[i].task != u.sub.pushed[j].task {
      PublishedOnce(c, u.sub, i, j);
    }
  }

  /**
   End to end: a worker that has returned from an operation had made one call of submit for it;
   the kernel had read that call's entry, published once; and what the worker returned is what the
   kernel answered.
   */
  lemma OwnResultOfOwnCall(c: S.Config, u: State, op: nat) returns (t: S.Task)
    requires c.Valid() && Reachable(c, u) && op in u.com.h.returned
    ensures t in u.ops && u.ops[t] == op && (forall t' :: t' in u.ops && u.ops[t'] == op ==> t' == t)
    ensures t in SI.Tasks(u.sub.consumed) && u.sub.consumed <= u.sub.pushed
    ensures forall i, j :: 0 <= i < j < |u.sub.pushed| ==> u.sub.pushed[i].task != t || u.sub.pushed[j].task != t
    ensures op in u.com.h.said && u.com.h.returned[op] == u.com.h.said[op]
  {
    ReachableSound(c, u);
    CT.OwnResult(u.com, op);
    ST.BoundedFifo(c, u.sub);
    hide Reachable, S.Reachable, C.Reachable;
    var slot: nat :| Entry(u.ops, u.sub.consumed, op, slot);
    t :| t in u.ops && u.ops[t] == op && S.Sqe(t, slot) in u.sub.consumed;
    InTasks(u.sub.consumed, S.Sqe(t, slot));
    assert t.call < S.CallsOf(u.sub, t.issuer);
    hide Agree;
    DispatchedOnce(c, u, t);
  }

  lemma InTasks(q: seq<S.Sqe>, x: S.Sqe)
    requires x in q
    ensures x.task in SI.Tasks(q)
  {
    var i :| 0 <= i < |q| && q[i] == x;
    assert SI.Tasks(q)[i] == x.task;
  }
}
