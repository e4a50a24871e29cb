/** What every run of the completion path guarantees. */
module CompletionTheorems {
  import opened Completion
  import opened CompletionInvariant
  import opened CompletionSteps

  // ---------------------------------------------------------------- the handshake

  /** goready is only ever called for a goroutine that is asleep, and wakes it from the very call it is in. */
  lemma WakesOnlyTheSleeping(v: State)
    requires Reachable(v) && v.poller.PWake?
    ensures v.poller.cell in v.cells
    ensures PcOf(v, v.cells[v.poller.cell].g) == Waiting(v.poller.op, v.poller.cell)
    ensures PcOf(GoReady(v), v.cells[v.poller.cell].g) == Resumed(v.poller.op, v.poller.cell)
  {
    ReachableInv(v);
    hide Reachable, OpInv, WorkersInv, CqInv, SlotInv, CellInv;
    OpAt(v, v.poller.op);
    GoReadyFinds(v);
  }

  /** The unlock callback lets its goroutine sleep exactly if the poller's CAS is still to come. */
  lemma SleepsUnlessDelivered(v: State, g: nat)
    requires Reachable(v) && PcOf(v, g).Unlocking?
    ensures PcOf(v, g).cell in v.cells && PcOf(v, g).op in v.h.stage
    ensures PcOf(Swap(v, g), g).Waiting? <==> BeforeCas(v.h.stage[PcOf(v, g).op])
    ensures PcOf(Swap(v, g), g).Resumed? <==> v.h.stage[PcOf(v, g).op].Delivered?
    ensures PcOf(v, g).cell in Swap(v, g).cells && Swap(v, g).cells[PcOf(v, g).cell].state == Parked
  {
    ReachableInv(v);
    hide Reachable, CqInv, SlotInv, CellInv, PollerInv;
    WorkerFacts(v, g);
  }

  /** A parked operation's worker is resumed once, and not before it has gone to sleep or stayed awake for good. */
  lemma ResumedExactlyOnce(v: State, op: nat)
    requires Reachable(v) && op in v.h.info
    ensures v.h.info[op].kind.Sends? ==> ResumesOf(v, op) == 0
    ensures v.h.info[op].kind.Parks? ==>
              ResumesOf(v, op) == (if op in v.h.returned || AtResumed(v, op) then 1 else 0)
  {
    ReachableInv(v);
    hide Reachable, CqInv, SlotInv, CellInv, PollerInv, WorkersInv;
    OpAt(v, op);
  }

  ghost predicate AtResumed(v: State, op: nat)
    requires op in v.h.info
  {
    AtOp(PcOf(v, v.h.info[op].g), op) && AfterResume(PcOf(v, v.h.info[op].g))
  }

  // ---------------------------------------------------------------- results

  /** What a worker returns is what the kernel answered to its own SQE, over any recycling of cells and slots. */
  lemma OwnResult(v: State, op: nat)
    requires Reachable(v) && op in v.h.returned
    ensures op in v.h.said && v.h.returned[op] == v.h.said[op]
  {
    ReachableInv(v);
    hide Reachable, CqInv, SlotInv, CellInv, PollerInv, WorkersInv;
    OpAt(v, op);
  }

  /** An operation is answered once: no later step changes the answer. */
  lemma AnsweredOnce(v: State, e: Event, op: nat)
    requires Reachable(v) && Enabled(v, e)
    ensures op in v.h.said ==> op in Apply(v, e).h.said && Apply(v, e).h.said[op] == v.h.said[op]
  {
    ReachableInv(v);
    hide Reachable, OpInv, CqInv, CellInv, PollerInv, WorkersInv, Apply;
    HistoryWritten(v, e);
    if e.EAnswer? {
      NothingUnknown(v);
      OpAt(v, v.q.sqes[e.slot]);
      KernelUnsaid(v, v.q.sqes[e.slot]);
    }
  }

  /** A worker returns from an operation once: no later step changes the result it returned. */
  lemma ReturnedOnce(v: State, e: Event, op: nat)
    requires Reachable(v) && Enabled(v, e)
    ensures op in v.h.returned ==> op in Apply(v, e).h.returned && Apply(v, e).h.returned[op] == v.h.returned[op]
  {
    ReachableInv(v);
    hide Reachable, OpInv, CqInv, CellInv, PollerInv, WorkersInv, SlotInv, Apply;
    HistoryWritten(v, e);
    if e.EPutBack? {
      WorkerFacts(v, e.g);
      Unreturned(v, e.g);
    }
  }

  /** The only step that writes an answer, and the only one that writes a returned result. */
  lemma HistoryWritten(v: State, e: Event)
    requires Enabled(v, e)
    ensures Apply(v, e).h.said == if e.EAnswer? then v.h.said[v.q.sqes[e.slot] := Result(e.res, e.flags)] else v.h.said
    ensures Apply(v, e).h.returned ==
            if e.EPutBack? then v.h.returned[PcOf(v, e.g).op := Result(PcOf(v, e.g).res, PcOf(v, e.g).flags)]
            else v.h.returned
  {
    if FarSide(e) { FarWritten(v, e); } else { WorkerWritten(v, e); }
  }

  lemma FarWritten(v: State, e: Event)
    requires Enabled(v, e) && FarSide(e)
    ensures Apply(v, e).h.said == if e.EAnswer? then v.h.said[v.q.sqes[e.slot] := Result(e.res, e.flags)] else v.h.said
    ensures Apply(v, e).h.returned == v.h.returned
  {
    if !e.EDispatch? && !e.EAnswer? { PollerWritten(v, e); }
  }

  lemma PollerWritten(v: State, e: Event)
    requires Enabled(v, e) && FarSide(e) && !e.EDispatch? && !e.EAnswer?
    ensures Apply(v, e).h.said == v.h.said && Apply(v, e).h.returned == v.h.returned
  {
    match e
    case ETake => assert Take(v).h.said == v.h.said && Take(v).h.returned == v.h.returned;
    case ELookUp => assert LookUp(v).h.said == v.h.said && LookUp(v).h.returned == v.h.returned;
    case EWrite => assert Write(v).h == v.h;
    case ETryDone => assert TryDone(v).h.said == v.h.said && TryDone(v).h.returned == v.h.returned;
    case EGoReady => assert GoReady(v).h.said == v.h.said && GoReady(v).h.returned == v.h.returned;
    case EReclaim => assert Reclaim(v).h.said == v.h.said && Reclaim(v).h.returned == v.h.returned;
  }

  lemma WorkerWritten(v: State, e: Event)
    requires Enabled(v, e) && !FarSide(e)
    ensures Apply(v, e).h.said == v.h.said
    ensures Apply(v, e).h.returned ==
            if e.EPutBack? then v.h.returned[PcOf(v, e.g).op := Result(PcOf(v, e.g).res, PcOf(v, e.g).flags)]
            else v.h.returned
  {
  }

  lemma KernelUnsaid(v: State, op: nat)
    requires op in v.h.info && op in v.h.stage && OpInv(v, op)
    ensures v.h.stage[op].Kernel? ==> op !in v.h.said
  {
  }

  lemma Unreturned(v: State, g: nat)
    requires !PcOf(v, g).Idle? && WorkerInv(v, g) && OpInv(v, PcOf(v, g).op)
    ensures v.h.info[PcOf(v, g).op].kind.Parks? ==> PcOf(v, g).op !in v.h.returned
  {
  }

  /** Every CQE finds its slot, and the cell found is the one its own operation was armed with. */
  lemma SlotLeadsHome(v: State)
    requires Reachable(v)
    ensures v.h.unknown == 0
    ensures v.poller.PGot? ==>
              var e := v.poller.cqe;
              && e.op in v.h.info && e.op in v.h.said && v.h.said[e.op] == Result(e.res, e.flags)
              && e.userData in v.q.slots && v.q.slots[e.userData] == v.h.info[e.op].cell
  {
    ReachableInv(v);
    hide Reachable, OpInv, CqInv, CellInv, WorkersInv;
    if v.poller.PGot? {
      OpAt(v, v.poller.cqe.op);
      LookUpFinds(v);
    }
  }

  // ---------------------------------------------------------------- cells

  /** Two operations that may still touch a cell never share one, nor is it in the pool. */
  lemma CellsNotShared(v: State, a: nat, b: nat)
    requires Reachable(v) && a in v.h.info && b in v.h.info && a != b
    ensures a in v.h.stage && b in v.h.stage
    ensures Holds(v, a) ==> v.h.info[a].cell !in v.pool
    ensures Holds(v, a) && Holds(v, b) ==> v.h.info[a].cell != v.h.info[b].cell
  {
    ReachableInv(v);
    hide Reachable, CqInv, SlotInv, CellInv, PollerInv, WorkersInv;
    OpAt(v, a);
    OpAt(v, b);
  }

  /** Once the worker may run on, the poller is not at its cell and no step of the poller goes there for it. */
  lemma PollerKeepsAway(v: State, op: nat)
    requires Reachable(v) && op in v.h.info && op in v.h.stage && Holds(v, op)
    requires v.h.info[op].kind.Parks? && v.h.stage[op].Delivered?
    ensures v.poller.PCell? || v.poller.PRes? || v.poller.PFlags? || v.poller.PPut? || v.poller.PWake? ==>
              v.poller.cell != v.h.info[op].cell
  {
    ReachableInv(v);
    hide Reachable, CqInv, SlotInv, CellInv, WorkersInv;
    PollerCellHeld(v);
    OpAt(v, op);
    if v.poller != PIdle { PollerStage(v); }
  }

  // ---------------------------------------------------------------- no lost wake-up

  /** The steps of submission, kernel and poller; no worker takes any of them. */
  predicate FarSide(e: Event) {
    e.EDispatch? || e.EAnswer? || e.ETake? || e.ELookUp? || e.EWrite? || e.ETryDone? || e.EGoReady? || e.EReclaim?
  }

  predicate FarRun(es: seq<Event>) {
    forall i :: 0 <= i < |es| ==> FarSide(es[i])
  }

  function StageRank(s: Stage): nat {
    if s.Queued? then 2 else if s.Kernel? then 1 else 0
  }

  function PollerRank(p: PollerPc): nat {
    match p
    case PIdle => 0
    case PGot(_) => 7
    case PCell(_, _) => 6
    case PRes(_, _) => 5
    case PFlags(_, _) => 4
    case PWake(_, _) => 1
    case PPut(_, _) => 3
    case PDel(_) => 2
  }

  /** The poller's next step, whatever it is at. */
  function PollerEvent(v: State): Event
    requires v.poller != PIdle
  {
    if v.poller.PGot? then ELookUp
    else if v.poller.PCell? || v.poller.PRes? then EWrite
    else if v.poller.PFlags? then ETryDone
    else if v.poller.PWake? then EGoReady
    else EReclaim
  }

  lemma PollerMoves(v: State, g: nat)
    requires Inv(v) && v.poller != PIdle && PcOf(v, g).Waiting?
    ensures Enabled(v, PollerEvent(v)) && FarSide(PollerEvent(v))
    ensures var v' := Apply(v, PollerEvent(v));
            && (PcOf(v', g) == PcOf(v, g) || PcOf(v', g) == Resumed(PcOf(v, g).op, PcOf(v, g).cell))
            && v'.q.cq == v.q.cq && PollerRank(v'.poller) < PollerRank(v.poller)
            && PcOf(v, g).op in v.h.stage && PcOf(v, g).op in v'.h.stage
            && StageRank(v'.h.stage[PcOf(v, g).op]) <= StageRank(v.h.stage[PcOf(v, g).op])
  {
    PollerReady(v);
    hide Inv, PcOf;
    Tracked(v, g);
    PollerWakes(v, g);
    PollerKeepsStage(v, PcOf(v, g).op);
  }

  lemma PollerReady(v: State)
    requires Inv(v) && v.poller != PIdle
    ensures Enabled(v, PollerEvent(v))
    ensures var v' := Apply(v, PollerEvent(v)); v'.q.cq == v.q.cq && PollerRank(v'.poller) < PollerRank(v.poller)
  {
    hide OpInv, CqInv, SlotInv, CellInv, OpsInv, KeysInv;
  }

  lemma PollerWakes(v: State, g: nat)
    requires v.poller != PIdle && Enabled(v, PollerEvent(v)) && PcOf(v, g).Waiting?
    ensures var v' := Apply(v, PollerEvent(v));
            PcOf(v', g) == PcOf(v, g) || PcOf(v', g) == Resumed(PcOf(v, g).op, PcOf(v, g).cell)
  {
  }

  lemma PollerKeepsStage(v: State, op: nat)
    requires v.poller != PIdle && Enabled(v, PollerEvent(v)) && op in v.h.stage
    ensures var v' := Apply(v, PollerEvent(v));
            op in v'.h.stage && StageRank(v'.h.stage[op]) <= StageRank(v.h.stage[op])
  {
    hide LookUp, Write, TryDone, Reclaim, GoReady;
    if v.poller.PFlags? { TryDoneStage(v, op); }
    else if v.poller.PWake? { GoReadyStage(v, op); }
    else if v.poller.PPut? || v.poller.PDel? { ReclaimStage(v, op); }
    else { ReadingStage(v); }
  }

  lemma ReadingStage(v: State)
    requires v.poller.PGot? || v.poller.PCell? || v.poller.PRes?
    requires Enabled(v, PollerEvent(v))
    ensures Apply(v, PollerEvent(v)).h.stage == v.h.stage
  {
  }

  /** Setting one stage past the completion queue raises the rank of none. */
  lemma RankFalls(stage: map<nat, Stage>, key: nat, s: Stage, op: nat)
    requires op in stage && StageRank(s) == 0
    ensures op in stage[key := s] && StageRank(stage[key := s][op]) <= StageRank(stage[op])
  {
  }

  lemma TryDoneStage(v: State, op: nat)
    requires v.poller.PFlags? && v.poller.cell in v.cells && op in v.h.stage
    ensures op in TryDone(v).h.stage && StageRank(TryDone(v).h.stage[op]) <= StageRank(v.h.stage[op])
  {
    RankFalls(v.h.stage, v.poller.cqe.op, Delivered, op);
    RankFalls(v.h.stage, v.poller.cqe.op, Waking, op);
    hide StageRank;
    assert TryDone(v).h.stage == v.h.stage || TryDone(v).h.stage == v.h.stage[v.poller.cqe.op := Delivered] ||
           TryDone(v).h.stage == v.h.stage[v.poller.cqe.op := Waking];
  }

  lemma GoReadyStage(v: State, op: nat)
    requires Enabled(v, EGoReady) && op in v.h.stage
    ensures op in GoReady(v).h.stage && StageRank(GoReady(v).h.stage[op]) <= StageRank(v.h.stage[op])
  {
    RankFalls(v.h.stage, v.poller.op, Delivered, op);
    hide PcOf, StageRank;
  }

  lemma ReclaimStage(v: State, op: nat)
    requires Enabled(v, EReclaim) && op in v.h.stage
    ensures op in Reclaim(v).h.stage && StageRank(Reclaim(v).h.stage[op]) <= StageRank(v.h.stage[op])
  {
    RankFalls(v.h.stage, v.poller.cqe.op, Delivered, op);
    RankFalls(v.h.stage, v.poller.cqe.op, Reclaimed(v.poller.cqe.userData), op);
    hide StageRank;
  }

  /** What a sleeping worker's wake-up waits for. */
  lemma WaitsForCas(v: State, g: nat)
    requires Inv(v) && PcOf(v, g).Waiting?
    ensures var op := PcOf(v, g).op;
            && op in v.h.stage
            && (v.h.stage[op].Queued? ==> op in v.q.tasks)
            && (v.h.stage[op].Kernel? ==> v.h.stage[op].slot in v.q.sqes && v.q.sqes[v.h.stage[op].slot] == op)
            && (!v.h.stage[op].Queued? && !v.h.stage[op].Kernel? ==> v.poller != PIdle || v.q.cq != [])
  {
    hide SlotInv, CellInv, PollerInv;
    WorkerFacts(v, g);
    if v.h.stage[PcOf(v, g).op].InCq? { assert Listed(v.q.cq, PcOf(v, g).op); }
  }

  lemma {:induction false} FreshSlot(s: set<nat>) returns (k: nat)
    ensures forall x :: x in s ==> x < k
  {
    if s == {} {
      k := 0;
    } else {
      var x :| x in s;
      var k0 := FreshSlot(s - {x});
      k := if x < k0 then k0 else x + 1;
      forall y | y in s ensures y < k {
        assert y == x || y in s - {x};
      }
    }
  }

  /** The far side's next step towards a sleeping worker. */
  ghost function NextFar(v: State, op: nat, slot: nat, res: int, flags: nat): Event
    requires op in v.h.stage
  {
    if v.h.stage[op].Queued? then EDispatch(op, slot)
    else if v.h.stage[op].Kernel? then EAnswer(v.h.stage[op].slot, res, flags)
    else if v.poller == PIdle then ETake
    else PollerEvent(v)
  }

  lemma FarStep(v: State, g: nat, slot: nat, res: int, flags: nat)
    requires Inv(v) && PcOf(v, g).Waiting? && PcOf(v, g).op in v.h.stage && slot !in v.q.slots
    ensures var e := NextFar(v, PcOf(v, g).op, slot, res, flags);
            && Enabled(v, e) && FarSide(e)
            && (PcOf(Apply(v, e), g) == PcOf(v, g) || PcOf(Apply(v, e), g) == Resumed(PcOf(v, g).op, PcOf(v, g).cell))
            && PcOf(v, g).op in Apply(v, e).h.stage
            && Progress(v, Apply(v, e), PcOf(v, g).op)
  {
    hide Inv, Apply;
    var op := PcOf(v, g).op;
    WaitsForCas(v, g);
    if v.h.stage[op].Queued? {
      DispatchProgress(v, op, slot);
    } else if v.h.stage[op].Kernel? {
      AnswerProgress(v, op, res, flags);
    } else if v.poller == PIdle {
      TakeProgress(v, op);
    } else {
      PollerMoves(v, g);
    }
  }

  lemma DispatchProgress(v: State, op: nat, slot: nat)
    requires op in v.q.tasks && op in v.h.stage && v.h.stage[op].Queued?
    ensures var v' := Dispatch(v, op, slot); v'.pc == v.pc && op in v'.h.stage && Progress(v, v', op)
    ensures slot !in v.q.slots ==> Apply(v, EDispatch(op, slot)) == Dispatch(v, op, slot)
  {
  }

  lemma AnswerProgress(v: State, op: nat, res: int, flags: nat)
    requires op in v.h.stage && v.h.stage[op].Kernel? && v.h.stage[op].slot in v.q.sqes
    requires v.q.sqes[v.h.stage[op].slot] == op
    ensures var v' := Answer(v, v.h.stage[op].slot, res, flags);
            && v'.pc == v.pc && op in v'.h.stage && Progress(v, v', op)
            && Apply(v, EAnswer(v.h.stage[op].slot, res, flags)) == v'
  {
  }

  lemma TakeProgress(v: State, op: nat)
    requires v.poller.PIdle? && v.q.cq != [] && op in v.h.stage
    requires !v.h.stage[op].Queued? && !v.h.stage[op].Kernel?
    ensures var v' := Take(v); v'.pc == v.pc && op in v'.h.stage && Progress(v, v', op)
    ensures Apply(v, ETake) == Take(v)
  {
  }

  ghost predicate Progress(v: State, v': State, op: nat)
    requires op in v.h.stage && op in v'.h.stage
  {
    var s, s' := StageRank(v.h.stage[op]), StageRank(v'.h.stage[op]);
    || s' < s
    || (s' == s && |v'.q.cq| < |v.q.cq|)
    || (s' == s && |v'.q.cq| == |v.q.cq| && PollerRank(v'.poller) < PollerRank(v.poller))
  }

  function RankOf(v: State, op: nat): nat {
    if op in v.h.stage then StageRank(v.h.stage[op]) else 0
  }

  /**
   No wake-up is lost: from every state in which a worker is asleep, steps of the far side alone,
   whatever the kernel answers, bring that worker back into the call it is in.
   */
  lemma {:induction false} WakeUpComes(v: State, g: nat, res: int, flags: nat) returns (es: seq<Event>, v': State)
    requires Inv(v) && PcOf(v, g).Waiting?
    ensures FarRun(es) && Leads(v, es, v')
    ensures PcOf(v', g) == Resumed(PcOf(v, g).op, PcOf(v, g).cell)
    decreases RankOf(v, PcOf(v, g).op), |v.q.cq|, PollerRank(v.poller)
  {
    hide Inv, Apply, Enabled, NextFar, PollerRank, StageRank, FarSide, Leads;
    var op := PcOf(v, g).op;
    var slot := FreshSlot(v.q.slots.Keys);
    Tracked(v, g);
    FarStep(v, g, slot, res, flags);
    var e := NextFar(v, op, slot, res, flags);
    EventKeepsInv(v, e);
    var w := Apply(v, e);
    if PcOf(w, g).Waiting? {
      var rest, last := WakeUpComes(w, g, res, flags);
      es, v' := [e] + rest, last;
      LeadsFrom(v, e, rest, last);
    } else {
      es, v' := [e], w;
      assert [e] + [] == [e];
      NoSteps(w);
      LeadsFrom(v, e, [], w);
    }
  }

  lemma NoSteps(v: State)
    ensures Leads(v, [], v)
  {
  }

  lemma Tracked(v: State, g: nat)
    requires Inv(v) && PcOf(v, g).Waiting?
    ensures PcOf(v, g).op in v.h.stage
  {
    hide OpInv, SlotInv, CellInv, PollerInv, CqInv, OpsInv;
    assert WorkerInv(v, g);
  }

  lemma LeadsFrom(v: State, e: Event, es: seq<Event>, v': State)
    requires Enabled(v, e) && Leads(Apply(v, e), es, v')
    ensures Leads(v, [e] + es, v')
  {
    hide Enabled, Apply;
    assert ([e] + es)[1..] == es;
  }

  /** So a sleeping worker is never stuck, whatever led there. */
  lemma NoLostWakeUp(v: State, g: nat)
    requires Reachable(v) && PcOf(v, g).Waiting?
    ensures exists es: seq<Event>, v': State ::
              FarRun(es) && Leads(v, es, v') && PcOf(v', g) == Resumed(PcOf(v, g).op, PcOf(v, g).cell)
  {
    hide Reachable, Inv, Leads;
    ReachableInv(v);
    var es, v' := WakeUpComes(v, g, 0, 0);
  }

  /** What is left to do on the far side: each of its steps does some of it. */
  function Work(v: State): nat {
    10 * |v.q.tasks| + 9 * |v.q.sqes| + 8 * |v.q.cq| + PollerRank(v.poller)
  }

  lemma FarStepWorks(v: State, e: Event)
    requires Enabled(v, e) && FarSide(e)
    ensures Work(Apply(v, e)) < Work(v)
  {
    match e
    case EDispatch(op, slot) => OneFewer(v.q.tasks, op); OneMore(v.q.sqes, slot, op);
    case EAnswer(slot, _, _) => OneFewer(v.q.sqes, slot);
    case ETake =>
    case _ => PollerWorks(v, e);
  }

  lemma PollerWorks(v: State, e: Event)
    requires Enabled(v, e) && (e.ELookUp? || e.EWrite? || e.ETryDone? || e.EGoReady? || e.EReclaim?)
    ensures Apply(v, e).q == v.q.(slots := Apply(v, e).q.slots)
    ensures PollerRank(Apply(v, e).poller) < PollerRank(v.poller)
  {
  }

  lemma OneFewer(m: map<nat, nat>, k: nat)
    requires k in m
    ensures |m - {k}| + 1 == |m|
  {
    assert (m - {k}).Keys == m.Keys - {k};
    assert |(m - {k}).Keys| + 1 == |m.Keys|;
  }

  lemma OneMore(m: map<nat, nat>, k: nat, x: nat)
    ensures |m[k := x]| <= |m| + 1
  {
    assert m[k := x].Keys == m.Keys + {k};
  }

  /** Left to itself the far side comes to rest, however its steps are ordered. */
  lemma {:induction false} FarSideComesToRest(v: State, es: seq<Event>, w: State)
    requires Leads(v, es, w) && FarRun(es)
    ensures |es| + Work(w) <= Work(v)
    decreases |es|
  {
    hide Apply, Enabled, Work;
    if es != [] {
      FarStepWorks(v, es[0]);
      FarSideComesToRest(Apply(v, es[0]), es[1..], w);
    }
  }

  /** And when it rests nobody is asleep. */
  lemma NoSleeperAtRest(v: State, g: nat)
    requires Reachable(v) && forall e: Event :: FarSide(e) ==> !Enabled(v, e)
    ensures !PcOf(v, g).Waiting?
  {
    hide Reachable, Inv, Enabled, FarSide;
    ReachableInv(v);
    if PcOf(v, g).Waiting? {
      Tracked(v, g);
      var slot := FreshSlot(v.q.slots.Keys);
      FarStep(v, g, slot, 0, 0);
    }
  }

  // ---------------------------------------------------------------- the pool

  /** Every cell ever made is in the pool or may still be used, never both. */
  ghost predicate AllCells(v: State) {
    v.cells.Keys == v.pool + v.h.holder.Keys
  }

  lemma StepAllCells(v: State, e: Event)
    requires Inv(v) && AllCells(v) && Enabled(v, e)
    ensures AllCells(Apply(v, e))
  {
    if e.EPutBack? {
      CellMade(v, e.g);
      PutBackCells(v, e.g);
    } else if e.EReclaim? {
      ReclaimCells(v);
    } else {
      OtherCells(v, e);
    }
  }

  lemma CellMade(v: State, g: nat)
    requires Inv(v) && !PcOf(v, g).Idle?
    ensures PcOf(v, g).cell in v.cells
  {
    hide OpInv, CqInv, SlotInv, CellInv, PollerInv, KeysInv, OpsInv;
    assert WorkerInv(v, g);
  }

  lemma PutBackCells(v: State, g: nat)
    requires AllCells(v) && PcOf(v, g).HasBoth? && PcOf(v, g).cell in v.cells
    ensures AllCells(PutBack(v, g))
  {
    hide PcOf;
  }

  lemma ReclaimCells(v: State)
    requires Inv(v) && AllCells(v) && Enabled(v, EReclaim)
    ensures AllCells(Reclaim(v))
  {
    hide OpInv, WorkersInv, CqInv, SlotInv, CellInv, KeysInv, OpsInv;
  }

  lemma OtherCells(v: State, e: Event)
    requires AllCells(v) && Enabled(v, e) && !e.EPutBack? && !e.EReclaim?
    ensures AllCells(Apply(v, e))
  {
    hide PcOf;
  }

  lemma {:induction false} RunAllCells(v: State, es: seq<Event>, w: State)
    requires Inv(v) && AllCells(v) && Leads(v, es, w)
    ensures AllCells(w)
    decreases |es|
  {
    hide Inv, Apply, Enabled, AllCells;
    if es != [] {
      EventKeepsInv(v, es[0]);
      StepAllCells(v, es[0]);
      RunAllCells(Apply(v, es[0]), es[1..], w);
    }
  }

  /** No cell gets lost: once nobody may use it any more it is back in the pool. */
  lemma CellsComeBack(v: State)
    requires Reachable(v)
    ensures v.cells.Keys == v.pool + v.h.holder.Keys && v.pool !! v.h.holder.Keys
  {
    ReachableInv(v);
    hide Leads, OpInv, WorkersInv, CqInv, SlotInv, PollerInv, KeysInv, OpsInv;
    var v0, es :| Init(v0) && Leads(v0, es, v);
    InitInv(v0);
    RunAllCells(v0, es, v);
  }
}
