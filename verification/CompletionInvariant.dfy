/**
 What every step of the completion path keeps, operation by operation: where the task is, who
 may still use its cell, and what the cell's state word says about both.
 */
module CompletionInvariant {
  import opened Completion

  predicate HasSlot(s: Stage) {
    s.Kernel? || s.InCq? || s.Polled? || s.Reclaimed?
  }

  /** Not yet delivered and not yet at the wake-up: the poller's CAS is still to come. */
  predicate BeforeCas(s: Stage) {
    s.Fresh? || s.Queued? || s.Kernel? || s.InCq? || s.Polled?
  }

  predicate AtOp(p: Pc, op: nat) {
    !p.Idle? && p.op == op
  }

  predicate BeforeSwap(p: Pc) {
    p.Armed? || p.Submitting? || p.Submitted? || p.Unlocking?
  }

  predicate AfterResume(p: Pc) {
    p.Resumed? || p.HasRes? || p.HasBoth?
  }

  function ResumesOf(v: State, op: nat): nat {
    if op in v.h.resumes then v.h.resumes[op] else 0
  }

  /** The operation may still read or write its cell. */
  ghost predicate Holds(v: State, op: nat)
    requires op in v.h.info && op in v.h.stage
  {
    if v.h.info[op].kind.Parks? then AtOp(PcOf(v, v.h.info[op].g), op)
    else BeforeCas(v.h.stage[op])
  }

  ghost predicate CellOf(v: State, op: nat)
    requires op in v.h.info
  {
    var i := v.h.info[op];
    && i.cell in v.cells && i.cell in v.h.holder && v.h.holder[i.cell] == op && i.cell !in v.pool
    && v.cells[i.cell].g == i.g && v.cells[i.cell].kind == i.kind
  }

  ghost predicate Written(v: State, op: nat)
    requires op in v.h.info
  {
    var c := v.h.info[op].cell;
    c in v.cells && op in v.h.said && v.h.said[op] == Result(v.cells[c].res, v.cells[c].flags)
  }

  /** The handshake on the state word, for an operation whose worker parks. */
  ghost predicate Handshake(v: State, op: nat)
    requires op in v.h.info && op in v.h.stage
  {
    var i, st := v.h.info[op], v.h.stage[op];
    var p := PcOf(v, i.g);
    && i.cell in v.cells
    && var word := v.cells[i.cell].state;
    && (BeforeSwap(p) && BeforeCas(st) ==> word == InCore)
    && (BeforeSwap(p) && !BeforeCas(st) ==> st.Delivered? && word == Done)
    && (p.Waiting? ==> (BeforeCas(st) || st.Waking?) && word == Parked)
    && (AfterResume(p) ==> st.Delivered?)
    && (st.Waking? || st.Delivered? ==> Written(v, op))
    && ResumesOf(v, op) == (if AfterResume(p) then 1 else 0)
    && (p.HasRes? || p.HasBoth? ==> p.res == v.cells[i.cell].res)
    && (p.HasBoth? ==> p.flags == v.cells[i.cell].flags)
  }

  ghost predicate OpInv(v: State, op: nat)
    requires op in v.h.info && op in v.h.stage
  {
    var i, st := v.h.info[op], v.h.stage[op];
    var p := PcOf(v, i.g);
    && (st.Fresh? <==> AtOp(p, op) && p.Armed?)
    && (Holds(v, op) ==> CellOf(v, op))
    && (i.kind.Parks? && AtOp(p, op) ==> Handshake(v, op) && !st.Reclaimed?)
    && (i.kind.Parks? && !AtOp(p, op) ==>
          st.Delivered? && ResumesOf(v, op) == 1 && op in v.h.said && op in v.h.returned &&
          v.h.returned[op] == v.h.said[op])
    && (i.kind.Sends? ==> ResumesOf(v, op) == 0 && !st.Waking? && op !in v.h.returned)
    && (i.kind.Parks? && AtOp(p, op) ==> op !in v.h.returned)
    && (st.Queued? <==> op in v.q.tasks)
    && (op in v.q.tasks ==> v.q.tasks[op] == i.cell)
    && (HasSlot(st) ==> st.slot in v.q.slots)
    && (HasSlot(st) && !st.Reclaimed? ==> v.q.slots[st.slot] == i.cell)
    && (st.Kernel? ==> st.slot in v.q.sqes && v.q.sqes[st.slot] == op)
    && (st.Fresh? || st.Queued? || st.Kernel? ==> op !in v.h.said)
    && (st.InCq? || st.Polled? || st.Waking? || st.Delivered? || st.Reclaimed? ==> op in v.h.said)
    && (st.Polled? || st.Waking? || st.Reclaimed? ==> v.poller != PIdle && PollerOp(v.poller) == op)
  }

  function PollerOp(p: PollerPc): nat
    requires p != PIdle
  {
    if p.PWake? then p.op else p.cqe.op
  }

  /** What a worker's program counter says about its operation. */
  ghost predicate WorkerInv(v: State, g: nat) {
    var p := PcOf(v, g);
    !p.Idle? ==>
      && p.op in v.h.info && p.op in v.h.stage && v.h.info[p.op].g == g && v.h.info[p.op].cell == p.cell
      && (p.Armed? || p.Submitting? || p.Submitted? ==> v.h.info[p.op].kind == p.kind)
      && (!p.Armed? && !p.Submitting? && !p.Submitted? ==> v.h.info[p.op].kind.Parks?)
      && p.cell in v.cells
  }

  ghost predicate CqInv(v: State) {
    && (forall i :: 0 <= i < |v.q.cq| ==>
          var e := v.q.cq[i];
          && e.op in v.h.info && e.op in v.h.stage && v.h.stage[e.op] == InCq(e.userData)
          && e.op in v.h.said && v.h.said[e.op] == Result(e.res, e.flags))
    && (forall i, j :: 0 <= i < j < |v.q.cq| ==> v.q.cq[i].op != v.q.cq[j].op)
    && (forall o :: o in v.h.stage && v.h.stage[o].InCq? ==> Listed(v.q.cq, o))
  }

  ghost predicate Listed(cq: seq<Cqe>, op: nat) {
    exists i :: 0 <= i < |cq| && cq[i].op == op
  }

  ghost predicate PollerInv(v: State) {
    var p := v.poller;
    && (p != PIdle ==> PollerOp(p) in v.h.info && PollerOp(p) in v.h.stage && PollerOp(p) in v.h.said)
    && (p.PGot? || p.PCell? || p.PRes? || p.PFlags? || p.PPut? ==>
          v.h.stage[p.cqe.op] == Polled(p.cqe.userData) && v.h.said[p.cqe.op] == Result(p.cqe.res, p.cqe.flags))
    && (p.PCell? || p.PRes? || p.PFlags? || p.PPut? ==>
          p.cell == v.h.info[p.cqe.op].cell && p.cell in v.cells)
    && (p.PRes? ==> v.cells[p.cell].res == p.cqe.res)
    && (p.PFlags? ==> v.cells[p.cell].res == p.cqe.res && v.cells[p.cell].flags == p.cqe.flags)
    && (p.PPut? ==> v.h.info[p.cqe.op].kind.Sends?)
    && (p.PWake? ==> v.h.stage[p.op].Waking? && p.cell == v.h.info[p.op].cell && p.cell in v.cells &&
                     v.h.info[p.op].kind.Parks? && PcOf(v, v.h.info[p.op].g) == Waiting(p.op, p.cell))
    && (p.PDel? ==> v.h.stage[p.cqe.op] == Reclaimed(p.cqe.userData))
  }

  /** No two operations wait for a CQE under the same slot index. */
  ghost predicate SlotInv(v: State) {
    && v.h.unknown == 0
    && (forall a, b :: a in v.h.stage && b in v.h.stage && a != b && HasSlot(v.h.stage[a]) && HasSlot(v.h.stage[b]) ==>
          v.h.stage[a].slot != v.h.stage[b].slot)
    && (forall s :: s in v.q.sqes ==> v.q.sqes[s] in v.h.stage && v.h.stage[v.q.sqes[s]] == Kernel(s))
  }

  /** A cell that somebody may still use is not up for reuse. */
  ghost predicate CellInv(v: State) {
    && (forall c :: c in v.pool ==> c in v.cells && c !in v.h.holder)
    && (forall c :: c in v.h.holder ==>
          c in v.cells && v.h.holder[c] in v.h.info && v.h.holder[c] in v.h.stage &&
          v.h.info[v.h.holder[c]].cell == c && Holds(v, v.h.holder[c]))
  }

  ghost predicate KeysInv(v: State) {
    && v.h.stage.Keys == v.h.info.Keys && v.q.tasks.Keys <= v.h.info.Keys
    && v.h.said.Keys <= v.h.info.Keys && v.h.resumes.Keys <= v.h.info.Keys
    && v.h.returned.Keys <= v.h.info.Keys
  }

  ghost predicate OpsInv(v: State)
    requires KeysInv(v)
  {
    forall op :: op in v.h.info ==> OpInv(v, op)
  }

  ghost predicate WorkersInv(v: State) {
    forall g: nat :: WorkerInv(v, g)
  }

  ghost predicate Inv(v: State) {
    KeysInv(v) && OpsInv(v) && WorkersInv(v) && CqInv(v) && PollerInv(v) && SlotInv(v) && CellInv(v)
  }
}
