/**
 From arming a cell to reading its result: workers, the submission path, the kernel and the
 poller, with cells recycled through a pool.

 A worker arms a cell, submits, and calls gopark, whose unlock callback swaps the cell's
 state; the poller writes the result and tries a CAS on the same word.  Submission is taken at
 its interface: a task handed to `submit` is dispatched at some later step, under a slot
 index that no live task holds.  The kernel answers every SQE with one CQE, in any order and
 with any result.  Every access to shared memory is one step.

 The fields under "history" are written by the steps and never read by them.
 */
module Completion {
  datatype Kind = Parks | Sends

  datatype TaskState = InCore | Done | Parked

  datatype Cell = Cell(state: TaskState, g: nat, kind: Kind, res: int, flags: nat)

  datatype Result = Result(res: int, flags: nat)

  /** Where a worker goroutine stands in Recv, Read, Accept, Connect, Close or Send. */
  datatype Pc =
    | Idle
    | Armed(op: nat, cell: nat, kind: Kind)
    | Submitting(op: nat, cell: nat, kind: Kind)
    | Submitted(op: nat, cell: nat, kind: Kind)
    | Unlocking(op: nat, cell: nat)      // in _Gwaiting, the unlock callback still to run
    | Waiting(op: nat, cell: nat)        // asleep: only goready resumes it
    | Resumed(op: nat, cell: nat)
    | HasRes(op: nat, cell: nat, res: int)
    | HasBoth(op: nat, cell: nat, res: int, flags: nat)

  datatype Cqe = Cqe(userData: nat, res: int, flags: nat, op: nat)  // op: history

  datatype PollerPc =
    | PIdle
    | PGot(cqe: Cqe)
    | PCell(cqe: Cqe, cell: nat)
    | PRes(cqe: Cqe, cell: nat)
    | PFlags(cqe: Cqe, cell: nat)
    | PWake(cell: nat, op: nat)          // op: history
    | PPut(cqe: Cqe, cell: nat)
    | PDel(cqe: Cqe)

  /** How far an operation has come on the far side of submit (history). */
  datatype Stage =
    | Fresh
    | Queued
    | Kernel(slot: nat)
    | InCq(slot: nat)
    | Polled(slot: nat)
    | Reclaimed(slot: nat)
    | Waking
    | Delivered

  datatype Info = Info(g: nat, cell: nat, kind: Kind)

  /** Written by the steps, never read by them. */
  datatype History = History(
    info: map<nat, Info>,      // what each operation was armed with
    stage: map<nat, Stage>,
    holder: map<nat, nat>,     // cell -> operation that may still use it
    said: map<nat, Result>,    // what the kernel answered
    returned: map<nat, Result>,// what the worker read
    resumes: map<nat, nat>,    // how often the operation's worker was resumed
    unknown: nat               // CQEs whose slot was not found
  )

  datatype Queues = Queues(
    tasks: map<nat, nat>,      // operation -> cell, handed to submit and not yet dispatched
    slots: map<nat, nat>,      // slot index -> cell: the live part of the slot table
    sqes: map<nat, nat>,       // UserData -> operation: SQEs the kernel has not answered
    cq: seq<Cqe>
  )

  datatype State = State(
    pc: map<nat, Pc>,
    cells: map<nat, Cell>,
    pool: set<nat>,
    q: Queues,
    poller: PollerPc,
    h: History
  )

  function PcOf(v: State, g: nat): Pc {
    if g in v.pc then v.pc[g] else Idle
  }

  ghost predicate Init(v: State) {
    && v.pc == map[] && v.cells == map[] && v.pool == {} && v.poller == PIdle
    && v.q == Queues(map[], map[], map[], [])
    && v.h == History(map[], map[], map[], map[], map[], map[], 0)
  }

  // ---------------------------------------------------------------- workers

  /** taskCell: take a cell from the pool, or a new one, and overwrite it. */
  predicate CanArm(v: State, g: nat, op: nat, c: nat) {
    PcOf(v, g).Idle? && op !in v.h.info && (c in v.pool || c !in v.cells)
  }

  function Arm(v: State, g: nat, op: nat, c: nat, kind: Kind): State {
    v.(pc := v.pc[g := Armed(op, c, kind)],
       cells := v.cells[c := Cell(InCore, g, kind, 0, 0)],
       pool := v.pool - {c},
       h := v.h.(info := v.h.info[op := Info(g, c, kind)], stage := v.h.stage[op := Fresh],
                 holder := v.h.holder[c := op]))
  }

  function Submit(v: State, g: nat): State
    requires PcOf(v, g).Armed?
  {
    var Armed(op, c, k) := PcOf(v, g);
    v.(pc := v.pc[g := Submitting(op, c, k)], q := v.q.(tasks := v.q.tasks[op := c]),
       h := v.h.(stage := v.h.stage[op := Queued]))
  }

  predicate Moves(p: Pc) {
    p.Submitting? || p.Submitted?
  }

  /** submit returns true; then Send returns, and every other call enters gopark. */
  function Move(v: State, g: nat): State
    requires Moves(PcOf(v, g))
  {
    var p := PcOf(v, g);
    v.(pc := v.pc[g :=
         if p.Submitting? then Submitted(p.op, p.cell, p.kind)
         else if p.kind.Parks? then Unlocking(p.op, p.cell)
         else Idle])
  }

  function Resume(h: History, op: nat): History {
    h.(resumes := h.resumes[op := (if op in h.resumes then h.resumes[op] else 0) + 1])
  }

  /** netringParkUnlock: swap in Parked; stay asleep exactly if the old state was InCore. */
  function Swap(v: State, g: nat): State
    requires PcOf(v, g).Unlocking? && PcOf(v, g).cell in v.cells
  {
    var Unlocking(op, c) := PcOf(v, g);
    var sleeps := v.cells[c].state == InCore;
    v.(pc := v.pc[g := if sleeps then Waiting(op, c) else Resumed(op, c)],
       cells := v.cells[c := v.cells[c].(state := Parked)],
       h := if sleeps then v.h else Resume(v.h, op))
  }

  /** The resumed worker reads cell.res, then cell.flags. */
  function Read(v: State, g: nat): State
    requires (PcOf(v, g).Resumed? || PcOf(v, g).HasRes?) && PcOf(v, g).cell in v.cells
  {
    var p := PcOf(v, g);
    v.(pc := v.pc[g :=
         if p.Resumed? then HasRes(p.op, p.cell, v.cells[p.cell].res)
         else HasBoth(p.op, p.cell, p.res, v.cells[p.cell].flags)])
  }

  function PutBack(v: State, g: nat): State
    requires PcOf(v, g).HasBoth?
  {
    var HasBoth(op, c, res, flags) := PcOf(v, g);
    v.(pc := v.pc[g := Idle], pool := v.pool + {c},
       h := v.h.(holder := v.h.holder - {c}, returned := v.h.returned[op := Result(res, flags)]))
  }

  // ---------------------------------------------------------------- submission and kernel

  /** The task's turn in the submission protocol: slots.Add, then Push. */
  function Dispatch(v: State, op: nat, slot: nat): State
    requires op in v.q.tasks
  {
    v.(q := v.q.(tasks := v.q.tasks - {op}, slots := v.q.slots[slot := v.q.tasks[op]],
                 sqes := v.q.sqes[slot := op]),
       h := v.h.(stage := v.h.stage[op := Kernel(slot)]))
  }

  function Answer(v: State, slot: nat, res: int, flags: nat): State
    requires slot in v.q.sqes
  {
    var op := v.q.sqes[slot];
    v.(q := v.q.(sqes := v.q.sqes - {slot}, cq := v.q.cq + [Cqe(slot, res, flags, op)]),
       h := v.h.(stage := v.h.stage[op := InCq(slot)], said := v.h.said[op := Result(res, flags)]))
  }

  // ---------------------------------------------------------------- poller

  function Take(v: State): State
    requires v.poller.PIdle? && v.q.cq != []
  {
    var e := v.q.cq[0];
    v.(poller := PGot(e), q := v.q.(cq := v.q.cq[1..]),
       h := v.h.(stage := v.h.stage[e.op := Polled(e.userData)]))
  }

  function LookUp(v: State): State
    requires v.poller.PGot?
  {
    var e := v.poller.cqe;
    if e.userData in v.q.slots then v.(poller := PCell(e, v.q.slots[e.userData]))
    else v.(poller := PIdle, h := v.h.(unknown := v.h.unknown + 1))
  }

  function Write(v: State): State
    requires (v.poller.PCell? || v.poller.PRes?) && v.poller.cell in v.cells
  {
    var e, c := v.poller.cqe, v.poller.cell;
    if v.poller.PCell? then v.(cells := v.cells[c := v.cells[c].(res := e.res)], poller := PRes(e, c))
    else v.(cells := v.cells[c := v.cells[c].(flags := e.flags)], poller := PFlags(e, c))
  }

  /** A send is accounted without a wake-up; everything else tries the CAS InCore -> Done. */
  function TryDone(v: State): State
    requires v.poller.PFlags? && v.poller.cell in v.cells
  {
    var e, c := v.poller.cqe, v.poller.cell;
    if v.cells[c].kind.Sends? then v.(poller := PPut(e, c))
    else if v.cells[c].state == InCore then
      v.(cells := v.cells[c := v.cells[c].(state := Done)], poller := PIdle,
         h := v.h.(stage := v.h.stage[e.op := Delivered]))
    else
      v.(poller := PWake(c, e.op), h := v.h.(stage := v.h.stage[e.op := Waking]))
  }

  /** goready(cell.g) on a goroutine that is asleep; on any other it would bring the runtime down. */
  function GoReady(v: State): State
    requires v.poller.PWake? && v.poller.cell in v.cells
  {
    var g, op := v.cells[v.poller.cell].g, v.poller.op;
    var h := v.h.(stage := v.h.stage[op := Delivered]);
    if PcOf(v, g).Waiting? then
      v.(poller := PIdle, pc := v.pc[g := Resumed(PcOf(v, g).op, PcOf(v, g).cell)],
         h := Resume(h, PcOf(v, g).op))
    else
      v.(poller := PIdle, h := h)
  }

  /** A send's cell goes back to the pool, then its slot is deleted. */
  function Reclaim(v: State): State
    requires v.poller.PPut? || v.poller.PDel?
  {
    var e := v.poller.cqe;
    if v.poller.PPut? then
      v.(poller := PDel(e), pool := v.pool + {v.poller.cell},
         h := v.h.(stage := v.h.stage[e.op := Reclaimed(e.userData)], holder := v.h.holder - {v.poller.cell}))
    else
      v.(poller := PIdle, q := v.q.(slots := v.q.slots - {e.userData}),
         h := v.h.(stage := v.h.stage[e.op := Delivered]))
  }

  // ---------------------------------------------------------------- runs

  datatype Event =
    | EArm(g: nat, op: nat, cell: nat, kind: Kind)
    | ESubmit(g: nat)
    | EMove(g: nat)
    | ESwap(g: nat)
    | ERead(g: nat)
    | EPutBack(g: nat)
    | EDispatch(op: nat, slot: nat)
    | EAnswer(slot: nat, res: int, flags: nat)
    | ETake
    | ELookUp
    | EWrite
    | ETryDone
    | EGoReady
    | EReclaim

  predicate Enabled(v: State, e: Event) {
    match e
    case EArm(g, op, c, _) => CanArm(v, g, op, c)
    case ESubmit(g) => PcOf(v, g).Armed?
    case EMove(g) => Moves(PcOf(v, g))
    case ESwap(g) => PcOf(v, g).Unlocking? && PcOf(v, g).cell in v.cells
    case ERead(g) => (PcOf(v, g).Resumed? || PcOf(v, g).HasRes?) && PcOf(v, g).cell in v.cells
    case EPutBack(g) => PcOf(v, g).HasBoth?
    case EDispatch(op, slot) => op in v.q.tasks && slot !in v.q.slots
    case EAnswer(slot, _, _) => slot in v.q.sqes
    case ETake => v.poller.PIdle? && v.q.cq != []
    case ELookUp => v.poller.PGot?
    case EWrite => (v.poller.PCell? || v.poller.PRes?) && v.poller.cell in v.cells
    case ETryDone => v.poller.PFlags? && v.poller.cell in v.cells
    case EGoReady => v.poller.PWake? && v.poller.cell in v.cells
    case EReclaim => v.poller.PPut? || v.poller.PDel?
  }

  function Apply(v: State, e: Event): State
    requires Enabled(v, e)
  {
    match e
    case EArm(g, op, c, kind) => Arm(v, g, op, c, kind)
    case ESubmit(g) => Submit(v, g)
    case EMove(g) => Move(v, g)
    case ESwap(g) => Swap(v, g)
    case ERead(g) => Read(v, g)
    case EPutBack(g) => PutBack(v, g)
    case EDispatch(op, slot) => Dispatch(v, op, slot)
    case EAnswer(slot, res, flags) => Answer(v, slot, res, flags)
    case ETake => Take(v)
    case ELookUp => LookUp(v)
    case EWrite => Write(v)
    case ETryDone => TryDone(v)
    case EGoReady => GoReady(v)
    case EReclaim => Reclaim(v)
  }

  ghost predicate Leads(v: State, es: seq<Event>, v': State)
    decreases |es|
  {
    if es == [] then v' == v
    else Enabled(v, es[0]) && Leads(Apply(v, es[0]), es[1..], v')
  }

  ghost predicate Reachable(v: State) {
    exists v0: State, es: seq<Event> :: Init(v0) && Leads(v0, es, v)
  }
}
