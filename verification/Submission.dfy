/**
 The submission protocol: any number of goroutines run `submit`, one goroutine runs
 `fallbackLoop`, and the kernel consumes the submission queue.  Every access to a shared word
 is one step; steps of different agents interleave freely.

 `barrier` packs the fallback bit (bit 63) over a 63-bit epoch; `finishedPushes` is a 64-bit
 counter; `ticketTail`, `SQTail` and `SQHead` are 32-bit counters.  The machine manipulates
 only those registers, with their wrap-around.  The fields under "history" are written by the
 steps and never read by them: they record what happened.
 */
module Submission {
  import opened Arith

  const FALLBACK_BIT: nat := 0x8000_0000_0000_0000

  predicate Active(b: nat) { b >= FALLBACK_BIT }

  function Epoch(b: nat): nat { b % FALLBACK_BIT }

  /** One call of `submit`: the `call`-th one made by goroutine `issuer`. */
  datatype Task = Task(issuer: nat, call: nat)

  datatype Sqe = Sqe(task: Task, userData: nat)

  /** Where a goroutine stands in `submit`; locals are carried as arguments. */
  datatype Pc =
    | Idle
    | IntentLoad
    | IntentCas(b: nat)
    | Send
    | LoadTicket
    | LoadTail(ticket: nat)
    | Recheck
    | CasTicket(tail: nat, seen: nat)  // seen: pushes made when `tail` was loaded (history)
    | LoadHead(tail: nat)
    | RaiseLoad
    | RaiseCas(b: nat)
    | SendHeld
    | AddSlot
    | WriteEntry(slot: nat)
    | Publish(slot: nat, tail: nat)
    | Credit

  /** Where the fallback loop stands. */
  datatype LoopPc =
    | LIdle
    | LLoadBarrier(task: Task)
    | LLoadFinished(task: Task, snap: nat)
    | LLoadTail(task: Task, snap: nat, m: nat)
    | LLoadHead(task: Task, snap: nat, m: nat, tail: nat)
    | LTakeTicket(task: Task, snap: nat, m: nat)
    | LAddSlot(task: Task, snap: nat, m: nat)
    | LWriteEntry(task: Task, snap: nat, m: nat, slot: nat)
    | LPublish(task: Task, snap: nat, m: nat, slot: nat, tail: nat)
    | LNext(snap: nat, m: nat)
    | LStore(snap: nat)
    | LClear(snap: nat)
    | LAgain
    | LReleaseLoad
    | LReleaseStore(tail: nat)

  datatype Owner = Free | Direct(who: nat) | Fallback

  datatype Config = Config(entries: nat) {
    ghost predicate Valid() {
      PowerOfTwo(entries) && entries < W32
    }
  }

  datatype State = State(
    barrier: nat,
    finished: nat,
    ticketTail: nat,
    sqTail: nat,
    sqHead: nat,
    sq: seq<Sqe>,
    sqArray: seq<nat>,
    chan: seq<Task>,
    pc: map<nat, Pc>,
    loop: LoopPc,
    // history
    calls: map<nat, nat>,   // calls of submit begun, per goroutine
    owner: Owner,           // who may move SQTail
    pushed: seq<Sqe>,       // entries published, in order
    consumed: seq<Sqe>,     // entries the kernel has read, in order
    placed: seq<Task>,      // tasks published or handed to the channel, in order
    served: nat,            // tasks published by the loop in the current batch
    late: nat,              // credits since the loop read finishedPushes for this batch
    lost: nat               // credits the loop's stores have overwritten
  )

  function PcOf(v: State, s: nat): Pc {
    if s in v.pc then v.pc[s] else Idle
  }

  function CallsOf(v: State, s: nat): nat {
    if s in v.calls then v.calls[s] else 0
  }

  /** The task of the call that goroutine `s` is in. */
  function Current(v: State, s: nat): Task
    requires CallsOf(v, s) > 0
  {
    Task(s, CallsOf(v, s) - 1)
  }

  ghost predicate Init(c: Config, v: State) {
    && v.barrier == 0 && v.finished == 0 && v.ticketTail == 0 && v.sqTail == 0 && v.sqHead == 0
    && |v.sq| == c.entries && |v.sqArray| == c.entries
    && v.chan == [] && v.pc == map[] && v.loop == LIdle
    && v.calls == map[] && v.owner == Free
    && v.pushed == [] && v.consumed == [] && v.placed == []
    && v.served == 0 && v.late == 0 && v.lost == 0
  }

  // ---------------------------------------------------------------- steps

  datatype Event =
    | Begin(who: nat)
    | Step(who: nat)
    | StepAdd(who: nat, slot: nat)
    | LoopStep
    | LoopAdd(slot: nat)
    | Consume

  function Goto(v: State, s: nat, p: Pc): State {
    v.(pc := v.pc[s := p])
  }

  /** `statusCheck`: a goroutine that has just read the fallback bit. */
  function AfterStatus(b: nat): Pc {
    if Active(b) then Send else LoadTicket
  }

  /** A store of one entry at `tail & mask`: the first two stores of Push. */
  function StoreEntry(c: Config, v: State, e: Sqe): State
    requires |v.sq| == |v.sqArray| == c.entries > 0
  {
    var i := v.sqTail % c.entries;
    v.(sq := v.sq[i := e], sqArray := v.sqArray[i := i])
  }

  /** The store of `SQTail` that publishes the entry. */
  function PublishEntry(v: State, e: Sqe, tail: nat): State {
    v.(sqTail := (tail + 1) % W32, pushed := v.pushed + [e])
  }

  function ToChannel(v: State, t: Task): State {
    v.(chan := v.chan + [t], placed := v.placed + [t])
  }

  /** The loop holds a batch count computed from `finishedPushes`. */
  predicate InBatch(l: LoopPc) {
    l.LLoadTail? || l.LLoadHead? || l.LTakeTicket? || l.LAddSlot? || l.LWriteEntry? ||
    l.LPublish? || l.LNext? || l.LStore?
  }

  /** The steps of a goroutine in submit that allocate no slot (method_submit.go:28-111). */
  function StepSubmitter(c: Config, v: State, s: nat): State
    requires |v.sq| == |v.sqArray| == c.entries > 0
    requires CallsOf(v, s) > 0
  {
    var t := Current(v, s);
    match PcOf(v, s)
    case Idle => v
    case IntentLoad => Goto(v, s, IntentCas(v.barrier))
    case IntentCas(b) =>
      if v.barrier == b then
        var status := if Active(b) then FALLBACK_BIT else 0;
        Goto(v, s, AfterStatus(b)).(barrier := status + (Epoch(b) + 1) % FALLBACK_BIT)
      else
        Goto(v, s, IntentLoad)
    case Send => Goto(ToChannel(v, t), s, Idle)
    case LoadTicket => Goto(v, s, LoadTail(v.ticketTail))
    case LoadTail(ticket) =>
      if ticket != v.sqTail then Goto(v, s, Recheck)
      else Goto(v, s, CasTicket(v.sqTail, |v.pushed|))
    case Recheck => Goto(v, s, AfterStatus(v.barrier))
    case CasTicket(tail, _) =>
      if v.ticketTail == tail then
        Goto(v, s, LoadHead(tail)).(ticketTail := (tail + 1) % W32, owner := Direct(s))
      else
        Goto(v, s, Recheck)
    case LoadHead(tail) =>
      if Sub32(tail, v.sqHead) == c.entries then Goto(v, s, RaiseLoad) else Goto(v, s, AddSlot)
    case RaiseLoad => Goto(v, s, RaiseCas(v.barrier))
    case RaiseCas(b) =>
      if v.barrier == b then
        Goto(v, s, SendHeld).(barrier := if Active(b) then b else b + FALLBACK_BIT, owner := Fallback)
      else
        Goto(v, s, RaiseLoad)
    case SendHeld => Goto(ToChannel(v, t), s, Idle)
    case AddSlot => v
    case WriteEntry(slot) => Goto(StoreEntry(c, v, Sqe(t, slot)), s, Publish(slot, v.sqTail))
    case Publish(slot, tail) =>
      Goto(PublishEntry(v, Sqe(t, slot), tail), s, Credit).(placed := v.placed + [t], owner := Free)
    case Credit =>
      Goto(v, s, Idle).(finished := (v.finished + 1) % W64,
                        late := if InBatch(v.loop) then v.late + 1 else v.late)
  }

  /** The steps of the fallback loop that allocate no slot (method_submit_fallback.go:18-72). */
  function StepLoop(c: Config, v: State): State
    requires |v.sq| == |v.sqArray| == c.entries > 0
  {
    match v.loop
    case LIdle =>
      if v.chan == [] then v else v.(chan := v.chan[1..], loop := LLoadBarrier(v.chan[0]))
    case LLoadBarrier(task) => v.(loop := LLoadFinished(task, v.barrier))
    case LLoadFinished(task, snap) =>
      v.(loop := LLoadTail(task, snap, Sub64(Epoch(snap), v.finished % FALLBACK_BIT)), late := 0)
    case LLoadTail(task, snap, m) => v.(loop := LLoadHead(task, snap, m, v.sqTail))
    case LLoadHead(task, snap, m, tail) =>
      if Sub32(tail, v.sqHead) >= c.entries then v.(loop := LLoadTail(task, snap, m))
      else v.(loop := LTakeTicket(task, snap, m))
    case LTakeTicket(task, snap, m) =>
      v.(ticketTail := (v.ticketTail + 1) % W32, loop := LAddSlot(task, snap, m))
    case LAddSlot(_, _, _) => v
    case LWriteEntry(task, snap, m, slot) =>
      StoreEntry(c, v, Sqe(task, slot)).(loop := LPublish(task, snap, m, slot, v.sqTail))
    case LPublish(task, snap, m, slot, tail) =>
      var m' := Sub64(m, 1);
      PublishEntry(v, Sqe(task, slot), tail).(
        loop := if m' == 0 then LStore(snap) else LNext(snap, m'),
        served := v.served + 1)
    case LNext(snap, m) =>
      if v.chan == [] then v else v.(chan := v.chan[1..], loop := LLoadTail(v.chan[0], snap, m))
    case LStore(snap) =>
      v.(finished := Epoch(snap), loop := LClear(snap), lost := v.lost + v.late, late := 0, served := 0)
    case LClear(snap) =>
      if v.barrier == snap then v.(barrier := Epoch(snap), loop := LReleaseLoad)
      else v.(loop := LAgain)
    case LAgain =>
      if v.chan == [] then v else v.(chan := v.chan[1..], loop := LLoadBarrier(v.chan[0]))
    case LReleaseLoad => v.(loop := LReleaseStore(v.sqTail))
    case LReleaseStore(tail) => v.(ticketTail := tail, loop := LIdle, owner := Free)
  }

  predicate LoopBlocked(v: State) {
    v.chan == [] && (v.loop.LIdle? || v.loop.LNext? || v.loop.LAgain?)
  }

  /** The kernel reads the entry at its head through the index array. */
  function StepKernel(c: Config, v: State): State
    requires |v.sq| == |v.sqArray| == c.entries > 0
  {
    var i := v.sqArray[v.sqHead % c.entries];
    v.(sqHead := (v.sqHead + 1) % W32,
       consumed := if i < |v.sq| then v.consumed + [v.sq[i]] else v.consumed)
  }

  predicate Enabled(c: Config, v: State, e: Event) {
    && |v.sq| == |v.sqArray| == c.entries > 0
    && match e
       case Begin(s) => PcOf(v, s).Idle?
       case Step(s) => CallsOf(v, s) > 0 && !PcOf(v, s).Idle? && !PcOf(v, s).AddSlot?
       case StepAdd(s, _) => CallsOf(v, s) > 0 && PcOf(v, s).AddSlot?
       case LoopStep => !LoopBlocked(v) && !v.loop.LAddSlot?
       case LoopAdd(_) => v.loop.LAddSlot?
       case Consume => v.sqHead != v.sqTail
  }

  function Apply(c: Config, v: State, e: Event): State
    requires Enabled(c, v, e)
  {
    match e
    case Begin(s) => Goto(v, s, IntentLoad).(calls := v.calls[s := CallsOf(v, s) + 1])
    case Step(s) => StepSubmitter(c, v, s)
    case StepAdd(s, slot) => Goto(v, s, WriteEntry(slot))
    case LoopStep => StepLoop(c, v)
    case LoopAdd(slot) =>
      var LAddSlot(task, snap, m) := v.loop;
      v.(loop := LWriteEntry(task, snap, m, slot))
    case Consume => StepKernel(c, v)
  }

  /**
   The two counters wide enough to be treated as never lapped: an epoch increment does not
   wrap bit 62, and fewer than 2^32 - 2 pushes separate a goroutine's load of SQTail from its
   CAS on the ticket.
   */
  predicate NoLap(v: State, e: Event) {
    e.Step? ==>
      match PcOf(v, e.who)
      case IntentCas(b) => Epoch(b) + 1 < FALLBACK_BIT
      case CasTicket(_, seen) => |v.pushed| + 2 < seen + W32
      case _ => true
  }

  /** From `v`, the events `es` can be taken one after the other and end in `v'`. */
  ghost predicate Leads(c: Config, v: State, es: seq<Event>, v': State)
    decreases |es|
  {
    if es == [] then v' == v
    else Enabled(c, v, es[0]) && NoLap(v, es[0]) && Leads(c, Apply(c, v, es[0]), es[1..], v')
  }

  ghost predicate Reachable(c: Config, v: State) {
    exists v0: State, es: seq<Event> :: Init(c, v0) && Leads(c, v0, es, v)
  }
}
