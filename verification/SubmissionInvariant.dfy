/**
 What every step of the submission protocol keeps: who may move SQTail, the ring contents,
 the order in which tasks are placed, and the epoch ledger.
 */
module SubmissionInvariant {
  import opened Arith
  import opened Submission

  // ---------------------------------------------------------------- control

  /** From winning the ticket to giving it up: the goroutine's exclusive section. */
  predicate Owns(p: Pc) {
    p.LoadHead? || p.RaiseLoad? || p.RaiseCas? || p.AddSlot? || p.WriteEntry? || p.Publish?
  }

  predicate Dispatching(l: LoopPc) {
    l.LAddSlot? || l.LWriteEntry? || l.LPublish?
  }

  predicate Releasing(l: LoopPc) {
    l.LReleaseLoad? || l.LReleaseStore?
  }

  /** How far `ticketTail` is ahead of `SQTail`. */
  function Held(v: State): nat {
    match v.owner
    case Free => 0
    case Direct(_) => 1
    case Fallback => if Dispatching(v.loop) then 2 else 1
  }

  ghost predicate Room(c: Config, v: State) {
    |v.pushed| < |v.consumed| + c.entries
  }

  ghost predicate SubmitterControl(c: Config, v: State, s: nat) {
    var p := PcOf(v, s);
    && (!p.Idle? ==> CallsOf(v, s) > 0)
    && (Owns(p) <==> v.owner == Direct(s))
    && (p.Send? || p.SendHeld? ==> Active(v.barrier))
    && (p.LoadHead? ==> p.tail == v.sqTail)
    && (p.Publish? ==> p.tail == v.sqTail)
    && (p.AddSlot? || p.WriteEntry? || p.Publish? ==> Room(c, v))
    && (p.CasTicket? ==> p.tail == p.seen % W32 && p.seen <= |v.pushed|)
  }

  ghost predicate LoopControl(c: Config, v: State) {
    var l := v.loop;
    && (!l.LIdle? ==> v.owner == Fallback)
    && (Active(v.barrier) <==> v.owner == Fallback && !Releasing(l))
    && (v.chan != [] ==> Active(v.barrier))
    && (l.LLoadHead? ==> l.tail == v.sqTail)
    && (l.LPublish? ==> l.tail == v.sqTail)
    && (l.LReleaseStore? ==> l.tail == v.sqTail)
    && (l.LTakeTicket? || Dispatching(l) ==> Room(c, v))
  }

  ghost predicate Registers(c: Config, v: State) {
    && |v.sq| == |v.sqArray| == c.entries
    && v.barrier < 2 * FALLBACK_BIT
    && v.sqTail == |v.pushed| % W32
    && v.sqHead == |v.consumed| % W32
    && v.ticketTail == (|v.pushed| + Held(v)) % W32
    && |v.consumed| <= |v.pushed| <= |v.consumed| + c.entries
  }

  ghost predicate Control(c: Config, v: State) {
    && Registers(c, v)
    && LoopControl(c, v)
    && forall s: nat :: SubmitterControl(c, v, s)
  }

  // ---------------------------------------------------------------- counting goroutines

  datatype Phase = Outside | Intending | Pending | Uncredited

  function PhaseOf(p: Pc): Phase {
    match p
    case Idle => Outside
    case IntentLoad => Intending
    case IntentCas(_) => Intending
    case Credit => Uncredited
    case _ => Pending
  }

  function In(pc: map<nat, Pc>, ph: Phase): set<nat> {
    set s | s in pc && PhaseOf(pc[s]) == ph
  }

  lemma InUpdate(v: State, s: nat, p: Pc, ph: Phase)
    requires ph != Outside
    ensures In(v.pc[s := p], ph) == if PhaseOf(p) == ph then In(v.pc, ph) + {s} else In(v.pc, ph) - {s}
    ensures s in In(v.pc, ph) <==> PhaseOf(PcOf(v, s)) == ph
  {
  }

  lemma InCount(v: State, s: nat, p: Pc, ph: Phase)
    requires ph != Outside
    ensures |In(v.pc[s := p], ph)| == |In(v.pc, ph)|
              + (if PhaseOf(p) == ph then 1 else 0)
              - (if PhaseOf(PcOf(v, s)) == ph then 1 else 0)
  {
    InUpdate(v, s, p, ph);
  }

  // ---------------------------------------------------------------- ledger

  /** The task the loop has received and not yet published. */
  function Hand(l: LoopPc): seq<Task> {
    match l
    case LLoadBarrier(t) => [t]
    case LLoadFinished(t, _) => [t]
    case LLoadTail(t, _, _) => [t]
    case LLoadHead(t, _, _, _) => [t]
    case LTakeTicket(t, _, _) => [t]
    case LAddSlot(t, _, _) => [t]
    case LWriteEntry(t, _, _, _) => [t]
    case LPublish(t, _, _, _, _) => [t]
    case _ => []
  }

  /** Submissions that have bumped the epoch and are not yet published. */
  ghost function Waiting(v: State): nat {
    |In(v.pc, Pending)| + |v.chan| + |Hand(v.loop)|
  }

  /** Every epoch increment is credited, published but uncredited, waiting, served or lost. */
  ghost predicate Ledger(v: State) {
    Epoch(v.barrier) == v.finished + |In(v.pc, Uncredited)| + Waiting(v) + v.served + v.lost
  }

  ghost predicate Batch(v: State) {
    var l := v.loop;
    && (InBatch(l) ==>
          && FALLBACK_BIT <= l.snap < 2 * FALLBACK_BIT
          && Epoch(l.snap) <= Epoch(v.barrier)
          && Epoch(l.snap) + v.late == v.finished + v.served + (if l.LStore? then 0 else l.m)
          && (!l.LStore? ==> 1 <= l.m < FALLBACK_BIT))
    && (!InBatch(l) ==> v.served == 0 && v.late == 0)
    && (l.LLoadFinished? ==>
          && FALLBACK_BIT <= l.snap < 2 * FALLBACK_BIT
          && Epoch(l.snap) <= Epoch(v.barrier)
          && Epoch(v.barrier) + 1 <= Epoch(l.snap) + Waiting(v))
    && (l.LClear? ==>
          && FALLBACK_BIT <= l.snap < 2 * FALLBACK_BIT
          && Epoch(l.snap) <= v.finished)
    && (v.lost > 0 ==> Active(v.barrier))
  }

  // ---------------------------------------------------------------- ring contents and order

  ghost predicate Stored(c: Config, v: State, e: Sqe)
    requires |v.sq| == |v.sqArray| == c.entries > 0
  {
    var i := |v.pushed| % c.entries;
    v.sqArray[i] == i && v.sq[i] == e
  }

  /** A goroutine about to publish has already written its entry. */
  ghost predicate StoredBy(c: Config, v: State, s: nat)
    requires |v.sq| == |v.sqArray| == c.entries > 0
  {
    PcOf(v, s).Publish? && CallsOf(v, s) > 0 ==> Stored(c, v, Sqe(Current(v, s), PcOf(v, s).slot))
  }

  ghost predicate Ring(c: Config, v: State) {
    && |v.sq| == |v.sqArray| == c.entries > 0
    && |v.consumed| <= |v.pushed|
    && v.consumed == v.pushed[..|v.consumed|]
    && (forall i :: |v.consumed| <= i < |v.pushed| ==>
          v.sqArray[i % c.entries] == i % c.entries && v.sq[i % c.entries] == v.pushed[i])
    && (forall s: nat :: StoredBy(c, v, s))
    && (v.loop.LPublish? ==> Stored(c, v, Sqe(v.loop.task, v.loop.slot)))
  }

  function Tasks(q: seq<Sqe>): (r: seq<Task>)
    ensures |r| == |q|
  {
    seq(|q|, i requires 0 <= i < |q| => q[i].task)
  }

  /** The calls of goroutine `s` among the tasks `q`, in order. */
  function Of(q: seq<Task>, s: nat): seq<Task> {
    if q == [] then []
    else Of(q[..|q| - 1], s) + if q[|q| - 1].issuer == s then [q[|q| - 1]] else []
  }

  function FirstCalls(s: nat, n: nat): (r: seq<Task>)
    ensures |r| == n
  {
    seq(n, i requires 0 <= i < n => Task(s, i))
  }

  /** Calls of submit by `s` whose task has been published or handed to the channel. */
  function CallsPlaced(v: State, s: nat): int {
    CallsOf(v, s) as int - if PhaseOf(PcOf(v, s)).Intending? || PhaseOf(PcOf(v, s)).Pending? then 1 else 0
  }

  /** Published, in the loop's hand, in the channel: no task is anywhere else or twice. */
  ghost predicate Queue(v: State) {
    v.placed == Tasks(v.pushed) + Hand(v.loop) + v.chan
  }

  ghost predicate ProgramOrder(v: State, s: nat) {
    CallsPlaced(v, s) >= 0 && Of(v.placed, s) == FirstCalls(s, CallsPlaced(v, s))
  }

  ghost predicate Order(v: State) {
    Queue(v) && forall s: nat :: ProgramOrder(v, s)
  }

  ghost predicate Inv(c: Config, v: State) {
    Control(c, v) && Ledger(v) && Batch(v) && Ring(c, v) && Order(v)
  }
}
