/**
 One descriptor's sends: a single sender, the kernel and the poller, over the descriptor's send
 cell.  Every access to a field that both sides touch is one step.

 A Send first waits for the previous one; a short send is continued by the next wait.  The
 fields of `h` are history: written by the steps, never read by them.
 */
module SendAccounting {
  import opened Arith
  import opened Options

  /** What a caller asked for: FlushFDSends, or Send with so many bytes. */
  datatype Call = Flush | Send(n: nat)

  datatype Task = Task(from: nat, len: nat)

  datatype Pc =
    | Out
    | Waiting(call: Call)                // at the label: is anything queued at all?
    | Spinning(call: Call)               // about to load `finished`
    | Loaded(call: Call, finished: nat)  // about to read `err`, then to compare
    | Checking(call: Call)               // about to compare `sent` with `len`
    | Building(call: Call)               // the continuation's task
    | Shrinking(call: Call, task: Task)  // queued is bumped; `buf` and `len` to move
    | Clearing(call: Call, task: Task)   // `sent` to be reset
    | Pushing(call: Call, task: Task)    // the continuation's submit
    | Arming(n: nat)                     // Send: set the cell
    | PushingNew(task: Task)             // Send: submit

  datatype SendCell = SendCell(
    queued: nat,
    finished: nat,
    err: Option<int>,
    buf: nat,          // distance from the first byte of the data now being sent
    len: nat,
    sent: nat
  )

  datatype PollerPc = PIdle | PGot(res: int) | PAdding(added: nat, was: nat) | PDone

  datatype Transfer = Transfer(from: nat, count: nat)

  datatype Answer = Pending | Nil | Failed(errno: int)

  datatype History = History(
    size: nat,                // length of the data now being sent
    sends: nat,               // SENDs built for it
    transfers: seq<Transfer>, // what the kernel accepted of it, from where
    fault: Option<int>,       // the kernel's negative answer to the SEND that failed
    answer: Answer            // what the last FlushFDSends returned
  )

  datatype State = State(pc: Pc, cell: SendCell, flight: seq<Task>, poller: PollerPc, h: History)

  function Total(ts: seq<Transfer>): nat {
    if ts == [] then 0 else Total(ts[..|ts| - 1]) + ts[|ts| - 1].count
  }

  ghost predicate Init(v: State) {
    v == State(Out, SendCell(0, 0, None, 0, 0, 0), [], PIdle, History(0, 0, [], None, Pending))
  }

  // ---------------------------------------------------------------- the sender

  /** The wait is over: FlushFDSends returns nil, Send goes on to its own data. */
  function Served(v: State, call: Call): State {
    match call
    case Flush => v.(pc := Out, h := v.h.(answer := Nil))
    case Send(n) => v.(pc := Arming(n))
  }

  /** previousSendWait, up to the comparison of `sent` with `len`. */
  function Wait(v: State): State
    requires v.pc.Waiting? || v.pc.Spinning? || v.pc.Loaded? || v.pc.Checking?
  {
    match v.pc
    case Waiting(call) => if v.cell.queued == 0 then Served(v, call) else v.(pc := Spinning(call))
    case Spinning(call) => v.(pc := Loaded(call, v.cell.finished))
    case Loaded(call, finished) =>
      if v.cell.err.Some? then v.(pc := Out, h := v.h.(answer := Failed(v.cell.err.value)))
      else v.(pc := if finished == v.cell.queued then Checking(call) else Spinning(call))
    case Checking(call) => if v.cell.sent == v.cell.len then Served(v, call) else v.(pc := Building(call))
  }

  /** The continuation of a short send. */
  function Continue(v: State): State
    requires v.pc.Building? || v.pc.Shrinking? || v.pc.Clearing? || v.pc.Pushing?
  {
    match v.pc
    case Building(call) =>
      v.(pc := Shrinking(call, Task(v.cell.buf + v.cell.sent, Sub64(v.cell.len, v.cell.sent) % W32)),
         cell := v.cell.(queued := v.cell.queued + 1),
         h := v.h.(sends := v.h.sends + 1))
    case Shrinking(call, task) =>
      v.(pc := Clearing(call, task),
         cell := v.cell.(buf := v.cell.buf + v.cell.len, len := Sub64(v.cell.len, v.cell.sent)))
    case Clearing(call, task) => v.(pc := Pushing(call, task), cell := v.cell.(sent := 0))
    case Pushing(call, task) => v.(pc := Waiting(call), flight := v.flight + [task])
  }

  /** Send's own SEND, after the wait. */
  function Launch(v: State): State
    requires v.pc.Arming? || v.pc.PushingNew?
  {
    match v.pc
    case Arming(n) =>
      v.(pc := PushingNew(Task(0, n % W32)),
         cell := v.cell.(queued := v.cell.queued + 1, buf := 0, len := n, sent := 0),
         h := v.h.(size := n, sends := 1, transfers := []))
    case PushingNew(task) => v.(pc := Out, flight := v.flight + [task])
  }

  // ---------------------------------------------------------------- kernel and poller

  /** The kernel answers a SEND, with a count up to its length or a negative error; the poller takes the CQE. */
  function Complete(v: State, res: int): State
    requires v.flight != [] && v.poller.PIdle?
  {
    v.(flight := v.flight[1..], poller := PGot(res),
       h := if res < 0 then v.h.(fault := Some(res))
            else v.h.(transfers := v.h.transfers + [Transfer(v.flight[0].from, res)]))
  }

  /** sCell.err or sCell.sent += res, then finished.Add(1). */
  function Account(v: State): State
    requires !v.poller.PIdle?
  {
    match v.poller
    case PGot(res) =>
      if res < 0 then v.(poller := PDone, cell := v.cell.(err := Some(-res)))
      else v.(poller := PAdding(res, v.cell.sent))
    case PAdding(res, was) => v.(poller := PDone, cell := v.cell.(sent := was + res))
    case PDone => v.(poller := PIdle, cell := v.cell.(finished := v.cell.finished + 1))
  }

  // ---------------------------------------------------------------- runs

  datatype Event = ECall(call: Call) | EWait | EContinue | ELaunch | EComplete(res: int) | EAccount

  predicate Enabled(v: State, e: Event) {
    match e
    case ECall(call) => v.pc.Out? && (call.Send? ==> call.n < W64)
    case EWait => v.pc.Waiting? || v.pc.Spinning? || v.pc.Loaded? || v.pc.Checking?
    case EContinue => v.pc.Building? || v.pc.Shrinking? || v.pc.Clearing? || v.pc.Pushing?
    case ELaunch => v.pc.Arming? || v.pc.PushingNew?
    case EComplete(res) => v.flight != [] && v.poller.PIdle? && res <= v.flight[0].len
    case EAccount => !v.poller.PIdle?
  }

  /** A call of Send with no data returns at once. */
  function Begin(v: State, call: Call): State {
    if call == Send(0) then v else v.(pc := Waiting(call), h := v.h.(answer := Pending))
  }

  function Apply(v: State, e: Event): State
    requires Enabled(v, e)
  {
    match e
    case ECall(call) => Begin(v, call)
    case EWait => Wait(v)
    case EContinue => Continue(v)
    case ELaunch => Launch(v)
    case EComplete(res) => Complete(v, res)
    case EAccount => Account(v)
  }

  ghost predicate Leads(v: State, es: seq<Event>, v': State)
    decreases |es|
  {
    if es == [] then v' == v
    else Enabled(v, es[0]) && Leads(Apply(v, es[0]), es[1..], v')
  }

  ghost predicate Reachable(v: State) {
    exists v0: State, es: seq<Event> :: Init(v0) && Leads(v0, es, v)
  }

  // ---------------------------------------------------------------- the invariant

  /** The sender has bumped `queued` and not yet handed the task over. */
  predicate Submitting(p: Pc) {
    p.Shrinking? || p.Clearing? || p.Pushing? || p.PushingNew?
  }

  /** The sender reads or writes what the poller writes. */
  predicate Owns(p: Pc) {
    p.Checking? || p.Building? || p.Arming? || Submitting(p)
  }

  function Busy(v: State): nat {
    |v.flight| + (if v.poller.PIdle? then 0 else 1)
  }

  /** At most one SEND between queueing and accounting, and only while the sender keeps away from the cell. */
  ghost predicate Turns(v: State) {
    && v.cell.queued == v.cell.finished + Busy(v) + (if Submitting(v.pc) then 1 else 0)
    && Busy(v) <= 1
    && (Owns(v.pc) ==> Busy(v) == 0 && v.cell.err.None?)
    && (v.pc.Loaded? ==> v.pc.finished <= v.cell.finished)
    && (v.h.sends == 0 <==> v.cell.queued == 0)
  }

  /** A failed SEND is on its way to `err`, or there for good. */
  ghost predicate Errors(v: State) {
    && (v.h.fault.Some? <==> v.cell.err.Some? || (v.poller.PGot? && v.poller.res < 0))
    && (v.cell.err.Some? ==> v.cell.err.value > 0 && v.h.fault == Some(-v.cell.err.value))
    && (v.poller.PGot? && v.poller.res < 0 ==> v.h.fault == Some(v.poller.res))
    && (v.h.answer.Failed? ==> v.cell.err == Some(v.h.answer.errno))
    && (v.h.answer.Nil? ==> v.pc.Out? && Busy(v) == 0 && v.h.fault.None? && v.cell.sent == v.cell.len)
    && (v.pc.Arming? ==> v.cell.sent == v.cell.len)
    && (v.h.fault.Some? ==> v.flight == [])
    && (v.cell.queued == 0 ==> v.h.fault.None? && v.cell.sent == v.cell.len)
  }

  /** Accepted by the kernel and not yet added to `sent`. */
  function Uncredited(v: State): nat {
    match v.poller
    case PGot(res) => if res < 0 then 0 else res
    case PAdding(res, _) => res
    case _ => 0
  }

  ghost predicate Bytes(v: State) {
    && v.cell.len <= v.h.size < W64
    && (if v.pc.Clearing? then Total(v.h.transfers) == v.h.size - v.cell.len
        else v.cell.sent + Uncredited(v) <= v.cell.len &&
             Total(v.h.transfers) == v.h.size - v.cell.len + v.cell.sent + Uncredited(v))
    && (v.flight != [] || v.poller.PGot? || v.pc.Pushing? || v.pc.PushingNew? ==> v.cell.sent == 0)
    && (v.poller.PAdding? ==> v.cell.sent == 0 && v.poller.was == 0)
    && (v.flight != [] ==> v.flight[0].len <= v.cell.len)
    && (v.pc.Pushing? || v.pc.PushingNew? || v.pc.Clearing? ==> v.pc.task.len <= v.cell.len)
    && (v.pc.Shrinking? ==> v.pc.task.len <= v.cell.len - v.cell.sent)
    && (v.pc.Building? || v.pc.Shrinking? ==> v.cell.sent < v.cell.len)
    && (v.pc.Arming? ==> 0 < v.pc.n < W64)
    && (HasCall(v.pc) && v.pc.call.Send? ==> 0 < v.pc.call.n < W64)
  }

  predicate HasCall(p: Pc) {
    !p.Out? && !p.Arming? && !p.PushingNew?
  }

  lemma InitInv(v: State)
    requires Init(v)
    ensures Turns(v) && Errors(v) && Bytes(v)
  {
  }

  lemma StepTurns(v: State, e: Event)
    requires Turns(v) && Errors(v) && Enabled(v, e)
    ensures Turns(Apply(v, e)) && Errors(Apply(v, e))
  {
  }

  lemma TotalAdd(ts: seq<Transfer>, t: Transfer)
    ensures Total(ts + [t]) == Total(ts) + t.count
  {
    assert (ts + [t])[..|ts|] == ts;
  }

  lemma StepBytes(v: State, e: Event)
    requires Turns(v) && Errors(v) && Bytes(v) && Enabled(v, e)
    ensures Bytes(Apply(v, e))
  {
    hide Apply, Turns, Errors, Bytes;
    if e.EComplete? || e.EAccount? {
      FarSideKeepsBytes(v, e);
    } else if e.EContinue? {
      ContinueKeepsBytes(v, e);
    } else {
      SenderKeepsBytes(v, e);
    }
  }

  lemma ContinueKeepsBytes(v: State, e: Event)
    requires Turns(v) && Bytes(v) && Enabled(v, e) && e.EContinue?
    ensures Bytes(Apply(v, e))
  {
    hide Total;
  }

  lemma FarSideKeepsBytes(v: State, e: Event)
    requires Turns(v) && Errors(v) && Bytes(v) && Enabled(v, e) && (e.EComplete? || e.EAccount?)
    ensures Bytes(Apply(v, e))
  {
    if e.EComplete? && e.res >= 0 { TotalAdd(v.h.transfers, Transfer(v.flight[0].from, e.res)); }
  }

  lemma SenderKeepsBytes(v: State, e: Event)
    requires Turns(v) && Errors(v) && Bytes(v) && Enabled(v, e) && !e.EComplete? && !e.EAccount?
    requires !e.EContinue?
    ensures Bytes(Apply(v, e))
  {
  }

  // ---------------------------------------------------------------- which bytes

  /** Where `buf` points while the SEND after `ts` is under way: it moves by the old `len` at each continuation. */
  function Base(ts: seq<Transfer>, size: nat): int {
    if ts == [] then 0
    else var before := ts[..|ts| - 1]; Base(before, size) + size - Total(before)
  }

  /** Where the SEND after `ts` starts: behind what the last one sent, counted from the old `buf`. */
  function StartOf(ts: seq<Transfer>, size: nat): int {
    if ts == [] then 0 else Base(ts[..|ts| - 1], size) + ts[|ts| - 1].count
  }

  ghost predicate Placed(ts: seq<Transfer>, size: nat) {
    forall k :: 0 <= k < |ts| ==> ts[k].from == StartOf(ts[..k], size)
  }

  /** A SEND has been built and not yet answered. */
  predicate Flying(v: State) {
    v.flight != [] || Submitting(v.pc)
  }

  function FlyingTask(v: State): Task
    requires Flying(v)
  {
    if v.flight != [] then v.flight[0] else v.pc.task
  }

  /** How many transfers came before the SEND that `buf` and `len` belong to. */
  function Before(v: State): int {
    v.h.sends - (if v.pc.Shrinking? then 2 else 1)
  }

  ghost predicate Places(v: State) {
    var n, ts, size := v.h.sends, v.h.transfers, v.h.size;
    && Placed(ts, size)
    && |ts| + (if Flying(v) then 1 else 0) + (if v.h.fault.Some? then 1 else 0) == n
    && (v.pc.Shrinking? ==> n >= 2)
    && (n == 0 ==> v.cell.buf == 0 && size == 0)
    && (n > 0 ==> 0 <= Before(v) <= |ts| && v.cell.buf == Base(ts[..Before(v)], size)
                  && v.cell.len == size - Total(ts[..Before(v)]))
    && (Flying(v) ==> Total(ts) < size
                      && FlyingTask(v).from == StartOf(ts, size) && FlyingTask(v).len == (size - Total(ts)) % W32)
    && (forall k :: 0 <= k < |ts| ==> Total(ts[..k]) < size)
  }

  lemma PlacedAdd(ts: seq<Transfer>, t: Transfer, size: nat)
    requires Placed(ts, size) && t.from == StartOf(ts, size)
    ensures Placed(ts + [t], size)
  {
    var all := ts + [t];
    forall k | 0 <= k < |all| ensures all[k].from == StartOf(all[..k], size) {
      assert all[..k] == ts[..k];
      if k == |ts| { assert ts[..k] == ts; }
    }
  }

  lemma Prefixes(ts: seq<Transfer>, t: Transfer)
    ensures forall k :: 0 <= k <= |ts| ==> (ts + [t])[..k] == ts[..k]
    ensures ts[..|ts|] == ts
  {
  }

  lemma StepPlaces(v: State, e: Event)
    requires Turns(v) && Errors(v) && Bytes(v) && Places(v) && Enabled(v, e)
    ensures Places(Apply(v, e))
  {
    hide Turns, Errors, Bytes, Places;
    match e
    case EComplete(res) => CompletePlaces(v, res);
    case ELaunch => LaunchPlaces(v);
    case EContinue => ContinuePlaces(v);
    case _ => OtherPlaces(v, e);
  }

  lemma CompletePlaces(v: State, res: int)
    requires Turns(v) && Errors(v) && Bytes(v) && Places(v) && Enabled(v, EComplete(res))
    ensures Places(Complete(v, res))
  {
    hide Placed, Total, Base, StartOf;
    if res >= 0 {
      PlacedAdd(v.h.transfers, Transfer(v.flight[0].from, res), v.h.size);
      Prefixes(v.h.transfers, Transfer(v.flight[0].from, res));
    }
  }

  lemma LaunchPlaces(v: State)
    requires Turns(v) && Errors(v) && Bytes(v) && Places(v) && Enabled(v, ELaunch)
    ensures Places(Launch(v))
  {
    hide Placed, Total, Base, StartOf;
    if v.pc.Arming? {
      NoneYet(v.pc.n);
      hide Turns, Errors, Bytes;
      FirstSend(v);
    }
  }

  lemma FirstSend(v: State)
    requires Turns(v) && Bytes(v) && v.pc.Arming?
    ensures v.flight == [] && 0 < v.pc.n < W64
  {
    hide Total;
  }

  lemma ContinuePlaces(v: State)
    requires Turns(v) && Errors(v) && Bytes(v) && Places(v) && Enabled(v, EContinue)
    ensures Places(Continue(v))
  {
    ChainOnce(v.h.transfers, v.h.size);
    hide Placed, Total, Base, StartOf;
  }

  lemma ChainOnce(ts: seq<Transfer>, size: nat)
    ensures ts[..|ts|] == ts
    ensures ts != [] ==>
              var before, count := ts[..|ts| - 1], ts[|ts| - 1].count;
              && StartOf(ts, size) == Base(before, size) + count
              && Base(ts, size) == Base(before, size) + size - Total(before)
              && Total(ts) == Total(before) + count
  {
  }

  lemma OtherPlaces(v: State, e: Event)
    requires Turns(v) && Errors(v) && Bytes(v) && Places(v) && Enabled(v, e) && (e.ECall? || e.EWait? || e.EAccount?)
    ensures Places(Apply(v, e))
  {
    hide Placed, Total, Base, StartOf;
  }

  lemma NoneYet(size: nat)
    ensures Placed([], size) && Total([]) == 0 && Base([], size) == 0 && StartOf([], size) == 0
  {
  }

  // ---------------------------------------------------------------- results over all runs

  ghost predicate Inv(v: State) {
    Turns(v) && Errors(v) && Bytes(v) && Places(v)
  }

  lemma StepInv(v: State, e: Event)
    requires Inv(v) && Enabled(v, e)
    ensures Inv(Apply(v, e))
  {
    hide Turns, Errors, Bytes, Places, Enabled, Apply;
    StepTurns(v, e);
    StepBytes(v, e);
    StepPlaces(v, e);
  }

  lemma {:induction false} RunKeepsInv(v: State, es: seq<Event>, v': State)
    requires Inv(v) && Leads(v, es, v')
    ensures Inv(v')
    decreases |es|
  {
    hide Inv, Enabled, Apply;
    if es != [] {
      StepInv(v, es[0]);
      RunKeepsInv(Apply(v, es[0]), es[1..], v');
    }
  }

  lemma StartsInv(v: State)
    requires Init(v)
    ensures Inv(v)
  {
    InitInv(v);
    NoneYet(0);
    hide Turns, Errors, Bytes, Placed, Total, Base, StartOf;
  }

  lemma ReachableInv(v: State)
    requires Reachable(v)
    ensures Inv(v)
  {
    hide Inv, Leads;
    var v0, es :| Init(v0) && Leads(v0, es, v);
    StartsInv(v0);
    RunKeepsInv(v0, es, v);
  }

  /** At most one SEND between queueing and accounting. */
  lemma OneInFlight(v: State)
    requires Reachable(v)
    ensures v.cell.finished <= v.cell.queued <= v.cell.finished + 1
    ensures |v.flight| <= 1 && (v.flight != [] ==> v.poller.PIdle?)
  {
    ReachableInv(v);
  }

  /**
   Sender and poller take turns: while the sender compares, continues or starts a send, the
   poller is idle and has nothing coming.  Only `err` is read while the poller may be at work,
   and then the sender goes round again.
   */
  lemma WritersApart(v: State)
    requires Reachable(v)
    ensures Owns(v.pc) ==> v.poller.PIdle? && v.flight == []
    ensures !v.poller.PIdle? ==> !Owns(v.pc) && (v.pc.Loaded? ==> v.pc.finished != v.cell.queued)
  {
    ReachableInv(v);
  }

  /** The continuation's subtractions never wrap. */
  lemma NeverSentMoreThanLen(v: State)
    requires Reachable(v) && (v.pc.Building? || v.pc.Shrinking?)
    ensures v.cell.sent < v.cell.len < W64 && Sub64(v.cell.len, v.cell.sent) == v.cell.len - v.cell.sent
  {
    ReachableInv(v);
  }

  /** A wait has ended well: FlushFDSends has returned nil, or Send goes on to its own data. */
  predicate Settled(v: State) {
    v.h.answer.Nil? || v.pc.Arming?
  }

  /**
   When a wait ends well, the kernel has accepted as many bytes as the previous Send was given,
   and no SEND failed.
   */
  lemma NilMeansAllAccepted(v: State)
    requires Reachable(v) && Settled(v)
    ensures Total(v.h.transfers) == v.h.size && v.h.fault.None?
  {
    ReachableInv(v);
  }

  /** A failed SEND is never taken for a success: from then on no wait returns nil. */
  lemma FailureSticks(v: State, e: Event)
    requires Reachable(v) && Enabled(v, e)
    ensures v.h.fault.Some? ==>
              Apply(v, e).h.fault == v.h.fault && !Apply(v, e).h.answer.Nil? && !Apply(v, e).pc.Arming?
  {
    ReachableInv(v);
    hide Places, Bytes;
  }

  /** The recorded failure is an answer the kernel gave in this very run. */
  lemma {:induction false} FaultWasAnswered(v: State, es: seq<Event>, w: State)
    requires Leads(v, es, w) && w.h.fault.Some?
    ensures w.h.fault == v.h.fault || (w.h.fault.value < 0 && EComplete(w.h.fault.value) in es)
    decreases |es|
  {
    if es != [] {
      FaultSet(v, es[0]);
      hide Apply, Enabled;
      FaultWasAnswered(Apply(v, es[0]), es[1..], w);
    }
  }

  lemma FaultSet(v: State, e: Event)
    requires Enabled(v, e)
    ensures Apply(v, e).h.fault == v.h.fault ||
            (e.EComplete? && e.res < 0 && Apply(v, e).h.fault == Some(e.res))
  {
  }

  /** The error that a wait returns is the kernel's own negative answer to a SEND of this descriptor, negated. */
  lemma FailureIsTheKernels(v0: State, es: seq<Event>, v: State)
    requires Init(v0) && Leads(v0, es, v) && v.h.answer.Failed?
    ensures v.h.answer.errno > 0 && EComplete(-v.h.answer.errno) in es
  {
    assert Reachable(v);
    ReachableInv(v);
    hide Leads, Places, Bytes, Turns, Reachable;
    FaultWasAnswered(v0, es, v);
  }

  /** A wait that finds the error set ends at once, with that error. */
  lemma FailureEndsWait(v: State)
    requires Reachable(v) && v.pc.Loaded? && v.cell.err.Some?
    ensures v.h.fault.Some? && v.h.fault.value < 0
    ensures var w := Apply(v, EWait); w.pc.Out? && w.h.answer == Failed(-v.h.fault.value)
  {
    ReachableInv(v);
    hide Reachable, Places, Bytes;
  }

  /** The accepted bytes are the data, front to back. */
  ghost predicate InOrder(ts: seq<Transfer>, size: nat) {
    Total(ts) == size && forall k :: 0 <= k < |ts| && ts[k].count > 0 ==> ts[k].from == Total(ts[..k])
  }

  lemma {:induction false} TotalSplits(ts: seq<Transfer>, k: nat)
    requires k <= |ts| && Total(ts[..k]) < Total(ts)
    ensures exists j :: k <= j < |ts| && ts[j].count > 0 && Total(ts[..j]) < Total(ts)
    decreases |ts|
  {
    assert ts[..|ts|] == ts;
    var short := ts[..|ts| - 1];
    if ts[|ts| - 1].count == 0 {
      assert short[..k] == ts[..k];
      TotalSplits(short, k);
      var j :| k <= j < |short| && short[j].count > 0 && Total(short[..j]) < Total(short);
      assert short[..j] == ts[..j] && short[j] == ts[j];
    }
  }

  /** From the second continuation on `buf` is past the data. */
  lemma {:induction false} BaseFar(us: seq<Transfer>, size: nat)
    requires us != [] && forall k :: 0 <= k < |us| ==> Total(us[..k]) <= size
    ensures Base(us, size) >= size
    decreases |us|
  {
    var before := us[..|us| - 1];
    NoneYet(size);
    if before != [] {
      forall k | 0 <= k < |before| ensures Total(before[..k]) <= size { assert before[..k] == us[..k]; }
      BaseFar(before, size);
    }
  }

  /** The third SEND of a chain and all later ones start past the end of the data. */
  lemma StartsFar(ts: seq<Transfer>, k: nat, size: nat)
    requires 2 <= k < |ts| && forall j :: 0 <= j < |ts| ==> Total(ts[..j]) < size
    ensures StartOf(ts[..k], size) >= size
  {
    var us := ts[..k][..k - 1];
    assert us == ts[..k - 1];
    forall j | 0 <= j < |us| ensures Total(us[..j]) <= size { assert us[..j] == ts[..j]; }
    BaseFar(us, size);
  }

  /** The first two start where the data accepted so far ends. */
  lemma StartsRight(ts: seq<Transfer>, k: nat, size: nat)
    requires k < |ts| && k < 2
    ensures StartOf(ts[..k], size) == Total(ts[..k])
  {
    NoneYet(size);
    if k == 1 { assert ts[..1][..0] == []; }
  }

  /**
   When a wait ends well, the kernel was given the previous data in order exactly if at most one
   SEND fell short, that is, if no continuation had to be continued.
   */
  lemma DataInOrderWhen(v: State)
    requires Reachable(v) && Settled(v)
    ensures InOrder(v.h.transfers, v.h.size) <==> v.h.sends <= 2
  {
    ReachableInv(v);
    NilMeansAllAccepted(v);
    var ts, size := v.h.transfers, v.h.size;
    PlacedTransfers(v);
    hide Reachable, Inv, StartOf;
    if v.h.sends >= 3 {
      assert Total(ts[..2]) < Total(ts);
      TotalSplits(ts, 2);
      var j :| 2 <= j < |ts| && ts[j].count > 0 && Total(ts[..j]) < Total(ts);
      StartsFar(ts, j, size);
    } else {
      forall k | 0 <= k < |ts| ensures ts[k].from == Total(ts[..k]) {
        StartsRight(ts, k, size);
      }
    }
  }

  lemma PlacedTransfers(v: State)
    requires Inv(v) && Settled(v)
    ensures Placed(v.h.transfers, v.h.size) && |v.h.transfers| == v.h.sends
    ensures forall k :: 0 <= k < |v.h.transfers| ==> Total(v.h.transfers[..k]) < v.h.size
  {
    hide Placed, Total;
  }

  // ---------------------------------------------------------------- what the kernel is asked for

  /**
   Every SEND built and not yet answered asks for all bytes still to go, modulo 2^32, from the
   place its predecessors determine; where that many bytes fit 32 bits it is never empty.
   */
  lemma AsksForTheRest(v: State)
    requires Reachable(v) && Flying(v)
    ensures Total(v.h.transfers) < v.h.size
    ensures FlyingTask(v).from == StartOf(v.h.transfers, v.h.size)
    ensures FlyingTask(v).len == (v.h.size - Total(v.h.transfers)) % W32
    ensures v.h.size < W32 ==> FlyingTask(v).len > 0 && FlyingTask(v).len + Total(v.h.transfers) == v.h.size
  {
    ReachableInv(v);
    hide Turns, Errors, Bytes, Placed, Total, Base;
  }

  /** The length that the last Send with data was called with, `n` before any. */
  function LastAsked(n: nat, es: seq<Event>): nat
    decreases |es|
  {
    if es == [] then n
    else LastAsked(if es[0].ECall? && es[0].call.Send? && es[0].call.n > 0 then es[0].call.n else n, es[1..])
  }

  /** A Send on its way carries the length it was called with. */
  ghost predicate Carries(v: State, n: nat) {
    && (HasCall(v.pc) && v.pc.call.Send? ==> v.pc.call.n == n)
    && (v.pc.Arming? ==> v.pc.n == n)
    && (v.pc.PushingNew? ==> v.h.size == n)
    && (v.h.fault.None? && (v.pc.Out? || (HasCall(v.pc) && v.pc.call.Flush?)) ==> v.h.size == n)
  }

  lemma {:induction false} RunCarries(v: State, es: seq<Event>, w: State, n: nat)
    requires Inv(v) && Leads(v, es, w) && Carries(v, n)
    ensures Carries(w, LastAsked(n, es))
    decreases |es|
  {
    if es != [] {
      StepInv(v, es[0]);
      hide Inv;
      var m := if es[0].ECall? && es[0].call.Send? && es[0].call.n > 0 then es[0].call.n else n;
      StepCarries(v, es[0], n, m);
      hide Apply, Enabled, Carries, LastAsked;
      RunCarries(Apply(v, es[0]), es[1..], w, m);
    }
  }

  lemma StepCarries(v: State, e: Event, n: nat, m: nat)
    requires Errors(v) && Enabled(v, e) && Carries(v, n)
    requires m == if e.ECall? && e.call.Send? && e.call.n > 0 then e.call.n else n
    ensures Carries(Apply(v, e), m)
  {
  }

  /** The data a Send queues is as long as it was called with; a Send without data changes nothing. */
  lemma QueuesWhatWasAsked(v0: State, es: seq<Event>, v: State)
    requires Init(v0) && Leads(v0, es, v)
    ensures v.pc.PushingNew? ==> v.h.size == LastAsked(0, es) > 0
    ensures v.pc.Out? ==> Apply(v, ECall(Send(0))) == v
  {
    assert Reachable(v);
    ReachableInv(v);
    StartsInv(v0);
    RunCarries(v0, es, v, 0);
    hide Leads, Reachable, Turns, Errors, Bytes, LastAsked, Placed, Base, StartOf, Total;
  }

  /** The bytes the kernel has accepted since the last Send armed the cell, `n` before the run. */
  function Accepted(v: State, es: seq<Event>, n: nat): nat
    decreases |es|
  {
    if es == [] || !Enabled(v, es[0]) then n
    else
      Accepted(Apply(v, es[0]), es[1..],
               if es[0].ELaunch? && v.pc.Arming? then 0
               else if es[0].EComplete? && es[0].res >= 0 then n + es[0].res
               else n)
  }

  lemma {:induction false} RunAccepts(v: State, es: seq<Event>, w: State)
    requires Leads(v, es, w)
    ensures Total(w.h.transfers) == Accepted(v, es, Total(v.h.transfers))
    decreases |es|
  {
    if es != [] {
      StepAccepts(v, es[0]);
      hide Apply, Enabled, Total;
      RunAccepts(Apply(v, es[0]), es[1..], w);
    }
  }

  lemma StepAccepts(v: State, e: Event)
    requires Enabled(v, e)
    ensures Total(Apply(v, e).h.transfers) ==
            if e.ELaunch? && v.pc.Arming? then 0
            else if e.EComplete? && e.res >= 0 then Total(v.h.transfers) + e.res
            else Total(v.h.transfers)
  {
    if e.EComplete? && e.res >= 0 { TotalAdd(v.h.transfers, Transfer(v.flight[0].from, e.res)); }
    NoneYet(0);
  }

  /** When FlushFDSends returns nil, the kernel's counts since the last Send add up to what Send was given. */
  lemma NilMeansSent(v0: State, es: seq<Event>, v: State)
    requires Init(v0) && Leads(v0, es, v) && v.h.answer.Nil?
    ensures Accepted(v0, es, 0) == LastAsked(0, es)
  {
    assert Reachable(v);
    ReachableInv(v);
    StartsInv(v0);
    NoneYet(0);
    RunCarries(v0, es, v, 0);
    RunAccepts(v0, es, v);
    NilMeansAllAccepted(v);
    hide Leads, Reachable, Turns, Bytes, LastAsked, Accepted, Places, Total;
  }

  // ---------------------------------------------------------------- such a run exists

  lemma {:induction false} LeadsOn(v: State, es: seq<Event>, w: State, e: Event)
    requires Leads(v, es, w) && Enabled(w, e)
    ensures Leads(v, es + [e], Apply(w, e))
    decreases |es|
  {
    hide Apply, Enabled;
    if es == [] {
      assert (es + [e])[1..] == [];
    } else {
      LeadsOn(Apply(v, es[0]), es[1..], w, e);
      assert (es + [e])[1..] == es[1..] + [e];
    }
  }

  lemma OneMore(v: State, e: Event)
    requires Reachable(v) && Enabled(v, e)
    ensures Reachable(Apply(v, e))
  {
    hide Apply, Enabled, Leads;
    var v0, es :| Init(v0) && Leads(v0, es, v);
    LeadsOn(v0, es, v, e);
  }

  /** The kernel accepts `count` bytes of the SEND in flight, and the poller accounts for them. */
  lemma Accepts(v: State, task: Task, count: nat)
    requires Reachable(v) && v.flight == [task] && v.poller.PIdle? && count <= task.len
    ensures Reachable(v.(flight := [],
                         cell := v.cell.(sent := v.cell.sent + count, finished := v.cell.finished + 1),
                         h := v.h.(transfers := v.h.transfers + [Transfer(task.from, count)])))
  {
    OneMore(v, EComplete(count));
    var v1 := Apply(v, EComplete(count));
    OneMore(v1, EAccount);
    var v2 := Apply(v1, EAccount);
    OneMore(v2, EAccount);
    var v3 := Apply(v2, EAccount);
    OneMore(v3, EAccount);
  }

  /** FlushFDSends finds the previous SEND finished and goes to the comparison. */
  lemma Waits(v: State)
    requires Reachable(v) && v.pc == Waiting(Flush)
    requires v.cell.queued > 0 && v.cell.queued == v.cell.finished && v.cell.err.None?
    ensures Reachable(v.(pc := Checking(Flush)))
  {
    OneMore(v, EWait);
    var v1 := Apply(v, EWait);
    OneMore(v1, EWait);
    var v2 := Apply(v1, EWait);
    OneMore(v2, EWait);
  }

  /** A short SEND is continued. */
  lemma Continues(v: State)
    requires Reachable(v) && v.pc == Checking(Flush) && v.flight == [] && v.cell.sent < v.cell.len < W32
    ensures Reachable(v.(pc := Waiting(Flush),
                         flight := [Task(v.cell.buf + v.cell.sent, v.cell.len - v.cell.sent)],
                         cell := v.cell.(queued := v.cell.queued + 1, buf := v.cell.buf + v.cell.len,
                                         len := v.cell.len - v.cell.sent, sent := 0),
                         h := v.h.(sends := v.h.sends + 1)))
  {
    OneMore(v, EWait);
    var v1 := Apply(v, EWait);
    OneMore(v1, EContinue);
    var v2 := Apply(v1, EContinue);
    OneMore(v2, EContinue);
    var v3 := Apply(v2, EContinue);
    OneMore(v3, EContinue);
    var v4 := Apply(v3, EContinue);
    OneMore(v4, EContinue);
    assert v.flight + [v4.pc.task] == [v4.pc.task];
  }

  /** Three bytes, of which the kernel takes one at a time: nil is returned, and the third SEND was past the data. */
  lemma TwiceShortGoesAstray() returns (v: State)
    ensures Reachable(v) && v.h.answer.Nil? && v.h.size == 3 && v.h.sends == 3
    ensures v.h.transfers == [Transfer(0, 1), Transfer(1, 1), Transfer(4, 1)]
  {
    var v0 := State(Out, SendCell(0, 0, None, 0, 0, 0), [], PIdle, History(0, 0, [], None, Pending));
    assert Init(v0) && Leads(v0, [], v0);
    OneMore(v0, ECall(Send(3)));
    var v1 := Apply(v0, ECall(Send(3)));
    OneMore(v1, EWait);
    var v2 := Apply(v1, EWait);
    OneMore(v2, ELaunch);
    var v3 := Apply(v2, ELaunch);
    OneMore(v3, ELaunch);
    hide Reachable;
    Flushes(Apply(v3, ELaunch));
    var cell := SendCell(3, 3, None, 5, 1, 1);
    var h := History(3, 3, [Transfer(0, 1), Transfer(1, 1), Transfer(4, 1)], None, Pending);
    var w := State(Checking(Flush), cell, [], PIdle, h);
    OneMore(w, EWait);
    v := Apply(w, EWait);
  }

  lemma Flushes(v: State)
    requires Reachable(v)
    requires v == State(Out, SendCell(1, 0, None, 0, 3, 0), [Task(0, 3)], PIdle, History(3, 1, [], None, Pending))
    ensures Reachable(State(Checking(Flush), SendCell(3, 3, None, 5, 1, 1), [], PIdle,
                            History(3, 3, [Transfer(0, 1), Transfer(1, 1), Transfer(4, 1)], None, Pending)))
  {
    hide Reachable;
    Accepts(v, Task(0, 3), 1);
    var t1 := [Transfer(0, 1)];
    var a := State(Out, SendCell(1, 1, None, 0, 3, 1), [], PIdle, History(3, 1, t1, None, Pending));
    assert v.h.transfers + [Transfer(0, 1)] == t1;
    OneMore(a, ECall(Flush));
    var b := a.(pc := Waiting(Flush));
    Waits(b);
    Continues(b.(pc := Checking(Flush)));
    var c := State(Waiting(Flush), SendCell(2, 1, None, 3, 2, 0), [Task(1, 2)], PIdle,
                   History(3, 2, t1, None, Pending));
    Accepts(c, Task(1, 2), 1);
    var t2 := t1 + [Transfer(1, 1)];
    var d := State(Waiting(Flush), SendCell(2, 2, None, 3, 2, 1), [], PIdle, History(3, 2, t2, None, Pending));
    Waits(d);
    Continues(d.(pc := Checking(Flush)));
    var e := State(Waiting(Flush), SendCell(3, 2, None, 5, 1, 0), [Task(4, 1)], PIdle,
                   History(3, 3, t2, None, Pending));
    Accepts(e, Task(4, 1), 1);
    var t3 := t2 + [Transfer(4, 1)];
    Waits(State(Waiting(Flush), SendCell(3, 3, None, 5, 1, 1), [], PIdle, History(3, 3, t3, None, Pending)));
    assert t3 == [Transfer(0, 1), Transfer(1, 1), Transfer(4, 1)];
  }
}
