/**
 When a wait for a descriptor's previous send can end.  Each SEND asks for the bytes still to go
 modulo 2^32, so with fewer than 2^32 bytes the kernel can take them all and the wait ends well;
 with more it never does, for the last 2^32 are never asked for.
 */
module SendWaits {
  import opened Arith
  import opened Options
  import opened SendAccounting

  /** No new call, and nothing queued but continuations. */
  predicate Waits(es: seq<Event>) {
    forall i :: 0 <= i < |es| ==> !es[i].ECall? && !es[i].ELaunch?
  }

  function Rest(v: State): int {
    v.h.size - Total(v.h.transfers)
  }

  // ---------------------------------------------------------------- too long

  ghost predicate Long(v: State) {
    v.h.size >= W32 ==> Rest(v) >= W32
  }

  lemma StepLong(v: State, e: Event)
    requires Inv(v) && Long(v) && Enabled(v, e)
    ensures Long(Apply(v, e))
  {
    if e.EComplete? && e.res >= 0 {
      TotalAdd(v.h.transfers, Transfer(v.flight[0].from, e.res));
      Asked(v);
    }
    hide Inv;
    NoneYet(0);
  }

  lemma Asked(v: State)
    requires Inv(v) && v.flight != []
    ensures Rest(v) > 0 && v.flight[0].len == Rest(v) % W32
  {
    hide Placed, Total, Base, StartOf;
  }

  lemma {:induction false} RunLong(v: State, es: seq<Event>, w: State)
    requires Inv(v) && Long(v) && Leads(v, es, w)
    ensures Long(w)
    decreases |es|
  {
    hide Inv, Long, Enabled, Apply;
    if es != [] {
      StepLong(v, es[0]);
      StepInv(v, es[0]);
      RunLong(Apply(v, es[0]), es[1..], w);
    }
  }

  lemma ReachableLong(v: State)
    requires Reachable(v)
    ensures Long(v)
  {
    hide Inv, Leads;
    var v0, es :| Init(v0) && Leads(v0, es, v);
    StartsInv(v0);
    RunLong(v0, es, v);
  }

  /** No wait ends well after a Send of 2^32 bytes or more. */
  lemma NeverEndsWell(v: State)
    requires Reachable(v) && Settled(v)
    ensures v.h.size < W32
  {
    NilMeansAllAccepted(v);
    ReachableLong(v);
  }

  // ---------------------------------------------------------------- short enough

  /** A call is in its wait, for fewer than 2^32 bytes or after a failure. */
  ghost predicate InWait(v: State) {
    Inv(v) && HasCall(v.pc) && (v.h.size < W32 || v.h.fault.Some?)
  }

  /** The step to take next: the poller's, else a kernel that takes all it is offered, else the sender's. */
  function NextEvent(v: State): Event {
    if !v.poller.PIdle? then EAccount
    else if v.flight != [] then EComplete(v.flight[0].len)
    else if v.pc.Building? || v.pc.Shrinking? || v.pc.Clearing? || v.pc.Pushing? then EContinue
    else EWait
  }

  function Phase(v: State): nat {
    if !v.poller.PIdle? then 2 else if v.flight == [] then 1 else 0
  }

  function Place(v: State): nat {
    match v.poller
    case PGot(_) => 3
    case PAdding(_, _) => 2
    case PDone => 1
    case PIdle =>
      match v.pc
      case Waiting(_) => 8
      case Loaded(_, finished) => if v.cell.err.Some? || finished == v.cell.queued then 6 else 9
      case Spinning(_) => 7
      case Checking(_) => 5
      case Building(_) => 4
      case Shrinking(_, _) => 3
      case Clearing(_, _) => 2
      case Pushing(_, _) => 1
      case _ => 0
  }

  predicate Nearer(v: State, w: State) {
    || Rest(w) < Rest(v)
    || (Rest(w) == Rest(v) && Phase(w) < Phase(v))
    || (Rest(w) == Rest(v) && Phase(w) == Phase(v) && Place(w) < Place(v))
  }

  /** How the wait ends: with the kernel's error if it gave one, else well. */
  predicate Ended(call: Call, fault: Option<int>, w: State) {
    if fault.Some? then w.pc.Out? && w.h.answer == Failed(-fault.value)
    else if call.Flush? then w.pc.Out? && w.h.answer == Nil
    else w.pc == Arming(call.n)
  }

  lemma WaitStep(v: State)
    requires InWait(v)
    ensures var e := NextEvent(v);
            && Enabled(v, e) && !e.ECall? && !e.ELaunch?
            && var w := Apply(v, e);
               && w.h.fault == v.h.fault && Rest(w) >= 0
               && (Ended(v.pc.call, v.h.fault, w) || (InWait(w) && w.pc.call == v.pc.call && Nearer(v, w)))
  {
    var e := NextEvent(v);
    RestLeft(v);
    if !v.poller.PIdle? {
      PollerStep(v);
    } else if v.flight != [] {
      NoneAfterFailure(v);
      KernelStep(v);
    } else {
      SenderStep(v);
    }
    StepInv(v, e);
    RestLeft(Apply(v, e));
  }

  lemma NoneAfterFailure(v: State)
    requires Inv(v) && v.flight != []
    ensures v.h.fault.None?
  {
    hide Places, Bytes;
  }

  lemma RestLeft(v: State)
    requires Inv(v)
    ensures Rest(v) >= 0
  {
    hide Placed, Total, Base, StartOf;
  }

  lemma PollerStep(v: State)
    requires Inv(v) && HasCall(v.pc) && !v.poller.PIdle?
    ensures Enabled(v, EAccount)
    ensures var w := Account(v);
            w.h == v.h && w.pc == v.pc && Nearer(v, w)
  {
    hide Places, Total;
  }

  lemma KernelStep(v: State)
    requires Inv(v) && v.flight != [] && v.poller.PIdle? && v.h.size < W32
    ensures var e := EComplete(v.flight[0].len);
            && Enabled(v, e)
            && var w := Apply(v, e);
               w.h.fault == v.h.fault && w.h.size == v.h.size && w.pc == v.pc && Rest(w) < Rest(v)
  {
    Asked(v);
    TotalAdd(v.h.transfers, Transfer(v.flight[0].from, v.flight[0].len));
    RestLeft(v);
    hide Inv, Total;
  }

  lemma SenderStep(v: State)
    requires Inv(v) && HasCall(v.pc) && v.flight == [] && v.poller.PIdle?
    ensures var e := NextEvent(v);
            && Enabled(v, e)
            && var w := Apply(v, e);
               && w.h.fault == v.h.fault && w.h.size == v.h.size && w.h.transfers == v.h.transfers
               && (Ended(v.pc.call, v.h.fault, w) || (HasCall(w.pc) && w.pc.call == v.pc.call && Nearer(v, w)))
  {
    hide Places, Total;
  }

  lemma LeadsFrom(v: State, e: Event, es: seq<Event>, w: State)
    requires Enabled(v, e) && !e.ECall? && !e.ELaunch? && Waits(es) && Leads(Apply(v, e), es, w)
    ensures Leads(v, [e] + es, w) && Waits([e] + es)
  {
    hide Enabled, Apply;
    assert ([e] + es)[1..] == es;
  }

  lemma NoSteps(v: State)
    ensures Leads(v, [], v) && Waits([])
  {
  }

  /** The run that ends the wait. */
  lemma {:induction false} Ends(v: State, call: Call) returns (es: seq<Event>, w: State)
    requires InWait(v) && v.pc.call == call
    ensures Leads(v, es, w) && Waits(es) && Ended(call, v.h.fault, w)
    decreases Rest(v), Phase(v), Place(v)
  {
    WaitStep(v);
    RestLeft(v);
    var e := NextEvent(v);
    var u := Apply(v, e);
    hide Apply, Enabled, Leads, Waits, NextEvent, Phase, Place, Rest;
    if Ended(call, v.h.fault, u) {
      NoSteps(u);
      es, w := [], u;
    } else {
      es, w := Ends(u, call);
    }
    LeadsFrom(v, e, es, w);
    es := [e] + es;
  }

  // ---------------------------------------------------------------- exactly when

  lemma {:induction false} SizeStays(v: State, es: seq<Event>, w: State)
    requires Leads(v, es, w) && Waits(es)
    ensures w.h.size == v.h.size
    decreases |es|
  {
    if es != [] { SizeStays(Apply(v, es[0]), es[1..], w); }
  }

  lemma {:induction false} LeadsJoin(u: State, es: seq<Event>, v: State, fs: seq<Event>, w: State)
    requires Leads(u, es, v) && Leads(v, fs, w)
    ensures Leads(u, es + fs, w)
    decreases |es|
  {
    hide Apply, Enabled;
    if es == [] {
      assert es + fs == fs;
    } else {
      LeadsJoin(Apply(u, es[0]), es[1..], v, fs, w);
      assert (es + fs)[1..] == es[1..] + fs;
    }
  }

  lemma GoesOn(v: State, es: seq<Event>, w: State)
    requires Reachable(v) && Leads(v, es, w)
    ensures Reachable(w)
  {
    hide Leads;
    var v0, fs :| Init(v0) && Leads(v0, fs, v);
    LeadsJoin(v0, fs, v, es, w);
  }

  /** The wait can end well. */
  ghost predicate CanEndWell(v: State) {
    exists es: seq<Event>, w: State :: Leads(v, es, w) && Waits(es) && Settled(w)
  }

  lemma {:induction false} FailureStays(v: State, es: seq<Event>, w: State)
    requires Reachable(v) && Leads(v, es, w) && v.h.fault.Some?
    ensures w.h.fault.Some?
    decreases |es|
  {
    hide Reachable, Enabled, Apply;
    if es != [] {
      FailureSticks(v, es[0]);
      OneMore(v, es[0]);
      FailureStays(Apply(v, es[0]), es[1..], w);
    }
  }

  /** A wait can end well if and only if no SEND has failed and the data is shorter than 2^32 bytes. */
  lemma WaitEndsWhen(v: State)
    requires Reachable(v) && HasCall(v.pc)
    ensures CanEndWell(v) <==> v.h.fault.None? && v.h.size < W32
  {
    ReachableInv(v);
    hide Reachable, Inv, Leads, Waits;
    if v.h.fault.None? && v.h.size < W32 {
      var es, w := Ends(v, v.pc.call);
      assert Settled(w);
    } else {
      forall es: seq<Event>, w: State | Leads(v, es, w) && Waits(es) ensures !Settled(w) {
        SizeStays(v, es, w);
        GoesOn(v, es, w);
        if v.h.fault.Some? { FailureStays(v, es, w); }
        if Settled(w) {
          NeverEndsWell(w);
          NilMeansAllAccepted(w);
        }
      }
    }
  }

  /** FlushFDSends after a Send of 2^32 bytes or more: nothing has failed, and it cannot end well. */
  lemma LongSendHangs(n: nat) returns (v: State)
    requires W32 <= n < W64
    ensures Reachable(v) && v.pc == Waiting(Flush) && v.h.size == n && v.h.fault.None? && !CanEndWell(v)
  {
    var v0 := State(Out, SendCell(0, 0, None, 0, 0, 0), [], PIdle, History(0, 0, [], None, Pending));
    assert Init(v0) && Leads(v0, [], v0);
    OneMore(v0, ECall(Send(n)));
    var v1 := Apply(v0, ECall(Send(n)));
    OneMore(v1, EWait);
    var v2 := Apply(v1, EWait);
    OneMore(v2, ELaunch);
    var v3 := Apply(v2, ELaunch);
    OneMore(v3, ELaunch);
    var v4 := Apply(v3, ELaunch);
    OneMore(v4, ECall(Flush));
    v := Apply(v4, ECall(Flush));
    hide Reachable, CanEndWell;
    WaitEndsWhen(v);
  }

  /** Where a SEND has failed, a wait ends with the kernel's error. */
  lemma FailureComesOut(v: State) returns (es: seq<Event>, w: State)
    requires Reachable(v) && HasCall(v.pc) && v.h.fault.Some?
    ensures Leads(v, es, w) && Waits(es) && w.pc.Out? && w.h.answer == Failed(-v.h.fault.value)
  {
    ReachableInv(v);
    es, w := Ends(v, v.pc.call);
  }
}
