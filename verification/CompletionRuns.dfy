/**
 The completion path's runs read from their steps alone: how often the kernel answered an
 operation and with what, and how often its worker was brought back.
 */
module CompletionRuns {
  import opened Completion
  import opened CompletionInvariant
  import opened CompletionSteps
  import opened CompletionTheorems

  // ---------------------------------------------------------------- answers

  /** What the kernel answers to the operation in a run, in order. */
  ghost function Answers(v: State, es: seq<Event>, op: nat): seq<Result>
    decreases |es|
  {
    if es == [] || !Enabled(v, es[0]) then []
    else
      (if es[0].EAnswer? && v.q.sqes[es[0].slot] == op then [Result(es[0].res, es[0].flags)] else []) +
      Answers(Apply(v, es[0]), es[1..], op)
  }

  lemma StepSaid(v: State, e: Event, op: nat)
    requires Inv(v) && Enabled(v, e)
    ensures var w, asked := Apply(v, e), e.EAnswer? && v.q.sqes[e.slot] == op;
            && (op in v.h.said ==> !asked && op in w.h.said && w.h.said[op] == v.h.said[op])
            && (op !in v.h.said ==> (op in w.h.said <==> asked))
            && (asked ==> w.h.said[op] == Result(e.res, e.flags))
  {
    hide OpInv, CqInv, CellInv, PollerInv, WorkersInv, Apply;
    HistoryWritten(v, e);
    if e.EAnswer? {
      NothingUnknown(v);
      OpAt(v, v.q.sqes[e.slot]);
      KernelUnsaid(v, v.q.sqes[e.slot]);
    }
  }

  lemma {:induction false} RunSaid(v: State, es: seq<Event>, w: State, op: nat)
    requires Inv(v) && Leads(v, es, w)
    ensures op in v.h.said ==> Answers(v, es, op) == [] && op in w.h.said && w.h.said[op] == v.h.said[op]
    ensures op !in v.h.said ==> Answers(v, es, op) == if op in w.h.said then [w.h.said[op]] else []
    decreases |es|
  {
    hide Inv, Apply, Enabled;
    if es != [] {
      StepSaid(v, es[0], op);
      EventKeepsInv(v, es[0]);
      RunSaid(Apply(v, es[0]), es[1..], w, op);
    }
  }

  /** Whoever has read both halves of its result has read the kernel's one answer to its operation. */
  lemma ReadsTheAnswer(v0: State, es: seq<Event>, v: State, g: nat)
    requires Init(v0) && Leads(v0, es, v) && PcOf(v, g).HasBoth?
    ensures Answers(v0, es, PcOf(v, g).op) == [Result(PcOf(v, g).res, PcOf(v, g).flags)]
  {
    InitInv(v0);
    RunKeepsInv(v0, es, v);
    RunSaid(v0, es, v, PcOf(v, g).op);
    hide Leads, CqInv, SlotInv, CellInv, PollerInv, KeysInv;
    WorkerFacts(v, g);
    BothRead(v, g);
  }

  lemma BothRead(v: State, g: nat)
    requires PcOf(v, g).HasBoth? && WorkerInv(v, g) && OpInv(v, PcOf(v, g).op)
    ensures var p := PcOf(v, g); p.op in v.h.said && v.h.said[p.op] == Result(p.res, p.flags)
  {
  }

  // ---------------------------------------------------------------- resumptions

  /** A step brings the worker of the operation back. */
  ghost predicate Brings(v: State, w: State, op: nat) {
    exists g: nat :: !AfterResume(PcOf(v, g)) && PcOf(w, g).Resumed? && PcOf(w, g).op == op
  }

  /** How often a run brings it back. */
  ghost function Resumptions(v: State, es: seq<Event>, op: nat): nat
    decreases |es|
  {
    if es == [] || !Enabled(v, es[0]) then 0
    else (if Brings(v, Apply(v, es[0]), op) then 1 else 0) + Resumptions(Apply(v, es[0]), es[1..], op)
  }

  lemma StepResumes(v: State, e: Event, op: nat)
    requires Enabled(v, e)
    ensures ResumesOf(Apply(v, e), op) == ResumesOf(v, op) + if Brings(v, Apply(v, e), op) then 1 else 0
  {
    var w := Apply(v, e);
    if e.ESwap? {
      SwapResumes(v, e.g, op);
    } else if e.EGoReady? {
      GoReadyResumes(v, op);
    } else {
      NobodyElse(v, e, op);
    }
  }

  lemma SwapResumes(v: State, g: nat, op: nat)
    requires Enabled(v, ESwap(g))
    ensures ResumesOf(Swap(v, g), op) == ResumesOf(v, op) + if Brings(v, Swap(v, g), op) then 1 else 0
  {
    var w := Swap(v, g);
    assert PcOf(w, g).Resumed? && PcOf(w, g).op == op ==> Brings(v, w, op);
    forall r: nat | r != g ensures PcOf(w, r) == PcOf(v, r) {
    }
  }

  lemma GoReadyResumes(v: State, op: nat)
    requires Enabled(v, EGoReady)
    ensures ResumesOf(GoReady(v), op) == ResumesOf(v, op) + if Brings(v, GoReady(v), op) then 1 else 0
  {
    var g, w := v.cells[v.poller.cell].g, GoReady(v);
    assert PcOf(w, g).Resumed? && PcOf(v, g).Waiting? && PcOf(w, g).op == op ==> Brings(v, w, op);
    forall r: nat | r != g ensures PcOf(w, r) == PcOf(v, r) {
    }
  }

  lemma NobodyElse(v: State, e: Event, op: nat)
    requires Enabled(v, e) && !e.ESwap? && !e.EGoReady?
    ensures ResumesOf(Apply(v, e), op) == ResumesOf(v, op) && !Brings(v, Apply(v, e), op)
  {
    forall g: nat ensures PcOf(Apply(v, e), g).Resumed? ==> PcOf(Apply(v, e), g) == PcOf(v, g) {
      hide ResumesOf;
    }
  }

  lemma {:induction false} RunResumes(v: State, es: seq<Event>, w: State, op: nat)
    requires Leads(v, es, w)
    ensures ResumesOf(w, op) == ResumesOf(v, op) + Resumptions(v, es, op)
    decreases |es|
  {
    hide Apply, Enabled, Brings, ResumesOf;
    if es != [] {
      StepResumes(v, es[0], op);
      RunResumes(Apply(v, es[0]), es[1..], w, op);
    }
  }

  /** From the start on, a parked operation's worker is brought back once, by the time it returns; a send's never. */
  lemma BroughtBackOnce(v0: State, es: seq<Event>, v: State, op: nat)
    requires Init(v0) && Leads(v0, es, v) && op in v.h.info
    ensures v.h.info[op].kind.Sends? ==> Resumptions(v0, es, op) == 0
    ensures v.h.info[op].kind.Parks? ==>
              Resumptions(v0, es, op) == (if op in v.h.returned || AtResumed(v, op) then 1 else 0)
  {
    RunResumes(v0, es, v, op);
    hide Leads, Resumptions;
    assert Reachable(v);
    ResumedExactlyOnce(v, op);
  }
}
