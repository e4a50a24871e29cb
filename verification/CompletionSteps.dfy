/** Every step of the completion path keeps the invariant. */
module CompletionSteps {
  import opened Completion
  import opened CompletionInvariant

  lemma InitInv(v: State)
    requires Init(v)
    ensures Inv(v)
  {
  }

  // ---------------------------------------------------------------- what a step leaves alone

  /** Nothing that the facts about operation `o` speak of differs between `v` and `v'`. */
  ghost predicate SameFor(v: State, v': State, o: nat)
    requires o in v.h.info && o in v.h.stage
  {
    var i, st := v.h.info[o], v.h.stage[o];
    && o in v'.h.info && v'.h.info[o] == i
    && o in v'.h.stage && v'.h.stage[o] == st
    && (AtOp(PcOf(v, i.g), o) || AtOp(PcOf(v', i.g), o) ==> PcOf(v', i.g) == PcOf(v, i.g))
    && (Holds(v, o) ==>
          && i.cell in v.cells && i.cell in v'.cells && v'.cells[i.cell] == v.cells[i.cell]
          && i.cell in v.h.holder && i.cell in v'.h.holder && v'.h.holder[i.cell] == v.h.holder[i.cell]
          && i.cell !in v'.pool)
    && (o in v.q.tasks <==> o in v'.q.tasks) && (o in v.q.tasks ==> v'.q.tasks[o] == v.q.tasks[o])
    && (HasSlot(st) ==> st.slot in v.q.slots && st.slot in v'.q.slots && v'.q.slots[st.slot] == v.q.slots[st.slot])
    && (st.Kernel? ==> st.slot in v.q.sqes && st.slot in v'.q.sqes && v'.q.sqes[st.slot] == v.q.sqes[st.slot])
    && (o in v.h.said <==> o in v'.h.said) && (o in v.h.said ==> v'.h.said[o] == v.h.said[o])
    && (o in v.h.returned <==> o in v'.h.returned)
    && (o in v.h.returned ==> v'.h.returned[o] == v.h.returned[o])
    && ResumesOf(v', o) == ResumesOf(v, o)
    && (st.Polled? || st.Waking? || st.Reclaimed? ==> v'.poller != PIdle && PollerOp(v'.poller) == o)
  }

  lemma OpFrame(v: State, v': State, o: nat)
    requires o in v.h.info && o in v.h.stage && OpInv(v, o) && SameFor(v, v', o)
    ensures OpInv(v', o)
    ensures Holds(v, o) ==> Holds(v', o)
  {
  }

  /** A step of operation `a` that leaves every other operation alone. */
  ghost predicate OnlyFor(v: State, v': State, a: nat)
    requires KeysInv(v)
  {
    && KeysInv(v') && v'.h.info.Keys == v.h.info.Keys + {a}
    && forall o :: o in v.h.info && o != a ==> SameFor(v, v', o)
  }

  lemma OpsFrame(v: State, v': State, a: nat)
    requires KeysInv(v) && OpsInv(v) && OnlyFor(v, v', a) && OpInv(v', a)
    ensures OpsInv(v')
  {
    hide OpInv, SameFor;
    forall o | o in v'.h.info ensures OpInv(v', o) {
      if o != a { OpFrame(v, v', o); }
    }
  }

  lemma CellsFrame(v: State, v': State, a: nat)
    requires KeysInv(v) && OpsInv(v) && CellInv(v) && OnlyFor(v, v', a)
    requires v.cells.Keys <= v'.cells.Keys
    requires forall c :: c in v'.pool ==> c in v'.cells && c !in v'.h.holder
    requires forall c :: c in v'.h.holder ==>
               if v'.h.holder[c] == a then c in v'.cells && v'.h.info[a].cell == c && Holds(v', a)
               else c in v.h.holder && v.h.holder[c] == v'.h.holder[c]
    ensures CellInv(v')
  {
    hide OpInv, SameFor;
    forall c | c in v'.h.holder
      ensures c in v'.cells && v'.h.holder[c] in v'.h.info && v'.h.holder[c] in v'.h.stage &&
              v'.h.info[v'.h.holder[c]].cell == c && Holds(v', v'.h.holder[c])
    {
      var o := v'.h.holder[c];
      if o != a {
        OpFrame(v, v', o);
        SameInfo(v, v', o);
      }
    }
  }

  lemma SameInfo(v: State, v': State, o: nat)
    requires o in v.h.info && o in v.h.stage && SameFor(v, v', o)
    ensures o in v'.h.info && v'.h.info[o] == v.h.info[o]
    ensures o in v'.h.stage && v'.h.stage[o] == v.h.stage[o]
    ensures o in v.h.said ==> o in v'.h.said && v'.h.said[o] == v.h.said[o]
  {
  }

  lemma OnlyAt(v: State, v': State, a: nat, o: nat)
    requires KeysInv(v) && OnlyFor(v, v', a) && o in v.h.info && o != a
    ensures o in v'.h.info && v'.h.info[o] == v.h.info[o]
    ensures o in v'.h.stage && v'.h.stage[o] == v.h.stage[o]
    ensures o in v.h.said ==> o in v'.h.said && v'.h.said[o] == v.h.said[o]
  {
    hide SameFor;
    SameInfo(v, v', o);
  }

  lemma WorkersFrame(v: State, v': State, a: nat, g: nat)
    requires KeysInv(v) && WorkersInv(v) && OnlyFor(v, v', a) && WorkerInv(v', g)
    requires v.cells.Keys <= v'.cells.Keys
    requires forall h: nat :: h != g ==> PcOf(v', h) == PcOf(v, h)
    requires a in v.h.info ==> v'.h.info[a] == v.h.info[a]
    ensures WorkersInv(v')
  {
    hide SameFor;
    forall h: nat ensures WorkerInv(v', h) {
      assert WorkerInv(v, h);
      if h != g && !PcOf(v, h).Idle? {
        var o := PcOf(v, h).op;
        if o != a { SameInfo(v, v', o); }
      }
    }
  }

  lemma PollerFrame(v: State, v': State)
    requires PollerInv(v) && v'.poller == v.poller
    requires v.poller != PIdle ==>
               var o := PollerOp(v.poller);
               && o in v.h.info && o in v.h.stage && o in v.h.said
               && o in v'.h.info && v'.h.info[o] == v.h.info[o] && o in v'.h.stage && v'.h.stage[o] == v.h.stage[o]
               && o in v'.h.said && v'.h.said[o] == v.h.said[o]
               && (v.poller.PWake? ==> PcOf(v', v.h.info[o].g) == PcOf(v, v.h.info[o].g))
    requires v.poller.PCell? || v.poller.PRes? || v.poller.PFlags? || v.poller.PPut? || v.poller.PWake? ==>
               var c := v.poller.cell;
               c in v.cells && c in v'.cells &&
               v'.cells[c].res == v.cells[c].res && v'.cells[c].flags == v.cells[c].flags
    ensures PollerInv(v')
  {
  }

  lemma CqFrame(v: State, v': State, a: nat)
    requires KeysInv(v) && CqInv(v) && OnlyFor(v, v', a) && v'.q.cq == v.q.cq
    requires a in v.h.info && v.h.stage[a].InCq? ==>
               v'.h.stage[a] == v.h.stage[a] && v'.h.said == v.h.said
    requires a in v'.h.stage && v'.h.stage[a].InCq? ==> a in v.h.stage && v.h.stage[a].InCq?
    ensures CqInv(v')
  {
    hide SameFor;
    forall o | o in v'.h.stage && v'.h.stage[o].InCq? ensures Listed(v'.q.cq, o) {
      if o != a { SameInfo(v, v', o); }
    }
    forall i | 0 <= i < |v'.q.cq|
      ensures var e := v'.q.cq[i];
              && e.op in v'.h.info && e.op in v'.h.stage && v'.h.stage[e.op] == InCq(e.userData)
              && e.op in v'.h.said && v'.h.said[e.op] == Result(e.res, e.flags)
    {
      if v.q.cq[i].op != a { SameInfo(v, v', v.q.cq[i].op); }
    }
  }

  lemma SlotFrame(v: State, v': State, a: nat)
    requires KeysInv(v) && OpsInv(v) && SlotInv(v) && OnlyFor(v, v', a)
    requires v'.h.unknown == 0 && a in v'.h.stage
    requires HasSlot(v'.h.stage[a]) ==>
               if a in v.h.stage && HasSlot(v.h.stage[a]) then v'.h.stage[a].slot == v.h.stage[a].slot
               else v'.h.stage[a].slot !in v.q.slots
    requires forall s :: s in v'.q.sqes ==>
               if v'.q.sqes[s] == a then v'.h.stage[a] == Kernel(s)
               else s in v.q.sqes && v.q.sqes[s] == v'.q.sqes[s]
    ensures SlotInv(v')
  {
    hide SameFor, OpInv, OnlyFor;
    forall x, y | x in v'.h.stage && y in v'.h.stage && x != y && HasSlot(v'.h.stage[x]) && HasSlot(v'.h.stage[y])
      ensures v'.h.stage[x].slot != v'.h.stage[y].slot
    {
      OnlyKeys(v, v', a);
      if x != a { OnlyAt(v, v', a, x); SlotLive(v, x); }
      if y != a { OnlyAt(v, v', a, y); SlotLive(v, y); }
    }
    forall s | s in v'.q.sqes ensures v'.q.sqes[s] in v'.h.stage && v'.h.stage[v'.q.sqes[s]] == Kernel(s) {
      if v'.q.sqes[s] != a { OnlyAt(v, v', a, v'.q.sqes[s]); }
    }
  }

  lemma OnlyKeys(v: State, v': State, a: nat)
    requires KeysInv(v) && OnlyFor(v, v', a)
    ensures KeysInv(v') && v'.h.info.Keys == v.h.info.Keys + {a}
  {
    hide SameFor;
  }

  lemma SlotLive(v: State, o: nat)
    requires o in v.h.info && o in v.h.stage && OpInv(v, o)
    ensures HasSlot(v.h.stage[o]) ==> v.h.stage[o].slot in v.q.slots
  {
  }

  /** The cell the poller is working on is still held by its operation. */
  lemma PollerCellHeld(v: State)
    requires Inv(v)
    ensures v.poller.PCell? || v.poller.PRes? || v.poller.PFlags? || v.poller.PPut? || v.poller.PWake? ==>
              v.poller.cell in v.h.holder && v.poller.cell !in v.pool &&
              v.h.holder[v.poller.cell] == PollerOp(v.poller)
  {
    hide WorkersInv, CqInv, SlotInv, CellInv;
    if v.poller != PIdle {
      assert OpInv(v, PollerOp(v.poller));
    }
  }

  // ---------------------------------------------------------------- arming

  lemma ArmSame(v: State, g: nat, op: nat, c: nat, kind: Kind, o: nat)
    requires CanArm(v, g, op, c) && CellInv(v)
    requires o in v.h.info && o in v.h.stage && OpInv(v, o)
    ensures SameFor(v, Arm(v, g, op, c, kind), o)
  {
    hide Handshake;
  }

  lemma ArmOwn(v: State, g: nat, op: nat, c: nat, kind: Kind)
    requires CanArm(v, g, op, c)
    requires op !in v.q.tasks && op !in v.h.said && op !in v.h.returned && op !in v.h.resumes
    ensures OpInv(Arm(v, g, op, c, kind), op) && Holds(Arm(v, g, op, c, kind), op)
    ensures WorkerInv(Arm(v, g, op, c, kind), g)
  {
  }

  lemma ArmOnly(v: State, g: nat, op: nat, c: nat, kind: Kind)
    requires Inv(v) && CanArm(v, g, op, c)
    ensures OnlyFor(v, Arm(v, g, op, c, kind), op)
  {
    hide OpInv, SameFor, WorkersInv, CqInv, PollerInv, SlotInv, CellInv;
    forall o | o in v.h.info && o != op ensures SameFor(v, Arm(v, g, op, c, kind), o) {
      ArmSame(v, g, op, c, kind, o);
    }
  }

  lemma ArmKeeps(v: State, g: nat, op: nat, c: nat, kind: Kind)
    requires Inv(v) && CanArm(v, g, op, c)
    ensures Inv(Arm(v, g, op, c, kind))
  {
    hide OpInv, SameFor, OnlyFor, WorkersInv, CqInv, SlotInv, OpsInv;
    var v' := Arm(v, g, op, c, kind);
    ArmOnly(v, g, op, c, kind);
    ArmOwn(v, g, op, c, kind);
    OpsFrame(v, v', op);
    CellsFrame(v, v', op);
    WorkersFrame(v, v', op, g);
    CqFrame(v, v', op);
    PollerCellHeld(v);
    PollerFrame(v, v');
    NothingUnknown(v);
    SlotFrame(v, v', op);
  }

  lemma NothingUnknown(v: State)
    requires SlotInv(v)
    ensures v.h.unknown == 0
    ensures forall s :: s in v.q.sqes ==> v.q.sqes[s] in v.h.stage && v.h.stage[v.q.sqes[s]] == Kernel(s)
  {
  }

  // ---------------------------------------------------------------- the rest of a worker's call

  lemma WorkerFacts(v: State, g: nat)
    requires Inv(v) && !PcOf(v, g).Idle?
    ensures WorkerInv(v, g) && OpInv(v, PcOf(v, g).op)
    ensures v.h.info[PcOf(v, g).op].kind.Parks? ==> Holds(v, PcOf(v, g).op)
  {
    hide OpInv, CqInv, PollerInv, SlotInv, CellInv;
    assert WorkerInv(v, g);
  }

  /** The poller's own operation is past submission, and its worker takes no step of a wake-up. */
  lemma PollerStage(v: State)
    requires Inv(v) && v.poller != PIdle
    ensures PollerOp(v.poller) in v.h.stage && PollerOp(v.poller) in v.h.info && PollerOp(v.poller) in v.h.said
    ensures var st := v.h.stage[PollerOp(v.poller)]; st.Polled? || st.Waking? || st.Reclaimed?
    ensures v.poller.PWake? ==> PcOf(v, v.h.info[v.poller.op].g).Waiting?
  {
    hide OpInv, WorkersInv, CqInv, SlotInv, CellInv;
  }

  /** A worker's step that takes no cell and gives none back. */
  lemma WorkerFrame(v: State, v': State, g: nat)
    requires Inv(v) && !PcOf(v, g).Idle? && !PcOf(v, g).Waiting? && WorkerInv(v, g)
    requires OnlyFor(v, v', PcOf(v, g).op) && OpInv(v', PcOf(v, g).op) && WorkerInv(v', g)
    requires v'.h == v.h.(stage := v'.h.stage, resumes := v'.h.resumes)
    requires forall h: nat :: h != g ==> PcOf(v', h) == PcOf(v, h)
    requires v'.cells.Keys == v.cells.Keys
    requires forall c :: c in v.cells ==>
               v'.cells[c].res == v.cells[c].res && v'.cells[c].flags == v.cells[c].flags
    requires v'.poller == v.poller && v'.pool == v.pool && v'.q == v.q.(tasks := v'.q.tasks)
    requires var op := PcOf(v, g).op;
             || v'.h.stage[op] == v.h.stage[op]
             || (v'.h.stage[op].Queued? && v.h.stage[op].Fresh?)
    requires Holds(v, PcOf(v, g).op) ==> Holds(v', PcOf(v, g).op)
    ensures Inv(v')
  {
    hide OpInv, SameFor, OnlyFor, WorkersInv, CqInv, SlotInv, OpsInv;
    var op := PcOf(v, g).op;
    OnlyKeys(v, v', op);
    OpsFrame(v, v', op);
    WorkersFrame(v, v', op, g);
    NothingUnknown(v);
    CellsFrame(v, v', op);
    CqFrame(v, v', op);
    SlotFrame(v, v', op);
    PollerCellHeld(v);
    if v.poller != PIdle {
      PollerStage(v);
      if PollerOp(v.poller) != op { OnlyAt(v, v', op, PollerOp(v.poller)); }
    }
    PollerFrame(v, v');
  }

  lemma SubmitSame(v: State, g: nat, o: nat)
    requires PcOf(v, g).Armed? && o in v.h.info && o in v.h.stage && OpInv(v, o) && o != PcOf(v, g).op
    ensures SameFor(v, Submit(v, g), o)
  {
    hide Handshake;
  }

  lemma SubmitOwn(v: State, g: nat)
    requires PcOf(v, g).Armed? && WorkerInv(v, g) && OpInv(v, PcOf(v, g).op)
    ensures OpInv(Submit(v, g), PcOf(v, g).op) && WorkerInv(Submit(v, g), g)
    ensures v.h.stage[PcOf(v, g).op].Fresh?
    ensures Holds(v, PcOf(v, g).op) ==> Holds(Submit(v, g), PcOf(v, g).op)
  {
  }

  lemma SubmitKeeps(v: State, g: nat)
    requires Inv(v) && PcOf(v, g).Armed?
    ensures Inv(Submit(v, g))
  {
    hide OpInv, SameFor, Holds, WorkersInv, CqInv, SlotInv, CellInv, PollerInv;
    WorkerFacts(v, g);
    SubmitOwn(v, g);
    forall o | o in v.h.info && o != PcOf(v, g).op ensures SameFor(v, Submit(v, g), o) {
      SubmitSame(v, g, o);
    }
    WorkerFrame(v, Submit(v, g), g);
  }

  lemma MoveSame(v: State, g: nat, o: nat)
    requires Moves(PcOf(v, g)) && o in v.h.info && o in v.h.stage && OpInv(v, o) && o != PcOf(v, g).op
    ensures SameFor(v, Move(v, g), o)
  {
    hide Handshake;
  }

  lemma MoveOwn(v: State, g: nat)
    requires Moves(PcOf(v, g)) && WorkerInv(v, g) && OpInv(v, PcOf(v, g).op)
    ensures OpInv(Move(v, g), PcOf(v, g).op) && WorkerInv(Move(v, g), g)
    ensures Holds(v, PcOf(v, g).op) ==> Holds(Move(v, g), PcOf(v, g).op)
  {
  }

  lemma MoveKeeps(v: State, g: nat)
    requires Inv(v) && Moves(PcOf(v, g))
    ensures Inv(Move(v, g))
  {
    hide OpInv, SameFor, Holds, WorkersInv, CqInv, SlotInv, CellInv, PollerInv;
    WorkerFacts(v, g);
    MoveOwn(v, g);
    forall o | o in v.h.info && o != PcOf(v, g).op ensures SameFor(v, Move(v, g), o) {
      MoveSame(v, g, o);
    }
    WorkerFrame(v, Move(v, g), g);
  }

  lemma SwapSame(v: State, g: nat, o: nat)
    requires PcOf(v, g).Unlocking? && WorkerInv(v, g) && OpInv(v, PcOf(v, g).op) && Holds(v, PcOf(v, g).op)
    requires o in v.h.info && o in v.h.stage && OpInv(v, o) && o != PcOf(v, g).op
    ensures SameFor(v, Swap(v, g), o)
  {
    hide Handshake;
    assert CellOf(v, PcOf(v, g).op);
  }

  lemma SwapOwn(v: State, g: nat)
    requires PcOf(v, g).Unlocking? && WorkerInv(v, g) && OpInv(v, PcOf(v, g).op)
    ensures OpInv(Swap(v, g), PcOf(v, g).op) && WorkerInv(Swap(v, g), g)
    ensures Holds(v, PcOf(v, g).op) ==> Holds(Swap(v, g), PcOf(v, g).op)
  {
  }

  lemma SwapKeeps(v: State, g: nat)
    requires Inv(v) && PcOf(v, g).Unlocking? && PcOf(v, g).cell in v.cells
    ensures Inv(Swap(v, g))
  {
    hide OpInv, SameFor, Holds, WorkersInv, CqInv, SlotInv, CellInv, PollerInv;
    WorkerFacts(v, g);
    SwapOwn(v, g);
    forall o | o in v.h.info && o != PcOf(v, g).op ensures SameFor(v, Swap(v, g), o) {
      SwapSame(v, g, o);
    }
    WorkerFrame(v, Swap(v, g), g);
  }

  predicate Reads(p: Pc) {
    p.Resumed? || p.HasRes?
  }

  lemma ReadSame(v: State, g: nat, o: nat)
    requires Reads(PcOf(v, g)) && PcOf(v, g).cell in v.cells
    requires o in v.h.info && o in v.h.stage && OpInv(v, o) && o != PcOf(v, g).op
    ensures SameFor(v, Read(v, g), o)
  {
    hide Handshake;
  }

  lemma ReadOwn(v: State, g: nat)
    requires Reads(PcOf(v, g)) && WorkerInv(v, g) && OpInv(v, PcOf(v, g).op)
    ensures OpInv(Read(v, g), PcOf(v, g).op) && WorkerInv(Read(v, g), g)
    ensures Holds(v, PcOf(v, g).op) ==> Holds(Read(v, g), PcOf(v, g).op)
  {
  }

  lemma ReadKeeps(v: State, g: nat)
    requires Inv(v) && Reads(PcOf(v, g)) && PcOf(v, g).cell in v.cells
    ensures Inv(Read(v, g))
  {
    hide OpInv, SameFor, Holds, WorkersInv, CqInv, SlotInv, CellInv, PollerInv;
    WorkerFacts(v, g);
    ReadOwn(v, g);
    forall o | o in v.h.info && o != PcOf(v, g).op ensures SameFor(v, Read(v, g), o) {
      ReadSame(v, g, o);
    }
    WorkerFrame(v, Read(v, g), g);
  }

  lemma PutBackSame(v: State, g: nat, o: nat)
    requires PcOf(v, g).HasBoth? && WorkerInv(v, g) && OpInv(v, PcOf(v, g).op) && Holds(v, PcOf(v, g).op)
    requires o in v.h.info && o in v.h.stage && OpInv(v, o) && o != PcOf(v, g).op
    ensures SameFor(v, PutBack(v, g), o)
  {
    hide Handshake;
    assert CellOf(v, PcOf(v, g).op);
  }

  lemma PutBackOwn(v: State, g: nat)
    requires PcOf(v, g).HasBoth? && WorkerInv(v, g) && OpInv(v, PcOf(v, g).op)
    ensures OpInv(PutBack(v, g), PcOf(v, g).op) && WorkerInv(PutBack(v, g), g)
    ensures CellOf(v, PcOf(v, g).op) && v.h.stage[PcOf(v, g).op].Delivered?
  {
  }

  lemma PutBackKeeps(v: State, g: nat)
    requires Inv(v) && PcOf(v, g).HasBoth?
    ensures Inv(PutBack(v, g))
  {
    hide OpInv, SameFor, OnlyFor, Holds, WorkersInv, CqInv, SlotInv, PollerInv, OpsInv;
    var v', op := PutBack(v, g), PcOf(v, g).op;
    WorkerFacts(v, g);
    PutBackOwn(v, g);
    PutBackOnly(v, g);
    OpsFrame(v, v', op);
    WorkersFrame(v, v', op, g);
    NothingUnknown(v);
    CellsFrame(v, v', op);
    CqFrame(v, v', op);
    SlotFrame(v, v', op);
    PollerCellHeld(v);
    if v.poller != PIdle {
      PollerStage(v);
      OnlyAt(v, v', op, PollerOp(v.poller));
    }
    PollerFrame(v, v');
  }

  lemma PutBackOnly(v: State, g: nat)
    requires Inv(v) && PcOf(v, g).HasBoth?
    ensures OnlyFor(v, PutBack(v, g), PcOf(v, g).op)
  {
    hide OpInv, SameFor, Holds, WorkersInv, CqInv, SlotInv, CellInv, PollerInv;
    WorkerFacts(v, g);
    forall o | o in v.h.info && o != PcOf(v, g).op ensures SameFor(v, PutBack(v, g), o) {
      PutBackSame(v, g, o);
    }
  }

  // ---------------------------------------------------------------- submission and kernel

  /** A step of the far side: no worker moves, and no cell changes hands. */
  lemma FarFrame(v: State, v': State, a: nat)
    requires Inv(v) && a in v.h.info && OnlyFor(v, v', a) && OpInv(v', a)
    requires v'.pc == v.pc && v'.h.info == v.h.info && v'.h.holder == v.h.holder && v'.pool == v.pool
    requires v'.cells.Keys == v.cells.Keys
    requires Holds(v, a) ==> Holds(v', a)
    ensures KeysInv(v') && OpsInv(v') && WorkersInv(v') && CellInv(v')
  {
    hide OpInv, SameFor, OnlyFor, Holds, WorkersInv, CqInv, SlotInv, PollerInv, OpsInv;
    OnlyKeys(v, v', a);
    OpsFrame(v, v', a);
    CellsFrame(v, v', a);
    WorkersSame(v, v');
  }

  lemma WorkersSame(v: State, v': State)
    requires KeysInv(v) && WorkersInv(v) && v'.pc == v.pc && v'.h.info == v.h.info && KeysInv(v')
    requires v'.cells.Keys == v.cells.Keys
    ensures WorkersInv(v')
  {
    forall h: nat ensures WorkerInv(v', h) {
      assert WorkerInv(v, h);
    }
  }

  lemma DispatchSame(v: State, a: nat, slot: nat, o: nat)
    requires a in v.q.tasks && slot !in v.q.slots
    requires o in v.h.info && o in v.h.stage && OpInv(v, o) && o != a
    ensures SameFor(v, Dispatch(v, a, slot), o)
  {
    hide Handshake;
  }

  lemma DispatchOwn(v: State, a: nat, slot: nat)
    requires a in v.q.tasks && slot !in v.q.slots && a in v.h.info && a in v.h.stage && OpInv(v, a)
    ensures OpInv(Dispatch(v, a, slot), a) && v.h.stage[a].Queued?
    ensures Holds(v, a) ==> Holds(Dispatch(v, a, slot), a)
  {
  }

  lemma DispatchKeeps(v: State, a: nat, slot: nat)
    requires Inv(v) && a in v.q.tasks && slot !in v.q.slots
    ensures Inv(Dispatch(v, a, slot))
  {
    hide OpInv, SameFor, OnlyFor, Holds, WorkersInv, CqInv, SlotInv, CellInv, OpsInv;
    var v' := Dispatch(v, a, slot);
    OpAt(v, a);
    DispatchOwn(v, a, slot);
    DispatchOnly(v, a, slot);
    FarFrame(v, v', a);
    CqFrame(v, v', a);
    NothingUnknown(v);
    SlotFrame(v, v', a);
    FarPoller(v, v', a);
  }

  lemma OpAt(v: State, a: nat)
    requires KeysInv(v) && OpsInv(v) && a in v.h.info
    ensures a in v.h.stage && OpInv(v, a)
  {
    hide OpInv;
  }

  /** Poller untouched, and its operation is not the one that moves. */
  lemma FarPoller(v: State, v': State, a: nat)
    requires Inv(v) && a in v.h.stage && !v.h.stage[a].Polled? && !v.h.stage[a].Waking? && !v.h.stage[a].Reclaimed?
    requires OnlyFor(v, v', a) && v'.poller == v.poller && v'.pc == v.pc && v'.cells == v.cells
    ensures PollerInv(v')
  {
    hide OpInv, SameFor, OnlyFor, Holds, WorkersInv, CqInv, SlotInv, CellInv, OpsInv;
    if v.poller != PIdle {
      PollerStage(v);
      OnlyAt(v, v', a, PollerOp(v.poller));
    }
    PollerFrame(v, v');
  }

  lemma DispatchOnly(v: State, a: nat, slot: nat)
    requires Inv(v) && a in v.q.tasks && slot !in v.q.slots
    ensures OnlyFor(v, Dispatch(v, a, slot), a)
  {
    hide OpInv, SameFor, Holds, WorkersInv, CqInv, SlotInv, CellInv, PollerInv;
    forall o | o in v.h.info && o != a ensures SameFor(v, Dispatch(v, a, slot), o) {
      DispatchSame(v, a, slot, o);
    }
  }

  lemma AnswerSame(v: State, slot: nat, res: int, flags: nat, o: nat)
    requires slot in v.q.sqes && o in v.h.info && o in v.h.stage && OpInv(v, o) && o != v.q.sqes[slot]
    ensures SameFor(v, Answer(v, slot, res, flags), o)
  {
    hide Handshake;
  }

  lemma AnswerOwn(v: State, slot: nat, res: int, flags: nat)
    requires slot in v.q.sqes && v.q.sqes[slot] in v.h.info && v.q.sqes[slot] in v.h.stage
    requires OpInv(v, v.q.sqes[slot]) && v.h.stage[v.q.sqes[slot]] == Kernel(slot)
    ensures OpInv(Answer(v, slot, res, flags), v.q.sqes[slot])
    ensures Holds(v, v.q.sqes[slot]) ==> Holds(Answer(v, slot, res, flags), v.q.sqes[slot])
  {
  }

  lemma AnswerOnly(v: State, slot: nat, res: int, flags: nat)
    requires Inv(v) && slot in v.q.sqes && v.q.sqes[slot] in v.h.info
    ensures OnlyFor(v, Answer(v, slot, res, flags), v.q.sqes[slot])
  {
    hide OpInv, SameFor, Holds, WorkersInv, CqInv, SlotInv, CellInv, PollerInv;
    forall o | o in v.h.info && o != v.q.sqes[slot] ensures SameFor(v, Answer(v, slot, res, flags), o) {
      AnswerSame(v, slot, res, flags, o);
    }
  }

  lemma AnswerCq(v: State, slot: nat, res: int, flags: nat)
    requires KeysInv(v) && CqInv(v) && slot in v.q.sqes && v.q.sqes[slot] in v.h.stage
    requires v.h.stage[v.q.sqes[slot]] == Kernel(slot)
    ensures CqInv(Answer(v, slot, res, flags))
  {
    var v' := Answer(v, slot, res, flags);
    forall o | o in v'.h.stage && v'.h.stage[o].InCq? ensures Listed(v'.q.cq, o) {
      if o == v.q.sqes[slot] {
        assert v'.q.cq[|v.q.cq|].op == o;
      } else {
        var i :| 0 <= i < |v.q.cq| && v.q.cq[i].op == o;
        assert v'.q.cq[i].op == o;
      }
    }
  }

  lemma AnswerKeeps(v: State, slot: nat, res: int, flags: nat)
    requires Inv(v) && slot in v.q.sqes
    ensures Inv(Answer(v, slot, res, flags))
  {
    hide OpInv, SameFor, OnlyFor, Holds, WorkersInv, CqInv, SlotInv, CellInv, OpsInv;
    var v', a := Answer(v, slot, res, flags), v.q.sqes[slot];
    NothingUnknown(v);
    OpAt(v, a);
    AnswerOwn(v, slot, res, flags);
    AnswerOnly(v, slot, res, flags);
    AnswerCq(v, slot, res, flags);
    FarFrame(v, v', a);
    SlotFrame(v, v', a);
    FarPoller(v, v', a);
  }

  // ---------------------------------------------------------------- poller

  /** A step of the poller: its own operation and every other one. */
  lemma PollerOthers(v: State, o: nat)
    requires Inv(v) && o in v.h.info
    requires v.poller != PIdle ==> o != PollerOp(v.poller)
    ensures o in v.h.stage && OpInv(v, o)
    ensures !v.h.stage[o].Polled? && !v.h.stage[o].Waking? && !v.h.stage[o].Reclaimed?
  {
    OpAt(v, o);
    hide OpsInv, WorkersInv, CqInv, SlotInv, CellInv, PollerInv;
  }

  lemma TakeSame(v: State, o: nat)
    requires v.poller.PIdle? && v.q.cq != [] && o in v.h.info && o in v.h.stage && OpInv(v, o) && o != v.q.cq[0].op
    ensures SameFor(v, Take(v), o)
  {
    hide Handshake;
  }

  lemma TakeOwn(v: State)
    requires v.poller.PIdle? && v.q.cq != [] && CqInv(v) && OpInv(v, v.q.cq[0].op)
    ensures OpInv(Take(v), v.q.cq[0].op) && PollerInv(Take(v))
    ensures Holds(v, v.q.cq[0].op) ==> Holds(Take(v), v.q.cq[0].op)
  {
  }

  lemma TakeCq(v: State)
    requires v.poller.PIdle? && v.q.cq != [] && CqInv(v)
    ensures CqInv(Take(v))
    ensures var e := v.q.cq[0]; e.op in v.h.info && e.op in v.h.stage && v.h.stage[e.op] == InCq(e.userData)
  {
    var v' := Take(v);
    forall o | o in v'.h.stage && v'.h.stage[o].InCq? ensures Listed(v'.q.cq, o) {
      var i :| 0 <= i < |v.q.cq| && v.q.cq[i].op == o;
      assert v'.q.cq[i - 1].op == o;
    }
  }

  lemma TakeKeeps(v: State)
    requires Inv(v) && v.poller.PIdle? && v.q.cq != []
    ensures Inv(Take(v))
  {
    hide OpInv, SameFor, OnlyFor, Holds, WorkersInv, CqInv, SlotInv, CellInv, OpsInv, PollerInv;
    var v', a := Take(v), v.q.cq[0].op;
    NothingUnknown(v);
    TakeCq(v);
    OpAt(v, a);
    TakeOwn(v);
    TakeOnly(v);
    FarFrame(v, v', a);
    SlotFrame(v, v', a);
  }

  lemma TakeOnly(v: State)
    requires Inv(v) && v.poller.PIdle? && v.q.cq != [] && v.q.cq[0].op in v.h.info
    ensures OnlyFor(v, Take(v), v.q.cq[0].op)
  {
    hide OpInv, SameFor, Holds, WorkersInv, CqInv, SlotInv, CellInv, PollerInv;
    forall o | o in v.h.info && o != v.q.cq[0].op ensures SameFor(v, Take(v), o) {
      TakeSame(v, o);
    }
  }

  lemma LookUpFinds(v: State)
    requires v.poller.PGot? && PollerInv(v) && OpInv(v, v.poller.cqe.op)
    ensures var e := v.poller.cqe;
            e.userData in v.q.slots && v.q.slots[e.userData] == v.h.info[e.op].cell
    ensures PollerInv(LookUp(v)) && OpInv(LookUp(v), v.poller.cqe.op)
  {
  }

  lemma LookUpSame(v: State, o: nat)
    requires v.poller.PGot? && v.poller.cqe.userData in v.q.slots
    requires o in v.h.info && o in v.h.stage && OpInv(v, o)
    requires !v.h.stage[o].Polled? && !v.h.stage[o].Waking? && !v.h.stage[o].Reclaimed?
    ensures SameFor(v, LookUp(v), o)
  {
    hide Handshake;
  }

  lemma LookUpKeeps(v: State)
    requires Inv(v) && v.poller.PGot?
    ensures Inv(LookUp(v))
  {
    hide OpInv, SameFor, OnlyFor, Holds, WorkersInv, CqInv, SlotInv, CellInv, OpsInv, PollerInv;
    var v', a := LookUp(v), v.poller.cqe.op;
    NothingUnknown(v);
    PollerStage(v);
    OpAt(v, a);
    LookUpFinds(v);
    LookUpOnly(v);
    HoldsFrame(v, v', a);
    FarFrame(v, v', a);
    SlotFrame(v, v', a);
    CqFrame(v, v', a);
  }

  lemma HoldsFrame(v: State, v': State, a: nat)
    requires a in v.h.info && a in v.h.stage && v'.pc == v.pc && v'.h.info == v.h.info
    requires a in v'.h.stage && BeforeCas(v.h.stage[a]) == BeforeCas(v'.h.stage[a])
    ensures Holds(v, a) == Holds(v', a)
  {
  }

  lemma LookUpOnly(v: State)
    requires Inv(v) && v.poller.PGot? && v.poller.cqe.userData in v.q.slots
    ensures OnlyFor(v, LookUp(v), v.poller.cqe.op)
  {
    hide OpInv, SameFor, Holds, WorkersInv, CqInv, SlotInv, CellInv, PollerInv;
    PollerStage(v);
    forall o | o in v.h.info && o != v.poller.cqe.op ensures SameFor(v, LookUp(v), o) {
      PollerOthers(v, o);
      LookUpSame(v, o);
    }
  }

  predicate AtCell(p: PollerPc) {
    p.PCell? || p.PRes?
  }

  lemma WriteSame(v: State, o: nat)
    requires AtCell(v.poller) && v.poller.cell in v.cells
    requires v.poller.cell in v.h.holder && v.h.holder[v.poller.cell] != o
    requires o in v.h.info && o in v.h.stage && OpInv(v, o)
    requires !v.h.stage[o].Polled? && !v.h.stage[o].Waking? && !v.h.stage[o].Reclaimed?
    ensures SameFor(v, Write(v), o)
  {
    hide Handshake;
  }

  lemma WriteOwn(v: State)
    requires AtCell(v.poller) && v.poller.cell in v.cells && PollerInv(v) && OpInv(v, v.poller.cqe.op)
    ensures PollerInv(Write(v)) && OpInv(Write(v), v.poller.cqe.op)
  {
  }

  lemma WriteOnly(v: State)
    requires Inv(v) && AtCell(v.poller) && v.poller.cell in v.cells
    ensures OnlyFor(v, Write(v), v.poller.cqe.op)
  {
    hide OpInv, SameFor, Holds, WorkersInv, CqInv, SlotInv, CellInv, PollerInv;
    PollerCellHeld(v);
    PollerStage(v);
    forall o | o in v.h.info && o != v.poller.cqe.op ensures SameFor(v, Write(v), o) {
      PollerOthers(v, o);
      WriteSame(v, o);
    }
  }

  lemma WriteKeeps(v: State)
    requires Inv(v) && AtCell(v.poller) && v.poller.cell in v.cells
    ensures Inv(Write(v))
  {
    hide OpInv, SameFor, OnlyFor, Holds, WorkersInv, CqInv, SlotInv, CellInv, OpsInv, PollerInv;
    var v', a := Write(v), v.poller.cqe.op;
    NothingUnknown(v);
    PollerStage(v);
    OpAt(v, a);
    WriteOwn(v);
    WriteOnly(v);
    HoldsFrame(v, v', a);
    FarFrame(v, v', a);
    SlotFrame(v, v', a);
    CqFrame(v, v', a);
  }

  lemma TryDoneSame(v: State, o: nat)
    requires v.poller.PFlags? && v.poller.cell in v.cells
    requires v.poller.cell in v.h.holder && v.h.holder[v.poller.cell] != o && o != v.poller.cqe.op
    requires o in v.h.info && o in v.h.stage && OpInv(v, o)
    requires !v.h.stage[o].Polled? && !v.h.stage[o].Waking? && !v.h.stage[o].Reclaimed?
    ensures SameFor(v, TryDone(v), o)
  {
    hide Handshake;
    assert Holds(v, o) ==> v.h.info[o].cell != v.poller.cell;
    if v.cells[v.poller.cell].kind.Sends? || v.cells[v.poller.cell].state != InCore {
      assert TryDone(v).cells == v.cells;
    }
  }

  lemma TryDoneOwn(v: State)
    requires v.poller.PFlags? && v.poller.cell in v.cells && PollerInv(v) && OpInv(v, v.poller.cqe.op)
    requires WorkerInv(v, v.h.info[v.poller.cqe.op].g)
    ensures PollerInv(TryDone(v)) && OpInv(TryDone(v), v.poller.cqe.op)
    ensures Holds(v, v.poller.cqe.op) ==> Holds(TryDone(v), v.poller.cqe.op)
    ensures !HasSlot(TryDone(v).h.stage[v.poller.cqe.op]) ||
            TryDone(v).h.stage[v.poller.cqe.op] == v.h.stage[v.poller.cqe.op]
  {
    assert Holds(v, v.poller.cqe.op);
  }

  lemma TryDoneOnly(v: State)
    requires Inv(v) && v.poller.PFlags? && v.poller.cell in v.cells
    ensures OnlyFor(v, TryDone(v), v.poller.cqe.op)
  {
    hide OpInv, SameFor, Holds, WorkersInv, CqInv, SlotInv, CellInv, PollerInv;
    PollerCellHeld(v);
    PollerStage(v);
    forall o | o in v.h.info && o != v.poller.cqe.op ensures SameFor(v, TryDone(v), o) {
      PollerOthers(v, o);
      TryDoneSame(v, o);
    }
  }

  lemma TryDoneKeeps(v: State)
    requires Inv(v) && v.poller.PFlags? && v.poller.cell in v.cells
    ensures Inv(TryDone(v))
  {
    hide OpInv, SameFor, OnlyFor, Holds, WorkerInv, CqInv, SlotInv, CellInv, OpsInv, PollerInv;
    var v', a := TryDone(v), v.poller.cqe.op;
    NothingUnknown(v);
    PollerStage(v);
    OpAt(v, a);
    TryDoneOwn(v);
    TryDoneOnly(v);
    FarFrame(v, v', a);
    SlotFrame(v, v', a);
    CqFrame(v, v', a);
  }

  lemma GoReadyFinds(v: State)
    requires v.poller.PWake? && v.poller.cell in v.cells && PollerInv(v) && OpInv(v, v.poller.op)
    ensures Holds(v, v.poller.op) && v.cells[v.poller.cell].g == v.h.info[v.poller.op].g
    ensures PcOf(v, v.cells[v.poller.cell].g) == Waiting(v.poller.op, v.poller.cell)
    ensures OpInv(GoReady(v), v.poller.op) && Holds(GoReady(v), v.poller.op)
    ensures GoReady(v).h.stage[v.poller.op].Delivered? && WorkerInv(GoReady(v), v.h.info[v.poller.op].g)
  {
    assert Holds(v, v.poller.op);
  }

  lemma GoReadySame(v: State, o: nat)
    requires v.poller.PWake? && v.poller.cell in v.cells && o != v.poller.op
    requires PcOf(v, v.cells[v.poller.cell].g) == Waiting(v.poller.op, v.poller.cell)
    requires o in v.h.info && o in v.h.stage && OpInv(v, o)
    requires !v.h.stage[o].Polled? && !v.h.stage[o].Waking? && !v.h.stage[o].Reclaimed?
    ensures SameFor(v, GoReady(v), o)
  {
    hide Handshake;
  }

  lemma GoReadyOnly(v: State)
    requires Inv(v) && v.poller.PWake? && v.poller.cell in v.cells
    ensures OnlyFor(v, GoReady(v), v.poller.op)
  {
    hide OpInv, SameFor, Holds, WorkersInv, CqInv, SlotInv, CellInv, PollerInv;
    PollerStage(v);
    OpAt(v, v.poller.op);
    GoReadyFinds(v);
    forall o | o in v.h.info && o != v.poller.op ensures SameFor(v, GoReady(v), o) {
      PollerOthers(v, o);
      GoReadySame(v, o);
    }
  }

  lemma GoReadyKeeps(v: State)
    requires Inv(v) && v.poller.PWake? && v.poller.cell in v.cells
    ensures Inv(GoReady(v))
  {
    hide OpInv, SameFor, OnlyFor, Holds, WorkersInv, CqInv, SlotInv, OpsInv, PollerInv;
    var v', a := GoReady(v), v.poller.op;
    NothingUnknown(v);
    PollerStage(v);
    OpAt(v, a);
    GoReadyFinds(v);
    GoReadyOnly(v);
    OnlyKeys(v, v', a);
    OpsFrame(v, v', a);
    WorkersFrame(v, v', a, v.h.info[a].g);
    CellsFrame(v, v', a);
    SlotFrame(v, v', a);
    CqFrame(v, v', a);
    IdlePoller(v');
  }

  lemma IdlePoller(v: State)
    requires v.poller.PIdle?
    ensures PollerInv(v)
  {
  }

  predicate Reclaims(p: PollerPc) {
    p.PPut? || p.PDel?
  }

  lemma ReclaimSame(v: State, o: nat)
    requires Reclaims(v.poller) && o != v.poller.cqe.op
    requires v.poller.PPut? ==> v.poller.cell in v.h.holder && v.h.holder[v.poller.cell] == v.poller.cqe.op
    requires o in v.h.info && o in v.h.stage && OpInv(v, o)
    requires !v.h.stage[o].Polled? && !v.h.stage[o].Waking? && !v.h.stage[o].Reclaimed?
    requires v.poller.PDel? && HasSlot(v.h.stage[o]) ==> v.h.stage[o].slot != v.poller.cqe.userData
    ensures SameFor(v, Reclaim(v), o)
  {
    hide Handshake;
  }

  lemma ReclaimOwn(v: State)
    requires Reclaims(v.poller) && PollerInv(v) && OpInv(v, v.poller.cqe.op)
    ensures OpInv(Reclaim(v), v.poller.cqe.op) && PollerInv(Reclaim(v))
    ensures HasSlot(v.h.stage[v.poller.cqe.op]) && v.h.stage[v.poller.cqe.op].slot == v.poller.cqe.userData
    ensures HasSlot(Reclaim(v).h.stage[v.poller.cqe.op]) ==>
              Reclaim(v).h.stage[v.poller.cqe.op].slot == v.poller.cqe.userData
    ensures v.poller.PDel? ==> (Holds(v, v.poller.cqe.op) ==> Holds(Reclaim(v), v.poller.cqe.op))
  {
  }

  lemma ReclaimOnly(v: State)
    requires Inv(v) && Reclaims(v.poller)
    ensures OnlyFor(v, Reclaim(v), v.poller.cqe.op)
  {
    hide OpInv, SameFor, Holds, WorkersInv, CqInv, CellInv, PollerInv;
    PollerCellHeld(v);
    PollerStage(v);
    OpAt(v, v.poller.cqe.op);
    ReclaimOwn(v);
    forall o | o in v.h.info && o != v.poller.cqe.op ensures SameFor(v, Reclaim(v), o) {
      PollerOthers(v, o);
      ReclaimSame(v, o);
    }
  }

  lemma ReclaimKeeps(v: State)
    requires Inv(v) && Reclaims(v.poller)
    ensures Inv(Reclaim(v))
  {
    hide OpInv, SameFor, OnlyFor, Holds, WorkersInv, CqInv, SlotInv, OpsInv, PollerInv;
    var v', a := Reclaim(v), v.poller.cqe.op;
    NothingUnknown(v);
    PollerStage(v);
    PollerCellHeld(v);
    OpAt(v, a);
    ReclaimOwn(v);
    ReclaimOnly(v);
    OnlyKeys(v, v', a);
    OpsFrame(v, v', a);
    WorkersSame(v, v');
    CellsFrame(v, v', a);
    SlotFrame(v, v', a);
    CqFrame(v, v', a);
  }

  // ---------------------------------------------------------------- runs

  lemma EventKeepsInv(v: State, e: Event)
    requires Inv(v) && Enabled(v, e)
    ensures Inv(Apply(v, e))
  {
    hide Inv;
    match e
    case EArm(g, op, c, kind) => ArmKeeps(v, g, op, c, kind);
    case ESubmit(g) => SubmitKeeps(v, g);
    case EMove(g) => MoveKeeps(v, g);
    case ESwap(g) => SwapKeeps(v, g);
    case ERead(g) => ReadKeeps(v, g);
    case EPutBack(g) => PutBackKeeps(v, g);
    case EDispatch(op, slot) => DispatchKeeps(v, op, slot);
    case EAnswer(slot, res, flags) => AnswerKeeps(v, slot, res, flags);
    case ETake => TakeKeeps(v);
    case ELookUp => LookUpKeeps(v);
    case EWrite => WriteKeeps(v);
    case ETryDone => TryDoneKeeps(v);
    case EGoReady => GoReadyKeeps(v);
    case EReclaim => ReclaimKeeps(v);
  }

  lemma {:induction false} RunKeepsInv(v: State, es: seq<Event>, v': State)
    requires Inv(v) && Leads(v, es, v')
    ensures Inv(v')
    decreases |es|
  {
    hide Inv, Apply, Enabled;
    if es != [] {
      EventKeepsInv(v, es[0]);
      RunKeepsInv(Apply(v, es[0]), es[1..], v');
    }
  }

  lemma ReachableInv(v: State)
    requires Reachable(v)
    ensures Inv(v)
  {
    hide Inv, Leads;
    var v0, es :| Init(v0) && Leads(v0, es, v);
    InitInv(v0);
    RunKeepsInv(v0, es, v);
  }
}
