/**
 The slot table under the completion path: the completion model's map from slot indices to cells
 is the map that the table's tasks in flight make up, and its steps on that map are the table's
 own operations.
 */
module CompletionSlots {
  import opened Completion
  import opened CompletionInvariant
  import opened CompletionSteps
  import opened CompletionTheorems
  import opened TaskSlots

  /** The table and a reachable state of the completion path agree on what is in flight. */
  ghost predicate Coupled(table: Slots<nat>, v: State)
    reads table, table.bitmap, table.pollerBitmap, table.tasks
  {
    table.Valid() && Reachable(v) && table.live == v.q.slots
  }

  // ---------------------------------------------------------------- what the others do meanwhile

  predicate DeletesSlot(v: State, e: Event) {
    e.EReclaim? && v.poller.PDel?
  }

  /** The slots that the poller deletes in a run. */
  ghost function Deleted(v: State, es: seq<Event>): set<nat>
    decreases |es|
  {
    if es == [] || !Enabled(v, es[0]) then {}
    else (if DeletesSlot(v, es[0]) then {v.poller.cqe.userData} else {}) + Deleted(Apply(v, es[0]), es[1..])
  }

  /** Workers, kernel and poller go on; nobody else dispatches, the ticket being held. */
  predicate NoDispatch(es: seq<Event>) {
    forall i :: 0 <= i < |es| ==> !es[i].EDispatch?
  }

  lemma OneMeanwhile(v: State, e: Event, op: nat)
    requires Reachable(v) && Enabled(v, e) && !e.EDispatch? && op in v.q.tasks
    ensures var w := Apply(v, e);
            && Reachable(w) && op in w.q.tasks && w.q.tasks[op] == v.q.tasks[op]
            && w.q.slots == v.q.slots - (if DeletesSlot(v, e) then {v.poller.cqe.userData} else {})
  {
    StillReachable(v, e);
    if DeletesSlot(v, e) { ReclaimIsDel(v); } else { OthersLeaveSlots(v, e); NothingGone(v.q.slots); }
    if e.ESubmit? { NotSubmittedTwice(v, e.g, op); }
    hide Reachable, Leads, PcOf, Resume;
  }

  /** A task that waits for its dispatch is not one about to be submitted. */
  lemma NotSubmittedTwice(v: State, g: nat, op: nat)
    requires Reachable(v) && PcOf(v, g).Armed? && op in v.q.tasks
    ensures PcOf(v, g).op != op
  {
    ReachableInv(v);
    hide Reachable, CqInv, SlotInv, CellInv, PollerInv;
    assert WorkerInv(v, g);
    assert OpInv(v, op);
  }

  lemma {:induction false} Meanwhile(v: State, es: seq<Event>, w: State, op: nat)
    requires Reachable(v) && Leads(v, es, w) && NoDispatch(es) && op in v.q.tasks
    ensures Reachable(w) && op in w.q.tasks && w.q.tasks[op] == v.q.tasks[op]
    ensures w.q.slots == v.q.slots - Deleted(v, es)
    decreases |es|
  {
    hide Reachable, Apply, Enabled;
    if es == [] {
      NothingGone(v.q.slots);
    } else {
      var u := Apply(v, es[0]);
      OneMeanwhile(v, es[0], op);
      Meanwhile(u, es[1..], w, op);
      MinusMinus(v.q.slots, if DeletesSlot(v, es[0]) then {v.poller.cqe.userData} else {}, Deleted(u, es[1..]));
    }
  }

  // ---------------------------------------------------------------- the table's operations

  /**
   Dispatching a task is Add of its cell, with the poller deleting slots meanwhile: after any run
   of the others whose deletions are those that happened, the index Add returned is one that the
   completion model allows, and the two agree once the task is dispatched under it.
   */
  method Dispatches(table: Slots<nat>, ghost v: State, ghost op: nat, cell: nat, busy: bool)
    returns (slot: nat, ghost gone: set<nat>)
    requires op in v.q.tasks && v.q.tasks[op] == cell && Coupled(table, v)
    requires !table.Overdrawn() && |table.fallback| <= table.fallbackMask
    modifies table, table.bitmap, table.pollerBitmap, table.tasks
    ensures gone <= old(table.live).Keys && (!busy ==> gone == {})
    ensures forall es: seq<Event>, w: State :: Leads(v, es, w) && NoDispatch(es) && Deleted(v, es) == gone ==>
              Enabled(w, EDispatch(op, slot)) && Coupled(table, Apply(w, EDispatch(op, slot)))
  {
    Split(table, v);
    hide *;
    ghost var slots := v.q.slots;
    ghost var moves;
    slot, gone, moves := table.Add(cell, busy);
    forall es: seq<Event>, w: State | Leads(v, es, w) && NoDispatch(es) && Deleted(v, es) == gone
      ensures Enabled(w, EDispatch(op, slot)) && Coupled(table, Apply(w, EDispatch(op, slot)))
    {
      Meanwhile(v, es, w, op);
      DispatchAdds(w, op, slot);
      Joins(table, Apply(w, EDispatch(op, slot)));
    }
  }

  lemma Split(table: Slots<nat>, v: State)
    requires Coupled(table, v)
    ensures table.Valid() && Reachable(v) && table.live == v.q.slots
  {
  }

  lemma Joins(table: Slots<nat>, v: State)
    requires table.Valid() && Reachable(v) && table.live == v.q.slots
    ensures Coupled(table, v)
  {
  }

  lemma NothingGone(m: map<nat, nat>)
    ensures m - {} == m
  {
  }

  lemma DispatchAdds(v: State, op: nat, slot: nat)
    requires Reachable(v) && op in v.q.tasks && slot !in v.q.slots
    ensures Enabled(v, EDispatch(op, slot)) && Reachable(Apply(v, EDispatch(op, slot)))
    ensures Apply(v, EDispatch(op, slot)).q.slots == v.q.slots[slot := v.q.tasks[op]]
  {
    hide Reachable, Leads;
    StillReachable(v, EDispatch(op, slot));
  }

  lemma StillReachable(v: State, e: Event)
    requires Reachable(v) && Enabled(v, e)
    ensures Reachable(Apply(v, e))
  {
    hide Leads, Apply, Enabled;
    var v0, es :| Init(v0) && Leads(v0, es, v);
    LeadsOn(v0, es, v, e);
  }

  lemma {:induction false} LeadsOn(v: State, es: seq<Event>, w: State, e: Event)
    requires Leads(v, es, w) && Enabled(w, e)
    ensures Leads(v, es + [e], Apply(w, e))
    decreases |es|
  {
    hide Apply, Enabled;
    if es == [] {
      assert (es + [e])[1..] == [];
    } else {
      LeadsOn(Apply(v, es[0]), es[1..], w, e);
      assert (es + [e])[1..] == es[1..] + [e];
    }
  }

  /** The poller's look-up is Get, and Get finds the cell. */
  method LooksUp(table: Slots<nat>, ghost v: State, slot: nat) returns (cell: nat, found: bool)
    requires v.poller.PGot? && v.poller.cqe.userData == slot && Coupled(table, v)
    ensures found && Enabled(v, ELookUp) && Apply(v, ELookUp).poller == PCell(v.poller.cqe, cell)
    ensures Coupled(table, Apply(v, ELookUp))
  {
    Split(table, v);
    hide *;
    LookUpIsGet(v);
    cell, found := table.Get(slot, 0);
    Joins(table, Apply(v, ELookUp));
  }

  lemma LookUpIsGet(v: State)
    requires Reachable(v) && v.poller.PGot?
    ensures v.poller.cqe.userData in v.q.slots && Enabled(v, ELookUp) && Reachable(Apply(v, ELookUp))
    ensures Apply(v, ELookUp).poller == PCell(v.poller.cqe, v.q.slots[v.poller.cqe.userData])
    ensures Apply(v, ELookUp).q.slots == v.q.slots
  {
    hide Reachable, Leads;
    SlotLeadsHome(v);
    StillReachable(v, ELookUp);
  }

  /** The poller's deletion is Del of a live index, as Del asks. */
  method Deletes(table: Slots<nat>, ghost v: State, slot: nat)
    requires v.poller.PDel? && v.poller.cqe.userData == slot && !table.midDel && Coupled(table, v)
    modifies table, table.bitmap, table.pollerBitmap, table.tasks
    ensures Enabled(v, EReclaim) && Coupled(table, Apply(v, EReclaim))
  {
    Split(table, v);
    hide *;
    ReclaimIsDel(v);
    table.Del(slot);
    Joins(table, Apply(v, EReclaim));
  }

  lemma ReclaimIsDel(v: State)
    requires Reachable(v) && v.poller.PDel?
    ensures v.poller.cqe.userData in v.q.slots && Enabled(v, EReclaim) && Reachable(Apply(v, EReclaim))
    ensures Apply(v, EReclaim).q.slots == v.q.slots - {v.poller.cqe.userData}
  {
    ReclaimedSlot(v);
    hide Reachable, Leads;
    StillReachable(v, EReclaim);
  }

  lemma ReclaimedSlot(v: State)
    requires Reachable(v) && v.poller.PDel?
    ensures v.poller.cqe.userData in v.q.slots
  {
    ReachableInv(v);
    hide Reachable, WorkersInv, CqInv, SlotInv, CellInv;
    PollerStage(v);
    OpAt(v, v.poller.cqe.op);
  }

  /** No other step of the completion path touches the table. */
  lemma OthersLeaveSlots(v: State, e: Event)
    requires Enabled(v, e) && !e.EDispatch? && !(e.EReclaim? && v.poller.PDel?)
    ensures Apply(v, e).q.slots == v.q.slots
  {
  }
}
