/**
 The timing wheel as values: a list of timers for each of the 4096 buckets, and a stack of free
 nodes.  The last timer of a bucket's list is its head.  `serial`, `released` and `home` are
 history: they number the timers, count each node's releases without wrap-around, and say where
 each node is.
 */
module TimingWheel {
  import opened Arith
  import opened Options

  const BUCKETS: nat := 4096
  const INVALID: nat := 0xFFFF_FFFF

  datatype Timer<F> = Timer(serial: nat, index: nat, fd: int, callback: Option<F>)

  datatype Home = Free(at: nat) | Slot(bucket: nat, at: nat)

  datatype Wheel<F> = Wheel(
    current: nat,
    slots: seq<seq<Timer<F>>>,
    free: seq<nat>,
    released: seq<nat>,
    home: seq<Home>,
    serial: nat
  )

  datatype TimerId = TimerId(index: nat, generation: nat)

  function New<F>(n: nat): Wheel<F> {
    Wheel(0, seq(BUCKETS, _ => []), seq(n, i => i), seq(n, _ => 0), seq(n, (i: nat) => Free(i)), 0)
  }

  /** Every node is in one place, and `home` says which. */
  ghost predicate WellFormed<F>(w: Wheel<F>) {
    && w.current < BUCKETS && |w.slots| == BUCKETS && |w.home| == |w.released|
    && (forall p :: 0 <= p < |w.free| ==> w.free[p] < |w.home| && w.home[w.free[p]] == Free(p))
    && (forall b, k :: 0 <= b < BUCKETS && 0 <= k < |w.slots[b]| ==>
          w.slots[b][k].index < |w.home| && w.home[w.slots[b][k].index] == Slot(b, k))
    && (forall i :: 0 <= i < |w.home| ==> AtHome(w, i))
  }

  ghost predicate AtHome<F>(w: Wheel<F>, i: nat)
    requires i < |w.home|
  {
    match w.home[i]
    case Free(p) => p < |w.free| && w.free[p] == i
    case Slot(b, k) => b < |w.slots| && k < |w.slots[b]| && w.slots[b][k].index == i
  }

  // ---------------------------------------------------------------- operations

  predicate Accepts<F>(w: Wheel<F>, ttl: nat) {
    w.free != [] && ttl != 0
  }

  /** The node the next timer gets: the top of the free stack. */
  function NextNode<F>(w: Wheel<F>): nat
    requires w.free != []
  {
    w.free[|w.free| - 1]
  }

  function Target<F>(w: Wheel<F>, ttl: nat): (b: nat)
    ensures b < BUCKETS
  {
    (w.current + ttl) % BUCKETS
  }

  function Add<F>(w: Wheel<F>, ttl: nat, fd: int, callback: Option<F>): Wheel<F>
    requires WellFormed(w)
  {
    if !Accepts(w, ttl) then w
    else
      var i, b := NextNode(w), Target(w, ttl);
      w.(free := w.free[..|w.free| - 1],
         slots := w.slots[b := w.slots[b] + [Timer(w.serial, i, fd, callback)]],
         home := w.home[i := Slot(b, |w.slots[b]|)],
         serial := w.serial + 1)
  }

  /** The identifier Add returns. */
  function IdOf<F>(w: Wheel<F>, ttl: nat): TimerId
    requires WellFormed(w)
  {
    if Accepts(w, ttl) then TimerId(NextNode(w), w.released[NextNode(w)] % W32) else TimerId(INVALID, 0)
  }

  function Top<F>(w: Wheel<F>, b: nat): Timer<F>
    requires b < |w.slots| && w.slots[b] != []
  {
    w.slots[b][|w.slots[b]| - 1]
  }

  /** Take the head of a bucket's list out and free its node. */
  function ReleaseTop<F>(w: Wheel<F>, b: nat): Wheel<F>
    requires WellFormed(w) && b < BUCKETS && w.slots[b] != []
  {
    var i := Top(w, b).index;
    w.(free := w.free + [i],
       slots := w.slots[b := w.slots[b][..|w.slots[b]| - 1]],
       released := w.released[i := w.released[i] + 1],
       home := w.home[i := Free(|w.free|)])
  }

  lemma ReleaseTopWellFormed<F>(w: Wheel<F>, b: nat)
    requires WellFormed(w) && b < BUCKETS && w.slots[b] != []
    ensures WellFormed(ReleaseTop(w, b))
  {
    var w', i := ReleaseTop(w, b), Top(w, b).index;
    forall j | 0 <= j < |w'.home| ensures AtHome(w', j) {
      assert AtHome(w, j);
    }
  }

  function Drain<F>(w: Wheel<F>, b: nat): Wheel<F>
    requires WellFormed(w) && b < BUCKETS
    decreases |w.slots[b]|
  {
    if w.slots[b] == [] then w
    else
      ReleaseTopWellFormed(w, b);
      Drain(ReleaseTop(w, b), b)
  }

  lemma ClockKeepsPlaces<F>(w: Wheel<F>)
    requires WellFormed(w)
    ensures WellFormed(w.(current := (w.current + 1) % BUCKETS))
  {
    var v := w.(current := (w.current + 1) % BUCKETS);
    forall i | 0 <= i < |v.home| ensures AtHome(v, i) {
      assert AtHome(w, i);
    }
  }

  function Tick<F>(w: Wheel<F>): Wheel<F>
    requires WellFormed(w)
  {
    ClockKeepsPlaces(w);
    Drain(w.(current := (w.current + 1) % BUCKETS), w.current)
  }

  // ---------------------------------------------------------------- structure

  lemma NewWellFormed<F>(n: nat)
    ensures WellFormed(New<F>(n))
  {
    var w := New<F>(n);
    forall i | 0 <= i < n ensures AtHome(w, i) {
      assert w.home[i] == Free(i) && w.free[i] == i;
    }
  }

  lemma AddWellFormed<F>(w: Wheel<F>, ttl: nat, fd: int, callback: Option<F>)
    requires WellFormed(w)
    ensures WellFormed(Add(w, ttl, fd, callback))
  {
    var w' := Add(w, ttl, fd, callback);
    forall i | 0 <= i < |w'.home| ensures AtHome(w', i) {
      assert AtHome(w, i);
    }
  }

  /** Draining empties one bucket and leaves the others and the clock alone. */
  lemma {:induction false} DrainShape<F>(w: Wheel<F>, b: nat)
    requires WellFormed(w) && b < BUCKETS
    ensures var w' := Drain(w, b);
            && WellFormed(w') && w'.current == w.current && w'.serial == w.serial && |w'.home| == |w.home|
            && w'.slots == w.slots[b := []]
            && (forall i :: 0 <= i < |w.home| ==>
                  w'.released[i] == w.released[i] + (if w.home[i].Slot? && w.home[i].bucket == b then 1 else 0))
            && (forall i :: 0 <= i < |w.home| ==>
                  if w.home[i].Slot? && w.home[i].bucket == b then w'.home[i].Free? else w'.home[i] == w.home[i])
    decreases |w.slots[b]|
  {
    if w.slots[b] == [] {
      assert w.slots == w.slots[b := []];
      forall i | 0 <= i < |w.home| ensures !(w.home[i].Slot? && w.home[i].bucket == b) {
        assert AtHome(w, i);
      }
    } else {
      ReleaseTopWellFormed(w, b);
      var v := ReleaseTop(w, b);
      DrainShape(v, b);
      assert w.slots[b := []] == v.slots[b := []];
    }
  }

  lemma TickShape<F>(w: Wheel<F>)
    requires WellFormed(w)
    ensures var w' := Tick(w);
            && WellFormed(w') && w'.current == (w.current + 1) % BUCKETS && w'.serial == w.serial
            && w'.slots == w.slots[w.current := []] && |w'.home| == |w.home|
  {
    ClockKeepsPlaces(w);
    DrainShape(w.(current := (w.current + 1) % BUCKETS), w.current);
  }

  // ---------------------------------------------------------------- histories

  datatype Op<F> = OpAdd(ttl: nat, fd: int, callback: Option<F>) | OpTick

  function Step<F>(w: Wheel<F>, op: Op<F>): (w': Wheel<F>)
    requires WellFormed(w)
    ensures WellFormed(w')
  {
    match op
    case OpAdd(ttl, fd, callback) => AddWellFormed(w, ttl, fd, callback); Add(w, ttl, fd, callback)
    case OpTick => TickShape(w); Tick(w)
  }

  function Run<F>(w: Wheel<F>, ops: seq<Op<F>>): (w': Wheel<F>)
    requires WellFormed(w)
    ensures WellFormed(w')
    decreases |ops|
  {
    if ops == [] then w else Run(Step(w, ops[0]), ops[1..])
  }

  /** The timers of a list that bear the given serial number. */
  function With<F>(ts: seq<Timer<F>>, serial: nat): seq<Timer<F>> {
    if ts == [] then []
    else
      var t := ts[|ts| - 1];
      With(ts[..|ts| - 1], serial) + (if t.serial == serial then [t] else [])
  }

  /** For each Tick of the history: the timers with that serial number which it fires. */
  function Firings<F>(w: Wheel<F>, ops: seq<Op<F>>, serial: nat): seq<seq<Timer<F>>>
    requires WellFormed(w)
    decreases |ops|
  {
    if ops == [] then []
    else (if ops[0].OpTick? then [With(w.slots[w.current], serial)] else []) +
         Firings(Step(w, ops[0]), ops[1..], serial)
  }

  function Ticks<F>(ops: seq<Op<F>>): nat {
    if ops == [] then 0 else (if ops[0].OpTick? then 1 else 0) + Ticks(ops[1..])
  }

  ghost predicate Absent<F>(w: Wheel<F>, serial: nat)
    requires WellFormed(w)
  {
    serial < w.serial && forall b :: 0 <= b < BUCKETS ==> With(w.slots[b], serial) == []
  }

  ghost predicate Pending<F>(w: Wheel<F>, t: Timer<F>, b: nat)
    requires WellFormed(w)
  {
    && t.serial < w.serial && b < BUCKETS && With(w.slots[b], t.serial) == [t]
    && forall c :: 0 <= c < BUCKETS && c != b ==> With(w.slots[c], t.serial) == []
  }

  /** Serial numbers on the wheel have been given out. */
  ghost predicate Numbered<F>(w: Wheel<F>)
    requires WellFormed(w)
  {
    forall b, k :: 0 <= b < BUCKETS && 0 <= k < |w.slots[b]| ==> w.slots[b][k].serial < w.serial
  }

  lemma {:induction false} Unseen<F>(ts: seq<Timer<F>>, serial: nat)
    requires forall k :: 0 <= k < |ts| ==> ts[k].serial != serial
    ensures With(ts, serial) == []
  {
    if ts != [] { Unseen(ts[..|ts| - 1], serial); }
  }

  lemma WithAdd<F>(ts: seq<Timer<F>>, t: Timer<F>, serial: nat)
    ensures With(ts + [t], serial) == With(ts, serial) + (if t.serial == serial then [t] else [])
  {
    assert (ts + [t])[..|ts|] == ts;
  }

  lemma StepNumbered<F>(w: Wheel<F>, op: Op<F>)
    requires WellFormed(w) && Numbered(w)
    ensures Numbered(Step(w, op))
  {
    if op.OpTick? { TickShape(w); }
  }

  lemma {:induction false} RunNumbered<F>(w: Wheel<F>, ops: seq<Op<F>>)
    requires WellFormed(w) && Numbered(w)
    ensures Numbered(Run(w, ops))
    decreases |ops|
  {
    if ops != [] {
      StepNumbered(w, ops[0]);
      RunNumbered(Step(w, ops[0]), ops[1..]);
    }
  }

  lemma AddStays<F>(w: Wheel<F>, op: Op<F>, t: Timer<F>, b: nat)
    requires WellFormed(w) && op.OpAdd?
    ensures Absent(w, t.serial) ==> Absent(Step(w, op), t.serial)
    ensures Pending(w, t, b) ==> Pending(Step(w, op), t, b) && Step(w, op).current == w.current
  {
    hide WellFormed, With, Target;
    Clock(w);
    if t.serial < w.serial { AddLeaves(w, op, t.serial); }
  }

  /** A new timer has a new number. */
  lemma AddLeaves<F>(w: Wheel<F>, op: Op<F>, serial: nat)
    requires WellFormed(w) && op.OpAdd? && serial < w.serial
    ensures var w' := Step(w, op);
            && w'.current == w.current && serial < w'.serial && |w'.slots| == |w.slots| == BUCKETS
            && forall c :: 0 <= c < BUCKETS ==> With(w'.slots[c], serial) == With(w.slots[c], serial)
  {
    hide With;
    if Accepts(w, op.ttl) {
      WithAdd(w.slots[Target(w, op.ttl)], Timer(w.serial, NextNode(w), op.fd, op.callback), serial);
    }
  }

  lemma {:induction false} NeverFires<F>(w: Wheel<F>, ops: seq<Op<F>>, t: Timer<F>)
    requires WellFormed(w) && Absent(w, t.serial)
    ensures |Firings(w, ops, t.serial)| == Ticks(ops)
    ensures forall j :: 0 <= j < Ticks(ops) ==> Firings(w, ops, t.serial)[j] == []
    decreases |ops|
  {
    if ops != [] {
      if ops[0].OpTick? { TickShape(w); } else { AddStays(w, ops[0], t, 0); }
      NeverFires(Step(w, ops[0]), ops[1..], t);
    }
  }

  /** How many ticks pass before the one that processes bucket `b`. */
  function Wait<F>(w: Wheel<F>, b: nat): nat {
    (b - w.current) % BUCKETS
  }

  /** A pending timer fires in one Tick, the one that reaches its bucket, and in no other. */
  lemma {:induction false} FiresWhenDue<F>(w: Wheel<F>, ops: seq<Op<F>>, t: Timer<F>, b: nat)
    requires WellFormed(w) && Pending(w, t, b)
    ensures |Firings(w, ops, t.serial)| == Ticks(ops)
    ensures forall j :: 0 <= j < Ticks(ops) ==>
              Firings(w, ops, t.serial)[j] == if j == Wait(w, b) then [t] else []
    decreases |ops|
  {
    hide WellFormed, With, Tick, Add, Wait;
    if ops != [] {
      var w' := Step(w, ops[0]);
      if ops[0].OpAdd? {
        AddStays(w, ops[0], t, b);
        FiresWhenDue(w', ops[1..], t, b);
        WaitSame(w, w', b);
      } else {
        TickShape(w);
        Clock(w);
        WithNone<F>(t.serial);
        if b == w.current {
          NeverFires(w', ops[1..], t);
          WaitNone(w, b);
        } else {
          FiresWhenDue(w', ops[1..], t, b);
          WaitLess(w, w', b);
        }
      }
    }
  }

  lemma Clock<F>(w: Wheel<F>)
    requires WellFormed(w)
    ensures w.current < BUCKETS == |w.slots|
  {
  }

  lemma WithNone<F>(serial: nat)
    ensures With<F>([], serial) == []
  {
  }

  lemma WaitSame<F>(w: Wheel<F>, w': Wheel<F>, b: nat)
    requires w'.current == w.current
    ensures Wait(w', b) == Wait(w, b)
  {
  }

  lemma WaitNone<F>(w: Wheel<F>, b: nat)
    requires w.current == b
    ensures Wait(w, b) == 0
  {
  }

  lemma WaitLess<F>(w: Wheel<F>, w': Wheel<F>, b: nat)
    requires w.current < BUCKETS && b < BUCKETS && b != w.current && w'.current == (w.current + 1) % BUCKETS
    ensures Wait(w', b) == Wait(w, b) - 1
  {
  }

  lemma WaitAdded<F>(w: Wheel<F>, ttl: nat)
    requires w.current < BUCKETS
    ensures Wait(w, Target(w, ttl)) == ttl % BUCKETS
  {
    var q := (w.current + ttl) / BUCKETS - ttl / BUCKETS;
    assert Target(w, ttl) - w.current == ttl % BUCKETS - BUCKETS * q;
  }

  /** A timer that Add accepts is on the wheel with a serial number that no other timer has. */
  lemma AddedFires<F>(w: Wheel<F>, ttl: nat, fd: int, callback: Option<F>, ops: seq<Op<F>>)
    requires WellFormed(w) && Numbered(w) && Accepts(w, ttl)
    ensures var w' := Step(w, OpAdd(ttl, fd, callback));
            var t := Timer(w.serial, NextNode(w), fd, callback);
            && |Firings(w', ops, w.serial)| == Ticks(ops)
            && forall j :: 0 <= j < Ticks(ops) ==>
                 Firings(w', ops, w.serial)[j] == if j == ttl % BUCKETS then [t] else []
  {
    hide WellFormed, With, Tick, Wait, Firings, Ticks, Target;
    var w' := Step(w, OpAdd(ttl, fd, callback));
    var t := Timer(w.serial, NextNode(w), fd, callback);
    var b := Target(w, ttl);
    Clock(w);
    forall c | 0 <= c < BUCKETS ensures With(w.slots[c], w.serial) == [] { Unseen(w.slots[c], w.serial); }
    WithAdd(w.slots[b], t, w.serial);
    assert Pending(w', t, b);
    FiresWhenDue(w', ops, t, b);
    WaitSame(w, w', b);
    WaitAdded(w, ttl);
  }

  /** The wheel for `n` nodes after a history. */
  function After<F>(n: nat, history: seq<Op<F>>): (w: Wheel<F>)
    ensures WellFormed(w)
  {
    NewWellFormed<F>(n);
    Run(New(n), history)
  }

  /**
   In every history from a new wheel, a timer that Add accepts fires once if enough ticks follow:
   in the (ttl mod 4096) + 1-th Tick after it, with the descriptor and callback it was given, and
   in no other Tick, whatever was added before or is added later.
   */
  lemma FiresExactlyOnce<F>(n: nat, before: seq<Op<F>>, ttl: nat, fd: int, callback: Option<F>, later: seq<Op<F>>)
    requires Accepts(After(n, before), ttl)
    ensures var w := After(n, before);
            var t := Timer(w.serial, NextNode(w), fd, callback);
            var fired := Firings(Step(w, OpAdd(ttl, fd, callback)), later, t.serial);
            && |fired| == Ticks(later)
            && forall j :: 0 <= j < |fired| ==> fired[j] == if j == ttl % 4096 then [t] else []
  {
    NewWellFormed<F>(n);
    RunNumbered(New<F>(n), before);
    AddedFires(After(n, before), ttl, fd, callback, later);
  }

  // ---------------------------------------------------------------- who is accepted

  /** How many timers are pending. */
  function Load<F>(slots: seq<seq<Timer<F>>>): nat {
    if slots == [] then 0 else Load(slots[..|slots| - 1]) + |slots[|slots| - 1]|
  }

  lemma {:induction false} LoadUpdate<F>(slots: seq<seq<Timer<F>>>, b: nat, ts: seq<Timer<F>>)
    requires b < |slots|
    ensures Load(slots[b := ts]) == Load(slots) - |slots[b]| + |ts|
    decreases |slots|
  {
    var last, slots' := |slots| - 1, slots[b := ts];
    if b == last {
      assert slots'[..last] == slots[..last];
    } else {
      assert slots'[..last] == slots[..last][b := ts];
      LoadUpdate(slots[..last], b, ts);
    }
  }

  lemma {:induction false} NoLoad<F>(slots: seq<seq<Timer<F>>>)
    requires forall b :: 0 <= b < |slots| ==> slots[b] == []
    ensures Load(slots) == 0
    decreases |slots|
  {
    if slots != [] { NoLoad(slots[..|slots| - 1]); }
  }

  /** Every node is free or holds a pending timer. */
  ghost predicate Accounted<F>(w: Wheel<F>, n: nat) {
    |w.free| + Load(w.slots) == n && |w.home| == n
  }

  lemma NewAccounted<F>(n: nat)
    ensures Accounted(New<F>(n), n)
  {
    NoLoad(New<F>(n).slots);
  }

  lemma {:induction false} DrainAccounted<F>(w: Wheel<F>, b: nat, n: nat)
    requires WellFormed(w) && b < BUCKETS && Accounted(w, n)
    ensures Accounted(Drain(w, b), n)
    decreases |w.slots[b]|
  {
    if w.slots[b] != [] {
      var v := ReleaseTop(w, b);
      ReleaseTopWellFormed(w, b);
      LoadUpdate(w.slots, b, w.slots[b][..|w.slots[b]| - 1]);
      DrainAccounted(v, b, n);
    }
  }

  lemma StepAccounted<F>(w: Wheel<F>, op: Op<F>, n: nat)
    requires WellFormed(w) && Accounted(w, n)
    ensures Accounted(Step(w, op), n)
  {
    hide Drain, Load;
    if op.OpTick? {
      ClockKeepsPlaces(w);
      DrainAccounted(w.(current := (w.current + 1) % BUCKETS), w.current, n);
    } else if Accepts(w, op.ttl) {
      var b := Target(w, op.ttl);
      LoadUpdate(w.slots, b, w.slots[b] + [Timer(w.serial, NextNode(w), op.fd, op.callback)]);
    }
  }

  lemma {:induction false} RunAccounted<F>(w: Wheel<F>, ops: seq<Op<F>>, n: nat)
    requires WellFormed(w) && Accounted(w, n)
    ensures Accounted(Run(w, ops), n)
    decreases |ops|
  {
    hide Step, Accounted;
    if ops != [] {
      StepAccounted(w, ops[0], n);
      RunAccounted(Step(w, ops[0]), ops[1..], n);
    }
  }

  /** In every history from a new wheel of `n` nodes, Add refuses only a ttl of zero and a full wheel. */
  lemma AcceptsWhen<F>(n: nat, before: seq<Op<F>>, ttl: nat)
    ensures Accepts(After(n, before), ttl) <==> ttl > 0 && Load(After(n, before).slots) < n
  {
    NewWellFormed<F>(n);
    NewAccounted<F>(n);
    RunAccounted(New<F>(n), before, n);
  }

  /** Without a Tick the nodes are given out from the last one down. */
  lemma {:induction false} RunStacks<F>(w: Wheel<F>, ops: seq<Op<F>>, nodes: seq<nat>)
    requires WellFormed(w) && w.free <= nodes && Ticks(ops) == 0
    ensures Run(w, ops).free <= nodes
    decreases |ops|
  {
    if ops != [] {
      hide WellFormed;
      RunStacks(Step(w, ops[0]), ops[1..], nodes);
    }
  }

  lemma FreshNodes<F>(n: nat, before: seq<Op<F>>)
    requires Ticks(before) == 0 && Load(After(n, before).slots) < n
    ensures var w := After(n, before); w.free != [] && NextNode(w) == n - Load(w.slots) - 1
  {
    NewWellFormed<F>(n);
    NewAccounted<F>(n);
    RunAccounted(New<F>(n), before, n);
    RunStacks(New<F>(n), before, New<F>(n).free);
  }

  lemma {:induction false} DrainLeaves<F>(w: Wheel<F>, b: nat)
    requires WellFormed(w) && b < BUCKETS && w.slots[b] != []
    ensures Drain(w, b).free != [] && NextNode(Drain(w, b)) == w.slots[b][0].index
    decreases |w.slots[b]|
  {
    var v := ReleaseTop(w, b);
    ReleaseTopWellFormed(w, b);
    if v.slots[b] != [] { DrainLeaves(v, b); }
  }

  /** After a Tick that fires something, the node of the oldest timer it fired is the next to be given out. */
  lemma ReusesLastFreed<F>(w: Wheel<F>)
    requires WellFormed(w) && w.slots[w.current] != []
    ensures Tick(w).free != [] && NextNode(Tick(w)) == w.slots[w.current][0].index
  {
    ClockKeepsPlaces(w);
    DrainLeaves(w.(current := (w.current + 1) % BUCKETS), w.current);
  }

  // ---------------------------------------------------------------- identifiers

  /** A node's releases are counted, and a node that leaves the wheel has been released. */
  ghost predicate Counts<F>(w: Wheel<F>, w': Wheel<F>, i: nat) {
    && i < |w.home| == |w.released| && |w'.home| == |w'.released| == |w.home|
    && w.released[i] <= w'.released[i]
    && (w.home[i].Slot? && w'.home[i].Free? ==> w.released[i] < w'.released[i])
  }

  lemma StepCounts<F>(w: Wheel<F>, op: Op<F>, i: nat)
    requires WellFormed(w) && i < |w.home|
    ensures Counts(w, Step(w, op), i)
  {
    hide Drain;
    if op.OpTick? {
      ClockKeepsPlaces(w);
      DrainShape(w.(current := (w.current + 1) % BUCKETS), w.current);
    }
  }

  lemma {:induction false} RunCounts<F>(w: Wheel<F>, ops: seq<Op<F>>, i: nat)
    requires WellFormed(w) && i < |w.home|
    ensures Counts(w, Run(w, ops), i)
    decreases |ops|
  {
    hide Step;
    if ops != [] {
      StepCounts(w, ops[0], i);
      RunCounts(Step(w, ops[0]), ops[1..], i);
    }
  }

  /** How many of the timers of a list sit in node `i`. */
  function Sitting<F>(ts: seq<Timer<F>>, i: nat): nat {
    if ts == [] then 0 else Sitting(ts[..|ts| - 1], i) + (if ts[|ts| - 1].index == i then 1 else 0)
  }

  /** How many timers that sat in node `i` the Ticks of a history have fired. */
  function Fired<F>(w: Wheel<F>, ops: seq<Op<F>>, i: nat): nat
    requires WellFormed(w)
    decreases |ops|
  {
    if ops == [] then 0
    else (if ops[0].OpTick? then Sitting(w.slots[w.current], i) else 0) + Fired(Step(w, ops[0]), ops[1..], i)
  }

  lemma {:induction false} SittingOnce<F>(w: Wheel<F>, b: nat, k: nat, i: nat)
    requires WellFormed(w) && b < BUCKETS && k <= |w.slots[b]| && i < |w.home|
    ensures Sitting(w.slots[b][..k], i) == if w.home[i].Slot? && w.home[i].bucket == b && w.home[i].at < k then 1 else 0
    decreases k
  {
    if k > 0 {
      var ts := w.slots[b][..k];
      assert ts[..k - 1] == w.slots[b][..k - 1];
      SittingOnce(w, b, k - 1, i);
      assert AtHome(w, i);
    }
  }

  lemma StepFired<F>(w: Wheel<F>, op: Op<F>, i: nat)
    requires WellFormed(w) && i < |w.home|
    ensures |Step(w, op).home| == |w.home| == |w.released| == |Step(w, op).released|
    ensures Step(w, op).released[i] == w.released[i] + if op.OpTick? then Sitting(w.slots[w.current], i) else 0
  {
    hide Drain, Sitting;
    if op.OpTick? {
      ClockKeepsPlaces(w);
      var v, ts := w.(current := (w.current + 1) % BUCKETS), w.slots[w.current];
      DrainShape(v, w.current);
      SittingOnce(w, w.current, |ts|, i);
      assert ts[..|ts|] == ts;
      assert AtHome(w, i);
    }
  }

  lemma {:induction false} RunFired<F>(w: Wheel<F>, ops: seq<Op<F>>, i: nat)
    requires WellFormed(w) && i < |w.home|
    ensures |Run(w, ops).home| == |w.home| == |w.released| == |Run(w, ops).released|
    ensures Run(w, ops).released[i] == w.released[i] + Fired(w, ops, i)
    decreases |ops|
  {
    hide Step, WellFormed;
    if ops != [] {
      StepFired(w, ops[0], i);
      RunFired(Step(w, ops[0]), ops[1..], i);
    } else {
      SameShape(w);
    }
  }

  lemma SameShape<F>(w: Wheel<F>)
    requires WellFormed(w)
    ensures |w.home| == |w.released|
  {
  }

  /**
   In every history from a new wheel of `n` nodes, the identifier of an accepted Add names the node
   in which its timer then sits, with the number of timers fired from that node so far, modulo 2^32;
   and a refused Add returns one that names no node.
   */
  lemma IdNamesTheTimer<F>(n: nat, before: seq<Op<F>>, ttl: nat, fd: int, callback: Option<F>)
    requires n <= 0xFFFF_FFFF
    ensures var w := After(n, before);
            var id, w' := IdOf(w, ttl), Step(w, OpAdd(ttl, fd, callback));
            if Accepts(w, ttl) then
              && id.index < n && id.generation == Fired(New<F>(n), before, id.index) % W32
              && exists b :: 0 <= b < BUCKETS && Timer(w.serial, id.index, fd, callback) in w'.slots[b]
            else id == TimerId(0xFFFF_FFFF, 0) && id.index >= n && w' == w
  {
    NewWellFormed<F>(n);
    var w := After(n, before);
    NewAccounted<F>(n);
    RunAccounted(New<F>(n), before, n);
    if Accepts(w, ttl) {
      var i, b := NextNode(w), Target(w, ttl);
      FreeHome(w);
      hide Fired, Run, Load;
      RunFired(New<F>(n), before, i);
      var t := Timer(w.serial, i, fd, callback);
      assert Step(w, OpAdd(ttl, fd, callback)).slots[b] == w.slots[b] + [t];
    }
  }

  /**
   Of two identifiers given out in one history, the later equals the earlier only if both name
   the same node and a whole number of times 2^32, at least once, it was released in between.
   */
  lemma IdsRepeatOnlyAfterWrap<F>(w: Wheel<F>, ttl: nat, fd: int, callback: Option<F>, ops: seq<Op<F>>, ttl2: nat)
    requires WellFormed(w) && Accepts(w, ttl)
    requires Accepts(Run(Step(w, OpAdd(ttl, fd, callback)), ops), ttl2)
    ensures var w2 := Run(Step(w, OpAdd(ttl, fd, callback)), ops);
            var i := NextNode(w);
            && i < |w.released| && i < |w2.released|
            && (NextNode(w2) == i ==> w2.released[i] > w.released[i])
            && (IdOf(w2, ttl2) == IdOf(w, ttl) <==>
                  NextNode(w2) == i && (w2.released[i] - w.released[i]) % W32 == 0)
  {
    hide Step, Run, Counts;
    var v, i := Step(w, OpAdd(ttl, fd, callback)), NextNode(w);
    var w2 := Run(v, ops);
    Added(w, ttl, fd, callback);
    RunCounts(v, ops, i);
    Later(v, w2, i);
    FreeHome(w2);
    SameRemainder(w2.released[i], w.released[i]);
  }

  lemma Added<F>(w: Wheel<F>, ttl: nat, fd: int, callback: Option<F>)
    requires WellFormed(w) && Accepts(w, ttl)
    ensures var v := Step(w, OpAdd(ttl, fd, callback));
            v.released == w.released && |v.home| == |w.home| == |w.released| && NextNode(w) < |w.home| &&
            v.home[NextNode(w)].Slot?
  {
  }

  lemma Later<F>(v: Wheel<F>, w: Wheel<F>, i: nat)
    requires Counts(v, w, i)
    ensures i < |v.home| == |v.released| && |w.home| == |w.released| == |v.home|
    ensures v.released[i] <= w.released[i]
    ensures v.home[i].Slot? && w.home[i].Free? ==> v.released[i] < w.released[i]
  {
  }

  lemma FreeHome<F>(w: Wheel<F>)
    requires WellFormed(w) && w.free != []
    ensures NextNode(w) < |w.home| && w.home[NextNode(w)].Free?
  {
  }

  lemma SameRemainder(a: nat, b: nat)
    requires b <= a
    ensures a % W32 == b % W32 <==> (a - b) % W32 == 0
  {
  }
}
