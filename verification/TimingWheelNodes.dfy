/**
 The timing wheel as the program keeps it: a flat pool of doubly linked nodes, one list head per
 bucket, and a stack of free indices.  `wheel` is the value the nodes stand for.
 */
module TimingWheelNodes {
  import opened Arith
  import opened Options
  import opened TimingWheel

  datatype NodeLinks = NodeLinks(prev: nat, next: nat, bucketIndex: nat, generation: nat)

  datatype NodeValue<F> = NodeValue(fd: int, callback: Option<F>)

  datatype Call<F> = Call(callback: F, fd: int)

  /** The callbacks a list's timers make, head first. */
  function Calls<F>(ts: seq<Timer<F>>): seq<Call<F>> {
    if ts == [] then []
    else
      var t := ts[|ts| - 1];
      (if t.callback.Some? then [Call(t.callback.value, t.fd)] else []) + Calls(ts[..|ts| - 1])
  }

  /** The places from `k` on, towards the head, whose timers have a callback. */
  ghost function Bearers<F>(ts: seq<Timer<F>>, k: nat): set<nat> {
    set j: nat | k <= j < |ts| && ts[j].callback.Some?
  }

  /** The places whose timers make that very call. */
  ghost function Making<F>(ts: seq<Timer<F>>, call: Call<F>): set<nat> {
    set j: nat | j < |ts| && ts[j].callback == Some(call.callback) && ts[j].fd == call.fd
  }

  lemma BearersStep<F>(ts: seq<Timer<F>>, k: nat)
    requires ts != [] && k < |ts|
    ensures var last := |ts| - 1;
            && |Bearers(ts, k)| == |Bearers(ts[..last], k)| + (if ts[last].callback.Some? then 1 else 0)
            && Bearers(ts, last + 1) == {}
  {
    var last := |ts| - 1;
    assert Bearers(ts, k) == Bearers(ts[..last], k) + if ts[last].callback.Some? then {last} else {};
  }

  lemma MakingStep<F>(ts: seq<Timer<F>>, call: Call<F>)
    requires ts != []
    ensures var t, rest := ts[|ts| - 1], ts[..|ts| - 1];
            |Making(ts, call)| ==
            |Making(rest, call)| + (if t.callback == Some(call.callback) && t.fd == call.fd then 1 else 0)
  {
    var last := |ts| - 1;
    assert Making(ts, call) == Making(ts[..last], call) +
      if ts[last].callback == Some(call.callback) && ts[last].fd == call.fd then {last} else {};
  }

  /** Each timer with a callback makes its call once, after those of the timers nearer to the head. */
  lemma {:induction false} CallsMatch<F>(ts: seq<Timer<F>>)
    ensures |Calls(ts)| == |Bearers(ts, 0)|
    ensures forall k :: 0 <= k < |ts| && ts[k].callback.Some? ==>
              var place := |Bearers(ts, k + 1)|;
              place < |Calls(ts)| && Calls(ts)[place] == Call(ts[k].callback.value, ts[k].fd)
  {
    if ts == [] {
      assert Bearers(ts, 0) == {};
    } else {
      var last, rest := |ts| - 1, ts[..|ts| - 1];
      CallsMatch(rest);
      BearersStep(ts, 0);
      forall k | 0 <= k < |ts| && ts[k].callback.Some?
        ensures var place := |Bearers(ts, k + 1)|;
                place < |Calls(ts)| && Calls(ts)[place] == Call(ts[k].callback.value, ts[k].fd)
      {
        if k < last { BearersStep(ts, k + 1); } else { BearersStep(ts, k); }
      }
    }
  }

  /** A call is made exactly as often as there are timers to make it. */
  lemma {:induction false} CallsCounted<F>(ts: seq<Timer<F>>, call: Call<F>)
    ensures multiset(Calls(ts))[call] == |Making(ts, call)|
  {
    if ts == [] {
      assert Making(ts, call) == {};
    } else {
      var t, rest := ts[|ts| - 1], ts[..|ts| - 1];
      CallsCounted(rest, call);
      MakingStep(ts, call);
      if t.callback.Some? {
        assert multiset(Calls(ts)) == multiset{Call(t.callback.value, t.fd)} + multiset(Calls(rest));
      }
    }
  }

  function HeadOf<F>(ts: seq<Timer<F>>): nat {
    if ts == [] then INVALID else ts[|ts| - 1].index
  }

  lemma EmptyHead<F>()
    ensures HeadOf<F>([]) == INVALID && Calls<F>([]) == []
  {
  }

  lemma CallsStep<F>(made: seq<Call<F>>, ts: seq<Timer<F>>)
    requires ts != []
    ensures var t := ts[|ts| - 1];
            made + Calls(ts) ==
            (if t.callback.Some? then made + [Call(t.callback.value, t.fd)] else made) + Calls(ts[..|ts| - 1])
  {
    var t, rest := ts[|ts| - 1], Calls(ts[..|ts| - 1]);
    Regroup(made, if t.callback.Some? then [Call(t.callback.value, t.fd)] else [], rest);
  }

  lemma Regroup<X>(a: seq<X>, b: seq<X>, c: seq<X>)
    ensures a + (b + c) == (a + b) + c && a + [] == a
  {
  }

  /** The 32-bit sum under the mask. */
  function Epoch(current: nat, ttl: nat): (b: nat)
    ensures b < BUCKETS
  {
    (current + ttl) % W32 % BUCKETS
  }

  lemma EpochIsTarget<F>(w: Wheel<F>, ttl: nat)
    ensures Epoch(w.current, ttl) == Target(w, ttl)
  {
    WrapThenIndex(w.current + ttl, W32, BUCKETS, 0x10_0000);
  }

  lemma AddRefused<F>(w: Wheel<F>, ttl: nat, fd: int, cb: Option<F>)
    requires WellFormed(w) && !Accepts(w, ttl)
    ensures TimingWheel.Add(w, ttl, fd, cb) == w
  {
  }

  /** What Add leaves of the wheel's outline. */
  lemma AddOutline<F>(w: Wheel<F>, ttl: nat, fd: int, cb: Option<F>)
    requires WellFormed(w) && Accepts(w, ttl)
    ensures var w' := TimingWheel.Add(w, ttl, fd, cb);
            && w'.current == w.current && w'.free == w.free[..|w.free| - 1] && |w'.slots| == |w.slots| == BUCKETS
            && HeadOf(w'.slots[Target(w, ttl)]) == NextNode(w)
            && forall b :: 0 <= b < BUCKETS && b != Target(w, ttl) ==> w'.slots[b] == w.slots[b]
  {
  }

  // ---------------------------------------------------------------- what the nodes hold

  /** The k-th timer of bucket b sits in its node: forward link, bucket and payload. */
  ghost predicate Linked<F>(ls: seq<NodeLinks>, vs: seq<NodeValue<F>>, ts: seq<Timer<F>>, b: nat, k: nat)
    requires k < |ts|
  {
    var i := ts[k].index;
    && i < |ls| && i < |vs|
    && ls[i].next == (if k == 0 then INVALID else ts[k - 1].index)
    && ls[i].bucketIndex == b
    && vs[i] == NodeValue(ts[k].fd, ts[k].callback)
  }

  ghost predicate BackLinked<F>(ls: seq<NodeLinks>, ts: seq<Timer<F>>, k: nat)
    requires k < |ts|
  {
    var i := ts[k].index;
    i < |ls| && ls[i].prev == (if k == |ts| - 1 then INVALID else ts[k + 1].index)
  }

  ghost predicate Unused<F>(ls: seq<NodeLinks>, vs: seq<NodeValue<F>>, i: nat) {
    i < |ls| && i < |vs| && ls[i].prev == INVALID && ls[i].next == INVALID && vs[i].callback.None?
  }

  /** The nodes hold the wheel, but for the back links of bucket `except`. */
  ghost predicate Holds<F>(ls: seq<NodeLinks>, vs: seq<NodeValue<F>>, w: Wheel<F>, except: nat) {
    && WellFormed(w) && |ls| == |vs| == |w.home| <= INVALID
    && (forall i :: 0 <= i < |ls| ==> ls[i].generation == w.released[i] % W32)
    && (forall b, k :: 0 <= b < BUCKETS && 0 <= k < |w.slots[b]| ==> Linked(ls, vs, w.slots[b], b, k))
    && (forall b, k :: 0 <= b < BUCKETS && b != except && 0 <= k < |w.slots[b]| ==> BackLinked(ls, w.slots[b], k))
    && (forall p :: 0 <= p < |w.free| ==> Unused(ls, vs, w.free[p]))
  }

  /** releaseNode, on the two pools. */
  function Cleared(l: NodeLinks): NodeLinks {
    NodeLinks(INVALID, INVALID, l.bucketIndex, (l.generation + 1) % W32)
  }

  lemma ReleaseHolds<F>(ls: seq<NodeLinks>, vs: seq<NodeValue<F>>, w: Wheel<F>, b: nat)
    requires Holds(ls, vs, w, b) && b < BUCKETS && w.slots[b] != []
    ensures var i := Top(w, b).index;
            && i < |ls| && i < |vs|
            && Holds(ls[i := Cleared(ls[i])], vs[i := vs[i].(callback := None)], ReleaseTop(w, b), b)
  {
    var i := Top(w, b).index;
    var ls', vs', w' := ls[i := Cleared(ls[i])], vs[i := vs[i].(callback := None)], ReleaseTop(w, b);
    ReleaseTopWellFormed(w, b);
    WrappedNext(w.released[i], W32);
    forall c, k | 0 <= c < BUCKETS && 0 <= k < |w'.slots[c]| ensures Linked(ls', vs', w'.slots[c], c, k) {
      assert Linked(ls, vs, w.slots[c], c, k);
    }
    forall c, k | 0 <= c < BUCKETS && c != b && 0 <= k < |w'.slots[c]| ensures BackLinked(ls', w'.slots[c], k) {
      assert BackLinked(ls, w.slots[c], k);
    }
    forall p | 0 <= p < |w'.free| ensures Unused(ls', vs', w'.free[p]) {
      if p < |w.free| { assert Unused(ls, vs, w.free[p]); }
    }
  }

  /** With its bucket empty, the exception is void. */
  lemma NothingExcepted<F>(ls: seq<NodeLinks>, vs: seq<NodeValue<F>>, w: Wheel<F>, b: nat)
    requires Holds(ls, vs, w, b) && b < BUCKETS && w.slots[b] == []
    ensures Holds(ls, vs, w, BUCKETS)
  {
  }

  lemma ClockHolds<F>(ls: seq<NodeLinks>, vs: seq<NodeValue<F>>, w: Wheel<F>, b: nat)
    requires Holds(ls, vs, w, BUCKETS) && b < BUCKETS
    ensures Holds(ls, vs, w.(current := (w.current + 1) % BUCKETS), b)
  {
    ClockKeepsPlaces(w);
  }

  /** Add's writes to the links: the new node, then the old head's back link. */
  function Inserted(ls: seq<NodeLinks>, i: nat, b: nat, oldHead: nat): seq<NodeLinks>
    requires i < |ls| && (oldHead == INVALID || oldHead < |ls|)
  {
    var ls' := ls[i := NodeLinks(INVALID, oldHead, b, ls[i].generation)];
    if oldHead == INVALID then ls' else ls'[oldHead := ls'[oldHead].(prev := i)]
  }

  lemma HeadInRange<F>(ls: seq<NodeLinks>, vs: seq<NodeValue<F>>, w: Wheel<F>, except: nat, b: nat)
    requires Holds(ls, vs, w, except) && b < BUCKETS
    ensures HeadOf(w.slots[b]) == INVALID <==> w.slots[b] == []
    ensures w.slots[b] != [] ==> HeadOf(w.slots[b]) < |ls|
  {
    if w.slots[b] != [] { assert Linked(ls, vs, w.slots[b], b, |w.slots[b]| - 1); }
  }

  lemma HeldShape<F>(ls: seq<NodeLinks>, vs: seq<NodeValue<F>>, w: Wheel<F>, except: nat)
    requires Holds(ls, vs, w, except)
    ensures WellFormed(w) && w.current < BUCKETS == |w.slots| && |ls| == |vs| == |w.home| == |w.released| <= INVALID
    ensures w.free != [] ==> NextNode(w) < |ls| && ls[NextNode(w)].generation == w.released[NextNode(w)] % W32
  {
  }

  lemma TopLinked<F>(ls: seq<NodeLinks>, vs: seq<NodeValue<F>>, w: Wheel<F>, except: nat, b: nat)
    requires Holds(ls, vs, w, except) && b < BUCKETS
    ensures b < |w.slots| && (HeadOf(w.slots[b]) == INVALID <==> w.slots[b] == [])
    ensures w.slots[b] != [] ==>
              var i := HeadOf(w.slots[b]);
              && i == Top(w, b).index && i < |ls| && i < |vs|
              && ls[i].next == HeadOf(w.slots[b][..|w.slots[b]| - 1])
              && vs[i] == NodeValue(Top(w, b).fd, Top(w, b).callback)
  {
    if w.slots[b] != [] { assert Linked(ls, vs, w.slots[b], b, |w.slots[b]| - 1); }
  }

  lemma InsertHolds<F>(ls: seq<NodeLinks>, vs: seq<NodeValue<F>>, w: Wheel<F>, ttl: nat, fd: int, cb: Option<F>)
    requires Holds(ls, vs, w, BUCKETS) && Accepts(w, ttl)
    requires NextNode(w) < |ls|
    requires HeadOf(w.slots[Target(w, ttl)]) == INVALID || HeadOf(w.slots[Target(w, ttl)]) < |ls|
    ensures Holds(Inserted(ls, NextNode(w), Target(w, ttl), HeadOf(w.slots[Target(w, ttl)])),
                  vs[NextNode(w) := NodeValue(fd, cb)], TimingWheel.Add(w, ttl, fd, cb), BUCKETS)
  {
    var i, b, head := NextNode(w), Target(w, ttl), HeadOf(w.slots[Target(w, ttl)]);
    var ls', vs', w' := Inserted(ls, i, b, head), vs[i := NodeValue(fd, cb)], TimingWheel.Add(w, ttl, fd, cb);
    AddWellFormed(w, ttl, fd, cb);
    HeadInRange(ls, vs, w, BUCKETS, b);
    forall c, k | 0 <= c < BUCKETS && 0 <= k < |w'.slots[c]|
      ensures Linked(ls', vs', w'.slots[c], c, k) && BackLinked(ls', w'.slots[c], k)
    {
      if k < |w.slots[c]| { assert Linked(ls, vs, w.slots[c], c, k) && BackLinked(ls, w.slots[c], k); }
    }
    forall p | 0 <= p < |w'.free| ensures Unused(ls', vs', w'.free[p]) {
      assert Unused(ls, vs, w.free[p]);
    }
  }

  /** The next turn of Tick's loop drains what is left after this one. */
  lemma DrainTurn<F>(w: Wheel<F>, b: nat)
    requires WellFormed(w) && b < BUCKETS == |w.slots| && w.slots[b] != []
    ensures var w' := ReleaseTop(w, b);
            && WellFormed(w') && |w'.slots| == BUCKETS && w'.slots[b] == w.slots[b][..|w.slots[b]| - 1]
            && Drain(w', b) == Drain(w, b)
  {
    ReleaseTopWellFormed(w, b);
  }

  class Nodes<F> {
    var currentBucket: nat
    const buckets: array<nat>
    const links: array<NodeLinks>
    const values: array<NodeValue<F>>
    var freeNodes: seq<nat>
    ghost var wheel: Wheel<F>

    ghost predicate ValidBut(except: nat)
      reads this, buckets, links, values
    {
      && Holds(links[..], values[..], wheel, except)
      && buckets.Length == BUCKETS && links.Length == values.Length
      && currentBucket == wheel.current && freeNodes == wheel.free
      && forall b :: 0 <= b < BUCKETS && b != except ==> buckets[b] == HeadOf(wheel.slots[b])
    }

    ghost predicate Valid()
      reads this, buckets, links, values
    {
      ValidBut(BUCKETS)
    }

    constructor (maxConnections: nat)
      requires maxConnections <= INVALID
      ensures Valid() && wheel == New(maxConnections)
      ensures fresh(buckets) && fresh(links) && fresh(values)
    {
      currentBucket := 0;
      buckets := new nat[BUCKETS](_ => INVALID);
      links := new NodeLinks[maxConnections](_ => NodeLinks(INVALID, INVALID, 0, 0));
      values := new NodeValue<F>[maxConnections](_ => NodeValue(0, None));
      freeNodes := seq(maxConnections, i => i);
      wheel := New(maxConnections);
      new;
      NewWellFormed<F>(maxConnections);
    }

    /** Unlink and free the node at the head of bucket `b`, which Tick is emptying. */
    method ReleaseNode(idx: nat, ghost b: nat)
      requires ValidBut(b) && b < BUCKETS == |wheel.slots| && wheel.slots[b] != [] && idx == Top(wheel, b).index
      modifies links, values, this`freeNodes, this`wheel
      ensures ValidBut(b) && old(WellFormed(wheel)) && wheel == ReleaseTop(old(wheel), b)
    {
      hide WellFormed, Holds;
      HeldShape(links[..], values[..], wheel, b);
      ReleaseHolds(links[..], values[..], wheel, b);
      links[idx] := links[idx].(generation := (links[idx].generation + 1) % W32);
      links[idx] := links[idx].(prev := INVALID);
      links[idx] := links[idx].(next := INVALID);
      values[idx] := values[idx].(callback := None);
      freeNodes := freeNodes + [idx];
      assert links[..] == old(links[..])[idx := Cleared(old(links[idx]))];
      assert values[..] == old(values[..])[idx := old(values[idx]).(callback := None)];
      wheel := ReleaseTop(wheel, b);
    }

    method Tick() returns (calls: seq<Call<F>>)
      requires Valid()
      modifies this, buckets, links, values
      ensures Valid()
      ensures old(WellFormed(wheel)) && wheel == TimingWheel.Tick(old(wheel))
      ensures calls == Calls(old(wheel.slots[wheel.current]))
    {
      hide WellFormed, Holds, HeadOf, Calls, ReleaseTop;
      HeldShape(links[..], values[..], wheel, BUCKETS);
      var bucketToProcess := currentBucket;
      currentBucket := (currentBucket + 1) % BUCKETS;
      var currentIdx := buckets[bucketToProcess];
      buckets[bucketToProcess] := INVALID;
      ClockKeepsPlaces(wheel);
      ClockHolds(links[..], values[..], wheel, bucketToProcess);
      wheel := wheel.(current := (wheel.current + 1) % BUCKETS);
      calls := [];
      while currentIdx != INVALID
        invariant ValidBut(bucketToProcess) && bucketToProcess < BUCKETS && buckets[bucketToProcess] == INVALID
        invariant WellFormed(wheel) && |wheel.slots| == BUCKETS
        invariant currentIdx == HeadOf(wheel.slots[bucketToProcess])
        invariant Drain(wheel, bucketToProcess) == TimingWheel.Tick(old(wheel))
        invariant calls + Calls(wheel.slots[bucketToProcess]) == Calls(old(wheel.slots[wheel.current]))
        decreases |wheel.slots[bucketToProcess]|
      {
        TopLinked(links[..], values[..], wheel, bucketToProcess, bucketToProcess);
        var nextIdx := links[currentIdx].next;
        var val := values[currentIdx];
        CallsStep(calls, wheel.slots[bucketToProcess]);
        if val.callback.Some? {
          calls := calls + [Call(val.callback.value, val.fd)];
        }
        DrainTurn(wheel, bucketToProcess);
        ReleaseNode(currentIdx, bucketToProcess);
        currentIdx := nextIdx;
      }
      TopLinked(links[..], values[..], wheel, bucketToProcess, bucketToProcess);
      EmptyHead<F>();
      NothingExcepted(links[..], values[..], wheel, bucketToProcess);
    }

    /** Make a node the head of a bucket's list. */
    method InsertHead(idx: nat, bucket: nat)
      requires idx < links.Length && bucket < buckets.Length
      requires buckets[bucket] == INVALID || buckets[bucket] < links.Length
      modifies buckets, links
      ensures links[..] == Inserted(old(links[..]), idx, bucket, old(buckets[bucket]))
      ensures buckets[bucket] == idx
      ensures forall b :: 0 <= b < buckets.Length && b != bucket ==> buckets[b] == old(buckets[b])
    {
      links[idx] := links[idx].(bucketIndex := bucket);
      var oldHeadIdx := buckets[bucket];
      links[idx] := links[idx].(next := oldHeadIdx);
      links[idx] := links[idx].(prev := INVALID);
      if oldHeadIdx != INVALID {
        links[oldHeadIdx] := links[oldHeadIdx].(prev := idx);
      }
      buckets[bucket] := idx;
    }

    method SetValue(idx: nat, fd: int, cb: Option<F>)
      requires idx < values.Length
      modifies values
      ensures values[..] == old(values[..])[idx := NodeValue(fd, cb)]
    {
      values[idx] := values[idx].(fd := fd);
      values[idx] := values[idx].(callback := cb);
    }

    method Add(ttlSeconds: nat, fd: int, cb: Option<F>) returns (id: TimerId)
      requires Valid() && ttlSeconds < W32
      modifies this, buckets, links, values
      ensures Valid()
      ensures old(WellFormed(wheel)) && wheel == TimingWheel.Add(old(wheel), ttlSeconds, fd, cb)
      ensures id == IdOf(old(wheel), ttlSeconds)
      ensures old(Accepts(wheel, ttlSeconds)) <==> id.index < links.Length
    {
      hide WellFormed, Holds, Target, HeadOf, TimingWheel.Add, Inserted, Epoch;
      HeldShape(links[..], values[..], wheel, BUCKETS);
      if |freeNodes| == 0 || ttlSeconds == 0 {
        AddRefused(wheel, ttlSeconds, fd, cb);
        return TimerId(INVALID, 0);
      }
      ghost var vs := values[..];
      var idx := freeNodes[|freeNodes| - 1];
      freeNodes := freeNodes[..|freeNodes| - 1];
      id := TimerId(idx, links[idx].generation);
      SetValue(idx, fd, cb);
      var targetEpoch := Epoch(currentBucket, ttlSeconds);
      EpochIsTarget(wheel, ttlSeconds);
      TopLinked(links[..], vs, wheel, BUCKETS, targetEpoch);
      InsertHolds(links[..], vs, wheel, ttlSeconds, fd, cb);
      AddOutline(wheel, ttlSeconds, fd, cb);
      InsertHead(idx, targetEpoch);
      wheel := TimingWheel.Add(wheel, ttlSeconds, fd, cb);
    }
  }
}
