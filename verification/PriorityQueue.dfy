/** A bounded binary heap in an array: the entry with the smallest weight is on top. */
module PriorityQueues {
  datatype Slot<T> = Slot(weight: int, payload: T)

  function ParentIdx(i: nat): (p: nat)
    requires i > 0
    ensures p < i
  {
    (i - 1) / 2
  }

  function ChildrenStart(i: nat): (c: nat)
    ensures c > i
  {
    2 * i + 1
  }

  /** Parent and children are each other's inverse. */
  lemma Family(i: nat, c: nat)
    requires c > 0
    ensures ParentIdx(c) == i <==> c == ChildrenStart(i) || c == ChildrenStart(i) + 1
  {
  }

  // ---------------------------------------------------------------- heaps as sequences

  predicate Ordered<T>(s: seq<Slot<T>>, c: nat)
    requires 0 < c < |s|
  {
    s[ParentIdx(c)].weight <= s[c].weight
  }

  predicate Heap<T>(s: seq<Slot<T>>) {
    forall c :: 0 < c < |s| ==> Ordered(s, c)
  }

  /** A heap but for the entry at `i`, which may be lighter than its ancestors. */
  predicate HeapAbove<T>(s: seq<Slot<T>>, i: nat) {
    && i < |s|
    && (forall c :: 0 < c < |s| && c != i ==> Ordered(s, c))
    && (forall c :: 0 < c < |s| && i > 0 && ParentIdx(c) == i ==> s[ParentIdx(i)].weight <= s[c].weight)
  }

  /** A heap but for the entry at `i`, which may be heavier than its descendants. */
  predicate HeapBelow<T>(s: seq<Slot<T>>, i: nat) {
    && (forall c :: 0 < c < |s| && ParentIdx(c) != i ==> Ordered(s, c))
    && (forall c :: 0 < c < |s| && ParentIdx(c) == i && 0 < i < |s| ==> s[ParentIdx(i)].weight <= s[c].weight)
  }

  function Swapped<T>(s: seq<Slot<T>>, i: nat, j: nat): seq<Slot<T>>
    requires i < |s| && j < |s|
  {
    s[i := s[j]][j := s[i]]
  }

  lemma SwapKeepsBag<T>(s: seq<Slot<T>>, i: nat, j: nat)
    requires i < |s| && j < |s|
    ensures multiset(Swapped(s, i, j)) == multiset(s)
  {
  }

  lemma {:induction false} TopIsLightest<T>(s: seq<Slot<T>>, i: nat)
    requires Heap(s) && i < |s|
    ensures s[0].weight <= s[i].weight
    decreases i
  {
    if i > 0 {
      assert Ordered(s, i);
      TopIsLightest(s, ParentIdx(i));
    }
  }

  lemma SiftUp<T>(s: seq<Slot<T>>, i: nat)
    requires HeapAbove(s, i) && i > 0 && s[ParentIdx(i)].weight > s[i].weight
    ensures HeapAbove(Swapped(s, ParentIdx(i), i), ParentIdx(i))
  {
    var p := ParentIdx(i);
    var t := Swapped(s, p, i);
    forall c | 0 < c < |t| && c != p ensures Ordered(t, c) {
      if c != i { assert Ordered(s, c); }
    }
    forall c | 0 < c < |t| && p > 0 && ParentIdx(c) == p ensures t[ParentIdx(p)].weight <= t[c].weight {
      assert Ordered(s, p);
      if c != i { assert Ordered(s, c); }
    }
  }

  lemma SiftedUp<T>(s: seq<Slot<T>>, i: nat)
    requires HeapAbove(s, i) && (i == 0 || s[ParentIdx(i)].weight <= s[i].weight)
    ensures Heap(s)
  {
  }

  lemma Appended<T>(s: seq<Slot<T>>, e: Slot<T>)
    requires Heap(s)
    ensures HeapAbove(s + [e], |s|)
  {
    var t := s + [e];
    forall c | 0 < c < |t| && c != |s| ensures Ordered(t, c) {
      assert Ordered(s, c);
    }
  }

  /** The last entry moved to the top, and one entry less. */
  function Headless<T>(s: seq<Slot<T>>): (t: seq<Slot<T>>)
    requires |s| > 0
    ensures |t| == |s| - 1
  {
    s[0 := s[|s| - 1]][..|s| - 1]
  }

  lemma Beheaded<T>(s: seq<Slot<T>>)
    requires Heap(s) && |s| > 0
    ensures HeapBelow(Headless(s), 0)
  {
    var t := Headless(s);
    forall c | 0 < c < |t| && ParentIdx(c) != 0 ensures Ordered(t, c) {
      assert Ordered(s, c);
    }
  }

  lemma HeadTaken<T>(s: seq<Slot<T>>)
    requires |s| > 0
    ensures multiset(Headless(s)) == multiset(s) - multiset{s[0]}
  {
    var n := |s| - 1;
    if n > 0 {
      var mid := s[1..n];
      assert s == [s[0]] + mid + [s[n]];
      assert Headless(s) == [s[n]] + mid;
    } else {
      assert s == [s[0]];
      assert Headless(s) == [];
    }
  }

  lemma Sink<T>(s: seq<Slot<T>>, i: nat, pick: nat)
    requires HeapBelow(s, i) && Picked(s, i, pick) && i < |s| && pick < |s| && s[i].weight > s[pick].weight
    ensures HeapBelow(Swapped(s, i, pick), pick)
  {
    PickedIsLighter(s, i, pick);
    var t := Swapped(s, i, pick);
    forall c | 0 < c < |t| && ParentIdx(c) != pick ensures Ordered(t, c) {
      if ParentIdx(c) != i { assert Ordered(s, c); }
    }
    forall c | 0 < c < |t| && ParentIdx(c) == pick ensures t[ParentIdx(pick)].weight <= t[c].weight {
      assert Ordered(s, c);
    }
  }

  lemma Sunk<T>(s: seq<Slot<T>>, i: nat)
    requires HeapBelow(s, i)
    requires forall c :: 0 < c < |s| && ParentIdx(c) == i ==> s[i].weight <= s[c].weight
    ensures Heap(s)
  {
    forall c | 0 < c < |s| ensures Ordered(s, c) {
    }
  }

  lemma Childless<T>(s: seq<Slot<T>>, i: nat)
    requires HeapBelow(s, i) && ChildrenStart(i) >= |s|
    ensures Heap(s)
  {
    Sunk(s, i);
  }

  /** The child to compare with: the left one, unless there is a lighter right one. */
  predicate Picked<T>(s: seq<Slot<T>>, i: nat, pick: nat) {
    var l := ChildrenStart(i);
    && l < |s|
    && pick == if l + 1 < |s| && s[l + 1].weight < s[l].weight then l + 1 else l
  }

  lemma PickedIsLighter<T>(s: seq<Slot<T>>, i: nat, pick: nat)
    requires Picked(s, i, pick)
    ensures i < pick < |s| && ParentIdx(pick) == i
    ensures forall c :: 0 < c < |s| && ParentIdx(c) == i ==> s[pick].weight <= s[c].weight
  {
  }

  lemma Below<T>(s: seq<Slot<T>>, i: nat, pick: nat)
    requires Picked(s, i, pick)
    ensures i < pick < |s|
  {
  }

  lemma Settled<T>(s: seq<Slot<T>>, i: nat, pick: nat)
    requires HeapBelow(s, i) && Picked(s, i, pick) && i < |s| && pick < |s| && s[i].weight <= s[pick].weight
    ensures Heap(s)
  {
    PickedIsLighter(s, i, pick);
    Sunk(s, i);
  }

  // ---------------------------------------------------------------- what a queue's user sees

  /** Taking `e` out of `bag` was right: no entry is lighter. */
  ghost predicate Lightest<T>(bag: multiset<Slot<T>>, e: Slot<T>) {
    e in bag && forall x :: x in bag ==> e.weight <= x.weight
  }

  /** `out` lists what successive pops take out of `bag`. */
  ghost predicate Pops<T>(bag: multiset<Slot<T>>, out: seq<Slot<T>>)
    decreases |out|
  {
    out == [] || (Lightest(bag, out[0]) && Pops(bag - multiset{out[0]}, out[1..]))
  }

  lemma {:induction false} PopsAreFrom<T>(bag: multiset<Slot<T>>, out: seq<Slot<T>>)
    requires Pops(bag, out)
    ensures multiset(out) <= bag
    decreases |out|
  {
    if out != [] {
      PopsAreFrom(bag - multiset{out[0]}, out[1..]);
      assert out == [out[0]] + out[1..];
    }
  }

  /** Successive pops come in order of weight; once they have emptied the queue they are all of it. */
  lemma {:induction false} PopsAreSorted<T>(bag: multiset<Slot<T>>, out: seq<Slot<T>>)
    requires Pops(bag, out)
    ensures forall i, j :: 0 <= i < j < |out| ==> out[i].weight <= out[j].weight
    ensures |out| == |bag| ==> multiset(out) == bag
    decreases |out|
  {
    PopsAreFrom(bag, out);
    if out != [] {
      var rest := bag - multiset{out[0]};
      PopsAreSorted(rest, out[1..]);
      PopsAreFrom(rest, out[1..]);
      forall j | 1 <= j < |out| ensures out[0].weight <= out[j].weight {
        assert out[1..][j - 1] in multiset(out[1..]);
      }
      forall i, j | 0 <= i < j < |out| ensures out[i].weight <= out[j].weight {
        if i > 0 { assert out[1..][i - 1].weight <= out[1..][j - 1].weight; }
      }
    }
    if |out| == |bag| { SameSize(multiset(out), bag); }
  }

  lemma SameSize<X>(a: multiset<X>, b: multiset<X>)
    requires a <= b && |a| == |b|
    ensures a == b
  {
    assert b == a + (b - a);
    assert |b - a| == 0;
  }

  // ---------------------------------------------------------------- the queue

  class PriorityQueue<T(0)> {
    const data: array<Slot<T>>
    var len: nat

    ghost function Entries(): (s: seq<Slot<T>>)
      reads this, data
      requires len <= data.Length
    {
      data[..len]
    }

    /** Entries in heap order; a negative weight marks every slot beyond them as absent. */
    ghost predicate Valid()
      reads this, data
    {
      && len <= data.Length
      && Heap(Entries())
      && forall i :: len <= i < data.Length ==> data[i].weight == -1
    }

    constructor (capacity: nat, zero: T)
      ensures Valid() && fresh(data) && len == 0 && data.Length == capacity
    {
      data := new Slot<T>[capacity](_ => Slot(-1, zero));
      len := 0;
    }

    method Swap(i: nat, j: nat)
      requires i < len && j < len <= data.Length
      modifies data
      ensures Entries() == Swapped(old(Entries()), i, j)
      ensures forall k :: len <= k < data.Length ==> data[k] == old(data[k])
    {
      data[i], data[j] := data[j], data[i];
    }

    /** The child that Pop compares with: the lighter of the two, or the only one. */
    method Pick(idx: nat, lidx: nat) returns (pickIdx: nat)
      requires lidx == ChildrenStart(idx) && lidx < len <= data.Length
      ensures pickIdx < len && Picked(Entries(), idx, pickIdx)
    {
      var ridx := lidx + 1;
      if ridx >= len {
        pickIdx := lidx;
      } else if data[lidx].weight <= data[ridx].weight {
        pickIdx := lidx;
      } else {
        pickIdx := ridx;
      }
    }

    /** Push's second half: let the last entry rise to where it belongs. */
    method RaiseLast()
      requires 0 < len <= data.Length && HeapAbove(Entries(), len - 1)
      modifies data
      ensures Heap(Entries()) && multiset(Entries()) == old(multiset(Entries()))
      ensures forall i :: len <= i < data.Length ==> data[i] == old(data[i])
    {
      hide HeapAbove, Heap, Swapped, ParentIdx;
      var idx: nat := len - 1;
      while idx > 0
        invariant idx < len && HeapAbove(Entries(), idx)
        invariant multiset(Entries()) == old(multiset(Entries()))
        invariant forall i :: len <= i < data.Length ==> data[i] == old(data[i])
      {
        var pidx := ParentIdx(idx);
        if data[pidx].weight > data[idx].weight {
          SiftUp(Entries(), idx);
          SwapKeepsBag(Entries(), pidx, idx);
          Swap(pidx, idx);
        } else {
          break;
        }
        idx := pidx;
      }
      SiftedUp(Entries(), idx);
    }

    method Push(weight: int, payload: T) returns (ok: bool)
      requires Valid()
      modifies this, data
      ensures Valid()
      ensures ok <==> old(len) < data.Length
      ensures len == if ok then old(len) + 1 else old(len)
      ensures multiset(Entries()) ==
              old(multiset(Entries())) + (if ok then multiset{Slot(weight, payload)} else multiset{})
    {
      if len == data.Length { return false; }
      hide HeapAbove, Heap;
      Appended(Entries(), Slot(weight, payload));
      data[len] := Slot(weight, payload);
      len := len + 1;
      assert Entries() == old(Entries()) + [Slot(weight, payload)];
      RaiseLast();
      ok := true;
    }

    /** Pop's second half: let the entry on top sink to where it belongs. */
    method SinkTop()
      requires len <= data.Length && HeapBelow(Entries(), 0)
      modifies data
      ensures Heap(Entries()) && multiset(Entries()) == old(multiset(Entries()))
      ensures forall i :: len <= i < data.Length ==> data[i] == old(data[i])
    {
      hide HeapBelow, Heap, Swapped, ParentIdx, ChildrenStart, Picked;
      var idx := 0;
      while idx < len
        invariant HeapBelow(Entries(), idx)
        invariant multiset(Entries()) == old(multiset(Entries()))
        invariant forall i :: len <= i < data.Length ==> data[i] == old(data[i])
        decreases len - idx
      {
        var lidx := ChildrenStart(idx);
        if lidx >= len {
          Childless(Entries(), idx);
          return;
        }
        var pickIdx := Pick(idx, lidx);
        if data[idx].weight <= data[pickIdx].weight {
          Settled(Entries(), idx, pickIdx);
          return;
        }
        Sink(Entries(), idx, pickIdx);
        Below(Entries(), idx, pickIdx);
        SwapKeepsBag(Entries(), idx, pickIdx);
        Swap(idx, pickIdx);
        idx := pickIdx;
      }
      PastTheEnd(Entries(), idx);
    }

    /** The last entry replaces the top one, and its old slot is marked absent. */
    method TakeTop(lastIdx: nat, zero: T)
      requires 0 < len <= data.Length && lastIdx == len - 1
      requires forall i :: len <= i < data.Length ==> data[i].weight == -1
      modifies this`len, data
      ensures len == lastIdx && Entries() == Headless(old(Entries()))
      ensures forall i :: len <= i < data.Length ==> data[i].weight == -1
    {
      data[0] := data[lastIdx];
      data[lastIdx] := Slot(-1, zero);
      len := len - 1;
    }

    method Pop(zero: T) returns (v: T, ok: bool)
      requires Valid()
      modifies this, data
      ensures Valid()
      ensures ok <==> old(len) > 0
      ensures len == if ok then old(len) - 1 else old(len)
      ensures !ok ==> v == zero && Entries() == old(Entries())
      ensures ok ==> v == old(data[0]).payload && Lightest(old(multiset(Entries())), old(data[0]))
      ensures ok ==> multiset(Entries()) == old(multiset(Entries())) - multiset{old(data[0])}
    {
      if len == 0 { return zero, false; }
      LightestOnTop(Entries());
      hide HeapBelow, Heap, Lightest, Headless;
      v := data[0].payload;
      ok := true;
      var lastIdx := len - 1;
      Beheaded(Entries());
      HeadTaken(Entries());
      TakeTop(lastIdx, zero);
      SinkTop();
    }
  }

  lemma PastTheEnd<T>(s: seq<Slot<T>>, i: nat)
    requires HeapBelow(s, i) && i >= |s|
    ensures Heap(s)
  {
    Sunk(s, i);
  }

  lemma LightestOnTop<T>(s: seq<Slot<T>>)
    requires Heap(s) && |s| > 0
    ensures Lightest(multiset(s), s[0])
  {
    forall x | x in multiset(s) ensures s[0].weight <= x.weight {
      var i :| 0 <= i < |s| && s[i] == x;
      TopIsLightest(s, i);
    }
  }

  lemma MinusHead<X>(bag: multiset<X>, out: seq<X>)
    requires out != []
    ensures (bag - multiset{out[0]}) - multiset(out[1..]) == bag - multiset(out)
  {
    assert multiset(out) == multiset{out[0]} + multiset(out[1..]) by { assert out == [out[0]] + out[1..]; }
  }

  lemma {:induction false} OnePopMore<T>(bag: multiset<Slot<T>>, out: seq<Slot<T>>, e: Slot<T>)
    requires Pops(bag, out) && Lightest(bag - multiset(out), e)
    ensures Pops(bag, out + [e])
    decreases |out|
  {
    if out == [] {
      assert bag - multiset(out) == bag;
      assert (out + [e])[1..] == [];
    } else {
      var rest := bag - multiset{out[0]};
      MinusHead(bag, out);
      OnePopMore(rest, out[1..], e);
      assert (out + [e])[1..] == out[1..] + [e];
    }
  }

  lemma NoPops<T>(bag: multiset<Slot<T>>)
    ensures Pops(bag, []) && bag - multiset([]) == bag
  {
  }

  lemma MinusOne<X>(bag: multiset<X>, out: seq<X>, e: X)
    ensures bag - multiset(out + [e]) == bag - multiset(out) - multiset{e}
  {
  }

  function Payloads<T>(s: seq<Slot<T>>): (ps: seq<T>)
    ensures |ps| == |s| && forall i :: 0 <= i < |s| ==> ps[i] == s[i].payload
  {
    seq(|s|, i requires 0 <= i < |s| => s[i].payload)
  }

  lemma OnePayloadMore<T>(s: seq<Slot<T>>, e: Slot<T>)
    ensures Payloads(s + [e]) == Payloads(s) + [e.payload]
  {
  }

  /** Pop until nothing is left: every entry once, in order of weight. */
  method Drain<T(0)>(q: PriorityQueue<T>, zero: T) returns (got: seq<T>, ghost taken: seq<Slot<T>>)
    requires q.Valid()
    modifies q, q.data
    ensures q.Valid() && q.len == 0
    ensures multiset(taken) == old(multiset(q.Entries()))
    ensures forall i, j :: 0 <= i < j < |taken| ==> taken[i].weight <= taken[j].weight
    ensures got == Payloads(taken)
  {
    hide Lightest, Heap, Pops, Payloads;
    ghost var all := multiset(q.Entries());
    got, taken := [], [];
    NoPops(all);
    var going := true;
    while going
      invariant q.Valid() && (going || q.len == 0)
      invariant Pops(all, taken) && multiset(q.Entries()) == all - multiset(taken)
      invariant |taken| + q.len == |all|
      invariant got == Payloads(taken)
      decreases q.len, going
    {
      ghost var top := if q.len > 0 then q.data[0] else Slot(-1, zero);
      var w, ok := q.Pop(zero);
      if ok {
        OnePopMore(all, taken, top);
        MinusOne(all, taken, top);
        OnePayloadMore(taken, top);
        got, taken := got + [w], taken + [top];
      } else {
        going := false;
      }
    }
    PopsAreSorted(all, taken);
  }
}
