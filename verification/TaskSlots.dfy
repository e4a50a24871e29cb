/**
 The slot table: a fixed array of task slots handed out by the translator thread and given
 back by the poller thread, with an overflow map behind it.

 The translator owns `bitmap`; the poller only sets bits in `pollerBitmap` and counts them.
 Released bits are absorbed lazily, one word at a time.  `Poller` stands for whatever the
 poller thread does between two accesses of the translator, at the grain of its own stores:
 a deletion is the store of the release bit, then the increment of `delCount`.
 */
module TaskSlots {
  import opened Arith
  import opened Options
  import opened Words

  const W63: nat := 0x8000_0000_0000_0000
  const SYS_IDS: nat := W63
  const MIN_CAPACITY: nat := 4096
  const NO_WAITER_TASK_ID: nat := W64 - 1
  const PERIODICAL_TIMER_TASK_ID: nat := W64 - 1 - (W32 - 1)

  /** 64-bit addition, with wrap-around. */
  function Add64(a: nat, b: nat): nat
    requires a < W64 && b < W64
  {
    if a + b < W64 then a + b else a + b - W64
  }

  /** Equality modulo 2^64 of two sums that are each less than 2^65. */
  predicate Equal64(a: nat, b: nat) {
    a == b || a == b + W64 || a + W64 == b
  }

  ghost predicate ValidCapacity(capacity: int) {
    MIN_CAPACITY <= capacity && PowerOfTwo(capacity)
  }

  /** The distance around a ring of `n` words from `from` to `to`. */
  lemma Ahead(from: nat, to: nat, n: nat) returns (d: nat)
    requires to < n
    ensures d < n && (from + d) % n == to
  {
    var q, here := from / n, from % n;
    assert from == n * q + here;
    if here <= to {
      d := to - here;
      ModUnique(from + d, n, q, to);
    } else {
      d := to + n - here;
      assert n * (q + 1) == n * q + n;
      ModUnique(from + d, n, q + 1, to);
    }
  }

  /** Counting up from a wrapped 64-bit counter, `d` steps lead to ring position `to`. */
  ghost predicate Reaches(from: nat, d: nat, n: nat, to: nat)
    requires n > 0 && from < W64
    decreases d
  {
    if d == 0 then from % n == to else Reaches(Add64(from, 1), d - 1, n, to)
  }

  lemma ReachesItself(from: nat, n: nat)
    requires n > 0 && from < W64
    ensures Reaches(from, 0, n, from % n)
  {
  }

  lemma ReachesOn(from: nat, d: nat, n: nat, to: nat)
    requires n > 0 && from < W64 && Reaches(from, d, n, to)
    ensures if d == 0 then from % n == to else Reaches(Add64(from, 1), d - 1, n, to)
  {
  }

  /** Every ring position is reached within one lap. */
  lemma WithinOneLap(from: nat, n: nat, to: nat) returns (d: nat)
    requires PowerOfTwo(n) && n <= W64 && from < W64 && to < n
    ensures d < n && Reaches(from, d, n, to)
  {
    d := Ahead(from, to, n);
    AheadReaches(from, d, n, to);
  }

  lemma {:induction false} AheadReaches(from: nat, d: nat, n: nat, to: nat)
    requires PowerOfTwo(n) && n <= W64 && from < W64 && (from + d) % n == to
    ensures Reaches(from, d, n, to)
    decreases d
  {
    if d > 0 {
      StepAround(from, d, n);
      AheadReaches(Add64(from, 1), d - 1, n, to);
    }
  }

  /** Stepping a wrapped 64-bit counter steps around a ring whose size divides 2^64. */
  lemma StepAround(from: nat, d: nat, n: nat)
    requires PowerOfTwo(n) && n <= W64 && d > 0
    ensures ((from + 1) % W64 + (d - 1)) % n == (from + d) % n
  {
    var q := (from + 1) / W64;
    assert from + d == W64 * q + ((from + 1) % W64 + (d - 1));
    Pow2Is64();
    SmallerPowerDivides(n, 64);
    var k: nat :| k > 0 && Pow2(64) == n * k;
    assert W64 * q == n * (k * q);
    MulMod(n, k * q, (from + 1) % W64 + (d - 1));
  }

  ghost function InFlight<T>(hot: set<nat>, tasks: seq<T>, overflow: map<nat, T>): map<nat, T>
    requires forall i :: i in hot ==> i < |tasks|
  {
    (map i | i in hot :: tasks[i]) + overflow
  }

  /** Some of the first `cap` bits is clear, or some bit is released. */
  ghost predicate HasSlot(bits: seq<Word>, released: seq<Word>, cap: nat) {
    Positions(bits) != Below(cap) || Positions(released) != {}
  }

  /** Every slot is free or taken, and the two counters of releases differ by what is still to be absorbed. */
  ghost predicate Balanced(cap: nat, taken: set<nat>, released: set<nat>, free: nat,
                           counted: nat, absorbed: nat, midDel: bool)
  {
    && released <= taken && free + |taken| == cap
    && Equal64(counted + (if midDel then 1 else 0), absorbed + |released|)
  }

  /** `live` is what the array holds at taken and unreleased indices, and the overflow. */
  ghost predicate Holds<T>(taken: set<nat>, released: set<nat>, tasks: seq<T>, overflow: map<nat, T>, live: map<nat, T>)
  {
    (forall i :: i in taken ==> i < |tasks|) && live == InFlight(taken - released, tasks, overflow)
  }

  class Slots<T(0)> {
    const cap: nat
    const fallbackMask: nat
    const tasks: array<T>
    const bitmap: array<Word>
    const pollerBitmap: array<Word>
    var wave: nat
    var free: nat
    var delCount: nat
    var lastDelCount: nat
    var fallback: map<nat, T>
    var fallbackWave: nat
    ghost var live: map<nat, T>  // the tasks in flight, by index: what the table stands for
    var midDel: bool  // the poller's position: it has set a release bit and not yet counted it

    ghost function Taken(): set<nat>
      reads bitmap
    {
      Positions(bitmap[..])
    }

    ghost function Released(): set<nat>
      reads pollerBitmap
    {
      Positions(pollerBitmap[..])
    }

    /** What New fixes for good: sizes, masks and distinct arrays. */
    ghost predicate Geometry() {
      && ValidCapacity(cap) && cap < W63
      && cap == BITS * bitmap.Length && PowerOfTwo(bitmap.Length)
      && bitmap != pollerBitmap && pollerBitmap.Length == bitmap.Length && tasks.Length == cap
      && tasks as object !in {bitmap, pollerBitmap}
      && cap * (fallbackMask + 1) == W63 && PowerOfTwo(fallbackMask + 1) && fallbackMask > 0
    }

    /** The ledger of taken and released slots. */
    ghost predicate Counts()
      reads `wave, `free, `delCount, `lastDelCount, `fallbackWave, `midDel, bitmap, pollerBitmap
    {
      && wave < W64 && delCount < W64 && lastDelCount < W64 && fallbackWave < W64
      && Balanced(cap, Taken(), Released(), free, delCount, lastDelCount, midDel)
    }

    /** The tasks in flight are those the array and the map hold. */
    ghost predicate Contents()
      reads `fallback, `live, bitmap, pollerBitmap, tasks
    {
      && (forall i :: i in fallback ==> cap <= i <= cap + fallbackMask)
      && Holds(Taken(), Released(), tasks[..], fallback, live)
    }

    ghost predicate Valid()
      reads this, bitmap, pollerBitmap, tasks
    {
      Geometry() && Counts() && Contents()
    }

    lemma TakenInRange()
      requires Geometry()
      ensures forall i :: i in Taken() ==> i < cap
    {
      PositionsSize(bitmap[..]);
    }

    /** The saturation test at the head of Add: `free | (delCount - lastDelCount) == 0`. */
    predicate GateClosed()
      reads `free, `delCount, `lastDelCount
    {
      free == 0 && delCount == lastDelCount
    }

    /** A slot can be had: some bit is clear, or some release waits to be absorbed. */
    ghost predicate Obtainable()
      reads bitmap, pollerBitmap
    {
      HasSlot(bitmap[..], pollerBitmap[..], cap)
    }

    /**
     The gate is open and there is nothing behind it: the translator absorbed a release bit
     that the poller has not counted yet, and has used the slot up.
     */
    ghost predicate Stale()
      reads `free, `delCount, `lastDelCount, bitmap, pollerBitmap
    {
      !GateClosed() && !Obtainable()
    }

    lemma FullIffNotFree()
      requires Valid()
      ensures Taken() == Below(cap) <==> free == 0
      ensures |Released()| <= |Taken()| <= cap < W63
    {
      TakenInRange();
      SubsetSize(Taken(), Below(cap));
      SubsetSize(Released(), Taken());
    }

    /** One release more absorbed than counted, and no slot left. */
    predicate Overdrawn()
      reads `free, `delCount, `lastDelCount
    {
      free == 0 && Equal64(delCount + 1, lastDelCount)
    }

    /**
     Between deletions the gate is exact.  While the poller is inside one it can be wrong in two
     ways: closed although one release waits, or open with nothing to be had.  The translator's
     own registers tell the second case.
     */
    lemma GateExact()
      requires Valid()
      ensures !midDel ==> (GateClosed() <==> !Obtainable())
      ensures midDel && Obtainable() && GateClosed() ==> |Released()| == 1 && free == 0
      ensures Stale() <==> Overdrawn()
      ensures Stale() ==> midDel
    {
      FullIffNotFree();
      assert |Released()| == 0 <==> Released() == {};
    }

    /** No slot taken, none released, the wave at its start. */
    ghost predicate Empty()
      reads `wave, bitmap, pollerBitmap
    {
      && wave == 0
      && (forall w :: 0 <= w < bitmap.Length ==> bitmap[w] == {})
      && (forall w :: 0 <= w < pollerBitmap.Length ==> pollerBitmap[w] == {})
    }

    /** `size` is the size in bytes of the type parameter. */
    static method New(capacity: int, size: nat) returns (r: Option<Slots<T>>)
      requires capacity < W63  // the range of int
      ensures r.Some? <==> 4096 <= capacity && PowerOfTwo(capacity) && size > 0 && size % 8 == 0
      ensures r.Some? ==>
                && fresh(r.value) && fresh(r.value.bitmap) && fresh(r.value.pollerBitmap) && fresh(r.value.tasks)
                && r.value.Valid() && r.value.cap == capacity
                && r.value.live == map[] && !r.value.midDel && r.value.free == capacity && r.value.Empty()
    {
      if capacity < MIN_CAPACITY {
        return None;
      }
      var bits := 0;
      while Pow2(bits) < capacity
        invariant bits == 0 || Pow2(bits - 1) < capacity
        decreases capacity - Pow2(bits)
      {
        bits := bits + 1;
      }
      if Pow2(bits) != capacity {
        NotPower(capacity, bits);
        return None;
      }
      if size == 0 || size % 8 != 0 {
        return None;
      }
      var s := new Slots<T>(bits);
      r := Some(s);
    }

    constructor (bits: nat)
      requires MIN_CAPACITY <= Pow2(bits) < W63
      ensures Valid() && cap == Pow2(bits) && live == map[] && !midDel && free == cap && Empty()
      ensures fresh(bitmap) && fresh(pollerBitmap) && fresh(tasks)
    {
      var n := Pow2(bits);
      cap := n;
      free := n;
      fallbackMask := W63 / n - 1;
      tasks := new T[n];
      bitmap := new Word[n / BITS](_ => {});
      pollerBitmap := new Word[n / BITS](_ => {});
      wave, delCount, lastDelCount, fallbackWave := 0, 0, 0, 0;
      fallback := map[];
      midDel := false;
      live := map[];
      new;
      hide Geometry, Counts, Contents, PowerOfTwo, ValidCapacity;
      CapacityShape(bits);
      Shaped();
      NothingTaken();
    }

    lemma Shaped()
      requires ValidCapacity(cap) && cap < W63 && tasks.Length == cap
      requires cap == BITS * bitmap.Length && PowerOfTwo(bitmap.Length) && pollerBitmap.Length == bitmap.Length
      requires bitmap != pollerBitmap && tasks as object !in {bitmap, pollerBitmap} && fallbackMask > 0
      requires cap * (fallbackMask + 1) == W63 && PowerOfTwo(fallbackMask + 1)
      ensures Geometry()
    {
    }

    lemma NothingTaken()
      requires Empty() && free == cap && delCount == lastDelCount == fallbackWave == 0 && !midDel
      requires fallback == map[] && live == map[]
      ensures Counts() && Contents()
    {
      assert Taken() == {} && Released() == {};
    }

    // -------------------------------------------------------------- translator

    /** Absorb the releases of word `w`: swap the poller's word out, XOR it in, move the counts. */
    method SyncWord(w: nat)
      requires Valid() && w < bitmap.Length
      modifies bitmap, pollerBitmap, `free, `lastDelCount
      ensures Valid() && live == old(live)
      ensures bitmap[w] == old(bitmap[w]) - old(pollerBitmap[w]) && pollerBitmap[w] == {}
      ensures Taken() == old(Taken()) - Block(w, old(pollerBitmap[w]))
      ensures Released() == old(Released()) - Block(w, old(pollerBitmap[w]))
      ensures free == old(free) + |old(pollerBitmap[w])|
      ensures free + |Released()| == old(free + |Released()|)
    {
      hide *;
      Sizes();
      SyncMoves(w);
      ghost var b1, p1 := bitmap[..][w := Xor(bitmap[w], pollerBitmap[w])], pollerBitmap[..][w := {}];
      var pw := pollerBitmap[w];
      pollerBitmap[w] := {};
      bitmap[w] := Xor(bitmap[w], pw);
      assert bitmap[..] == b1 && pollerBitmap[..] == p1;
      free := free + |pw|;
      lastDelCount := Add64(lastDelCount, |pw|);
      TakenIs();
      Settled();
    }

    lemma TakenIs()
      ensures Taken() == Positions(bitmap[..]) && Released() == Positions(pollerBitmap[..])
    {
    }

    lemma Settled()
      requires Geometry() && wave < W64 && delCount < W64 && lastDelCount < W64 && fallbackWave < W64
      requires Balanced(cap, Taken(), Released(), free, delCount, lastDelCount, midDel)
      requires Holds(Taken(), Released(), tasks[..], fallback, live)
      requires forall i :: i in fallback ==> cap <= i <= cap + fallbackMask
      ensures Valid()
    {
    }

    /** What SyncWord's stores make of the ledger. */
    lemma SyncMoves(w: nat)
      requires Valid() && w < bitmap.Length == pollerBitmap.Length
      ensures var pw := pollerBitmap[w];
              var b1, p1 := bitmap[..][w := Xor(bitmap[w], pw)], pollerBitmap[..][w := {}];
              && Xor(bitmap[w], pw) == bitmap[w] - pw && |pw| < W64
              && Positions(b1) == Taken() - Block(w, pw) && |Positions(b1)| + |pw| == |Taken()|
              && Positions(p1) == Released() - Block(w, pw) && |Positions(p1)| + |pw| == |Released()|
              && wave < W64 && delCount < W64 && lastDelCount < W64 && fallbackWave < W64
              && Add64(lastDelCount, |pw|) < W64
              && (forall i :: i in fallback ==> cap <= i <= cap + fallbackMask)
              && Balanced(cap, Positions(b1), Positions(p1), free + |pw|, delCount, Add64(lastDelCount, |pw|), midDel)
              && Holds(Positions(b1), Positions(p1), tasks[..], fallback, live)
    {
      hide Positions, InFlight, Block, Geometry, Xor;
      FullIffNotFree();
      Absorb(bitmap[..], pollerBitmap[..], w);
    }

    /** The hot path: claim bit `b` of word `w`, whose bit is clear. */
    method Take(w: nat, b: nat, v: T) returns (idx: nat)
      requires Valid() && w < bitmap.Length && b < BITS && b !in bitmap[w]
      modifies bitmap, tasks, `free, `live
      ensures Valid() && idx == BITS * w + b && idx < cap
      ensures idx !in old(live) && live == old(live)[idx := v]
      ensures bitmap[w] == SetBit(old(bitmap[w]), b) && pollerBitmap[..] == old(pollerBitmap[..])
      ensures Taken() == old(Taken()) + {idx} && Released() == old(Released())
      ensures free == old(free) - 1
    {
      hide Positions, InFlight, Equal64, Geometry, SetBit;
      Sizes();
      idx := BITS * w + b;
      ghost var now := live[idx := v];
      TakeClaims(w, b, v);
      ghost var b1, t1 := bitmap[..][w := SetBit(bitmap[w], b)], tasks[..][idx := v];
      bitmap[w] := SetBit(bitmap[w], b);
      assert bitmap[..] == b1;
      tasks[idx] := v;
      assert tasks[..] == t1;
      free := free - 1;
      live := now;
    }

    lemma NotFull(idx: nat)
      requires Valid() && idx < cap && idx !in Taken()
      ensures free > 0
    {
      FullIffNotFree();
      hide Positions, Counts, Contents;
      assert idx in Below(cap);
    }

    /** What Take's stores make of the ledger. */
    lemma TakeClaims(w: nat, b: nat, v: T)
      requires Valid() && w < bitmap.Length && b < BITS && b !in bitmap[w]
      ensures var idx, b1 := BITS * w + b, bitmap[..][w := SetBit(bitmap[w], b)];
              && idx < cap == tasks.Length && idx !in live && free > 0
              && Positions(b1) == Taken() + {idx} && |Positions(b1)| == |Taken()| + 1
              && Released() <= Positions(b1)
              && (forall i :: i in Positions(b1) ==> i < tasks.Length)
              && live[idx := v] == InFlight(Positions(b1) - Released(), tasks[..][idx := v], fallback)
    {
      hide Positions, InFlight, Equal64, PowerOfTwo, ValidCapacity, SetBit;
      var idx := BITS * w + b;
      ghost var b0, p0 := bitmap[..], pollerBitmap[..];
      Claim(b0, p0, w, b, idx);
      PositionsInRange(b0[w := SetBit(b0[w], b)]);
      NotFull(idx);
      UntakenNotLive(idx);
      InFlightTake(Positions(b0) - Positions(p0), idx, tasks[..], v, fallback);
    }

    // -------------------------------------------------------------- poller

    /** The first store of a hot deletion: set the release bit.  Only a live index may be deleted. */
    method MarkReleased(idx: nat)
      requires Valid() && !midDel && idx < cap
      modifies pollerBitmap, `midDel, `live
      ensures Valid() <==> old(idx in live)
      ensures midDel && live == old(live) - {idx} && Released() == old(Released()) + {idx}
      ensures idx / BITS < pollerBitmap.Length && idx % BITS in pollerBitmap[idx / BITS]
      ensures forall w :: 0 <= w < pollerBitmap.Length ==> old(pollerBitmap[w]) <= pollerBitmap[w]
    {
      hide Positions, InFlight, PowerOfTwo, ValidCapacity;
      WordOf(idx);
      ghost var b0, p0 := bitmap[..], pollerBitmap[..];
      ghost var now := live - {idx};
      ghost var ok := idx in live;
      ghost var p1 := p0[idx / BITS := SetBit(p0[idx / BITS], idx % BITS)];
      if ok { LiveMarked(idx, p1); } else { DeadMarked(idx, p1); }
      MarkAdds(p0, idx);
      pollerBitmap[idx / BITS] := SetBit(pollerBitmap[idx / BITS], idx % BITS);
      assert pollerBitmap[..] == p1;
      midDel := true;
      live := now;
    }

    /** Marking a live index keeps the ledger. */
    lemma LiveMarked(idx: nat, p1: seq<Word>)
      requires Valid() && idx < cap && idx in live && idx / BITS < pollerBitmap.Length
      requires p1 == pollerBitmap[..][idx / BITS := SetBit(pollerBitmap[..][idx / BITS], idx % BITS)]
      ensures Positions(p1) <= Taken() && |Positions(p1)| == |Released()| + 1
      ensures live - {idx} == InFlight(Taken() - Positions(p1), tasks[..], fallback)
    {
      var hot := Taken() - Released();
      TakenInRange();
      Release(bitmap[..], pollerBitmap[..], idx);
      InFlightDelete(hot, idx, tasks[..], fallback);
    }

    /** Marking any other index breaks it. */
    lemma DeadMarked(idx: nat, p1: seq<Word>)
      requires Valid() && !midDel && idx < cap && idx !in live && idx / BITS < pollerBitmap.Length
      requires p1 == pollerBitmap[..][idx / BITS := SetBit(pollerBitmap[..][idx / BITS], idx % BITS)]
      ensures !(Positions(p1) <= Taken()) || !Equal64(delCount + 1, lastDelCount + |Positions(p1)|)
    {
      FullIffNotFree();
      MarkAdds(pollerBitmap[..], idx);
      if idx in Released() {
        assert Positions(p1) == Released();
      } else {
        assert idx !in Taken() by { assert idx in Taken() ==> idx in Taken() - Released(); }
      }
    }

    /** The second store of a hot deletion. */
    method CountRelease()
      requires Geometry() && delCount < W64 && lastDelCount < W64 && midDel
      modifies `delCount, `midDel
      ensures Valid() <==> old(Valid())
      ensures !midDel && live == old(live) && delCount == Add64(old(delCount), 1)
    {
      PositionsSize(pollerBitmap[..]);
      delCount := Add64(delCount, 1);
      midDel := false;
    }

    lemma OverflowDeleted(idx: nat)
      requires Valid() && idx >= cap
      ensures Holds(Taken(), Released(), tasks[..], fallback - {idx}, live - {idx})
      ensures forall i :: i in fallback - {idx} ==> cap <= i <= cap + fallbackMask
      ensures (fallback - {idx}).Keys <= fallback.Keys && |fallback - {idx}| <= |fallback|
    {
      TakenInRange();
      InFlightOverflow(Taken() - Released(), idx, tasks[..], fallback);
      SubsetSize((fallback - {idx}).Keys, fallback.Keys);
    }

    lemma Parts()
      requires Valid()
      ensures Geometry() && Counts()
    {
    }

    lemma Whole()
      requires Geometry() && Counts() && Holds(Taken(), Released(), tasks[..], fallback, live)
      requires forall i :: i in fallback ==> cap <= i <= cap + fallbackMask
      ensures Valid()
    {
    }

    /** Deleting an overflow index touches neither the bitmaps nor the counts. */
    method DelOverflow(idx: nat)
      requires Valid() && idx >= cap
      modifies `fallback, `live
      ensures Valid() && live == old(live) - {idx}
      ensures fallback.Keys <= old(fallback.Keys) && |fallback| <= |old(fallback)|
      ensures !old(Stale()) ==> !Stale()
    {
      hide *;
      Parts();
      OverflowDeleted(idx);
      fallback := fallback - {idx};
      live := live - {idx};
      Whole();
    }

    method Del(idx: nat)
      requires Valid() && !midDel
      modifies pollerBitmap, `live, `midDel, `delCount, `fallback
      ensures Valid() <==> (idx < cap ==> old(idx in live))  // a live index is deleted at most once
      ensures !midDel && live == old(live) - {idx}
      ensures idx >= cap ==> Released() == old(Released()) && delCount == old(delCount)
      ensures idx > SYS_IDS ==> live == old(live)
      ensures idx < cap ==> Released() == old(Released()) + {idx} && delCount == Add64(old(delCount), 1)
    {
      if idx >= cap {
        if idx > SYS_IDS {
          ReservedNeverLive(idx);
          return;
        }
        DelOverflow(idx);
        return;
      }
      MarkReleased(idx);
      CountRelease();
    }

    /** No slot is ever numbered like a reserved task id. */
    lemma ReservedNeverLive(idx: nat)
      requires Valid()
      ensures forall i :: i in live ==> i < 0x8000_0000_0000_0000
      ensures idx >= SYS_IDS ==> idx !in live && live - {idx} == live
      ensures NO_WAITER_TASK_ID == 0xFFFF_FFFF_FFFF_FFFF && NO_WAITER_TASK_ID !in live
      ensures PERIODICAL_TIMER_TASK_ID == 0xFFFF_FFFF_0000_0000 && PERIODICAL_TIMER_TASK_ID !in live
    {
      TakenInRange();
      OverflowInRange(cap, fallbackMask);
    }

    /** `zero` is the zero value of the type parameter, which a failing map lookup yields. */
    method Get(idx: nat, zero: T) returns (t: T, found: bool)
      requires Valid()
      ensures idx in live ==> found && t == live[idx]
      ensures found <==> idx in Taken() || idx in fallback
      ensures idx >= cap && idx !in live ==> t == zero
      ensures idx < cap ==> t == tasks[idx]
    {
      if idx < cap {
        TakenInRange();
        t, found := tasks[idx], idx % BITS in bitmap[idx / BITS];
      } else {
        TakenInRange();
        found := idx in fallback;
        t := if found then fallback[idx] else zero;
      }
    }

    lemma UntakenNotLive(idx: nat)
      requires Valid() && idx < cap && idx !in Taken()
      ensures idx !in live && idx !in fallback && idx < tasks.Length
    {
    }

    /** The live hot indices are exactly `bitmap` minus `pollerBitmap`. */
    lemma HotLive(idx: nat)
      requires Valid() && idx < cap
      ensures idx in live <==>
                idx % BITS in bitmap[idx / BITS] && idx % BITS !in pollerBitmap[idx / BITS]
      ensures idx in live ==> live[idx] == tasks[idx]
    {
      LiveAt(idx);
      WordOf(idx);
      hide Valid, InFlight;
      assert idx in Taken() <==> idx % BITS in bitmap[idx / BITS];
      assert idx in Released() <==> idx % BITS in pollerBitmap[idx / BITS];
    }

    /** What `live` says of one hot index. */
    lemma LiveAt(idx: nat)
      requires Valid() && idx < cap == tasks.Length
      ensures idx in live <==> idx in Taken() && idx !in Released()
      ensures idx in live ==> live[idx] == tasks[idx]
    {
      hide Positions, Geometry, Balanced;
      assert idx !in fallback;
    }

    lemma OverflowLive(idx: nat)
      requires Valid() && idx >= cap
      ensures idx in live <==> idx in fallback
      ensures idx in live ==> live[idx] == fallback[idx]
    {
      TakenInRange();
    }

    lemma WordOf(idx: nat)
      requires Valid() && idx < cap
      ensures BITS != 0 && idx / BITS < bitmap.Length && idx / BITS < pollerBitmap.Length
    {
    }

    lemma PendingNotStale(idx: nat)
      requires idx in Released()
      ensures Obtainable() && !Stale()
    {
    }

    lemma Counters()
      requires Valid()
      ensures Geometry() && delCount < W64 && lastDelCount < W64 && fallbackWave < W64
    {
    }

    /** One store of the poller: finish the deletion under way, or begin one of a live index. */
    method PollerStep() returns (ghost gone: set<nat>)
      requires Valid()
      modifies pollerBitmap, `live, `midDel, `delCount, `fallback
      ensures Valid() && gone <= old(live).Keys && live == old(live) - gone
      ensures forall w :: 0 <= w < pollerBitmap.Length ==> old(pollerBitmap[w]) <= pollerBitmap[w]
      ensures fallback.Keys <= old(fallback.Keys) && |fallback| <= |old(fallback)|
      ensures !old(Stale()) ==> !Stale()
    {
      hide *;
      gone := {};
      var idx :| 0 <= idx;
      if midDel {
        Counters();
        CountRelease();
        GateExact();
      } else if idx >= cap {
        if idx in fallback {
          OverflowLive(idx);
          gone := {idx};
          DelOverflow(idx);
        }
      } else {
        WordOf(idx);
        if idx % BITS in bitmap[idx / BITS] && idx % BITS !in pollerBitmap[idx / BITS] {
          HotLive(idx);
          gone := {idx};
          MarkReleased(idx);
          PendingNotStale(idx);
        }
      }
    }

    /** Whatever the poller thread does between two accesses of the translator. */
    method PollerRuns(busy: bool) returns (ghost gone: set<nat>)
      requires Valid()
      modifies pollerBitmap, `live, `midDel, `delCount, `fallback
      ensures Valid() && gone <= old(live).Keys && live == old(live) - gone
      ensures forall w :: 0 <= w < pollerBitmap.Length ==> old(pollerBitmap[w]) <= pollerBitmap[w]
      ensures fallback.Keys <= old(fallback.Keys) && |fallback| <= |old(fallback)|
      ensures !old(Stale()) ==> !Stale()
      ensures !busy ==> gone == {} && midDel == old(midDel) && delCount == old(delCount) &&
                        pollerBitmap[..] == old(pollerBitmap[..]) && fallback == old(fallback)
    {
      hide *;
      gone := {};
      if !busy {
        return;
      }
      var steps :| 0 <= steps;
      for k := 0 to steps
        invariant Valid() && gone <= old(live).Keys && live == old(live) - gone
        invariant forall w :: 0 <= w < pollerBitmap.Length ==> old(pollerBitmap[w]) <= pollerBitmap[w]
        invariant fallback.Keys <= old(fallback.Keys) && |fallback| <= |old(fallback)|
        invariant !old(Stale()) ==> !Stale()
      {
        ghost var more := PollerStep();
        MinusMinus(old(live), gone, more);
        gone := gone + more;
      }
    }

    // -------------------------------------------------------------- Add

    lemma Sizes()
      requires Valid()
      ensures Geometry() && wave < W64
      ensures 0 < bitmap.Length == pollerBitmap.Length && bitmap != pollerBitmap
      ensures tasks as object !in {bitmap, pollerBitmap}
    {
    }

    method MoveWave()
      requires Valid()
      modifies `wave
      ensures Valid() && wave == Add64(old(wave), 1)
    {
      wave := Add64(wave, 1);
    }

    /** Absorb a word that has releases; the poller may run between the test and the swap. */
    method AbsorbWord(w: nat, busy: bool) returns (ghost gone: set<nat>)
      requires Valid() && w < bitmap.Length && pollerBitmap[w] != {}
      modifies bitmap, pollerBitmap, `free, `lastDelCount, `live, `midDel, `delCount, `fallback
      ensures Valid() && gone <= old(live).Keys && live == old(live) - gone
      ensures FirstZero(bitmap[w]) < BITS && pollerBitmap[w] == {}
      ensures fallback.Keys <= old(fallback.Keys) && |fallback| <= |old(fallback)|
      ensures !busy ==> gone == {} && midDel == old(midDel) && free > old(free) &&
                        free + |Released()| == old(free + |Released()|) && Released() <= old(Released())
    {
      hide Valid, InFlight, Equal64, PowerOfTwo, Positions, Block, FirstZero, Geometry;
      Sizes();
      gone := PollerRuns(busy);
      ReleasedWasTaken(w);
      ghost var freed :| freed in pollerBitmap[w];
      SyncWord(w);
      assert freed !in bitmap[w];
    }

    lemma ReleasedWasTaken(w: nat)
      requires Valid() && w < bitmap.Length
      ensures pollerBitmap.Length == bitmap.Length && pollerBitmap[w] <= bitmap[w]
    {
      SubsetByWord(pollerBitmap[..], bitmap[..], w);
    }

    /**
     What an Add does to the word that serves it: set its lowest clear bit, or, if it has none,
     take its releases out of the poller's word first.
     */
    ghost predicate Served(b0: Word, p0: Word, b1: Word, p1: Word) {
      if FirstZero(b0) < BITS then b1 == SetBit(b0, FirstZero(b0)) && p1 == p0 else p1 == {}
    }

    /**
     One pass of the loop in Add: take a clear bit of the current word, or absorb its releases,
     or move the wave to the next word.  The poller may run between the test and the swap.
     */
    method Pass(v: T, busy: bool) returns (idx: Option<nat>, ghost gone: set<nat>)
      requires Valid()
      modifies bitmap, pollerBitmap, tasks, this
      ensures Valid() && gone <= old(live).Keys
      ensures idx.Some? ==> gone == {} && idx.value < cap && idx.value !in old(live) &&
                            live == old(live)[idx.value := v]
      ensures idx.Some? ==> wave == old(wave) && free == old(free) - 1 && Released() == old(Released())
      ensures idx.None? ==> live == old(live) - gone
      ensures var w := old(wave) % bitmap.Length;
              && (idx.Some? <==> FirstZero(old(bitmap[w])) < BITS)
              && (idx.None? && old(pollerBitmap[w]) == {} ==>
                    wave == Add64(old(wave), 1) && free == old(free) && gone == {} &&
                    delCount == old(delCount) && lastDelCount == old(lastDelCount) &&
                    forall k :: 0 <= k < bitmap.Length ==>
                      bitmap[k] == old(bitmap[k]) && pollerBitmap[k] == old(pollerBitmap[k]))
              && (idx.None? && old(pollerBitmap[w]) != {} ==>
                    wave == old(wave) && FirstZero(bitmap[w]) < BITS && pollerBitmap[w] == {} &&
                    (!busy ==> free > old(free)))
              && (idx.Some? ==> Served(old(bitmap[w]), old(pollerBitmap[w]), bitmap[w], pollerBitmap[w]))
      ensures fallback.Keys <= old(fallback.Keys) && |fallback| <= |old(fallback)|
      ensures !busy ==> gone == {}
      ensures !busy ==> midDel == old(midDel) && Released() <= old(Released()) &&
                        free + |Released()| + (if idx.Some? then 1 else 0) == old(free + |Released()|)
    {
      hide Valid, Positions, InFlight, Equal64, PowerOfTwo;
      Sizes();
      gone := {};
      var w := wave % bitmap.Length;
      var b := FirstZero(bitmap[w]);
      if b < BITS {
        ghost var p := pollerBitmap[..][w];
        var i := Take(w, b, v);
        assert pollerBitmap[..][w] == p;
        return Some(i), {};
      }
      if pollerBitmap[w] == {} {
        MoveWave();
        return None, {};
      }
      gone := AbsorbWord(w, busy);
      idx := None;
    }

    /** A word from which the hot path can get a slot. */
    ghost predicate Ready(w: nat)
      requires Geometry() && w < bitmap.Length
      reads bitmap, pollerBitmap
    {
      FirstZero(bitmap[w]) < BITS || pollerBitmap[w] != {}
    }

    /** If a slot can be had at all, some word has it. */
    lemma SomeWordReady() returns (w: nat)
      requires Valid() && Obtainable()
      ensures w < bitmap.Length && Ready(w)
    {
      if Released() != {} {
        var i :| i in Released();
        w := i / BITS;
      } else {
        TakenInRange();
        var i :| i in Below(cap) && i !in Taken();
        w := i / BITS;
        assert i % BITS !in bitmap[w];
      }
    }

    /** One turn of the overflow search: try the index under the overflow wave. */
    method TryOverflow(v: T) returns (idx: nat, stored: bool)
      requires Valid()
      modifies `fallback, `fallbackWave, `live
      ensures Valid() && cap <= idx <= cap + fallbackMask
      ensures idx == old(fallbackWave) % (fallbackMask + 1) + cap
      ensures fallbackWave == Add64(old(fallbackWave), 1)
      ensures stored <==> idx !in old(fallback)
      ensures stored ==> idx !in old(live) && live == old(live)[idx := v]
      ensures !stored ==> fallback == old(fallback) && live == old(live)
    {
      TakenInRange();
      idx := fallbackWave % (fallbackMask + 1) + cap;
      fallbackWave := Add64(fallbackWave, 1);
      stored := idx !in fallback;
      if stored {
        InFlightInsert(Taken() - Released(), idx, tasks[..], v, fallback);
        fallback := fallback[idx := v];
        live := live[idx := v];
      }
    }

    /** One turn of the search and whatever the poller does after it. */
    method OverflowTurn(v: T, busy: bool, ghost target: nat, ghost d: nat)
      returns (idx: nat, stored: bool, ghost gone: set<nat>)
      requires Valid() && target + cap !in fallback
      requires Reaches(fallbackWave, d, fallbackMask + 1, target)
      modifies pollerBitmap, this
      ensures Valid() && gone <= old(live).Keys && cap <= idx <= cap + fallbackMask
      ensures stored ==> gone == {} && idx !in old(live) && live == old(live)[idx := v]
      ensures !stored ==> live == old(live) - gone && d > 0 && target + cap !in fallback &&
                          Reaches(fallbackWave, d - 1, fallbackMask + 1, target)
      ensures !busy ==> gone == {}
    {
      hide Positions, InFlight, Geometry, Counts, Contents, Reaches, Add64;
      gone := {};
      Sizes();
      Counters();
      ReachesOn(fallbackWave, d, fallbackMask + 1, target);
      idx, stored := TryOverflow(v);
      if !stored {
        gone := PollerRuns(busy);
      }
    }

    /** The overflow path: search the map for an unused index. */
    method AddOverflow(v: T, busy: bool) returns (idx: nat, ghost gone: set<nat>)
      requires Valid() && |fallback| <= fallbackMask
      modifies pollerBitmap, this
      ensures Valid() && gone <= old(live).Keys
      ensures cap <= idx <= cap + fallbackMask
      ensures idx !in old(live) - gone && live == (old(live) - gone)[idx := v]
      ensures !busy ==> gone == {}
    {
      hide Positions, InFlight, Equal64, PowerOfTwo;
      gone := {};
      ghost var target: nat, d: nat := OverflowTarget();
      while true
        invariant Valid() && gone <= old(live).Keys && live == old(live) - gone
        invariant !busy ==> gone == {}
        invariant target + cap !in fallback && Reaches(fallbackWave, d, fallbackMask + 1, target)
        decreases d
      {
        var stored;
        ghost var more;
        idx, stored, more := OverflowTurn(v, busy, target, d);
        if stored {
          return;
        }
        MinusMinus(old(live), gone, more);
        gone, d := gone + more, d - 1;
      }
    }

    /** By pigeonhole some overflow index is unused, and the overflow wave reaches it. */
    lemma OverflowTarget() returns (target: nat, d: nat)
      requires Valid() && |fallback| <= fallbackMask
      ensures target + cap !in fallback && Reaches(fallbackWave, d, fallbackMask + 1, target)
    {
      hide Positions, InFlight;
      var unused := Pigeonhole(fallback.Keys, cap, fallbackMask + 1);
      target := unused - cap;
      OverflowInRange(cap, fallbackMask);
      d := WithinOneLap(fallbackWave, fallbackMask + 1, target);
    }

    lemma WaveTarget() returns (target: nat, d: nat)
      requires Valid() && Obtainable()
      ensures target < bitmap.Length && Ready(target)
      ensures d < bitmap.Length && Reaches(wave, d, bitmap.Length, target)
    {
      target := SomeWordReady();
      d := WithinOneLap(wave, bitmap.Length, target);
    }

    /** One pass and whatever the poller does after it, with the wave's distance to a ready word. */
    method Turn(v: T, busy: bool, ghost target: nat, ghost d: nat)
      returns (idx: Option<nat>, ghost gone: set<nat>, ghost absorbed: bool)
      requires Valid() && target < bitmap.Length && Ready(target)
      requires Reaches(wave, d, bitmap.Length, target)
      modifies bitmap, pollerBitmap, tasks, this
      ensures Valid() && gone <= old(live).Keys
      ensures idx.Some? ==> gone == {} && idx.value < cap && idx.value !in old(live) &&
                            live == old(live)[idx.value := v]
      ensures idx.None? ==> live == old(live) - gone
      ensures FirstZero(old(bitmap[wave % bitmap.Length])) < BITS ==> idx.Some?
      ensures idx.None? && absorbed ==> FirstZero(bitmap[wave % bitmap.Length]) < BITS
      ensures idx.None? && !absorbed ==>
                d > 0 && Ready(target) && Reaches(wave, d - 1, bitmap.Length, target)
      ensures |fallback| <= |old(fallback)|
      ensures !busy ==> gone == {}
      ensures !busy ==> midDel == old(midDel) && Released() <= old(Released()) &&
                        free + |Released()| + (if idx.Some? then 1 else 0) == old(free + |Released()|)
    {
      hide Positions, InFlight, Equal64, PowerOfTwo;
      absorbed := pollerBitmap[wave % bitmap.Length] != {};
      idx, gone := Pass(v, busy);
      if idx.None? {
        label passed:
        ghost var more := PollerRuns(busy);
        MinusMinus(old(live), gone, more);
        gone := gone + more;
      }
    }

    /**
     The hot path.  It ends: the wave meets a word with a clear bit or a release within one
     lap, and an absorbed word yields a slot on the next pass.
     */
    method AddHot(v: T, busy: bool) returns (idx: nat, ghost gone: set<nat>, ghost moves: nat)
      requires Valid() && Obtainable()
      modifies bitmap, pollerBitmap, tasks, this
      ensures Valid() && gone <= old(live).Keys && idx < cap
      ensures idx !in old(live) - gone && live == (old(live) - gone)[idx := v]
      ensures !busy ==> gone == {} && midDel == old(midDel) && Released() <= old(Released()) &&
                        free + |Released()| + 1 == old(free + |Released()|)
      ensures |fallback| <= |old(fallback)|
      ensures moves < bitmap.Length
    {
      hide Valid, Positions, InFlight, Equal64, PowerOfTwo, ValidCapacity, FirstZero, SetBit;
      hide Released, Reaches, HasSlot;
      Sizes();
      gone, moves := {}, 0;
      ghost var target: nat, d: nat := WaveTarget();
      ghost var synced := false;
      while true
        invariant Geometry() && wave < W64
        invariant Valid() && gone <= old(live).Keys && live == old(live) - gone
        invariant |fallback| <= |old(fallback)|
        invariant !busy ==> gone == {} && midDel == old(midDel) && Released() <= old(Released()) &&
                            free + |Released()| == old(free + |Released()|)
        invariant target < bitmap.Length && Ready(target) && Reaches(wave, d, bitmap.Length, target)
        invariant moves + d < bitmap.Length
        invariant synced ==> FirstZero(bitmap[wave % bitmap.Length]) < BITS
        decreases !synced, d
      {
        var r;
        ghost var more, absorbed;
        r, more, absorbed := Turn(v, busy, target, d);
        if r.Some? {
          return r.value, gone, moves;
        }
        MinusMinus(old(live), gone, more);
        gone := gone + more;
        Sizes();
        if absorbed {
          ReachesItself(wave, bitmap.Length);
          synced, target, d := true, wave % bitmap.Length, 0;
        } else {
          moves, d := moves + 1, d - 1;
        }
      }
    }

    lemma IndexRange()
      requires Geometry()
      ensures 0 < cap <= cap + fallbackMask < SYS_IDS
    {
      OverflowInRange(cap, fallbackMask);
    }

    /**
     Add hands out an index that no live task holds and stores the task there; apart from the
     deletions the poller makes meanwhile, nothing else changes.
     */
    method Add(v: T, busy: bool) returns (idx: nat, ghost gone: set<nat>, ghost moves: nat)
      requires Valid()
      requires !Overdrawn()                // else it would spin: see AddFor and Spins
      requires |fallback| <= fallbackMask  // memory runs out long before
      modifies bitmap, pollerBitmap, tasks, this
      ensures Valid() && gone <= old(live).Keys
      ensures idx < 0x8000_0000_0000_0000
      ensures idx !in old(live) - gone && live == (old(live) - gone)[idx := v]
      ensures !busy ==> gone == {} && (idx < cap <==> !old(GateClosed()))
      ensures !busy && !old(GateClosed()) ==>
                midDel == old(midDel) && |fallback| <= |old(fallback)| && Released() <= old(Released()) &&
                free + |Released()| + 1 == old(free + |Released()|)
      ensures moves < bitmap.Length
    {
      hide Valid, Geometry, Positions, InFlight, Equal64, HasSlot, Overdrawn;
      GateExact();
      Sizes();
      IndexRange();
      moves := 0;
      gone := PollerRuns(busy);
      ghost var more;
      if GateClosed() {
        idx, more := AddOverflow(v, busy);
      } else {
        idx, more, moves := AddHot(v, busy);
      }
      MinusMinus(old(live), gone, more);
      gone := gone + more;
    }

    // -------------------------------------------------------------- the stale gate

    lemma ReadyMeansObtainable(w: nat)
      requires Valid() && w < bitmap.Length
      ensures Ready(w) ==> Obtainable()
    {
      var b := FirstZero(bitmap[w]);
      if b < BITS {
        var i := BITS * w + b;
        assert i / BITS == w && i % BITS == b;
        assert i !in Taken() && i in Below(cap);
      } else if pollerBitmap[w] != {} {
        var r :| r in pollerBitmap[w];
        var i := BITS * w + r;
        assert i / BITS == w && i % BITS == r;
        assert i in Released();
      }
    }

    /** A pass of the loop in Add while nothing can be had: it only moves the wave. */
    method IdlePass(v: T) returns (r: Option<nat>)
      requires Valid() && !Obtainable()
      modifies bitmap, pollerBitmap, tasks, this
      ensures r.None? && Valid() && !Obtainable() && live == old(live)
    {
      hide Positions, InFlight, Equal64, PowerOfTwo, Valid;
      Sizes();
      ReadyMeansObtainable(wave % bitmap.Length);
      ghost var b0, p0 := bitmap[..], pollerBitmap[..];
      ghost var gone;
      r, gone := Pass(v, false);
      assert bitmap[..] == b0 && pollerBitmap[..] == p0;
    }

    /** A step of the poller other than setting a release bit: counting one, or an overflow deletion. */
    method PollerOther() returns (ghost gone: set<nat>)
      requires Valid()
      modifies `live, `midDel, `delCount, `fallback
      ensures Valid() && gone <= old(live).Keys && live == old(live) - gone
    {
      hide *;
      gone := {};
      var idx :| 0 <= idx;
      if midDel {
        Counters();
        CountRelease();
      } else if idx >= cap && idx in fallback {
        OverflowLive(idx);
        gone := {idx};
        DelOverflow(idx);
      }
    }

    /**
     Once in its loop with nothing to be had, Add goes on failing, pass after pass, whatever the
     poller does short of setting a release bit: the gate is not looked at again, and counting
     the release that is under way does not help.
     */
    method Spins(v: T, passes: nat) returns (found: bool, ghost gone: set<nat>)
      requires Valid() && !Obtainable()
      modifies bitmap, pollerBitmap, tasks, this
      ensures !found && Valid() && !Obtainable()
      ensures gone <= old(live).Keys && live == old(live) - gone
    {
      hide *;
      found, gone := false, {};
      for k := 0 to passes
        invariant !found && Valid() && !Obtainable() && gone <= old(live).Keys && live == old(live) - gone
      {
        var r := IdlePass(v);
        found := r.Some?;
        ghost var more := PollerOther();
        MinusMinus(old(live), gone, more);
        gone := gone + more;
      }
    }

    /** A release bit ends it: from there the loop needs at most one lap. */
    method ReleaseEndsSpin(idx: nat, v: T, busy: bool) returns (got: nat, ghost gone: set<nat>, ghost moves: nat)
      requires Valid() && !Obtainable() && !midDel && idx < cap && idx in live
      modifies bitmap, pollerBitmap, tasks, this
      ensures Valid() && gone <= old(live).Keys && idx in gone && got < cap
      ensures got !in old(live) - gone && live == (old(live) - gone)[got := v]
      ensures moves < bitmap.Length
    {
      hide *;
      MarkReleased(idx);
      PendingNotStale(idx);
      ghost var more;
      got, more, moves := AddHot(v, busy);
      gone := {idx} + more;
      MinusMinus(old(live), {idx}, more);
    }

    /**
     Add with its loop cut off after so many passes, the poller being quiet.  Given one more pass
     than there are words it has come to an index if and only if the table was not overdrawn.
     */
    method AddFor(v: T, passes: nat) returns (idx: Option<nat>)
      requires Valid() && |fallback| <= fallbackMask
      modifies bitmap, pollerBitmap, tasks, this
      ensures Valid()
      ensures idx.Some? ==> idx.value !in old(live) && live == old(live)[idx.value := v]
      ensures idx.None? ==> live == old(live)
      ensures passes > bitmap.Length ==> (idx.Some? <==> !old(Overdrawn()))
    {
      hide *;
      GateExact();
      ClosedNotOverdrawn();
      if GateClosed() {
        var i;
        ghost var gone;
        i, gone := AddOverflow(v, false);
        return Some(i);
      }
      GateOpen();
      idx := HotFor(v, passes);
    }

    lemma ClosedNotOverdrawn()
      requires Valid()
      ensures GateClosed() ==> !Overdrawn()
    {
    }

    lemma GateOpen()
      requires Valid() && !GateClosed()
      ensures Obtainable() <==> !Overdrawn()
    {
      GateExact();
    }

    /** The hot path, cut off after so many passes. */
    method HotFor(v: T, passes: nat) returns (idx: Option<nat>)
      requires Valid()
      modifies bitmap, pollerBitmap, tasks, this
      ensures Valid()
      ensures idx.Some? ==> idx.value !in old(live) && live == old(live)[idx.value := v]
      ensures idx.None? ==> live == old(live)
      ensures passes > bitmap.Length ==> (idx.Some? <==> old(Obtainable()))
    {
      hide *;
      idx := None;
      ghost var had := Obtainable();
      ghost var target: nat, d: nat, synced := Sets(had);
      var k := 0;
      while k < passes && idx.None?
        invariant Valid() && k <= passes
        invariant idx.Some? ==> had && idx.value !in old(live) && live == old(live)[idx.value := v]
        invariant idx.None? ==> live == old(live) && Course(had, target, d, synced)
        invariant had && idx.None? ==> k + Left(d, synced) <= bitmap.Length + 1
        decreases passes - k, idx.None?
      {
        idx, target, d, synced := QuietTurn(v, had, target, d, synced);
        k := k + 1;
      }
    }

    lemma Sets(had: bool) returns (target: nat, d: nat, synced: bool)
      requires Valid() && had == Obtainable()
      ensures Course(had, target, d, synced)
      ensures had ==> Left(d, synced) <= bitmap.Length + 1
    {
      target, d, synced := 0, 0, false;
      if had { target, d := WaveTarget(); }
    }

    /** Either nothing can be had, or the wave is `d` words from one that has something. */
    ghost predicate Course(had: bool, target: nat, d: nat, synced: bool)
      reads this, bitmap, pollerBitmap
    {
      if !had then !Obtainable()
      else
        && Geometry() && wave < W64 && bitmap.Length > 0
        && target < bitmap.Length && Ready(target) && Reaches(wave, d, bitmap.Length, target)
        && (synced ==> d == 0 && FirstZero(bitmap[wave % bitmap.Length]) < BITS)
    }

    ghost function Left(d: nat, synced: bool): (n: nat)
      ensures n > 0
    {
      d + if synced then 1 else 2
    }

    /** One pass of a quiet Add on its course. */
    method QuietTurn(v: T, ghost had: bool, ghost target: nat, ghost d: nat, ghost synced: bool)
      returns (r: Option<nat>, ghost target': nat, ghost d': nat, ghost synced': bool)
      requires Valid() && Course(had, target, d, synced)
      modifies bitmap, pollerBitmap, tasks, this
      ensures Valid()
      ensures r.Some? ==> had && r.value !in old(live) && live == old(live)[r.value := v]
      ensures r.None? ==> live == old(live) && Course(had, target', d', synced')
      ensures had && r.None? ==> Left(d', synced') < Left(d, synced)
    {
      hide Positions, InFlight, Equal64, PowerOfTwo, ValidCapacity, Valid, FirstZero, Served, HasSlot;
      Sizes();
      ghost var w := wave % bitmap.Length;
      ghost var absorbs := pollerBitmap[w] != {};
      ghost var b0, p0 := bitmap[..], pollerBitmap[..];
      if !had { ReadyMeansObtainable(w); }
      ghost var gone;
      r, gone := Pass(v, false);
      target', d', synced' := target, d, synced;
      if r.None? {
        if !had {
          assert bitmap[..] == b0 && pollerBitmap[..] == p0;
        } else if absorbs {
          target', d', synced' := w, 0, true;
        } else {
          d' := d - 1;
        }
      }
    }

    // -------------------------------------------------------------- how a gate becomes stale

    /** 64 Adds on a fresh table fill the first word. */
    method FillFirstWord(v: T)
      requires Valid() && !midDel && Empty() && free == cap && fallback == map[]
      modifies bitmap, pollerBitmap, tasks, this
      ensures Valid() && !midDel && wave == 0 && free == cap - BITS && Released() == {} && fallback == map[]
      ensures 0 < bitmap.Length && FirstZero(bitmap[0]) == BITS
    {
      Sizes();
      NoneReleased();
      var k := 0;
      while k < BITS
        invariant k <= BITS && Valid() && !midDel && wave == 0 && free == cap - k && fallback == map[]
        invariant Released() == {} && 0 < bitmap.Length && bitmap[0] == LowBits(k)
      {
        AddInFirstWord(v, k);
        k := k + 1;
      }
      LowBitsZero(BITS);
    }

    lemma NoneReleased()
      requires Empty()
      ensures Released() == {}
    {
    }

    /**
     Add when the word under the wave can serve it.  The gate being open, Add is its loop, and
     that takes one pass, or two if it has to absorb the word's releases first.
     */
    method AddHere(v: T) returns (idx: nat)
      requires Valid() && !GateClosed() && bitmap.Length > 0 && Ready(wave % bitmap.Length)
      modifies bitmap, pollerBitmap, tasks, this
      ensures Valid() && midDel == old(midDel) && |fallback| <= |old(fallback)| && wave == old(wave)
      ensures idx < cap && idx !in old(live) && live == old(live)[idx := v]
      ensures free + |Released()| + 1 == old(free + |Released()|) && Released() <= old(Released())
      ensures var w := wave % bitmap.Length;
              Served(old(bitmap[w]), old(pollerBitmap[w]), bitmap[w], pollerBitmap[w])
    {
      hide Valid, Positions, HasSlot, Equal64, Released, FirstZero, SetBit, InFlight;
      Sizes();
      var r;
      ghost var gone;
      r, gone := Pass(v, false);
      if r.None? {
        r, gone := Pass(v, false);
      }
      idx := r.value;
    }

    method AddInFirstWord(v: T, k: nat)
      requires Valid() && !midDel && wave == 0 && free > 0 && fallback == map[] && k < BITS
      requires Released() == {} && 0 < bitmap.Length && bitmap[0] == LowBits(k)
      modifies bitmap, pollerBitmap, tasks, this
      ensures Valid() && !midDel && wave == 0 && free == old(free) - 1 && fallback == map[]
      ensures Released() == {} && bitmap[0] == LowBits(k + 1)
    {
      hide Valid, Positions, HasSlot, Equal64, Released, FirstZero;
      Sizes();
      LowBitsZero(k);
      var i := AddHere(v);
    }

    /** An Add that absorbs the only release, which the poller has not counted yet, and uses it up. */
    method AddOnRelease(v: T)
      requires Valid() && midDel && wave == 0 && free > 0 && fallback == map[]
      requires Released() == {0} && 0 < bitmap.Length && FirstZero(bitmap[0]) == BITS
      modifies bitmap, pollerBitmap, tasks, this
      ensures Valid() && midDel && free == old(free) && Released() == {} && fallback == map[]
    {
      hide Valid, Positions, HasSlot, Equal64, Released, FirstZero;
      Sizes();
      InFirstWord(0);
      var i := AddHere(v);
      InFirstWord(0);
      assert |Released()| == 0;
    }

    /** Adds until no slot is free, the poller standing still between the two stores of a deletion. */
    method Exhaust(v: T)
      requires Valid() && midDel && Released() == {} && fallback == map[]
      modifies bitmap, pollerBitmap, tasks, this
      ensures Valid() && Stale()
    {
      hide Valid, Positions, HasSlot, Equal64, Released;
      while free > 0
        invariant Valid() && midDel && Released() == {} && fallback == map[]
      {
        Sizes();
        var i;
        ghost var gone, moves;
        i, gone, moves := Add(v, false);
      }
      MidDelOverdrawn();
      GateExact();
    }

    lemma MidDelOverdrawn()
      requires Valid() && midDel && Released() == {} && free == 0
      ensures Overdrawn()
    {
    }

    lemma InFirstWord(b: nat)
      requires b < BITS && 0 < pollerBitmap.Length
      ensures b in Released() <==> b in pollerBitmap[0]
    {
    }

    /**
     A run that leaves the gate stale, from a new table of 4096 slots: 64 Adds fill the first
     word; the poller marks the release of its first slot and is held up before counting it;
     one Add absorbs that release and takes the slot again; 4032 more take all the others.
     */
    static method StaleArises(v: T) returns (s: Slots<T>)
      ensures s.Valid() && s.Stale() && fresh(s)
    {
      SmallestCapacity();
      var r := New(MIN_CAPACITY, 8);
      s := r.value;
      s.FillFirstWord(v);
      s.FirstIsLive();
      s.MarkReleased(0);
      s.AddOnRelease(v);
      s.Exhaust(v);
    }

    lemma FirstIsLive()
      requires Valid() && 0 < bitmap.Length && FirstZero(bitmap[0]) == BITS && Released() == {}
      ensures 0 in live && cap > 0
    {
      InFirstWord(0);
      HotLive(0);
    }
  }

  lemma SmallestCapacity()
    ensures ValidCapacity(MIN_CAPACITY)
  {
    assert Pow2(6) == 64 by { Pow2Adds(3, 3); }
    Pow2Adds(6, 6);
    assert MIN_CAPACITY == Pow2(12);
  }

  ghost function LowBits(k: nat): Word
    requires k <= BITS
  {
    Below(k)
  }

  lemma LowBitsZero(k: nat)
    requires k <= BITS
    ensures FirstZero(LowBits(k)) == k
    ensures k < BITS ==> SetBit(LowBits(k), k) == LowBits(k + 1)
  {
    assert k !in LowBits(k);
  }

  lemma MinusMinus<T>(m: map<nat, T>, a: set<nat>, b: set<nat>)
    ensures (m - a) - b == m - (a + b)
    ensures a <= m.Keys && b <= (m - a).Keys ==> a + b <= m.Keys
  {
  }

  lemma InFlightInsert<T>(hot: set<nat>, idx: nat, tasks: seq<T>, v: T, overflow: map<nat, T>)
    requires forall i :: i in hot ==> i < |tasks|
    ensures InFlight(hot, tasks, overflow[idx := v]) == InFlight(hot, tasks, overflow)[idx := v]
  {
  }

  /** cap + fallbackMask stays below 2^63. */
  lemma OverflowInRange(cap: nat, mask: nat)
    requires cap * (mask + 1) == W63 && cap >= 2 && mask > 0
    ensures cap + mask < W63
  {
    assert cap * (mask + 1) == cap * mask + cap;
    SumBelowProduct(cap, mask);
  }

  lemma {:induction false} SumBelowProduct(a: nat, b: nat)
    requires a > 0 && b > 0
    ensures a + b - 1 <= a * b
    decreases b
  {
    if b > 1 {
      SumBelowProduct(a, b - 1);
      assert a * b == a * (b - 1) + a;
    }
  }

  lemma InFlightDelete<T>(hot: set<nat>, idx: nat, tasks: seq<T>, overflow: map<nat, T>)
    requires forall i :: i in hot ==> i < |tasks|
    requires idx !in overflow
    ensures InFlight(hot - {idx}, tasks, overflow) == InFlight(hot, tasks, overflow) - {idx}
  {
  }

  lemma InFlightOverflow<T>(hot: set<nat>, idx: nat, tasks: seq<T>, overflow: map<nat, T>)
    requires forall i :: i in hot ==> i < |tasks|
    requires idx !in hot
    ensures InFlight(hot, tasks, overflow - {idx}) == InFlight(hot, tasks, overflow) - {idx}
  {
  }

  lemma InFlightTake<T>(hot: set<nat>, idx: nat, tasks: seq<T>, v: T, overflow: map<nat, T>)
    requires forall i :: i in hot ==> i < |tasks|
    requires idx < |tasks| && idx !in hot && idx !in overflow
    ensures InFlight(hot + {idx}, tasks[idx := v], overflow) == InFlight(hot, tasks, overflow)[idx := v]
  {
  }

  lemma NotPower(n: nat, bits: nat)
    requires n < Pow2(bits) && (bits == 0 || Pow2(bits - 1) < n)
    ensures !PowerOfTwo(n)
  {
    if PowerOfTwo(n) {
      var k: nat :| n == Pow2(k);
      if k >= bits {
        if k > bits { Pow2Monotone(bits, k); }
      } else if k < bits - 1 {
        Pow2Monotone(k, bits - 1);
      }
    }
  }

  lemma Pow2Is63()
    ensures Pow2(63) == W63
  {
    Pow2Is64();
    assert Pow2(64) == 2 * Pow2(63);
  }

  lemma CapacityBits(bits: nat)
    requires MIN_CAPACITY <= Pow2(bits) < W63
    ensures 6 <= bits <= 62
  {
    Pow2Is63();
    assert Pow2(6) == BITS by { Pow2Adds(3, 3); }
    if bits < 6 { Pow2Monotone(bits, 6); }
    if bits > 63 { Pow2Monotone(63, bits); }
  }

  lemma CapacityProducts(bits: nat)
    requires 6 <= bits <= 62
    ensures Pow2(bits) == BITS * Pow2(bits - 6)
    ensures W63 == Pow2(bits) * Pow2(63 - bits)
    ensures Pow2(63 - bits) >= 2
  {
    assert Pow2(6) == BITS by { Pow2Adds(3, 3); }
    Pow2Adds(6, bits - 6);
    Pow2Is63();
    Pow2Adds(bits, 63 - bits);
    assert Pow2(63 - bits) == 2 * Pow2(62 - bits);
  }

  /** What a power-of-two capacity gives the masks: whole words, and 63 - bits overflow bits. */
  lemma CapacityShape(bits: nat)
    requires MIN_CAPACITY <= Pow2(bits) < W63
    ensures ValidCapacity(Pow2(bits))
    ensures Pow2(bits) == BITS * (Pow2(bits) / BITS) && PowerOfTwo(Pow2(bits) / BITS)
    ensures W63 / Pow2(bits) >= 2 && Pow2(bits) * (W63 / Pow2(bits)) == W63
    ensures PowerOfTwo(W63 / Pow2(bits))
  {
    CapacityBits(bits);
    CapacityProducts(bits);
    var n, words, over := Pow2(bits), Pow2(bits - 6), Pow2(63 - bits);
    Quotient(n, BITS, words);
    Quotient(W63, n, over);
  }

  lemma Quotient(x: nat, n: nat, q: nat)
    requires n > 0 && x == n * q
    ensures x / n == q && n * (x / n) == x
  {
    ModUnique(x, n, q, 0);
  }
}
