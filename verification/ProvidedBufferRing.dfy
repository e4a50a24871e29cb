/**
 The user side of the provided-buffer ring as it sits in memory: descriptors in place, and a
 16-bit tail that shares the 32-bit word at offset 12 with descriptor 0's BID field.
 */
module ProvidedBuffers {
  import opened Arith
  import opened BufferRing

  const TAIL_OFFSET: nat := 14
  const PAGE: nat := 4096

  datatype Refusal = NotAPowerOfTwo | TooManyEntries | NoSize | UnalignedSize | None

  datatype Registered = Ring(ring: ProvidedBufferRing) | Refused(why: Refusal)

  datatype Returned = Returned | Foreign

  /** bits.OnesCount32 */
  function OnesCount(n: nat): nat {
    if n == 0 then 0 else n % 2 + OnesCount(n / 2)
  }

  lemma {:induction false} OnesOfPow2(k: nat)
    ensures OnesCount(Pow2(k)) == 1
  {
    if k != 0 { OnesOfPow2(k - 1); }
  }

  lemma {:induction false} NoOnes(n: nat)
    ensures OnesCount(n) == 0 <==> n == 0
  {
    if n != 0 { NoOnes(n / 2); }
  }

  /** The guard on the capacity admits the powers of two and nothing else. */
  lemma {:induction false} OneBitMeansPowerOfTwo(n: nat)
    ensures OnesCount(n) == 1 <==> PowerOfTwo(n)
    decreases n
  {
    if PowerOfTwo(n) {
      var k: nat :| n == Pow2(k);
      OnesOfPow2(k);
    }
    if OnesCount(n) == 1 {
      if n % 2 == 1 {
        NoOnes(n / 2);
        assert n == Pow2(0);
      } else {
        OneBitMeansPowerOfTwo(n / 2);
        var k: nat :| n / 2 == Pow2(k);
        assert n == Pow2(k + 1);
      }
    }
  }

  /** RegisterBufferRing's guards, in order. */
  function Guard(capacity: nat, bufSize: nat): Refusal {
    if capacity == 0 || OnesCount(capacity) != 1 then NotAPowerOfTwo
    else if capacity > MAX_ENTRIES then TooManyEntries
    else if bufSize == 0 then NoSize
    else if bufSize % 64 != 0 then UnalignedSize
    else None
  }

  /** Replace one 16-bit half of a 32-bit word. */
  function WithHalf(word: nat, high: bool, value: nat): nat {
    if high then word % W16 + value * W16 else word / W16 * W16 + value
  }

  /** The word after stores of its low half, one after the other. */
  function Latest(word: nat, lows: seq<nat>): nat {
    if lows == [] then word else WithHalf(Latest(word, lows[..|lows| - 1]), false, lows[|lows| - 1])
  }

  lemma LatestAdd(word: nat, lows: seq<nat>, n: nat)
    requires 0 < n <= |lows|
    ensures Latest(word, lows[..n]) == WithHalf(Latest(word, lows[..n - 1]), false, lows[n - 1])
  {
    assert lows[..n][..n - 1] == lows[..n - 1];
  }

  lemma HalvesApart(word: nat, value: nat)
    requires word < W32 && value < W16
    ensures WithHalf(word, true, value) < W32 && WithHalf(word, false, value) < W32
    ensures WithHalf(word, true, value) % W16 == word % W16 && WithHalf(word, true, value) / W16 == value
    ensures WithHalf(word, false, value) % W16 == value && WithHalf(word, false, value) / W16 == word / W16
  {
  }

  lemma ModShift(x: int, n: nat, q: int)
    requires n > 0
    ensures (x + n * q) % n == x % n
  {
    ModUnique(x + n * q, n, x / n + q, x % n) by {
      assert n * (x / n + q) == n * (x / n) + n * q;
    }
  }

  /** The 16-bit difference of tail and head is that of the true counts, whatever the head's upper bits. */
  lemma CountIsExact(tail: nat, head: nat, statusHead: nat)
    requires statusHead % W16 == head % W16
    ensures Sub32(tail % W16, statusHead) % W16 == (tail - head) % W16
  {
    var a := tail % W16 - statusHead;
    assert Sub32(tail % W16, statusHead) == a - W32 * (a / W32);
    assert W32 * (a / W32) == W16 * (W16 * (a / W32));
    ModShift(a, W16, -(W16 * (a / W32)));
    var q := tail / W16 - head / W16 + statusHead / W16;
    assert tail - head == a + W16 * q;
    ModShift(a, W16, q);
  }

  /** (head - 1) & mask on the 32-bit register is the slot before the kernel's true head. */
  lemma SlotBeforeHead(head: nat, statusHead: nat, cap: nat)
    requires PowerOfTwo(cap) && 0 < cap <= MAX_ENTRIES && statusHead < W32 && statusHead % W16 == head % W16
    ensures Sub32(statusHead, 1) % cap == (head - 1) % cap
  {
    Pow2Is16();
    SmallerPowerDivides(cap, 16);
    var q: nat :| q > 0 && Pow2(16) == cap * q;
    var wraps := if statusHead == 0 then W16 else 0;
    assert Sub32(statusHead, 1) == statusHead - 1 + W16 * wraps;
    var d := statusHead / W16 - head / W16 + wraps;
    assert Sub32(statusHead, 1) == head - 1 + W16 * d;
    assert W16 * d == cap * (q * d);
    ModShift(head - 1, cap, q * d);
  }

  class ProvidedBufferRing {
    const capacity: nat
    const bufSize: nat
    const basePtr: nat
    const ringPtr: nat
    const bufPointers: array<nat>
    // Descriptor i: Addr, Len, and one word with BID in its low and Resv in its high half.
    // The high half of words[0] is the ring's tail.
    const addrs: array<nat>
    const lens: array<nat>
    const words: array<nat>
    ghost var log: seq<nat>

    ghost predicate Layout() {
      && PowerOfTwo(capacity) && 0 < capacity <= MAX_ENTRIES && 0 < bufSize
      && ringPtr % PAGE == 0
      && bufPointers.Length == capacity && addrs.Length == capacity && lens.Length == capacity
      && words.Length == capacity
      && bufPointers != addrs && bufPointers != lens && bufPointers != words
      && addrs != lens && addrs != words && lens != words
    }

    /** Where buffer b starts. */
    function Start(b: nat): nat {
      basePtr + b * bufSize
    }

    /** One buffer after the other: bid 0 at the start of the block, each next one where the last one ends. */
    lemma SpansAdjoin(b: nat)
      requires Valid() && b < capacity
      ensures bufPointers[0] == basePtr
      ensures b + 1 < capacity ==> bufPointers[b] + bufSize == bufPointers[b + 1]
      ensures b + 1 == capacity ==> bufPointers[b] + bufSize == basePtr + capacity * bufSize
    {
      assert (b + 1) * bufSize == b * bufSize + bufSize;
    }

    /** No byte belongs to two buffers, and none lies outside the block. */
    lemma SpansApart(a: nat, b: nat)
      requires Valid() && a < b < capacity
      ensures basePtr <= bufPointers[a] && bufPointers[a] + bufSize <= bufPointers[b]
      ensures bufPointers[b] + bufSize <= basePtr + capacity * bufSize
    {
      hide Recent, Descs, Describes, PowerOfTwo;
      Multiples(a, b, bufSize);
      Multiples(b, capacity, bufSize);
    }

    /** The kernel writes into the very span that a reader of that bid is given. */
    lemma DescriptorSpan(i: nat)
      requires Valid() && i < capacity
      ensures Descs()[i] < capacity
      ensures addrs[i] == bufPointers[Descs()[i]] && lens[i] == bufSize
    {
      assert Describes(i, Descs()[i]);
    }

    ghost function Descs(): (s: seq<nat>)
      reads words
      ensures |s| == words.Length
    {
      seq(words.Length, i requires 0 <= i < words.Length reads words => words[i] % W16)
    }

    /** Descriptor i describes buffer b. */
    ghost predicate Describes(i: nat, b: nat)
      reads addrs, lens, words
    {
      && i < addrs.Length && i < lens.Length && i < words.Length && b < capacity
      && words[i] < W32 && words[i] % W16 == b && addrs[i] == Start(b) && lens[i] == bufSize
    }

    ghost predicate Valid()
      reads this, bufPointers, addrs, lens, words
    {
      && Layout()
      && Recent(Descs(), log, capacity)
      && words[0] / W16 == |log| % W16
      && (forall i :: 0 <= i < capacity ==> bufPointers[i] == Start(i))
      && (forall i :: 0 <= i < capacity ==> Describes(i, Descs()[i]))
    }

    ghost function Abs(head: nat): State
      reads this, words
    {
      State(capacity, Descs(), log, head, multiset{}, multiset{})
    }

    /** The two mappings: the buffers' addresses and a zeroed ring. */
    constructor (capacity: nat, bufSize: nat, basePtr: nat, ringPtr: nat)
      requires Guard(capacity, bufSize).None? && ringPtr % PAGE == 0
      ensures Layout() && fresh(bufPointers) && fresh(addrs) && fresh(lens) && fresh(words)
      ensures this.capacity == capacity && this.bufSize == bufSize
      ensures this.basePtr == basePtr && this.ringPtr == ringPtr
      ensures forall k :: 0 <= k < capacity ==> words[k] == 0
    {
      this.capacity, this.bufSize, this.basePtr, this.ringPtr := capacity, bufSize, basePtr, ringPtr;
      bufPointers, addrs := new nat[capacity], new nat[capacity];
      lens := new nat[capacity];
      words := new nat[capacity](_ => 0);
      log := [];
      new;
      OneBitMeansPowerOfTwo(capacity);
    }

    /** Fill every descriptor, then publish them all with one store of the tail. */
    method Fill()
      requires Layout() && forall k :: 0 <= k < capacity ==> words[k] < W32
      modifies this`log, bufPointers, addrs, lens, words
      ensures Valid() && Abs(0) == Register(capacity)
    {
      hide WithHalf, Recent, PowerOfTwo, Upto, Start;
      var i := 0;
      while i < capacity
        invariant 0 <= i <= capacity
        invariant forall k :: 0 <= k < i ==> bufPointers[k] == Start(k)
        invariant forall k :: 0 <= k < i ==> addrs[k] == Start(k) && lens[k] == bufSize && words[k] % W16 == k
        invariant forall k :: 0 <= k < capacity ==> words[k] < W32
      {
        var address := Start(i);
        bufPointers[i] := address;
        addrs[i] := address;
        lens[i] := bufSize;
        HalvesApart(words[i], i);
        words[i] := WithHalf(words[i], false, i);
        i := i + 1;
      }
      HalvesApart(words[0], capacity % W16);
      ghost var seen := StoreTailRelease(capacity % W16, []);
      log := Upto(capacity);
      assert forall k :: 0 <= k < capacity ==> Describes(k, k);
      assert Descs() == Upto(capacity);
      UptoRecent(capacity);
    }

    /** What a fresh ring says to the kernel: descriptor i is buffer i, and all are published. */
    lemma FreshRing()
      requires Valid() && Abs(0) == Register(capacity)
      ensures forall i :: 0 <= i < capacity ==>
                words[i] % W16 == i && addrs[i] == bufPointers[i] && lens[i] == bufSize
      ensures words[0] / W16 == capacity
    {
      hide Recent, PowerOfTwo, Start;
      forall i | 0 <= i < capacity ensures words[i] % W16 == i && addrs[i] == bufPointers[i] && lens[i] == bufSize {
        assert Descs()[i] == i && Describes(i, i);
      }
    }

    /**
     storeTailRelease: a CAS on the word that holds the tail, which keeps its other half.
     `rivals` are stores to that half that others are about to make, one between each load and
     its CAS.  The CAS loses none of the `seen` that came before it.
     */
    method StoreTailRelease(value: nat, rivals: seq<nat>) returns (ghost seen: nat)
      requires words.Length > 0 && words[0] < W32 && value < W16 && ringPtr % PAGE == 0
      requires forall r :: r in rivals ==> r < W16
      modifies words
      ensures seen <= |rivals|
      ensures words[0] == WithHalf(Latest(old(words[0]), rivals[..seen]), true, value)
      ensures forall k :: 0 < k < words.Length ==> words[k] == old(words[k])
    {
      var high := (ringPtr + TAIL_OFFSET) % 4 != 0;
      var tries, stored := 0, false;
      while !stored
        invariant tries <= |rivals|
        invariant words[0] == var now := Latest(old(words[0]), rivals[..tries]);
                              if stored then WithHalf(now, high, value) else now
        invariant forall k :: 0 < k < words.Length ==> words[k] == old(words[k])
        decreases |rivals| - tries, !stored
      {
        var was := words[0];
        if tries < |rivals| {
          words[0] := WithHalf(words[0], false, rivals[tries]);
          tries := tries + 1;
          LatestAdd(old(words[0]), rivals, tries);
        }
        if words[0] == was {
          words[0] := WithHalf(was, high, value);
          stored := true;
        }
      }
      seen := tries;
    }

    method ReleaseBuffer(bid: nat)
      requires Valid() && bid < capacity
      modifies this`log, addrs, lens, words
      ensures Valid()
      ensures forall head: nat :: Abs(head) == Publish(old(Abs(head)), bid)
    {
      hide WithHalf, Recent, PowerOfTwo, Start;
      var tail := words[0] / W16;
      var idx := tail % capacity;
      Index16(|log|, capacity);
      assert Describes(idx, Descs()[idx]) && Describes(0, Descs()[0]);
      RecentPublish(Descs(), log, capacity, bid);
      addrs[idx] := bufPointers[bid];
      lens[idx] := bufSize;
      HalvesApart(words[idx], bid);
      words[idx] := WithHalf(words[idx], false, bid);
      HalvesApart(words[0], (tail + 1) % W16);
      ghost var seen := StoreTailRelease((tail + 1) % W16, []);
      WrappedNext(|log|, W16);
      log := log + [bid];
      assert Descs() == old(Descs())[idx := bid];
    }

    /** The view handed to a reader: where it starts, and how long it is. */
    method Buffer(bid: nat) returns (start: nat, length: nat)
      requires Valid() && bid < capacity
      ensures start == bufPointers[bid] && length == bufSize
      ensures basePtr <= start && start + length <= basePtr + capacity * bufSize
      ensures bid == 0 ==> start == basePtr
    {
      SpansAdjoin(bid);
      if bid + 1 < capacity { SpansApart(bid, capacity - 1); }
      start, length := bufPointers[bid], bufSize;
    }

    /** Accepts exactly the addresses at which some buffer starts, and releases that buffer. */
    method ReleaseView(ptr: nat) returns (r: Returned)
      requires Valid()
      modifies this`log, addrs, lens, words
      ensures Valid()
      ensures r.Returned? <==> exists b :: 0 <= b < capacity && ptr == bufPointers[b]
      ensures forall b: nat, head: nat :: b < capacity && ptr == bufPointers[b] ==>
                Abs(head) == Publish(old(Abs(head)), b)
      ensures r.Foreign? ==> forall head: nat :: Abs(head) == old(Abs(head))
    {
      hide Recent, Descs, PowerOfTwo, Describes;
      if ptr < basePtr { return Foreign; }
      var offset := ptr - basePtr;
      if offset >= capacity * bufSize || offset % bufSize != 0 {
        forall b: nat | b < capacity ensures offset != b * bufSize {
          if offset == b * bufSize { BufferStart(b, bufSize, capacity); }
        }
        return Foreign;
      }
      var bid := offset / bufSize % W16;
      OffsetIsBid(offset, bufSize, capacity);
      forall b: nat | b < capacity && offset == b * bufSize ensures b == bid {
        BufferStart(b, bufSize, capacity);
      }
      assert ptr == Start(bid);
      ReleaseBuffer(bid);
      r := Returned;
    }

    /** Available, given the head that the kernel reports. */
    method Available(statusHead: nat, ghost head: nat) returns (count: nat)
      requires Valid() && head <= |log| && statusHead % W16 == head % W16
      ensures count == BufferRing.Available(Abs(head))
    {
      CountIsExact(|log|, head, statusHead);
      count := Sub32(words[0] / W16, statusHead) % W16;
    }

    method ReplenishOne(statusHead: nat, ghost head: nat)
      requires Valid() && head <= |log| && statusHead < W32 && statusHead % W16 == head % W16
      modifies this`log, addrs, lens, words
      ensures Valid()
      ensures Abs(head).descs == Replenish(old(Abs(head))).descs
      ensures Abs(head).log == Replenish(old(Abs(head))).log
    {
      hide Recent, PowerOfTwo, Sub32;
      var tail := words[0] / W16;
      CountIsExact(|log|, head, statusHead);
      var avail := Sub32(tail, statusHead) % W16;
      if avail == capacity { return; }
      var consumedIdx := Sub32(statusHead, 1) % capacity;
      SlotBeforeHead(head, statusHead, capacity);
      assert words[consumedIdx] % W16 == Descs()[consumedIdx] == BeforeHead(Abs(head));
      ReleaseBuffer(words[consumedIdx] % W16);
    }
  }

  lemma Multiples(a: nat, b: nat, size: nat)
    requires a < b
    ensures a * size + size <= b * size
  {
    assert b * size == a * size + (b - a) * size;
    Scale(size, b - a);
  }

  lemma BufferStart(b: nat, size: nat, cap: nat)
    requires b < cap && size > 0
    ensures b * size < cap * size && (b * size) % size == 0 && (b * size) / size == b
  {
    assert cap * size == b * size + (cap - b) * size;
    Scale(size, cap - b);
    ModUnique(b * size, size, b, 0);
  }

  lemma OffsetIsBid(offset: nat, size: nat, cap: nat)
    requires size > 0 && offset < cap * size && offset % size == 0 && cap <= MAX_ENTRIES
    ensures offset / size < cap && offset / size % W16 == offset / size && offset == offset / size * size
  {
    assert offset == size * (offset / size);
    Scale(size, offset / size - cap + 1);
    assert size * (offset / size - cap + 1) == size * (offset / size) - size * cap + size;
  }

  /** RegisterBufferRing: refused exactly when a guard fails. */
  method RegisterBufferRing(capacity: nat, bufSize: nat, basePtr: nat, ringPtr: nat) returns (r: Registered)
    requires ringPtr % PAGE == 0
    ensures r.Ring? <==> PowerOfTwo(capacity) && capacity <= 32768 && bufSize > 0 && bufSize % 64 == 0
    ensures r.Ring? ==>
              && r.ring.Valid() && fresh(r.ring) && r.ring.Abs(0) == Register(capacity)
              && r.ring.capacity == capacity && r.ring.bufSize == bufSize
              && r.ring.basePtr == basePtr && r.ring.ringPtr == ringPtr
              && (forall i :: 0 <= i < capacity ==>
                    r.ring.words[i] % W16 == i && r.ring.addrs[i] == r.ring.bufPointers[i] && r.ring.lens[i] == bufSize)
              && r.ring.words[0] / W16 == capacity
    ensures r.Refused? ==>
              match r.why
              case NotAPowerOfTwo => !PowerOfTwo(capacity)
              case TooManyEntries => PowerOfTwo(capacity) && capacity > 32768
              case NoSize => PowerOfTwo(capacity) && capacity <= 32768 && bufSize == 0
              case UnalignedSize => PowerOfTwo(capacity) && capacity <= 32768 && bufSize % 64 != 0
              case None => false
  {
    OneBitMeansPowerOfTwo(capacity);
    var why := Guard(capacity, bufSize);
    if !why.None? { return Refused(why); }
    var ring := new ProvidedBufferRing(capacity, bufSize, basePtr, ringPtr);
    ring.Fill();
    ring.FreshRing();
    r := Ring(ring);
  }
}
