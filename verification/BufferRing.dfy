/**
 The provided-buffer ring, as values: descriptors, the bids published so far, and who holds
 the others.  The kernel picks at `head`; user space publishes at the tail.
 */
module BufferRing {
  import opened Arith

  const MAX_ENTRIES: nat := 32768

  datatype State = State(
    cap: nat,
    descs: seq<nat>,         // the BID field of every descriptor
    log: seq<nat>,           // every bid ever published; the tail is its length
    head: nat,               // how many descriptors the kernel has consumed
    borrowed: multiset<nat>, // handed to a reader and not yet released
    eof: multiset<nat>       // consumed by a READ that ended with res == 0
  )

  function Upto(n: nat): (s: seq<nat>)
    ensures |s| == n && forall i :: 0 <= i < n ==> s[i] == i
  {
    if n == 0 then [] else Upto(n - 1) + [n - 1]
  }

  /** The ring right after registration: everything published, in order. */
  function Register(cap: nat): State {
    State(cap, Upto(cap), Upto(cap), 0, multiset{}, multiset{})
  }

  predicate Shaped(v: State) {
    0 < v.cap && |v.descs| == v.cap
  }

  /** Write a descriptor at the tail position and bump the tail. */
  function Publish(v: State, bid: nat): State
    requires Shaped(v)
  {
    v.(descs := v.descs[|v.log| % v.cap := bid], log := v.log + [bid])
  }

  /** The kernel takes the descriptor at its head, for a transfer or for an end of file. */
  function Pick(v: State, atEof: bool): State
    requires Shaped(v) && v.head < |v.log|
  {
    var bid := v.descs[v.head % v.cap];
    if atEof then v.(head := v.head + 1, eof := v.eof + multiset{bid})
    else v.(head := v.head + 1, borrowed := v.borrowed + multiset{bid})
  }

  function Release(v: State, bid: nat): State
    requires Shaped(v)
  {
    Publish(v.(borrowed := v.borrowed - multiset{bid}), bid)
  }

  /** The 16-bit count the user side computes. */
  function Available(v: State): nat {
    (|v.log| - v.head) % W16
  }

  /** The bid in the descriptor just before the kernel's head. */
  function BeforeHead(v: State): nat
    requires Shaped(v)
  {
    v.descs[(v.head - 1) % v.cap]
  }

  function Replenish(v: State): State
    requires Shaped(v)
  {
    if Available(v) == v.cap then v
    else Publish(v.(eof := v.eof - multiset{BeforeHead(v)}), BeforeHead(v))
  }

  // ---------------------------------------------------------------- the invariant

  /** The descriptors are the last `cap` bids published. */
  ghost predicate Recent(descs: seq<nat>, log: seq<nat>, cap: nat) {
    && 0 < cap == |descs| <= |log|
    && forall p :: |log| - cap <= p < |log| ==> descs[p % cap] == log[p]
  }

  /** In the ring window, borrowed or lost to an end of file: every bid once. */
  ghost predicate Conserved(v: State) {
    && PowerOfTwo(v.cap) && 0 < v.cap <= MAX_ENTRIES
    && Recent(v.descs, v.log, v.cap)
    && v.head <= |v.log|
    && multiset(v.log[v.head..]) + v.borrowed + v.eof == multiset(Upto(v.cap))
  }

  lemma {:induction false} UptoCounts(n: nat, b: nat)
    ensures multiset(Upto(n))[b] == if b < n then 1 else 0
  {
    if n != 0 {
      UptoCounts(n - 1, b);
      CountStep(n, b, Upto(n), Upto(n - 1));
    }
  }

  lemma CountStep(n: nat, b: nat, s: seq<nat>, t: seq<nat>)
    requires n > 0 && s == t + [n - 1] && multiset(t)[b] == if b < n - 1 then 1 else 0
    ensures multiset(s)[b] == if b < n then 1 else 0
  {
  }

  lemma WindowFits(v: State)
    requires Conserved(v)
    ensures |v.log| - v.head + |v.borrowed| + |v.eof| == v.cap
    ensures Available(v) == |v.log| - v.head
  {
    assert |multiset(v.log[v.head..]) + v.borrowed + v.eof| == |multiset(Upto(v.cap))|;
  }

  /** Each buffer is in exactly one place, and no place holds anything else. */
  lemma Partition(v: State, b: nat)
    requires Conserved(v)
    ensures multiset(v.log[v.head..])[b] + v.borrowed[b] + v.eof[b] == if b < v.cap then 1 else 0
  {
    UptoCounts(v.cap, b);
    assert (multiset(v.log[v.head..]) + v.borrowed + v.eof)[b] == multiset(Upto(v.cap))[b];
  }

  lemma {:induction false} CountsTwice(s: seq<nat>, i: nat, j: nat)
    requires i < j < |s| && s[i] == s[j]
    ensures multiset(s)[s[i]] >= 2
  {
    assert s == s[..j] + [s[j]] + s[j + 1..];
    assert s[..j][i] in multiset(s[..j]);
  }

  lemma WindowDistinct(v: State, i: nat, j: nat)
    requires Conserved(v) && v.head <= i < j < |v.log|
    ensures v.log[i] != v.log[j]
  {
    if v.log[i] == v.log[j] {
      CountsTwice(v.log[v.head..], i - v.head, j - v.head);
      Partition(v, v.log[i]);
    }
  }

  /** The kernel is given the bids in the order they were published. */
  lemma PickTakesNext(v: State)
    requires Conserved(v) && v.head < |v.log|
    ensures v.descs[v.head % v.cap] == v.log[v.head]
  {
    WindowFits(v);
  }

  lemma RecentPublish(descs: seq<nat>, log: seq<nat>, cap: nat, bid: nat)
    requires Recent(descs, log, cap)
    ensures Recent(descs[|log| % cap := bid], log + [bid], cap)
  {
    forall p | |log| + 1 - cap <= p < |log| ensures descs[|log| % cap := bid][p % cap] == log[p] {
      SlotsDistinct(p, |log|, cap);
    }
  }

  /** Publishing touches no descriptor the kernel has still to read. */
  lemma OverwritesNothing(v: State, p: nat)
    requires Conserved(v) && (v.borrowed != multiset{} || v.eof != multiset{})
    requires v.head <= p < |v.log|
    ensures p % v.cap != |v.log| % v.cap
  {
    WindowFits(v);
    assert |v.borrowed| + |v.eof| > 0;
    SlotsDistinct(p, |v.log|, v.cap);
  }

  // ---------------------------------------------------------------- steps

  lemma RegisterConserves(cap: nat)
    requires PowerOfTwo(cap) && 0 < cap <= MAX_ENTRIES
    ensures Conserved(Register(cap))
  {
    hide Upto;
    assert Upto(cap)[0..] == Upto(cap);
    UptoRecent(cap);
  }

  lemma UptoRecent(cap: nat)
    requires 0 < cap
    ensures Recent(Upto(cap), Upto(cap), cap)
  {
    hide Upto;
    forall p | 0 <= p < cap ensures Upto(cap)[p % cap] == Upto(cap)[p] {
      ModUnique(p, cap, 0, p);
    }
  }

  lemma PickConserves(v: State, atEof: bool)
    requires Conserved(v) && v.head < |v.log|
    ensures Conserved(Pick(v, atEof))
  {
    PickTakesNext(v);
    FirstOfWindow(v);
    hide Recent, PowerOfTwo, Upto;
  }

  lemma FirstOfWindow(v: State)
    requires v.head < |v.log|
    ensures multiset(v.log[v.head..]) == multiset{v.log[v.head]} + multiset(v.log[v.head + 1..])
  {
    assert v.log[v.head..] == [v.log[v.head]] + v.log[v.head + 1..];
  }

  lemma PublishMoves(v: State, bid: nat)
    requires Shaped(v) && v.head <= |v.log|
    ensures multiset(Publish(v, bid).log[v.head..]) == multiset(v.log[v.head..]) + multiset{bid}
  {
    assert (v.log + [bid])[v.head..] == v.log[v.head..] + [bid];
  }

  lemma ReleaseConserves(v: State, bid: nat)
    requires Conserved(v) && bid in v.borrowed
    ensures Conserved(Release(v, bid))
  {
    var w := v.(borrowed := v.borrowed - multiset{bid});
    PublishMoves(w, bid);
    RecentPublish(v.descs, v.log, v.cap, bid);
    assert v.borrowed == w.borrowed + multiset{bid};
  }

  /** The descriptor before the head is intact as long as the ring is not full. */
  lemma BeforeHeadIntact(v: State)
    requires Conserved(v) && Available(v) != v.cap
    ensures v.head > 0 && BeforeHead(v) == v.log[v.head - 1]
  {
    WindowFits(v);
  }

  lemma MiscountIsWrong(v: State, b: nat)
    requires v.head <= |v.log|
    requires multiset(v.log[v.head..])[b] + v.borrowed[b] + v.eof[b] != if b < v.cap then 1 else 0
    ensures !Conserved(v)
  {
    if Conserved(v) { Partition(v, b); }
  }

  /** A replenish republishes a buffer that is lost to an end of file, or none. */
  predicate Rightly(v: State)
    requires Shaped(v)
  {
    Available(v) == v.cap || BeforeHead(v) in v.eof
  }

  lemma ReplenishConservesWhen(v: State)
    requires Conserved(v)
    ensures Conserved(Replenish(v)) <==> Rightly(v)
  {
    if Available(v) != v.cap {
      if BeforeHead(v) in v.eof { ReplenishRight(v); } else { ReplenishWrong(v); }
    }
  }

  lemma ReplenishRight(v: State)
    requires Conserved(v) && Available(v) != v.cap && BeforeHead(v) in v.eof
    ensures Conserved(Replenish(v))
  {
    var bid := BeforeHead(v);
    var w := v.(eof := v.eof - multiset{bid});
    PublishMoves(w, bid);
    RecentPublish(v.descs, v.log, v.cap, bid);
    assert v.eof == w.eof + multiset{bid};
  }

  lemma ReplenishWrong(v: State)
    requires Conserved(v) && Available(v) != v.cap && BeforeHead(v) !in v.eof
    ensures !Conserved(Replenish(v))
  {
    var bid := BeforeHead(v);
    var w := v.(eof := v.eof - multiset{bid});
    PublishMoves(w, bid);
    RecentPublish(v.descs, v.log, v.cap, bid);
    assert w.eof == v.eof;
    Partition(v, bid);
    MiscountIsWrong(Replenish(v), bid);
  }

  // ---------------------------------------------------------------- runs

  datatype Event = EPick | EPickEof | ERelease(bid: nat) | EReplenish

  predicate Enabled(v: State, e: Event) {
    Shaped(v) &&
    match e
    case EPick => v.head < |v.log|
    case EPickEof => v.head < |v.log|
    case ERelease(bid) => bid in v.borrowed
    case EReplenish => true
  }

  function Apply(v: State, e: Event): State
    requires Enabled(v, e)
  {
    match e
    case EPick => Pick(v, false)
    case EPickEof => Pick(v, true)
    case ERelease(bid) => Release(v, bid)
    case EReplenish => Replenish(v)
  }

  lemma StepConserves(v: State, e: Event)
    requires Conserved(v) && Enabled(v, e)
    ensures Conserved(Apply(v, e)) <==> (e.EReplenish? ==> Rightly(v))
  {
    match e
    case EPick => PickConserves(v, false);
    case EPickEof => PickConserves(v, true);
    case ERelease(bid) => ReleaseConserves(v, bid);
    case EReplenish => ReplenishConservesWhen(v);
  }

  function Front(es: seq<Event>): seq<Event>
    requires es != []
  {
    es[..|es| - 1]
  }

  function Last(es: seq<Event>): Event
    requires es != []
  {
    es[|es| - 1]
  }

  /** The events can be taken one after the other from `v`. */
  predicate Runs(v: State, es: seq<Event>)
    decreases |es|, 0
  {
    es == [] || (Runs(v, Front(es)) && Enabled(After(v, Front(es)), Last(es)))
  }

  function After(v: State, es: seq<Event>): State
    requires Runs(v, es)
    decreases |es|, 1
  {
    if es == [] then v else Apply(After(v, Front(es)), Last(es))
  }

  /** Every state the run passes through is conserved. */
  ghost predicate StaysConserved(v: State, es: seq<Event>)
    requires Runs(v, es)
    decreases |es|
  {
    Conserved(After(v, es)) && (es != [] ==> StaysConserved(v, Front(es)))
  }

  // What follows reads the events alone.

  /** The last event that is no release is a pick that ended in an end of file: nobody has answered it yet. */
  predicate Due(es: seq<Event>)
    decreases |es|
  {
    es != [] && if Last(es).ERelease? then Due(Front(es)) else Last(es).EPickEof?
  }

  /** How many buffers are out: picks, less releases and replenishes. */
  function Out(es: seq<Event>): nat
    decreases |es|
  {
    if es == [] then 0
    else
      var n := Out(Front(es));
      if Last(es).EPick? || Last(es).EPickEof? then n + 1 else if n > 0 then n - 1 else 0
  }

  /** How many ends of file no replenish has answered. */
  function Unanswered(es: seq<Event>): nat
    decreases |es|
  {
    if es == [] then 0
    else
      var n := Unanswered(Front(es));
      if Last(es).EPickEof? then n + 1
      else if Last(es).EReplenish? && Due(Front(es)) && n > 0 then n - 1
      else n
  }

  /** Each replenish comes when nothing is out, or next, but for releases, after an end of file. */
  predicate InTurn(es: seq<Event>)
    decreases |es|
  {
    es == [] ||
    (InTurn(Front(es)) && (Last(es).EReplenish? ==> Out(Front(es)) == 0 || Due(Front(es))))
  }

  /** What the events so far say about a state that has stayed conserved. */
  ghost predicate Tally(w: State, es: seq<Event>) {
    && Conserved(w) && |w.log| - w.head + Out(es) == w.cap
    && (if w.head == 0 then !Due(es) else w.log[w.head - 1] in w.eof <==> Due(es))
    && |w.eof| == Unanswered(es)
  }

  lemma RightlyByEvents(w: State, es: seq<Event>)
    requires Tally(w, es)
    ensures Rightly(w) <==> Out(es) == 0 || Due(es)
  {
    WindowFits(w);
    if Available(w) != w.cap { BeforeHeadIntact(w); }
  }

  lemma PickTallies(w: State, es: seq<Event>, atEof: bool)
    requires es != [] && Tally(w, Front(es)) && w.head < |w.log| && Last(es) == if atEof then EPickEof else EPick
    ensures Tally(Pick(w, atEof), es)
  {
    var bid := w.log[w.head];
    PickConserves(w, atEof);
    PickTakesNext(w);
    Partition(w, bid);
    assert bid in w.log[w.head..] by { assert w.log[w.head..][0] == bid; }
    assert multiset(w.log[w.head..])[bid] > 0;
  }

  lemma ReleaseTallies(w: State, es: seq<Event>, bid: nat)
    requires es != [] && Tally(w, Front(es)) && bid in w.borrowed && Last(es) == ERelease(bid)
    ensures Tally(Release(w, bid), es)
  {
    hide Recent, PowerOfTwo, Upto;
    WindowFits(w);
    ReleaseConserves(w, bid);
    assert |w.borrowed| > 0;
  }

  lemma ReplenishTallies(w: State, es: seq<Event>)
    requires es != [] && Tally(w, Front(es)) && Rightly(w) && Last(es) == EReplenish
    ensures Tally(Replenish(w), es)
  {
    RightlyByEvents(w, Front(es));
    WindowFits(w);
    ReplenishConservesWhen(w);
    if Available(w) == w.cap {
      assert |w.eof| == 0;
    } else {
      Answers(w);
      AnswerTallies(w, Replenish(w), es);
    }
  }

  lemma AnswerTallies(w: State, w': State, es: seq<Event>)
    requires es != [] && Last(es) == EReplenish && Tally(w, Front(es)) && Due(Front(es)) && Conserved(w')
    requires 0 < w.head <= |w.log| && w'.log == w.log + [w.log[w.head - 1]] && w'.head == w.head && w'.cap == w.cap
    requires w.log[w.head - 1] !in w'.eof && |w'.eof| + 1 == |w.eof| && Out(Front(es)) > 0
    ensures Tally(w', es)
  {
    hide Conserved;
  }

  /** A replenish that does something, rightly: the last buffer picked is back. */
  lemma Answers(w: State)
    requires Conserved(w) && Rightly(w) && Available(w) != w.cap
    ensures var w', bid := Replenish(w), BeforeHead(w);
            && w.head > 0 && bid == w.log[w.head - 1] && w.eof[bid] == 1 && w'.log == w.log + [bid]
            && w'.head == w.head && w'.cap == w.cap && bid !in w'.eof && |w'.eof| + 1 == |w.eof|
  {
    BeforeHeadIntact(w);
    Partition(w, BeforeHead(w));
    OneLess(w.eof, BeforeHead(w));
  }

  lemma OneLess(m: multiset<nat>, x: nat)
    requires m[x] == 1
    ensures x !in m - multiset{x} && |m - multiset{x}| + 1 == |m|
  {
    assert m == (m - multiset{x}) + multiset{x};
  }

  lemma StepTallies(w: State, es: seq<Event>)
    requires es != [] && Tally(w, Front(es)) && Enabled(w, Last(es)) && (Last(es).EReplenish? ==> Rightly(w))
    ensures Tally(Apply(w, Last(es)), es)
  {
    match Last(es)
    case EPick => PickTallies(w, es, false);
    case EPickEof => PickTallies(w, es, true);
    case ERelease(bid) => ReleaseTallies(w, es, bid);
    case EReplenish => ReplenishTallies(w, es);
  }

  /**
   From a registered ring on, buffers are conserved along a run if and only if every replenish in
   it comes when nothing is out or next after an end of file; and then as many buffers are lost
   as there are ends of file that no replenish has answered.
   */
  lemma {:induction false} ConservedExactlyWhen(cap: nat, es: seq<Event>)
    requires PowerOfTwo(cap) && 0 < cap <= MAX_ENTRIES && Runs(Register(cap), es)
    ensures StaysConserved(Register(cap), es) <==> InTurn(es)
    ensures InTurn(es) ==> |After(Register(cap), es).eof| == Unanswered(es)
    ensures InTurn(es) ==> Tally(After(Register(cap), es), es)
    decreases |es|
  {
    hide Conserved, Apply, Enabled, Register;
    if es == [] {
      StartTallies(cap);
    } else {
      ConservedExactlyWhen(cap, Front(es));
      if InTurn(Front(es)) {
        var w := After(Register(cap), Front(es));
        TallyConserved(w, Front(es));
        RightlyByEvents(w, Front(es));
        StepConserves(w, Last(es));
        if InTurn(es) { StepTallies(w, es); }
      }
    }
  }

  lemma TallyConserved(w: State, es: seq<Event>)
    requires Tally(w, es)
    ensures Conserved(w)
  {
  }

  lemma StartTallies(cap: nat)
    requires PowerOfTwo(cap) && 0 < cap <= MAX_ENTRIES
    ensures Conserved(Register(cap)) && Tally(Register(cap), [])
  {
    RegisterConserves(cap);
  }

  /**
   Two readers that both meet an end of file before either replenishes: the first replenish
   answers the second of them, and the second replenish is wrong.
   */
  lemma TwoEofsAtOnce(cap: nat)
    requires PowerOfTwo(cap) && 2 <= cap <= MAX_ENTRIES
    ensures var es := [EPickEof, EPickEof, EReplenish, EReplenish];
            && Runs(Register(cap), es) && InTurn(Front(es)) && !StaysConserved(Register(cap), es)
  {
    hide Conserved, Upto;
    var e1, e2 := [EPickEof], [EPickEof, EPickEof];
    var e3 := [EPickEof, EPickEof, EReplenish];
    var es := [EPickEof, EPickEof, EReplenish, EReplenish];
    assert Front(e1) == [] && Front(e2) == e1 && Front(e3) == e2 && Front(es) == e3;
    var v := Register(cap);
    assert Runs(v, [])  && Runs(v, e1) && Runs(v, e2) && Runs(v, e3) && Runs(v, es);
    assert Out([]) == 0 && Out(e1) == 1 && Out(e2) == 2 && Out(e3) == 1;
    assert Due(e2) && !Due(e3);
    assert InTurn([]) && InTurn(e1) && InTurn(e2) && InTurn(e3) && !InTurn(es);
    ConservedExactlyWhen(cap, es);
  }

  // ---------------------------------------------------------------- the end of a stream

  function Releases(v: State, bids: seq<nat>): (w: State)
    requires Shaped(v)
    ensures Shaped(w)
    decreases |bids|
  {
    if bids == [] then v else Releases(Release(v, bids[0]), bids[1..])
  }

  predicate AllBorrowed(v: State, bids: seq<nat>) {
    multiset(bids) <= v.borrowed
  }

  lemma {:induction false} ReleasesConserve(v: State, bids: seq<nat>)
    requires Conserved(v) && AllBorrowed(v, bids)
    ensures var w := Releases(v, bids);
            && Conserved(w) && w.eof == v.eof && w.head == v.head && w.cap == v.cap && v.log <= w.log
    decreases |bids|
  {
    if bids != [] {
      assert bids == [bids[0]] + bids[1..];
      assert multiset(bids) == multiset{bids[0]} + multiset(bids[1..]);
      ReleaseConserves(v, bids[0]);
      ReleasesConserve(Release(v, bids[0]), bids[1..]);
    }
  }

  /**
   An end of file, then any releases but no other pick, then ReplenishOne: the lost buffer is
   back in the ring.
   */
  lemma EofRoundTrip(v: State, bids: seq<nat>)
    requires Conserved(v) && v.head < |v.log| && AllBorrowed(v, bids)
    ensures var w := Replenish(Releases(Pick(v, true), bids));
            && Conserved(w) && w.eof == v.eof && |w.log| > 0 && w.log[|w.log| - 1] == v.log[v.head]
  {
    var p := Pick(v, true);
    PickConserves(v, true);
    PickTakesNext(v);
    ReleasesConserve(p, bids);
    var q := Releases(p, bids);
    WindowFits(q);
    assert |q.eof| > 0 by { assert v.log[v.head] in q.eof; }
    BeforeHeadIntact(q);
    ReplenishConservesWhen(q);
  }

  /** With one pick in between, the wrong buffer comes back: it is in two places, and the other one in none. */
  lemma EofLost()
    ensures var w := Replenish(Pick(Pick(Register(2), true), false));
            && w.log[w.head..] == [1] && w.borrowed == multiset{1} && 0 in w.eof && !Conserved(w)
  {
    assert Upto(1) == [0];
    assert Upto(2) == [0, 1];
    var v := Pick(Pick(Register(2), true), false);
    var w := Replenish(v);
    assert v.descs == [0, 1] && v.log == [0, 1] && v.head == 2;
    assert w.log[w.head..] == [1];
    MiscountIsWrong(w, 1);
  }
}
