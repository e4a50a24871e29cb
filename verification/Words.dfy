/**
 A 64-bit word is the set of the positions of its one bits.  `|` is union, `^` is symmetric
 difference, OnesCount64 is cardinality; a bitmap is a sequence of words, and bit `b` of word
 `w` stands for the number 64 * w + b.
 */
module Words {
  const BITS: nat := 64

  type Word = w: set<nat> | forall b :: b in w ==> b < BITS witness {}

  /** w | 1 << b */
  function SetBit(w: Word, b: nat): Word
    requires b < BITS
  {
    w + {b}
  }

  function Xor(a: Word, b: Word): Word {
    (a - b) + (b - a)
  }

  function FirstZeroFrom(w: Word, b: nat): (n: nat)
    requires b <= BITS
    ensures b <= n <= BITS
    ensures n < BITS ==> n !in w
    ensures forall i :: b <= i < n ==> i in w
    decreases BITS - b
  {
    if b == BITS || b !in w then b else FirstZeroFrom(w, b + 1)
  }

  /** TrailingZeros64(^w): the lowest zero bit of `w`, or 64 when it has none. */
  function FirstZero(w: Word): (n: nat)
    ensures n <= BITS
    ensures n < BITS ==> n !in w
    ensures forall i :: 0 <= i < n ==> i in w
  {
    FirstZeroFrom(w, 0)
  }

  /** The numbers whose bits are set in the bitmap. */
  ghost function Positions(words: seq<Word>): set<nat> {
    set i | 0 <= i < BITS * |words| && i % BITS in words[i / BITS]
  }

  /** The numbers that word `w` contributes when it holds `s`. */
  ghost function Block(w: nat, s: Word): set<nat> {
    set b | b in s :: BITS * w + b
  }

  lemma BlockInsert(w: nat, s: Word, b: nat)
    requires b in s
    ensures Block(w, s) == Block(w, s - {b}) + {BITS * w + b}
    ensures BITS * w + b !in Block(w, s - {b})
  {
    forall i | i in Block(w, s) ensures i in Block(w, s - {b}) + {BITS * w + b} {
      var c :| c in s && i == BITS * w + c;
      assert c == b || c in s - {b};
    }
  }

  lemma {:induction false} BlockSize(w: nat, s: Word)
    ensures |Block(w, s)| == |s|
    decreases s
  {
    if s == {} {
      assert Block(w, s) == {};
    } else {
      var b :| b in s;
      hide Block;
      BlockSize(w, s - {b});
      BlockInsert(w, s, b);
    }
  }

  lemma InBlock(w: nat, s: Word, i: nat)
    ensures i in Block(w, s) <==> i / BITS == w && i % BITS in s
  {
    if i / BITS == w && i % BITS in s {
      assert i == BITS * w + i % BITS;
    }
  }

  /** Replacing one word replaces its block. */
  lemma Replace(words: seq<Word>, w: nat, s: Word)
    requires w < |words|
    ensures Block(w, words[w]) <= Positions(words)
    ensures Positions(words[w := s]) == (Positions(words) - Block(w, words[w])) + Block(w, s)
  {
    forall i: nat
      ensures i in Positions(words[w := s]) <==> i in (Positions(words) - Block(w, words[w])) + Block(w, s)
      ensures i in Block(w, words[w]) ==> i in Positions(words)
    {
      InBlock(w, words[w], i);
      InBlock(w, s, i);
    }
  }

  lemma SetBitAdds(words: seq<Word>, w: nat, b: nat)
    requires w < |words| && b < BITS
    ensures Positions(words[w := SetBit(words[w], b)]) == Positions(words) + {BITS * w + b}
  {
    Replace(words, w, SetBit(words[w], b));
    assert Block(w, SetBit(words[w], b)) == Block(w, words[w]) + {BITS * w + b};
  }

  /** XOR with a subset of the word clears exactly that subset. */
  lemma XorClears(words: seq<Word>, w: nat, s: Word)
    requires w < |words| && s <= words[w]
    ensures Positions(words[w := Xor(words[w], s)]) == Positions(words) - Block(w, s)
    ensures |Positions(words[w := Xor(words[w], s)])| == |Positions(words)| - |s|
  {
    Replace(words, w, Xor(words[w], s));
    assert Block(w, words[w]) == Block(w, Xor(words[w], s)) + Block(w, s);
    forall i: nat ensures i in Block(w, Xor(words[w], s)) ==> i !in Block(w, s) {
      InBlock(w, Xor(words[w], s), i);
      InBlock(w, s, i);
    }
    BlockSize(w, s);
    assert Block(w, s) <= Positions(words);
  }

  lemma SwapOutClears(words: seq<Word>, w: nat)
    requires w < |words|
    ensures Positions(words[w := {}]) == Positions(words) - Block(w, words[w])
    ensures |Positions(words[w := {}])| == |Positions(words)| - |words[w]|
  {
    Replace(words, w, {});
    assert Block(w, {}) == {};
    BlockSize(w, words[w]);
  }

  /** Inclusion of bitmaps is inclusion word by word. */
  lemma SubsetByWord(a: seq<Word>, b: seq<Word>, w: nat)
    requires |a| == |b| && w < |a| && Positions(a) <= Positions(b)
    ensures a[w] <= b[w]
  {
    forall i | i in a[w] ensures i in b[w] {
      var n := BITS * w + i;
      assert n / BITS == w && n % BITS == i;
      assert n in Positions(a);
      assert n in Positions(b);
    }
  }

  function Range(lo: nat, n: nat): (s: set<nat>)
    ensures |s| == n
    ensures forall i: nat :: i in s <==> lo <= i < lo + n
  {
    if n == 0 then {} else Range(lo, n - 1) + {lo + n - 1}
  }

  function Below(n: nat): (s: set<nat>)
    ensures |s| == n
    ensures forall i: nat :: i in s <==> i < n
  {
    Range(0, n)
  }

  lemma SubsetSize(a: set<nat>, b: set<nat>)
    requires a <= b
    ensures |a| <= |b|
    ensures |a| == |b| ==> a == b
  {
    var rest := b - a;
    assert b == a + rest;
  }

  lemma PositionsSize(words: seq<Word>)
    ensures Positions(words) <= Below(BITS * |words|) && |Positions(words)| <= BITS * |words|
  {
    SubsetSize(Positions(words), Below(BITS * |words|));
  }

  lemma PositionsInRange(words: seq<Word>)
    ensures |Positions(words)| <= BITS * |words|
    ensures forall i :: i in Positions(words) ==> i < BITS * |words|
  {
    PositionsSize(words);
  }

  /** Absorbing the releases of one word: taken and released lose the same numbers. */
  lemma Absorb(b0: seq<Word>, p0: seq<Word>, w: nat)
    requires |b0| == |p0| && w < |b0| && Positions(p0) <= Positions(b0)
    ensures var b1, p1 := b0[w := Xor(b0[w], p0[w])], p0[w := {}];
            && b1[w] == b0[w] - p0[w]
            && Positions(b1) == Positions(b0) - Block(w, p0[w])
            && Positions(p1) == Positions(p0) - Block(w, p0[w])
            && Positions(p1) <= Positions(b1)
            && Positions(b1) - Positions(p1) == Positions(b0) - Positions(p0)
            && |Positions(b1)| == |Positions(b0)| - |p0[w]|
            && |Positions(p1)| == |Positions(p0)| - |p0[w]|
  {
    SubsetByWord(p0, b0, w);
    XorClears(b0, w, p0[w]);
    SwapOutClears(p0, w);
    Replace(p0, w, {});
  }

  /** Claiming a clear bit of the bitmap. */
  lemma Claim(b0: seq<Word>, p0: seq<Word>, w: nat, b: nat, i: nat)
    requires |b0| == |p0| && w < |b0| && Positions(p0) <= Positions(b0)
    requires b < BITS && b !in b0[w] && i == BITS * w + b
    ensures var b1 := b0[w := SetBit(b0[w], b)];
            && i < BITS * |b0| && i !in Positions(b0)
            && Positions(b1) == Positions(b0) + {i}
            && Positions(b1) - Positions(p0) == (Positions(b0) - Positions(p0)) + {i}
            && |Positions(b1)| == |Positions(b0)| + 1 && Positions(p0) <= Positions(b1)
  {
    SetBitAdds(b0, w, b);
    var b1 := b0[w := SetBit(b0[w], b)];
    assert i / BITS == w && i % BITS == b;
    assert i !in Positions(b0) && i !in Positions(p0);
    assert Positions(b1) == Positions(b0) + {i};
  }

  /** Setting the bit of a number adds that number. */
  lemma MarkAdds(words: seq<Word>, i: nat)
    requires i / BITS < |words|
    ensures Positions(words[i / BITS := SetBit(words[i / BITS], i % BITS)]) == Positions(words) + {i}
  {
    SetBitAdds(words, i / BITS, i % BITS);
    assert BITS * (i / BITS) + i % BITS == i;
  }

  /** Marking a taken, unreleased number as released. */
  lemma Release(b0: seq<Word>, p0: seq<Word>, i: nat)
    requires |b0| == |p0| && Positions(p0) <= Positions(b0) && i in Positions(b0) - Positions(p0)
    ensures i / BITS < |p0|
    ensures var p1 := p0[i / BITS := SetBit(p0[i / BITS], i % BITS)];
            && Positions(p1) == Positions(p0) + {i}
            && Positions(p1) <= Positions(b0)
            && Positions(b0) - Positions(p1) == (Positions(b0) - Positions(p0)) - {i}
            && |Positions(p1)| == |Positions(p0)| + 1
  {
    MarkAdds(p0, i);
  }

  /** A set of fewer than `n` numbers misses one of any `n` consecutive ones. */
  lemma Pigeonhole(s: set<nat>, lo: nat, n: nat) returns (i: nat)
    requires |s| < n
    ensures lo <= i < lo + n && i !in s
  {
    if Range(lo, n) <= s {
      SubsetSize(Range(lo, n), s);
      assert false;
    }
    i :| i in Range(lo, n) && i !in s;
  }
}
