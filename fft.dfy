/** The bit-reversal permutation that opens the radix-2 FFT of the onset
    detector (Mp3OnsetDetector.kt, fftRadix2).  The butterflies that follow
    it are floating-point and are not part of this module.

    The source works with Kotlin `and`, `xor` and `shr` on non-negative
    array indices.  They are modelled here on natural numbers: `And` and
    `Xor` bit by bit, `shr 1` as division by two. */
module FftBitReversal {

  function Pow2(k: nat): (r: nat)
    ensures r >= 1
  {
    if k == 0 then 1 else 2 * Pow2(k - 1)
  }

  /** Bitwise and of two naturals. */
  function And(a: nat, b: nat): nat
    decreases a
  {
    if a == 0 || b == 0 then 0
    else 2 * And(a / 2, b / 2) + (if a % 2 == 1 && b % 2 == 1 then 1 else 0)
  }

  /** Bitwise exclusive or of two naturals. */
  function Xor(a: nat, b: nat): nat
    decreases a
  {
    if a == 0 then b
    else if b == 0 then a
    else 2 * Xor(a / 2, b / 2) + (if a % 2 != b % 2 then 1 else 0)
  }

  predicate IsPow2(n: nat)
    decreases n
  {
    n == 1 || (n >= 2 && n % 2 == 0 && IsPow2(n / 2))
  }

  function Log2(n: nat): nat
    decreases n
  {
    if n <= 1 then 0 else 1 + Log2(n / 2)
  }

  lemma {:induction false} Log2OfPow2(n: nat)
    requires IsPow2(n)
    ensures Pow2(Log2(n)) == n
    decreases n
  {
    if n != 1 {
      Log2OfPow2(n / 2);
    }
  }

  lemma {:induction false} Pow2IsPow2(k: nat)
    ensures IsPow2(Pow2(k)) && Log2(Pow2(k)) == k
  {
    if k > 0 {
      Pow2IsPow2(k - 1);
    }
  }

  lemma {:induction false} AndSelf(a: nat)
    ensures And(a, a) == a
    decreases a
  {
    if a != 0 {
      AndSelf(a / 2);
    }
  }

  /** `n and (n - 1) == 0` holds for a positive n exactly when n is a power of two. */
  lemma {:induction false} PowerOfTwoTest(n: nat)
    requires n >= 1
    ensures And(n, n - 1) == 0 <==> IsPow2(n)
    decreases n
  {
    if n == 1 {
    } else if n % 2 == 1 {
      assert (n - 1) / 2 == n / 2 && n / 2 >= 1;
      AndSelf(n / 2);
      assert And(n, n - 1) == 2 * And(n / 2, n / 2);
    } else {
      assert (n - 1) / 2 == n / 2 - 1;
      PowerOfTwoTest(n / 2);
      assert And(n, n - 1) == 2 * And(n / 2, n / 2 - 1);
    }
  }

  /** Against a single bit 2^b, `and` tests it and `xor` flips it. */
  lemma {:induction false} SingleBit(j: nat, b: nat)
    requires j < 2 * Pow2(b)
    ensures And(j, Pow2(b)) != 0 <==> j >= Pow2(b)
    ensures Xor(j, Pow2(b)) == if j >= Pow2(b) then j - Pow2(b) else j + Pow2(b)
  {
    if b > 0 {
      SingleBit(j / 2, b - 1);
      if j == 0 {
        assert And(j, Pow2(b)) == 0;
      } else {
        assert And(j, Pow2(b)) == 2 * And(j / 2, Pow2(b - 1));
        assert Xor(j, Pow2(b)) == 2 * Xor(j / 2, Pow2(b - 1)) + j % 2;
      }
    }
  }

  // ---------------------------------------------------------------
  // Bit reversal
  // ---------------------------------------------------------------

  /** i with its low L bits reversed: the lowest bit of i becomes bit L - 1. */
  function Rev(i: nat, L: nat): nat
  {
    if L == 0 then 0 else Rev(i / 2, L - 1) + (if i % 2 == 1 then Pow2(L - 1) else 0)
  }

  lemma {:induction false} RevBound(i: nat, L: nat)
    ensures Rev(i, L) < Pow2(L)
  {
    if L > 0 {
      RevBound(i / 2, L - 1);
    }
  }

  lemma {:induction false} RevZero(L: nat)
    ensures Rev(0, L) == 0
  {
    if L > 0 {
      RevZero(L - 1);
    }
  }

  /** The low L bits of i, lowest first. */
  function Bits(i: nat, L: nat): (s: seq<bool>)
    ensures |s| == L
  {
    if L == 0 then [] else [i % 2 == 1] + Bits(i / 2, L - 1)
  }

  function Val(s: seq<bool>): nat
  {
    if s == [] then 0 else (if s[0] then 1 else 0) + 2 * Val(s[1..])
  }

  function Reverse(s: seq<bool>): (r: seq<bool>)
    ensures |r| == |s|
  {
    if s == [] then [] else Reverse(s[1..]) + [s[0]]
  }

  lemma {:induction false} ReverseReverse(s: seq<bool>)
    ensures Reverse(Reverse(s)) == s
  {
    if s != [] {
      ReverseAppend(Reverse(s[1..]), s[0]);
      ReverseReverse(s[1..]);
    }
  }

  lemma {:induction false} ReverseAppend(s: seq<bool>, b: bool)
    ensures Reverse(s + [b]) == [b] + Reverse(s)
  {
    if s != [] {
      assert (s + [b])[1..] == s[1..] + [b];
      ReverseAppend(s[1..], b);
    } else {
      assert Reverse([b]) == Reverse([]) + [b];
    }
  }

  lemma {:induction false} ValAppend(s: seq<bool>, b: bool)
    ensures Val(s + [b]) == Val(s) + (if b then Pow2(|s|) else 0)
  {
    if s != [] {
      assert (s + [b])[1..] == s[1..] + [b];
      ValAppend(s[1..], b);
    } else {
      assert Val([b]) == (if b then 1 else 0) + 2 * Val([]);
    }
  }

  lemma {:induction false} ValBits(i: nat, L: nat)
    requires i < Pow2(L)
    ensures Val(Bits(i, L)) == i
  {
    if L > 0 {
      ValBits(i / 2, L - 1);
      assert Bits(i, L)[1..] == Bits(i / 2, L - 1);
    }
  }

  lemma {:induction false} BitsVal(s: seq<bool>)
    ensures Bits(Val(s), |s|) == s
  {
    if s != [] {
      BitsVal(s[1..]);
      assert Val(s) % 2 == (if s[0] then 1 else 0) && Val(s) / 2 == Val(s[1..]);
    }
  }

  lemma {:induction false} RevIsReversedBits(i: nat, L: nat)
    ensures Rev(i, L) == Val(Reverse(Bits(i, L)))
  {
    if L > 0 {
      RevIsReversedBits(i / 2, L - 1);
      assert Bits(i, L)[1..] == Bits(i / 2, L - 1);
      ValAppend(Reverse(Bits(i / 2, L - 1)), i % 2 == 1);
    }
  }

  /** Reversing the bits twice gives the index back. */
  lemma RevInvolution(i: nat, L: nat)
    requires i < Pow2(L)
    ensures Rev(Rev(i, L), L) == i
  {
    var t := Reverse(Bits(i, L));
    RevIsReversedBits(i, L);
    BitsVal(t);
    RevIsReversedBits(Rev(i, L), L);
    ReverseReverse(Bits(i, L));
    ValBits(i, L);
  }

  /** The inner loop of the bit reversal followed by the final `xor`: clear
      set bits from `bit` downwards, then set the first clear one. */
  function RevInc(j: nat, bit: nat): nat
    decreases bit
  {
    if And(j, bit) != 0 then RevInc(Xor(j, bit), bit / 2) else Xor(j, bit)
  }

  /** Adding one at the top of a reversed index is the reversal of the successor. */
  lemma {:induction false} RevIncIsSucc(i: nat, L: nat)
    requires L >= 1 && i + 1 < Pow2(L)
    ensures RevInc(Rev(i, L), Pow2(L - 1)) == Rev(i + 1, L)
  {
    if i % 2 == 0 {
      RevIncEven(i, L);
    } else {
      RevIncOdd(i, L);
      RevIncIsSucc(i / 2, L - 1);
    }
  }

  /** An even index has its top reversed bit clear: setting it gives the
      successor. */
  lemma RevIncEven(i: nat, L: nat)
    requires L >= 1 && i % 2 == 0
    ensures RevInc(Rev(i, L), Pow2(L - 1)) == Rev(i + 1, L)
  {
    var top := Pow2(L - 1);
    RevBound(i / 2, L - 1);
    SingleBit(Rev(i, L), L - 1);
    assert (i + 1) / 2 == i / 2 && (i + 1) % 2 == 1;
    assert Rev(i, L) == Rev(i / 2, L - 1);
    assert RevInc(Rev(i, L), top) == Rev(i, L) + top;
  }

  /** An odd index has its top reversed bit set: clearing it carries into
      the reversal of the index's upper bits. */
  lemma RevIncOdd(i: nat, L: nat)
    requires L >= 1 && i + 1 < Pow2(L) && i % 2 == 1
    ensures L >= 2 && i / 2 + 1 < Pow2(L - 1)
    ensures RevInc(Rev(i, L), Pow2(L - 1)) == RevInc(Rev(i / 2, L - 1), Pow2(L - 2))
    ensures Rev(i + 1, L) == Rev(i / 2 + 1, L - 1)
  {
    var top := Pow2(L - 1);
    RevBound(i / 2, L - 1);
    SingleBit(Rev(i, L), L - 1);
    assert Rev(i, L) == Rev(i / 2, L - 1) + top;
    assert L >= 2;
    assert top / 2 == Pow2(L - 2);
    assert (i + 1) / 2 == i / 2 + 1 && (i + 1) % 2 == 0;
  }

  /** The inner `while` of the bit reversal and the `xor` after it. */
  method ReversedIncrement(j0: nat, bit0: nat) returns (j: nat)
    ensures j == RevInc(j0, bit0)
  {
    j := j0;
    var bit := bit0;
    while And(j, bit) != 0
      invariant RevInc(j, bit) == RevInc(j0, bit0)
      decreases bit
    {
      j := Xor(j, bit);
      bit := bit / 2;
    }
    j := Xor(j, bit);
  }

  /** Position p once the pairs whose smaller index is below i have been
      swapped. */
  function Sel(p: nat, i: nat, L: nat): nat {
    if p < i || Rev(p, L) < i then Rev(p, L) else p
  }

  function Permuted<T>(s: seq<T>, i: nat, L: nat): (r: seq<T>)
    requires |s| == Pow2(L)
    ensures |r| == |s|
  {
    seq(|s|, p requires 0 <= p < |s| => RevBound(p, L); s[Sel(p, i, L)])
  }

  lemma PermutedStart<T>(s: seq<T>, L: nat)
    requires |s| == Pow2(L)
    ensures Permuted(s, 1, L) == s
  {
    forall p | 0 <= p < |s| ensures Permuted(s, 1, L)[p] == s[p] {
      RevZero(L);
      if Rev(p, L) < 1 {
        RevInvolution(p, L);
      }
    }
  }

  /** Once every index has been visited, position p holds the element from Rev(p). */
  lemma PermutedEnd<T>(s: seq<T>, L: nat)
    requires |s| == Pow2(L)
    ensures forall p | 0 <= p < |s| :: Rev(p, L) < |s| && Permuted(s, |s|, L)[p] == s[Rev(p, L)]
  {
    forall p | 0 <= p < |s| ensures Rev(p, L) < |s| {
      RevBound(p, L);
    }
  }

  /** Visiting index i swaps it with its reversal when that lies above it. */
  lemma PermutedStep<T>(s: seq<T>, i: nat, L: nat)
    requires |s| == Pow2(L) && i < |s|
    ensures Rev(i, L) < |s|
    ensures Permuted(s, i + 1, L)
            == if i < Rev(i, L) then Permuted(s, i, L)[i := Permuted(s, i, L)[Rev(i, L)]][Rev(i, L) := Permuted(s, i, L)[i]]
               else Permuted(s, i, L)
  {
    RevBound(i, L);
    RevInvolution(i, L);
    var a, b := Permuted(s, i, L), Permuted(s, i + 1, L);
    forall p | 0 <= p < |s|
      ensures b[p] == if i < Rev(i, L) then a[i := a[Rev(i, L)]][Rev(i, L) := a[i]][p] else a[p]
    {
      RevBound(p, L);
      RevInvolution(p, L);
    }
  }

  /** The swap of the visit of index i: cells i and j = Rev(i) trade places when i < j. */
  method Visit(re: array<real>, im: array<real>, i: nat, j: nat,
               ghost re0: seq<real>, ghost im0: seq<real>, ghost L: nat)
    requires re != im && |re0| == |im0| == re.Length == im.Length == Pow2(L)
    requires i < re.Length && j == Rev(i, L)
    requires re[..] == Permuted(re0, i, L) && im[..] == Permuted(im0, i, L)
    modifies re, im
    ensures re[..] == Permuted(re0, i + 1, L) && im[..] == Permuted(im0, i + 1, L)
  {
    PermutedStep(re0, i, L);
    PermutedStep(im0, i, L);
    if i < j {
      re[i], re[j] := re[j], re[i];
      im[i], im[j] := im[j], im[i];
    }
  }

  /** The validation and bit-reversal part of `fftRadix2`.  `ok` is false
      where the source throws because the size is not a power of two (a
      size of 0 passes, as `0 and -1` is 0); then nothing changes. */
  method BitReverse(re: array<real>, im: array<real>) returns (ok: bool)
    requires re != im && re.Length == im.Length
    modifies re, im
    ensures ok <==> re.Length == 0 || IsPow2(re.Length)
    ensures !ok ==> re[..] == old(re[..]) && im[..] == old(im[..])
    ensures ok ==> forall p | 0 <= p < re.Length ::
                     && Rev(p, Log2(re.Length)) < re.Length
                     && re[p] == old(re[Rev(p, Log2(re.Length))])
                     && im[p] == old(im[Rev(p, Log2(re.Length))])
  {
    var n := re.Length;
    if n == 0 {
      return true;
    }
    PowerOfTwoTest(n);
    if And(n, n - 1) != 0 {
      return false;
    }
    Log2OfPow2(n);
    ReverseAll(re, im, Log2(n));
    ok := true;
  }

  /** The `for (i in 1 until n)` loop, for n = 2^L: j runs through the
      reversals of 0, 1, 2, ... and each pair i < j is swapped once. */
  method ReverseAll(re: array<real>, im: array<real>, ghost L: nat)
    requires re != im && re.Length == im.Length == Pow2(L)
    modifies re, im
    ensures forall p | 0 <= p < re.Length ::
              && Rev(p, L) < re.Length
              && re[p] == old(re[Rev(p, L)])
              && im[p] == old(im[Rev(p, L)])
  {
    var n := re.Length;
    ghost var re0, im0 := re[..], im[..];
    PermutedStart(re0, L);
    PermutedStart(im0, L);
    RevZero(L);
    var j: nat := 0;
    var i := 1;
    while i < n
      invariant 1 <= i <= n
      invariant j == Rev(i - 1, L)
      invariant re[..] == Permuted(re0, i, L) && im[..] == Permuted(im0, i, L)
    {
      assert L >= 1 && n / 2 == Pow2(L - 1);
      RevIncIsSucc(i - 1, L);
      j := ReversedIncrement(j, n / 2);
      Visit(re, im, i, j, re0, im0, L);
      i := i + 1;
    }
    PermutedEnd(re0, L);
    PermutedEnd(im0, L);
  }

  /** The index map is an involution: `Rev` at `log2 n` bits is its own
      inverse on every index below `n`. */
  lemma BitReversalInvolution(n: nat, p: nat)
    requires IsPow2(n) && p < n
    ensures Rev(p, Log2(n)) < n && Rev(Rev(p, Log2(n)), Log2(n)) == p
  {
    Log2OfPow2(n);
    RevBound(p, Log2(n));
    RevInvolution(p, Log2(n));
  }

  /** For 8 points the permutation is 0 4 2 6 1 5 3 7. */
  lemma EightPoints()
    ensures Rev(1, 3) == 4 && Rev(3, 3) == 6 && Rev(6, 3) == 3 && Rev(7, 3) == 7
  {
  }
}
