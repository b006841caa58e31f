/** The eight-lane dot product and energy of the echo suppressor against the sums they stand for. */
module EchoKernels {

  type int16 = x: int | -0x8000 <= x < 0x8000

  const MOST_NEGATIVE: int := -0x8000
  const WORD: int := 0x1_0000_0000
  const DOUBLE: int := 0x1_0000_0000_0000_0000

  // ---------------------------------------------------------------- machine words

  /** Two's-complement wrap-around of 32 and of 64 bits. */
  function Wrap32(x: int): (r: int)
    ensures -0x8000_0000 <= r < 0x8000_0000
    ensures -0x8000_0000 <= x < 0x8000_0000 ==> r == x
  {
    (x + WORD / 2) % WORD - WORD / 2
  }

  function Wrap64(x: int): (r: int)
    ensures -DOUBLE / 2 <= x < DOUBLE / 2 ==> r == x
  {
    (x + DOUBLE / 2) % DOUBLE - DOUBLE / 2
  }

  lemma MulAtMost(u: nat, v: nat, uMax: nat, vMax: nat)
    requires u <= uMax && v <= vMax
    ensures 0 <= u * v <= uMax * vMax
  {
  }

  lemma Signs(x: int, y: int)
    ensures (-x) * y == -(x * y) == x * (-y) && (-x) * (-y) == x * y
  {
  }

  lemma MulBounds(x: int, y: int)
    requires -0x8000 <= x < 0x8000 && -0x8000 <= y < 0x8000
    ensures -0x3FFF_8000 <= x * y
    ensures !(x == y == MOST_NEGATIVE) ==> x * y <= 0x3FFF_8000
  {
    Signs(x, y);
    if x >= 0 && y >= 0 {
      MulAtMost(x, y, 0x7FFF, 0x7FFF);
    } else if x >= 0 {
      MulAtMost(x, -y, 0x7FFF, 0x8000);
    } else if y >= 0 {
      MulAtMost(-x, y, 0x8000, 0x7FFF);
    } else if x > MOST_NEGATIVE {
      MulAtMost(-x, -y, 0x7FFF, 0x8000);
    } else if y > MOST_NEGATIVE {
      MulAtMost(-x, -y, 0x8000, 0x7FFF);
    } else {
      assert x * y == MOST_NEGATIVE * MOST_NEGATIVE;
    }
  }

  function Product(x: int16, y: int16): (r: int)
    ensures -0x3FFF_8000 <= r <= 0x4000_0000
    ensures r == 0x4000_0000 <==> x == y == MOST_NEGATIVE
  {
    MulBounds(x, y);
    x as int * y as int
  }

  /** `_mm_madd_epi16` on one pair of lanes. */
  function Madd(x0: int16, y0: int16, x1: int16, y1: int16): int {
    Wrap32(Product(x0, y0) + Product(x1, y1))
  }

  predicate AllLowest(x0: int16, y0: int16, x1: int16, y1: int16) {
    x0 == y0 == x1 == y1 == MOST_NEGATIVE
  }

  /** `_mm_srai_epi32` by 31. */
  function SignWord(x: int): int {
    if x < 0 then -1 else 0
  }

  /** A 32-bit lane beside its sign word, read as one 64-bit lane. */
  function Interleaved(low: int, high: int): int {
    Wrap64(low % WORD + high % WORD * WORD)
  }

  /** The multiply-add wraps in one case only. */
  lemma MaddWrapsOnce(x0: int16, y0: int16, x1: int16, y1: int16)
    ensures Madd(x0, y0, x1, y1) == Product(x0, y0) + Product(x1, y1) - if AllLowest(x0, y0, x1, y1) then WORD else 0
    ensures -0x8000_0000 <= Madd(x0, y0, x1, y1) < 0x8000_0000
  {
  }

  lemma SignExtends(x: int)
    requires -0x8000_0000 <= x < 0x8000_0000
    ensures Interleaved(x, SignWord(x)) == x
  {
  }

  // ---------------------------------------------------------------- the sums

  function Dot(a: seq<int16>, b: seq<int16>, n: nat): int
    requires n <= |a| && n <= |b|
  {
    if n == 0 then 0 else Dot(a, b, n - 1) + Product(a[n - 1], b[n - 1])
  }

  predicate LowestPair(a: seq<int16>, b: seq<int16>, p: nat)
    requires 2 * p + 1 < |a| && 2 * p + 1 < |b|
  {
    AllLowest(a[2 * p], b[2 * p], a[2 * p + 1], b[2 * p + 1])
  }

  /** How many of the first `pairs` aligned pairs have all four factors at the lowest value. */
  function LowestPairs(a: seq<int16>, b: seq<int16>, pairs: nat): (n: nat)
    requires 2 * pairs <= |a| && 2 * pairs <= |b|
    ensures n <= pairs
  {
    if pairs == 0 then 0 else LowestPairs(a, b, pairs - 1) + if LowestPair(a, b, pairs - 1) then 1 else 0
  }

  function PairMadd(a: seq<int16>, b: seq<int16>, p: nat): int
    requires 2 * p + 1 < |a| && 2 * p + 1 < |b|
  {
    Madd(a[2 * p], b[2 * p], a[2 * p + 1], b[2 * p + 1])
  }

  lemma PairStep(a: seq<int16>, b: seq<int16>, p: nat)
    requires 2 * p + 2 <= |a| && 2 * p + 2 <= |b|
    ensures Dot(a, b, 2 * p + 2) - WORD * LowestPairs(a, b, p + 1)
         == Dot(a, b, 2 * p) - WORD * LowestPairs(a, b, p) + PairMadd(a, b, p)
    ensures -0x8000_0000 <= PairMadd(a, b, p) < 0x8000_0000
  {
  }

  lemma {:induction false} NoLowestPairs(a: seq<int16>, b: seq<int16>, pairs: nat)
    requires 2 * pairs <= |a| && 2 * pairs <= |b|
    ensures LowestPairs(a, b, pairs) == 0 <==> forall p :: 0 <= p < pairs ==> !LowestPair(a, b, p)
  {
    if pairs > 0 {
      NoLowestPairs(a, b, pairs - 1);
    }
  }

  // ---------------------------------------------------------------- the kernels

  ghost predicate InRange(sum: int) {
    -0x8000_0000_0000_0000 <= sum < 0x8000_0000_0000_0000
  }

  /** `_mm_add_epi64` on one lane, and the scalar addition. */
  method Add64(x: int, y: int) returns (r: int)
    ensures InRange(x + y) ==> r == x + y
  {
    r := Wrap64(x + y);
  }

  /** How far one of the two partial sums can have got after `n` elements. */
  ghost predicate Lane(sum: int, n: nat) {
    -0x8000_0000 * n <= sum <= 0x8000_0000 * n
  }

  /** The four multiply-adds of one block of eight, widened and added to the two 64-bit partial sums. */
  method AddBlock(a: array<int16>, b: array<int16>, i: nat, ghost p: nat, low: int, high: int)
    returns (low': int, high': int)
    requires i + 8 <= a.Length && i + 8 <= b.Length && i == 2 * p
    requires i < 0x8000_0000 && Lane(low, i) && Lane(high, i)
    ensures low' == low + PairMadd(a[..], b[..], p) + PairMadd(a[..], b[..], p + 2)
    ensures high' == high + PairMadd(a[..], b[..], p + 1) + PairMadd(a[..], b[..], p + 3)
  {
    var m0 := Madd(a[i], b[i], a[i + 1], b[i + 1]);
    var m1 := Madd(a[i + 2], b[i + 2], a[i + 3], b[i + 3]);
    var m2 := Madd(a[i + 4], b[i + 4], a[i + 5], b[i + 5]);
    var m3 := Madd(a[i + 6], b[i + 6], a[i + 7], b[i + 7]);
    SignExtends(m0);
    SignExtends(m1);
    SignExtends(m2);
    SignExtends(m3);
    low' := Add64(low, Interleaved(m0, SignWord(m0)));
    high' := Add64(high, Interleaved(m1, SignWord(m1)));
    low' := Add64(low', Interleaved(m2, SignWord(m2)));
    high' := Add64(high', Interleaved(m3, SignWord(m3)));
  }

  lemma BlockSum(a: seq<int16>, b: seq<int16>, p: nat)
    requires 2 * p + 8 <= |a| && 2 * p + 8 <= |b|
    ensures Dot(a, b, 2 * p + 8) - WORD * LowestPairs(a, b, p + 4)
         == Dot(a, b, 2 * p) - WORD * LowestPairs(a, b, p)
          + PairMadd(a, b, p) + PairMadd(a, b, p + 1) + PairMadd(a, b, p + 2) + PairMadd(a, b, p + 3)
    ensures forall k :: p <= k < p + 4 ==> -0x8000_0000 <= PairMadd(a, b, k) < 0x8000_0000
  {
    hide Dot, LowestPairs, PairMadd;
    PairStep(a, b, p);
    PairStep(a, b, p + 1);
    PairStep(a, b, p + 2);
    PairStep(a, b, p + 3);
  }

  /** How far the partial sums can have got after `n` elements. */
  ghost predicate Within(sum: int, n: nat) {
    -0x1_0000_0000 * n <= sum <= 0x1_0000_0000 * n
  }

  lemma RestStep(a: seq<int16>, b: seq<int16>, i: nat, sum: int)
    requires i < |a| && i < |b| && Within(sum, i)
    ensures Dot(a, b, i + 1) == Dot(a, b, i) + Product(a[i], b[i])
    ensures Within(sum + Product(a[i], b[i]), i + 1)
    ensures i < 0x7FFF_FFFF ==> InRange(sum + Product(a[i], b[i]))
  {
  }

  /** Where the two partial sums stand after `k` blocks. */
  ghost predicate Partial(a: seq<int16>, b: seq<int16>, k: nat, low: int, high: int)
    requires 8 * k <= |a| && 8 * k <= |b|
  {
    && low + high == Dot(a, b, 8 * k) - WORD * LowestPairs(a, b, 4 * k)
    && Lane(low, 8 * k) && Lane(high, 8 * k)
  }

  lemma PartialStart(a: seq<int16>, b: seq<int16>)
    ensures Partial(a, b, 0, 0, 0)
  {
  }

  lemma PartialStep(a: seq<int16>, b: seq<int16>, k: nat, low: int, high: int)
    requires 8 * k + 8 <= |a| && 8 * k + 8 <= |b| && Partial(a, b, k, low, high)
    ensures Partial(a, b, k + 1, low + PairMadd(a, b, 4 * k) + PairMadd(a, b, 4 * k + 2),
                    high + PairMadd(a, b, 4 * k + 1) + PairMadd(a, b, 4 * k + 3))
  {
    hide Dot, LowestPairs, PairMadd;
    BlockSum(a, b, 4 * k);
  }

  lemma PartialSum(a: seq<int16>, b: seq<int16>, k: nat, low: int, high: int)
    requires 8 * k <= |a| && 8 * k <= |b| && 8 * k < 0x8000_0000 && Partial(a, b, k, low, high)
    ensures Lane(low, 8 * k) && Lane(high, 8 * k)
    ensures InRange(low + high) && Within(low + high, 8 * k)
    ensures low + high == Dot(a, b, 8 * k) - WORD * LowestPairs(a, b, 4 * k)
  {
  }

  /** The eight-lane loop; `i` is where it stops. */
  method SumBlocks(a: array<int16>, b: array<int16>, count: nat) returns (sum: int, i: nat)
    requires count <= a.Length && count <= b.Length && count < 0x8000_0000
    ensures i == count / 8 * 8
    ensures sum == Dot(a[..], b[..], i) - WORD * LowestPairs(a[..], b[..], i / 2)
    ensures Within(sum, i)
  {
    hide Partial, Dot, LowestPairs, PairMadd, Lane, Within;
    var low, high := 0, 0;
    ghost var k := 0;
    i := 0;
    PartialStart(a[..], b[..]);
    while i + 8 <= count
      invariant i == 8 * k <= count && Partial(a[..], b[..], k, low, high)
    {
      PartialSum(a[..], b[..], k, low, high);
      PartialStep(a[..], b[..], k, low, high);
      low, high := AddBlock(a, b, i, 4 * k, low, high);
      i, k := i + 8, k + 1;
    }
    PartialSum(a[..], b[..], k, low, high);
    sum := Add64(low, high);
  }

  /** The scalar rest behind the blocks. */
  method SumRest(a: array<int16>, b: array<int16>, start: nat, count: nat, sum: int) returns (total: int)
    requires start <= count <= a.Length && count <= b.Length && count < 0x8000_0000
    requires Within(sum, start)
    ensures total == sum + Dot(a[..], b[..], count) - Dot(a[..], b[..], start)
  {
    total := sum;
    var i := start;
    while i < count
      invariant start <= i <= count
      invariant total == sum + Dot(a[..], b[..], i) - Dot(a[..], b[..], start)
      invariant Within(total, i)
    {
      RestStep(a[..], b[..], i, total);
      total := Add64(total, Product(a[i], b[i]));
      i := i + 1;
    }
  }

  /** The kernel is off by 2^32 for each aligned pair of its eight-lane part whose four factors are all -32768;
    * every other intermediate fits its word, whatever the length. */
  method ComputeDotProduct(a: array<int16>, b: array<int16>, count: int) returns (dot: int)
    requires count <= a.Length && count <= b.Length && count < 0x8000_0000
    ensures count <= 0 ==> dot == 0
    ensures count > 0 ==>
      dot == Dot(a[..], b[..], count) - WORD * LowestPairs(a[..], b[..], count / 8 * 4)
  {
    if count <= 0 {
      return 0;
    }
    var sum, i := SumBlocks(a, b, count);
    dot := SumRest(a, b, i, count, sum);
    assert i / 2 == count / 8 * 4;
  }

  /** The same kernel on one operand. */
  method ComputeFrameEnergy(samples: array<int16>, count: int) returns (energy: int)
    requires count <= samples.Length && count < 0x8000_0000
    ensures count <= 0 ==> energy == 0
    ensures count > 0 ==>
      energy == Dot(samples[..], samples[..], count) - WORD * LowestPairs(samples[..], samples[..], count / 8 * 4)
  {
    energy := ComputeDotProduct(samples, samples, count);
  }

  /** The build without vector instructions. */
  method ComputeDotProductScalar(a: array<int16>, b: array<int16>, count: int) returns (dot: int)
    requires count <= a.Length && count <= b.Length && count < 0x8000_0000
    ensures dot == Dot(a[..], b[..], if count < 0 then 0 else count)
  {
    if count <= 0 {
      return 0;
    }
    dot := SumRest(a, b, 0, count, 0);
  }

  /** The two builds agree exactly when no aligned pair of the eight-lane part has all four factors at -32768. */
  lemma KernelIsExactIff(a: seq<int16>, b: seq<int16>, count: nat)
    requires count <= |a| && count <= |b|
    ensures Dot(a, b, count) - WORD * LowestPairs(a, b, count / 8 * 4) == Dot(a, b, count) <==>
      forall p :: 0 <= p < count / 8 * 4 ==> !LowestPair(a, b, p)
  {
    NoLowestPairs(a, b, count / 8 * 4);
  }

  /** Eight samples at -32768 are enough: their energy comes out negative. */
  lemma LoudestFrameGoesNegative()
    ensures var s: seq<int16> := seq(8, i => MOST_NEGATIVE);
      Dot(s, s, 8) == 8 * 0x4000_0000 && Dot(s, s, 8) - WORD * LowestPairs(s, s, 8 / 8 * 4) < 0
  {
    var s: seq<int16> := seq(8, i => MOST_NEGATIVE);
    assert forall k :: 0 <= k < 8 ==> s[k] == MOST_NEGATIVE;
    EqualSamples(s, 8);
    AllPairsLowest(s, 4);
  }

  lemma {:induction false} EqualSamples(s: seq<int16>, n: nat)
    requires n <= |s| && forall k :: 0 <= k < n ==> s[k] == MOST_NEGATIVE
    ensures Dot(s, s, n) == n * 0x4000_0000
  {
    if n > 0 {
      EqualSamples(s, n - 1);
    }
  }

  lemma {:induction false} AllPairsLowest(s: seq<int16>, pairs: nat)
    requires 2 * pairs <= |s| && forall k :: 0 <= k < 2 * pairs ==> s[k] == MOST_NEGATIVE
    ensures LowestPairs(s, s, pairs) == pairs
  {
    if pairs > 0 {
      AllPairsLowest(s, pairs - 1);
    }
  }
}
