/** Who wins a pair of games: more game wins first, then the lower average time of the accepted moves. */
module Scoring {
  import opened Text

  datatype Side = SideA | SideB

  function Opposite(side: Option<Side>): Option<Side> {
    match side
    case None => None
    case Some(SideA) => Some(SideB)
    case Some(SideB) => Some(SideA)
  }

  function Sum(values: seq<int>): int {
    if values == [] then 0 else Sum(values[..|values| - 1]) + values[|values| - 1]
  }

  lemma SumOfOne(value: int)
    ensures Sum([value]) == value && Sum([]) == 0
  {
    assert [value][..0] == [];
  }

  lemma {:induction false} SumConcat(a: seq<int>, b: seq<int>)
    ensures Sum(a + b) == Sum(a) + Sum(b)
  {
    if b == [] {
      assert a + b == a;
    } else {
      assert (a + b)[..|a + b| - 1] == a + b[..|b| - 1];
      SumConcat(a, b[..|b| - 1]);
    }
  }

  // ----- the rule, over exact averages -----

  function Average(values: seq<int>): real
    requires values != []
  {
    Sum(values) as real / |values| as real
  }

  function Verdict(winsA: nat, winsB: nat, samplesA: seq<int>, samplesB: seq<int>): Option<Side> {
    if winsA != winsB then Some(if winsA > winsB then SideA else SideB)
    else if samplesA == [] && samplesB == [] then None
    else if samplesB == [] then Some(SideA)
    else if samplesA == [] then Some(SideB)
    else if Average(samplesA) == Average(samplesB) then None
    else Some(if Average(samplesA) < Average(samplesB) then SideA else SideB)
  }

  /** Lower average time of the accepted moves; samples beat none. */
  predicate Faster(mine: seq<int>, theirs: seq<int>) {
    && mine != []
    && (theirs == [] || Sum(mine) as real / |mine| as real < Sum(theirs) as real / |theirs| as real)
  }

  /** More wins, or as many and faster. */
  predicate Better(mine: nat, theirs: nat, myTimes: seq<int>, theirTimes: seq<int>) {
    mine > theirs || (mine == theirs && Faster(myTimes, theirTimes))
  }

  lemma VerdictMeaning(winsA: nat, winsB: nat, samplesA: seq<int>, samplesB: seq<int>)
    ensures var verdict := Verdict(winsA, winsB, samplesA, samplesB);
            && (verdict == Some(SideA) <==> Better(winsA, winsB, samplesA, samplesB))
            && (verdict == Some(SideB) <==> Better(winsB, winsA, samplesB, samplesA))
  {
    hide Sum;
  }

  // ----- the code, over 64-bit integers -----

  /** Two's complement wrap-around. */
  function Wrap64(n: int): (r: int)
    ensures IsInt64(r)
    ensures IsInt64(n) ==> r == n
    ensures (n - r) % 0x1_0000_0000_0000_0000 == 0
  {
    (n + 0x8000_0000_0000_0000) % 0x1_0000_0000_0000_0000 - 0x8000_0000_0000_0000
  }

  lemma WrapOfWrap(a: int, b: int)
    ensures Wrap64(Wrap64(a) + b) == Wrap64(a + b)
  {
  }

  method SumCount(values: seq<int>) returns (sum: int, count: int, ok: bool)
    ensures ok <==> values != []
    ensures sum == Wrap64(Sum(values)) && count == |values|
  {
    if |values| == 0 {
      return 0, 0, false;
    }
    sum := 0;
    for i := 0 to |values|
      invariant sum == Wrap64(Sum(values[..i]))
    {
      assert values[..i + 1][..i] == values[..i];
      WrapOfWrap(Sum(values[..i]), values[i]);
      sum := Wrap64(sum + values[i]);
    }
    assert values[..|values|] == values;
    return sum, |values|, true;
  }

  /** What the executor decides, with every sum and product wrapped to 64 bits. */
  function Decision(winsA: nat, winsB: nat, samplesA: seq<int>, samplesB: seq<int>): Option<Side> {
    var left := Wrap64(Wrap64(Sum(samplesA)) * |samplesB|);
    var right := Wrap64(Wrap64(Sum(samplesB)) * |samplesA|);
    if winsA > winsB then Some(SideA)
    else if winsB > winsA then Some(SideB)
    else if samplesA != [] && samplesB != [] && left < right then Some(SideA)
    else if samplesA != [] && samplesB != [] && right < left then Some(SideB)
    else if samplesA != [] && samplesB == [] then Some(SideA)
    else if samplesB != [] && samplesA == [] then Some(SideB)
    else None
  }

  /** Swapping the agents swaps the decision, even where sums or products wrap, and swaps the verdict. */
  lemma DecisionIsSymmetric(winsA: nat, winsB: nat, samplesA: seq<int>, samplesB: seq<int>)
    ensures Decision(winsB, winsA, samplesB, samplesA) == Opposite(Decision(winsA, winsB, samplesA, samplesB))
    ensures Verdict(winsB, winsA, samplesB, samplesA) == Opposite(Verdict(winsA, winsB, samplesA, samplesB))
  {
    hide Wrap64, Sum, Average;
  }

  method Decide(winsA: nat, winsB: nat, samplesA: seq<int>, samplesB: seq<int>) returns (winner: Option<Side>)
    ensures winner == Decision(winsA, winsB, samplesA, samplesB)
  {
    if winsA > winsB {
      return Some(SideA);
    }
    if winsB > winsA {
      return Some(SideB);
    }
    var sumA, cntA, okA := SumCount(samplesA);
    var sumB, cntB, okB := SumCount(samplesB);
    if okA && okB {
      if Wrap64(sumA * cntB) < Wrap64(sumB * cntA) {
        return Some(SideA);
      }
      if Wrap64(sumB * cntA) < Wrap64(sumA * cntB) {
        return Some(SideB);
      }
    }
    if okA && !okB {
      return Some(SideA);
    }
    if okB && !okA {
      return Some(SideB);
    }
    return None;
  }

  // ----- where the two agree -----

  const MAX_SAMPLES: nat := 64
  const MAX_DURATION: int := 0x8_0000_0000_0000

  /** At most 64 durations, each below 2^51 milliseconds. */
  predicate Bounded(values: seq<int>) {
    |values| <= MAX_SAMPLES && forall i :: 0 <= i < |values| ==> -MAX_DURATION < values[i] < MAX_DURATION
  }

  lemma {:induction false} SumIsBounded(values: seq<int>)
    requires Bounded(values)
    ensures -|values| * MAX_DURATION <= Sum(values) <= |values| * MAX_DURATION
    ensures values != [] ==> -|values| * MAX_DURATION < Sum(values) < |values| * MAX_DURATION
  {
    if values != [] {
      SumIsBounded(values[..|values| - 1]);
    }
  }

  lemma ProductFits(values: seq<int>, count: nat)
    requires Bounded(values) && count <= MAX_SAMPLES
    ensures IsInt64(Sum(values) * count)
  {
    SumIsBounded(values);
    var limit := MAX_SAMPLES * MAX_DURATION;
    assert -limit <= Sum(values) <= limit;
    assert values != [] ==> -limit < Sum(values) < limit;
    ProductRange(Sum(values), count, limit);
  }

  lemma ProductRange(sum: int, count: nat, limit: int)
    requires -limit < sum < limit && count <= MAX_SAMPLES
    ensures -limit * MAX_SAMPLES < sum * count < limit * MAX_SAMPLES
  {
    Monotone(sum, limit - 1, count);
    Monotone(1 - limit, sum, count);
    Monotone(count, MAX_SAMPLES, limit - 1);
  }

  lemma Monotone(a: int, b: int, factor: nat)
    requires a <= b
    ensures a * factor <= b * factor
  {
  }

  lemma CrossMultiply(a: int, c: nat, b: int, d: nat)
    requires c > 0 && d > 0
    ensures a as real / c as real < b as real / d as real <==> a * d < b * c
    ensures a as real / c as real == b as real / d as real <==> a * d == b * c
  {
    var x, y := a as real / c as real, b as real / d as real;
    var p := c as real * d as real;
    assert p > 0.0;
    assert x * p == a as real * d as real == (a * d) as real;
    assert y * p == b as real * c as real == (b * c) as real;
    ScaleOrder(x, y, p);
  }

  lemma ScaleOrder(x: real, y: real, p: real)
    requires p > 0.0
    ensures x < y <==> x * p < y * p
    ensures x == y <==> x * p == y * p
  {
    if x < y {
      assert (y - x) * p > 0.0;
    } else if y < x {
      assert (x - y) * p > 0.0;
    }
  }

  /** Wrapping the sum first does no harm if the product fits. */
  lemma FittingProduct(sum: int, count: nat)
    requires count > 0 && IsInt64(sum * count)
    ensures Wrap64(Wrap64(sum) * count) == sum * count
  {
    if sum >= 0 {
      Monotone(1, count, sum);
    } else {
      Monotone(1, count, -sum);
    }
  }

  /**
    The decision is the verdict unless wins are equal, both agents have samples, and a product
    leaves the 64-bit range.
   */
  lemma DecidesWhenProductsFit(winsA: nat, winsB: nat, samplesA: seq<int>, samplesB: seq<int>)
    requires || winsA != winsB || samplesA == [] || samplesB == []
             || (IsInt64(Sum(samplesA) * |samplesB|) && IsInt64(Sum(samplesB) * |samplesA|))
    ensures Decision(winsA, winsB, samplesA, samplesB) == Verdict(winsA, winsB, samplesA, samplesB)
  {
    if winsA == winsB && samplesA != [] && samplesB != [] {
      FittingProduct(Sum(samplesA), |samplesB|);
      FittingProduct(Sum(samplesB), |samplesA|);
      CrossMultiply(Sum(samplesA), |samplesA|, Sum(samplesB), |samplesB|);
    }
  }

  /** Cross-multiplying 64-bit sums decides exactly as comparing averages does. */
  lemma DecisionIsVerdict(winsA: nat, winsB: nat, samplesA: seq<int>, samplesB: seq<int>)
    requires Bounded(samplesA) && Bounded(samplesB)
    ensures Decision(winsA, winsB, samplesA, samplesB) == Verdict(winsA, winsB, samplesA, samplesB)
  {
    ProductFits(samplesA, |samplesB|);
    ProductFits(samplesB, |samplesA|);
    DecidesWhenProductsFit(winsA, winsB, samplesA, samplesB);
  }
}
