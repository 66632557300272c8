/** packages/core/src/settlement/payout.ts: the settlement vector and the floor division that pays it. */
module Payout {
  import opened Wrappers
  import opened Arithmetic

  const FEE_DENOMINATOR: nat := 10000000

  type OutcomeIndex = i: nat | i < 2

  datatype PayoutVector = PayoutVector(numerators: seq<int>, denominator: int)

  datatype VectorError = BadOutcomeCount | BadDenominator | WrongLength | NumeratorOutOfRange | BadTotal

  function Total(numerators: seq<int>): int {
    if numerators == [] then 0 else Total(numerators[..|numerators| - 1]) + numerators[|numerators| - 1]
  }

  predicate InRange(v: PayoutVector) {
    forall i :: 0 <= i < |v.numerators| ==> 0 <= v.numerators[i] <= v.denominator
  }

  /** What makes `validatePayoutVector` throw, in the order it looks. */
  function VectorProblem(v: PayoutVector, outcomes: int): Option<VectorError> {
    if outcomes <= 0 then Some(BadOutcomeCount)
    else if v.denominator <= 0 then Some(BadDenominator)
    else if |v.numerators| != outcomes then Some(WrongLength)
    else if !InRange(v) then Some(NumeratorOutOfRange)
    else if Total(v.numerators) == 0 || Total(v.numerators) > v.denominator then Some(BadTotal)
    else None
  }

  method ValidatePayoutVector(v: PayoutVector, outcomes: int) returns (result: Result<PayoutVector, VectorError>)
    ensures result == match VectorProblem(v, outcomes) case None => Ok(v) case Some(e) => Err(e)
  {
    if outcomes <= 0 {
      return Err(BadOutcomeCount);
    }
    if v.denominator <= 0 {
      return Err(BadDenominator);
    }
    if |v.numerators| != outcomes {
      return Err(WrongLength);
    }
    var total := 0;
    for i := 0 to |v.numerators|
      invariant total == Total(v.numerators[..i])
      invariant forall k :: 0 <= k < i ==> 0 <= v.numerators[k] <= v.denominator
    {
      if v.numerators[i] < 0 || v.numerators[i] > v.denominator {
        return Err(NumeratorOutOfRange);
      }
      assert v.numerators[..i + 1][..i] == v.numerators[..i];
      total := total + v.numerators[i];
    }
    assert v.numerators[..|v.numerators|] == v.numerators;
    if total == 0 || total > v.denominator {
      return Err(BadTotal);
    }
    return Ok(v);
  }

  /** A vector that passes the check of a two-outcome market. */
  predicate ValidVector(v: PayoutVector) {
    VectorProblem(v, 2).None?
  }

  datatype PayoutError = BadVector(error: VectorError) | FeeAboveMaximum

  function ExpectedPayout(amount: nat, numerator: int, denominator: int): int
    requires denominator > 0
  {
    amount * numerator / denominator
  }

  function CalculatePayout(amount: nat, outcome: OutcomeIndex, v: PayoutVector, fee: nat): Result<int, PayoutError> {
    match VectorProblem(v, 2)
    case Some(e) => Err(BadVector(e))
    case None =>
      if fee > FEE_DENOMINATOR then Err(FeeAboveMaximum)
      else Ok(ExpectedPayout(amount, v.numerators[outcome], v.denominator))
  }

  /** A redemption never pays a negative amount nor more than one unit of collateral per unit burned. */
  lemma PayoutWithinAmount(amount: nat, n: int, d: int)
    requires d > 0 && 0 <= n <= d
    ensures 0 <= ExpectedPayout(amount, n, d) <= amount
  {
    MulMono(0, n, amount);
    MulMono(n, d, amount);
    FloorMono(amount * n, amount * d, d);
    FloorUnique(amount * d, d, amount);
  }

  /** Adding two positions before the floor pays the sum of the floors, or one unit more. */
  lemma FloorOfSum(a: nat, b: nat, n: int, d: int)
    requires d > 0 && 0 <= n
    ensures var whole, parts := ExpectedPayout(a + b, n, d), ExpectedPayout(a, n, d) + ExpectedPayout(b, n, d);
            parts <= whole <= parts + 1
  {
    MulMono(0, n, a);
    MulMono(0, n, b);
    assert (a + b) * n == a * n + b * n;
    FloorAdd(a * n, b * n, d);
  }

  function SumAmounts(amounts: seq<nat>): nat {
    if amounts == [] then 0 else SumAmounts(amounts[..|amounts| - 1]) + amounts[|amounts| - 1]
  }

  function SeparatePayouts(amounts: seq<nat>, n: int, d: int): int
    requires d > 0
  {
    if amounts == [] then 0
    else SeparatePayouts(amounts[..|amounts| - 1], n, d) + ExpectedPayout(amounts[|amounts| - 1], n, d)
  }

  /** Merging k rows of one position pays between 0 and k - 1 units more than paying them one by one. */
  lemma {:induction false} MergeGain(amounts: seq<nat>, n: int, d: int)
    requires d > 0 && 0 <= n && amounts != []
    ensures var merged, separate := ExpectedPayout(SumAmounts(amounts), n, d), SeparatePayouts(amounts, n, d);
            separate <= merged <= separate + |amounts| - 1
  {
    var k := |amounts| - 1;
    if k == 0 {
      assert SumAmounts(amounts) == amounts[0];
      assert SeparatePayouts(amounts[..0], n, d) == 0;
    } else {
      MergeGain(amounts[..k], n, d);
      FloorOfSum(SumAmounts(amounts[..k]), amounts[k], n, d);
    }
  }
}
