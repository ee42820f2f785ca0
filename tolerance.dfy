/** The `within` tolerance check of tests/test_api_common.py, used to compare
    ether balances up to the cost of a transaction. Python integers are
    unbounded, so `int` is exact here. */
module ApiCommonTest {

  /** `to_wei(10, "gwei")`: a gwei is 10^9 wei. */
  const TenGweiInWei: int := 10 * 1_000_000_000

  /** `common_transaction_cost`: 21000 units of gas at 10 gwei each. */
  const CommonTransactionCost: int := 21000 * TenGweiInWei

  function Abs(x: int): int {
    if x < 0 then -x else x
  }

  /** `within(a, b, epsilon)`: equal, or strictly less than `epsilon` apart. */
  function Within(a: int, b: int, epsilon: int): (r: bool)
    ensures r <==> a == b || Abs(a - b) < epsilon
  {
    if a == b then true
    else if a > b && a < b + epsilon then true
    else if a < b && a > b - epsilon then true
    else false
  }

  /** `within(a, b)` with the default epsilon. */
  function WithinDefault(a: int, b: int): (r: bool)
    ensures r <==> Abs(a - b) < 210_000_000_000_000
  {
    Within(a, b, CommonTransactionCost)
  }

  lemma CommonTransactionCostValue()
    ensures CommonTransactionCost == 210_000_000_000_000
  {
  }

  /** Every value is within any epsilon of itself. */
  lemma WithinReflexive(a: int, epsilon: int)
    ensures Within(a, a, epsilon)
  {
  }

  /** The two branches of the source, one per ordering of `a` and `b`. */
  lemma WithinBranches(a: int, b: int, epsilon: int)
    ensures a > b ==> (Within(a, b, epsilon) <==> a < b + epsilon)
    ensures a < b ==> (Within(a, b, epsilon) <==> a > b - epsilon)
  {
  }

  /** Values exactly `epsilon` apart, or further, are rejected, and a
      non-positive epsilon accepts only equal values. */
  lemma WithinStrict(a: int, b: int, epsilon: int)
    ensures a != b && Abs(a - b) >= epsilon ==> !Within(a, b, epsilon)
    ensures Abs(a - b) == epsilon && epsilon != 0 ==> !Within(a, b, epsilon)
    ensures epsilon <= 0 ==> (Within(a, b, epsilon) <==> a == b)
  {
  }

  lemma WithinSymmetric(a: int, b: int, epsilon: int)
    ensures Within(a, b, epsilon) == Within(b, a, epsilon)
  {
  }
}
