/**
 * Money as integer cents. The machine accepts six coin denominations,
 * 0.05, 0.10, 0.20, 0.50, 1.00 and 2.00, held in ascending order.
 */
module Money {

  /** The accepted denominations, in cents, ascending as the machine keeps them. */
  const AcceptedCoins: seq<int> := [5, 10, 20, 50, 100, 200]

  /** The smallest accepted denomination; every accepted coin is a whole number of it. */
  const SmallestCoin: int := 5

  predicate IsAccepted(coin: int) {
    coin in AcceptedCoins
  }

  predicate AllAccepted(coins: seq<int>) {
    forall c :: c in coins ==> IsAccepted(c)
  }

  /**
   * A list of denominations the change routine can work with: strictly
   * ascending, starting at the smallest coin, every value a whole number of
   * the smallest coin.
   */
  predicate Denominations(ds: seq<int>) {
    && |ds| > 0
    && ds[0] == SmallestCoin
    && (forall j, k :: 0 <= j < k < |ds| ==> ds[j] < ds[k])
    && (forall k :: 0 <= k < |ds| ==> ds[k] % SmallestCoin == 0)
  }

  lemma AcceptedCoinsAreDenominations()
    ensures Denominations(AcceptedCoins)
  {
  }

  /** Total value of a list of coins (Python's `sum`). */
  function Sum(coins: seq<int>): (total: int) {
    if coins == [] then 0 else coins[0] + Sum(coins[1..])
  }

  /** The value of two lists of coins put together is the sum of their values. */
  lemma {:induction false} SumConcat(a: seq<int>, b: seq<int>)
    ensures Sum(a + b) == Sum(a) + Sum(b)
  {
    if a == [] {
      assert a + b == b;
    } else {
      assert (a + b)[1..] == a[1..] + b;
      SumConcat(a[1..], b);
    }
  }

  /**
   * A list made only of coins from `ds` is worth a non-negative whole number
   * of the smallest coin, and is worth nothing only when it is empty.
   */
  lemma {:induction false} SumOfDenominations(coins: seq<int>, ds: seq<int>)
    requires Denominations(ds)
    requires forall c :: c in coins ==> c in ds
    ensures Sum(coins) >= 0 && Sum(coins) % SmallestCoin == 0
    ensures Sum(coins) == 0 <==> coins == []
  {
    if coins != [] {
      assert coins[0] in coins;
      assert forall c :: c in coins[1..] ==> c in coins;
      SumOfDenominations(coins[1..], ds);
      var k :| 0 <= k < |ds| && ds[k] == coins[0];
      assert coins[0] >= ds[0] by {
        if k > 0 {
          assert ds[0] < ds[k];
        }
      }
      SumOfMultiples(coins[0], Sum(coins[1..]));
    }
  }

  lemma SumOfMultiples(a: int, b: int)
    requires a % SmallestCoin == 0 && b % SmallestCoin == 0
    ensures (a + b) % SmallestCoin == 0
  {
  }

  /** Paying out a whole number of the smallest coin keeps an amount's residue. */
  lemma ResidueAfterPaying(amount: int, paid: int)
    requires paid % SmallestCoin == 0
    ensures (amount - paid) % SmallestCoin == amount % SmallestCoin
  {
  }

  /** A deposit made of accepted coins is worth a non-negative multiple of 5 cents. */
  lemma AcceptedSum(coins: seq<int>)
    requires AllAccepted(coins)
    ensures Sum(coins) >= 0 && Sum(coins) % SmallestCoin == 0
  {
    AcceptedCoinsAreDenominations();
    SumOfDenominations(coins, AcceptedCoins);
  }
}
