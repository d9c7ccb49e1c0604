/**
 * The machine's change computation. One pass walks the denominations from
 * the largest down and takes each one at most once when it still fits into
 * the remainder; while money is left after a pass, the whole pass is
 * repeated on what is left, appending to the same list of coins. Amounts
 * are in cents. The routine reads the machine's denomination list, so it is
 * stated here for any list `ds` of denominations; the machine passes
 * AcceptedCoins.
 */
module Change {
  import opened Wrappers
  import opened Money

  /** What one pass takes, and the remainder it leaves. */
  datatype Step = Step(coins: seq<int>, left: int)

  predicate StrictlyDescending(s: seq<int>) {
    forall j, k :: 0 <= j < k < |s| ==> s[j] > s[k]
  }

  /** The largest of the first i denominations, or 0 when there are none. */
  function Largest(ds: seq<int>, i: nat): (coin: int)
    requires i <= |ds|
  {
    if i == 0 then 0 else ds[i - 1]
  }

  /**
   * The part of one pass that visits ds[i-1], ds[i-2], ..., ds[0] in that
   * order, starting from remainder r: a coin is taken when r minus the coin
   * is not negative, and r drops by it.
   */
  function Pass(r: int, ds: seq<int>, i: nat): (p: Step)
    requires i <= |ds|
    decreases i
  {
    if i == 0 then Step([], r)
    else
      var coin := ds[i - 1];
      if r - coin >= 0 then
        var rest := Pass(r - coin, ds, i - 1);
        Step([coin] + rest.coins, rest.left)
      else
        Pass(r, ds, i - 1)
  }

  /** One full pass, over every denomination from the largest down. */
  function FullPass(r: int, ds: seq<int>): (p: Step) {
    Pass(r, ds, |ds|)
  }

  /**
   * What a pass takes is worth exactly what it removes from the remainder,
   * and is made of denominations no larger than the largest one visited.
   */
  lemma {:induction false} PassPays(r: int, ds: seq<int>, i: nat)
    requires Denominations(ds) && i <= |ds|
    ensures Pass(r, ds, i).left == r - Sum(Pass(r, ds, i).coins)
    ensures forall c :: c in Pass(r, ds, i).coins ==> c in ds && c <= Largest(ds, i)
    decreases i
  {
    if i > 0 {
      var coin := ds[i - 1];
      if r - coin >= 0 {
        var rest := Pass(r - coin, ds, i - 1);
        PassPays(r - coin, ds, i - 1);
        assert ([coin] + rest.coins)[1..] == rest.coins;
        assert i - 1 > 0 ==> ds[i - 2] < coin;
      } else {
        PassPays(r, ds, i - 1);
        assert i - 1 > 0 ==> ds[i - 2] < coin;
      }
    }
  }

  /**
   * Within one pass each denomination is taken at most once, largest first,
   * and the pass never takes more than a non-negative remainder.
   */
  lemma {:induction false} PassShape(r: int, ds: seq<int>, i: nat)
    requires Denominations(ds) && i <= |ds|
    ensures StrictlyDescending(Pass(r, ds, i).coins)
    ensures r >= 0 ==> Pass(r, ds, i).left >= 0
    decreases i
  {
    if i > 0 {
      var coin := ds[i - 1];
      if r - coin >= 0 {
        var rest := Pass(r - coin, ds, i - 1);
        PassShape(r - coin, ds, i - 1);
        PassPays(r - coin, ds, i - 1);
        assert i - 1 > 0 ==> ds[i - 2] < coin;
        var s := [coin] + rest.coins;
        forall j, k | 0 <= j < k < |s| ensures s[j] > s[k] {
          if j > 0 {
            assert s[j] == rest.coins[j - 1] && s[k] == rest.coins[k - 1];
          } else {
            assert s[k] in rest.coins;
          }
        }
      } else {
        PassShape(r, ds, i - 1);
      }
    }
  }

  /** A pass takes some coin exactly when the remainder is at least the smallest coin. */
  lemma {:induction false} PassTakesCoin(r: int, ds: seq<int>, i: nat)
    requires Denominations(ds) && i <= |ds|
    ensures Pass(r, ds, i).coins == [] <==> (i == 0 || r < SmallestCoin)
    decreases i
  {
    if i > 0 {
      if r < ds[i - 1] {
        assert i - 1 > 0 ==> ds[0] < ds[i - 1];
        PassTakesCoin(r, ds, i - 1);
      }
    }
  }

  /**
   * When a pass takes coins the remainder drops; in every case it stays the
   * same modulo the smallest coin.
   */
  lemma PassProgress(r: int, ds: seq<int>, i: nat)
    requires Denominations(ds) && i <= |ds|
    ensures Pass(r, ds, i).coins != [] ==> Pass(r, ds, i).left < r
    ensures Pass(r, ds, i).left % SmallestCoin == r % SmallestCoin
  {
    var p := Pass(r, ds, i);
    PassPays(r, ds, i);
    SumOfDenominations(p.coins, ds);
    assert p.left == r - Sum(p.coins);
    ResidueAfterPaying(r, Sum(p.coins));
    assert p.left % SmallestCoin == r % SmallestCoin;
  }

  /**
   * The coins the machine appends for remainder r, pass after pass, or None
   * when it never finishes: a pass that finds no coin while money is left
   * would be repeated on the same remainder for ever.
   */
  function GreedyChange(r: int, ds: seq<int>): (change: Option<seq<int>>)
    requires Denominations(ds)
    decreases if r > 0 then r else 0
  {
    var p := FullPass(r, ds);
    if p.left > 0 then
      if p.coins == [] then None
      else
        PassProgress(r, ds, |ds|);
        match GreedyChange(p.left, ds)
        case None => None
        case Some(rest) => Some(p.coins + rest)
    else
      Some(p.coins)
  }

  /**
   * The change never finishes exactly when a positive remainder is not a
   * whole number of the smallest coin.
   */
  lemma {:induction false} GreedyChangeFails(r: int, ds: seq<int>)
    requires Denominations(ds)
    ensures GreedyChange(r, ds).None? <==> r > 0 && r % SmallestCoin != 0
    decreases if r > 0 then r else 0
  {
    var p := FullPass(r, ds);
    PassPays(r, ds, |ds|);
    PassTakesCoin(r, ds, |ds|);
    PassProgress(r, ds, |ds|);
    PassShape(r, ds, |ds|);
    if p.left > 0 && p.coins != [] {
      GreedyChangeFails(p.left, ds);
      assert GreedyChange(r, ds).None? <==> GreedyChange(p.left, ds).None?;
    } else if p.left > 0 {
      assert r == p.left && r < SmallestCoin;
    } else {
      assert GreedyChange(r, ds) == Some(p.coins);
      assert r <= 0 || r % SmallestCoin == 0;
    }
  }

  /**
   * When the change finishes it is made of denominations only and is worth
   * exactly the remainder (nothing for a remainder of zero or less).
   */
  lemma {:induction false} GreedyChangeSound(r: int, ds: seq<int>)
    requires Denominations(ds)
    ensures GreedyChange(r, ds).Some? ==> forall c :: c in GreedyChange(r, ds).value ==> c in ds
    ensures GreedyChange(r, ds).Some? ==> Sum(GreedyChange(r, ds).value) == (if r > 0 then r else 0)
    decreases if r > 0 then r else 0
  {
    var p := FullPass(r, ds);
    PassPays(r, ds, |ds|);
    PassProgress(r, ds, |ds|);
    PassShape(r, ds, |ds|);
    if p.left > 0 && p.coins != [] {
      GreedyChangeSound(p.left, ds);
      if GreedyChange(p.left, ds).Some? {
        var rest := GreedyChange(p.left, ds).value;
        assert GreedyChange(r, ds) == Some(p.coins + rest);
        SumConcat(p.coins, rest);
      }
    } else if p.left <= 0 {
      assert GreedyChange(r, ds) == Some(p.coins);
      assert r > 0 ==> p.left == 0;
      assert r <= 0 ==> p.coins == [] by {
        PassTakesCoin(r, ds, |ds|);
      }
    }
  }

  lemma AppendAssoc(a: seq<int>, b: seq<int>, c: seq<int>)
    ensures a + (b + c) == (a + b) + c
  {
  }

  /**
   * The `for` loop of the change routine: one pass over the denominations,
   * largest first, appending every coin it takes to `change`.
   */
  method PassOver(ds: seq<int>, remainder: int, change: seq<int>) returns (rem: int, acc: seq<int>)
    ensures acc == change + FullPass(remainder, ds).coins
    ensures rem == FullPass(remainder, ds).left
  {
    rem := remainder;
    acc := change;
    var i := |ds|;
    ghost var p := FullPass(remainder, ds);
    while i > 0
      invariant 0 <= i <= |ds|
      invariant acc + Pass(rem, ds, i).coins == change + p.coins
      invariant Pass(rem, ds, i).left == p.left
      decreases i
    {
      var coin := ds[i - 1];
      if rem - coin >= 0 {
        AppendAssoc(acc, [coin], Pass(rem - coin, ds, i - 1).coins);
        // The remainder stays a whole number of cents, so no rounding is needed here.
        rem := rem - coin;
        acc := acc + [coin];
      }
      i := i - 1;
    }
  }

  /**
   * The machine's change routine: appends to `change` the coins for
   * `remainder`, pass by pass, and hands back the extended list. Returns
   * None where the machine would recurse for ever.
   */
  method CalcChange(ds: seq<int>, remainder: int, change: seq<int>) returns (result: Option<seq<int>>)
    requires Denominations(ds)
    ensures GreedyChange(remainder, ds).None? ==> result.None?
    ensures GreedyChange(remainder, ds).Some? ==> result == Some(change + GreedyChange(remainder, ds).value)
    decreases if remainder > 0 then remainder else 0
  {
    var rem, acc := PassOver(ds, remainder, change);
    ghost var p := FullPass(remainder, ds);
    PassProgress(remainder, ds, |ds|);
    if rem > 0 {
      if acc == change {
        // No coin fitted, so the next pass would start from the same remainder.
        assert p.coins == [];
        result := None;
      } else {
        assert p.coins != [];
        result := CalcChange(ds, rem, acc);
        if GreedyChange(rem, ds).Some? {
          assert change + GreedyChange(remainder, ds).value == acc + GreedyChange(rem, ds).value;
        }
      }
    } else {
      result := Some(acc);
    }
  }

  /** 0.35 of change is paid as one 0.20, one 0.10 and one 0.05 coin. */
  lemma ChangeOf35()
    ensures GreedyChange(35, AcceptedCoins) == Some([20, 10, 5])
  {
    var ds := AcceptedCoins;
    AcceptedCoinsAreDenominations();
    assert Pass(0, ds, 0) == Step([], 0);
    assert Pass(5, ds, 1) == Step([5], 0);
    assert Pass(15, ds, 2) == Step([10, 5], 0);
    assert Pass(35, ds, 3) == Step([20, 10, 5], 0);
    assert Pass(35, ds, 4) == Pass(35, ds, 3);
    assert Pass(35, ds, 5) == Pass(35, ds, 4);
    assert Pass(35, ds, 6) == Pass(35, ds, 5);
  }

  /**
   * 4.00 of change needs two passes: the first takes one coin of each kind
   * (3.85), the second pays the 0.15 left with 0.10 and 0.05.
   */
  lemma ChangeOf400()
    ensures GreedyChange(400, AcceptedCoins) == Some([200, 100, 50, 20, 10, 5, 10, 5])
  {
    var ds := AcceptedCoins;
    AcceptedCoinsAreDenominations();
    assert Pass(15, ds, 0) == Step([], 15);
    assert Pass(20, ds, 1) == Step([5], 15);
    assert Pass(30, ds, 2) == Step([10, 5], 15);
    assert Pass(50, ds, 3) == Step([20, 10, 5], 15);
    assert Pass(100, ds, 4) == Step([50, 20, 10, 5], 15);
    assert Pass(200, ds, 5) == Step([100, 50, 20, 10, 5], 15);
    assert Pass(400, ds, 6) == Step([200, 100, 50, 20, 10, 5], 15);
    assert Pass(0, ds, 0) == Step([], 0);
    assert Pass(5, ds, 1) == Step([5], 0);
    assert Pass(15, ds, 2) == Step([10, 5], 0);
    assert Pass(15, ds, 3) == Pass(15, ds, 2);
    assert Pass(15, ds, 4) == Pass(15, ds, 3);
    assert Pass(15, ds, 5) == Pass(15, ds, 4);
    assert Pass(15, ds, 6) == Pass(15, ds, 5);
    assert GreedyChange(15, ds) == Some([10, 5]);
    assert GreedyChange(400, ds) == Some([200, 100, 50, 20, 10, 5] + [10, 5]);
    assert [200, 100, 50, 20, 10, 5] + [10, 5] == [200, 100, 50, 20, 10, 5, 10, 5];
  }
}
