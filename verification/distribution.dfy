/**
 * The per-block reward split shared by lp.ts and index.ts: each pool's
 * locked total is priced, the priced totals add up to the block's USD TVL,
 * and every holder of every pool is credited
 * `balance × price × quantum div TVL`, with BigNumber's truncating division.
 */
module Distribution {
  import opened Dicts

  function Abs(a: int): nat
  {
    if a < 0 then -a else a
  }

  /** BigNumber `div`: the quotient truncated toward zero. */
  function Quot(a: int, b: int): (q: int)
    requires b != 0
    ensures a >= 0 && b > 0 ==> q == a / b
  {
    var q := Abs(a) / Abs(b);
    if (a < 0) == (b < 0) then q else -q
  }

  /** One holder's reward for one block. */
  function Share(balance: int, price: nat, quantum: nat, tvl: int): int
    requires tvl != 0
  {
    Quot(balance * price * quantum, tvl)
  }

  /** Truncation loses less than one unit: `share × tvl` is within `tvl - 1` below the exact product. */
  lemma ShareBounds(balance: int, price: nat, quantum: nat, tvl: int)
    requires balance >= 0 && tvl > 0
    ensures 0 <= Share(balance, price, quantum, tvl)
    ensures Share(balance, price, quantum, tvl) * tvl <= balance * price * quantum
    ensures balance * price * quantum <= Share(balance, price, quantum, tvl) * tvl + (tvl - 1)
  {
    var x := balance * price * quantum;
    assert x >= 0 by {
      assert balance * price >= 0;
    }
    var q := x / tvl;
    assert Share(balance, price, quantum, tvl) == q;
    assert x == q * tvl + x % tvl;
  }

  /** One pool as the distribution sees it: its price, its locked total and its holders' balances in order. */
  datatype PoolView = PoolView(price: nat, total: int, balances: Dict<int>)

  ghost predicate NonNegative(balances: Dict<int>)
  {
    forall i :: 0 <= i < |balances| ==> balances[i].1 >= 0
  }

  /** Each pool's total is the sum of its balances, and no balance is negative. */
  ghost predicate Consistent(views: seq<PoolView>)
  {
    forall i :: 0 <= i < |views| ==> views[i].total == Sum(views[i].balances) && NonNegative(views[i].balances)
  }

  /** `totalUSDTVL`: the sum over pools of total × price. */
  function Tvl(views: seq<PoolView>): int
    decreases |views|
  {
    if views == [] then 0
    else
      var v := views[|views| - 1];
      Tvl(views[..|views| - 1]) + v.total * v.price
  }

  /** The number of (pool, holder) pairs credited in a block. */
  function Pairs(views: seq<PoolView>): nat
    decreases |views|
  {
    if views == [] then 0 else Pairs(views[..|views| - 1]) + |views[|views| - 1].balances|
  }

  /** Every address holding in some pool. */
  function Holders(views: seq<PoolView>): set<string>
    decreases |views|
  {
    if views == [] then {} else Holders(views[..|views| - 1]) + KeySet(views[|views| - 1].balances)
  }

  /** Credits the holders of one pool, in order. */
  function CreditPool(rewards: Dict<int>, balances: Dict<int>, price: nat, quantum: nat, tvl: int): Dict<int>
    requires tvl != 0
    decreases |balances|
  {
    if balances == [] then rewards
    else
      var n := |balances| - 1;
      AddTo(CreditPool(rewards, balances[..n], price, quantum, tvl), balances[n].0, Share(balances[n].1, price, quantum, tvl))
  }

  /** Credits every pool, in order. */
  function CreditAll(rewards: Dict<int>, views: seq<PoolView>, quantum: nat, tvl: int): Dict<int>
    requires tvl != 0
    decreases |views|
  {
    if views == [] then rewards
    else
      var n := |views| - 1;
      CreditPool(CreditAll(rewards, views[..n], quantum, tvl), views[n].balances, views[n].price, quantum, tvl)
  }

  /** Crediting one more holder of a pool. */
  lemma CreditPoolStep(rewards: Dict<int>, balances: Dict<int>, j: nat, price: nat, quantum: nat, tvl: int)
    requires j < |balances| && tvl != 0
    ensures CreditPool(rewards, balances[..j + 1], price, quantum, tvl)
      == AddTo(CreditPool(rewards, balances[..j], price, quantum, tvl), balances[j].0, Share(balances[j].1, price, quantum, tvl))
  {
    assert balances[..j + 1][..j] == balances[..j];
  }

  /** Crediting one more pool. */
  lemma CreditAllStep(rewards: Dict<int>, views: seq<PoolView>, i: nat, quantum: nat, tvl: int)
    requires i < |views| && tvl != 0
    ensures CreditAll(rewards, views[..i + 1], quantum, tvl)
      == CreditPool(CreditAll(rewards, views[..i], quantum, tvl), views[i].balances, views[i].price, quantum, tvl)
  {
    assert views[..i + 1][..i] == views[..i];
  }

  /** Counting one more pool's holders. */
  lemma PairsStep(views: seq<PoolView>, i: nat)
    requires i < |views|
    ensures Pairs(views[..i + 1]) == Pairs(views[..i]) + |views[i].balances|
  {
    assert views[..i + 1][..i] == views[..i];
  }

  /** The sum of one pool's shares. */
  function PoolShares(balances: Dict<int>, price: nat, quantum: nat, tvl: int): int
    requires tvl != 0
    decreases |balances|
  {
    if balances == [] then 0
    else
      var n := |balances| - 1;
      PoolShares(balances[..n], price, quantum, tvl) + Share(balances[n].1, price, quantum, tvl)
  }

  /** The sum of every pool's shares. */
  function BlockShares(views: seq<PoolView>, quantum: nat, tvl: int): int
    requires tvl != 0
    decreases |views|
  {
    if views == [] then 0
    else
      var n := |views| - 1;
      BlockShares(views[..n], quantum, tvl) + PoolShares(views[n].balances, views[n].price, quantum, tvl)
  }

  lemma {:induction false} CreditPoolSum(rewards: Dict<int>, balances: Dict<int>, price: nat, quantum: nat, tvl: int)
    requires tvl != 0
    ensures Sum(CreditPool(rewards, balances, price, quantum, tvl)) == Sum(rewards) + PoolShares(balances, price, quantum, tvl)
    decreases |balances|
  {
    if balances != [] {
      CreditPoolSum(rewards, balances[..|balances| - 1], price, quantum, tvl);
    }
  }

  lemma {:induction false} CreditPoolKeys(rewards: Dict<int>, balances: Dict<int>, price: nat, quantum: nat, tvl: int)
    requires tvl != 0
    ensures KeySet(CreditPool(rewards, balances, price, quantum, tvl)) == KeySet(rewards) + KeySet(balances)
    decreases |balances|
  {
    if balances != [] {
      var n := |balances| - 1;
      CreditPoolKeys(rewards, balances[..n], price, quantum, tvl);
      AddToKeys(CreditPool(rewards, balances[..n], price, quantum, tvl), balances[n].0, Share(balances[n].1, price, quantum, tvl));
      KeySetLast(balances);
    }
  }

  /** A block adds exactly its shares to the rewards and makes every holder a key of the rewards. */
  lemma {:induction false} CreditAllSum(rewards: Dict<int>, views: seq<PoolView>, quantum: nat, tvl: int)
    requires tvl != 0
    ensures Sum(CreditAll(rewards, views, quantum, tvl)) == Sum(rewards) + BlockShares(views, quantum, tvl)
    ensures KeySet(CreditAll(rewards, views, quantum, tvl)) == KeySet(rewards) + Holders(views)
    decreases |views|
  {
    if views != [] {
      var n := |views| - 1;
      CreditAllSum(rewards, views[..n], quantum, tvl);
      CreditPoolSum(CreditAll(rewards, views[..n], quantum, tvl), views[n].balances, views[n].price, quantum, tvl);
      CreditPoolKeys(CreditAll(rewards, views[..n], quantum, tvl), views[n].balances, views[n].price, quantum, tvl);
    }
  }

  /** Crediting keeps the reward keys distinct. */
  lemma {:induction false} CreditAllUnique(rewards: Dict<int>, views: seq<PoolView>, quantum: nat, tvl: int)
    requires tvl != 0 && UniqueKeys(rewards)
    ensures UniqueKeys(CreditAll(rewards, views, quantum, tvl))
    decreases |views|
  {
    if views != [] {
      var n := |views| - 1;
      CreditAllUnique(rewards, views[..n], quantum, tvl);
      CreditPoolUnique(CreditAll(rewards, views[..n], quantum, tvl), views[n].balances, views[n].price, quantum, tvl);
    }
  }

  lemma {:induction false} CreditPoolUnique(rewards: Dict<int>, balances: Dict<int>, price: nat, quantum: nat, tvl: int)
    requires tvl != 0 && UniqueKeys(rewards)
    ensures UniqueKeys(CreditPool(rewards, balances, price, quantum, tvl))
    decreases |balances|
  {
    if balances != [] {
      var n := |balances| - 1;
      CreditPoolUnique(rewards, balances[..n], price, quantum, tvl);
      AddToKeys(CreditPool(rewards, balances[..n], price, quantum, tvl), balances[n].0, Share(balances[n].1, price, quantum, tvl));
    }
  }

  /** Adding one more term to a sum of truncated quotients keeps both bounds. */
  lemma AddBounds(ps: int, s: int, t: int, p: int, x: int, k: nat)
    requires ps * t <= p && s * t <= x
    requires p <= ps * t + k * (t - 1) && x <= s * t + (t - 1)
    ensures (ps + s) * t <= p + x
    ensures p + x <= (ps + s) * t + (k + 1) * (t - 1)
  {
    assert (ps + s) * t == ps * t + s * t;
    assert (k + 1) * (t - 1) == k * (t - 1) + (t - 1);
  }

  lemma Distribute3(a: int, b: int, p: int, q: int)
    ensures (a + b) * p * q == a * p * q + b * p * q
  {
    assert (a + b) * p == a * p + b * p;
    assert (a * p + b * p) * q == a * p * q + b * p * q;
  }

  /** One pool's shares, scaled by the TVL, lie within `|balances| × (tvl - 1)` below `total × price × quantum`. */
  lemma {:induction false} PoolSharesBounds(balances: Dict<int>, price: nat, quantum: nat, tvl: int)
    requires tvl > 0 && NonNegative(balances)
    ensures PoolShares(balances, price, quantum, tvl) * tvl <= Sum(balances) * price * quantum
    ensures Sum(balances) * price * quantum <= PoolShares(balances, price, quantum, tvl) * tvl + |balances| * (tvl - 1)
    decreases |balances|
  {
    if balances != [] {
      var n := |balances| - 1;
      var prefix := balances[..n];
      var b := balances[n].1;
      assert NonNegative(prefix);
      PoolSharesBounds(prefix, price, quantum, tvl);
      ShareBounds(b, price, quantum, tvl);
      Distribute3(Sum(prefix), b, price, quantum);
      AddBounds(PoolShares(prefix, price, quantum, tvl), Share(b, price, quantum, tvl), tvl,
        Sum(prefix) * price * quantum, b * price * quantum, |prefix|);
    }
  }

  /** Adding one more pool keeps both bounds of a block's shares. */
  lemma AddPoolBounds(bs: int, ps: int, t: int, q: int, tvlPrefix: int, w: int, pairs: nat, k: nat)
    requires bs * t <= q * tvlPrefix && ps * t <= w
    requires q * tvlPrefix <= bs * t + pairs * (t - 1) && w <= ps * t + k * (t - 1)
    ensures (bs + ps) * t <= q * tvlPrefix + w
    ensures q * tvlPrefix + w <= (bs + ps) * t + (pairs + k) * (t - 1)
  {
    assert (bs + ps) * t == bs * t + ps * t;
    assert (pairs + k) * (t - 1) == pairs * (t - 1) + k * (t - 1);
  }

  lemma MulAdd(q: int, a: int, total: int, price: int)
    ensures q * (a + total * price) == q * a + total * price * q
  {
    assert q * (a + total * price) == q * a + q * (total * price);
  }

  /** Over consistent pools, the shares scaled by the TVL lie within `pairs × (tvl - 1)` below `quantum × TVL(views)`. */
  lemma {:induction false} BlockSharesBounds(views: seq<PoolView>, quantum: nat, tvl: int)
    requires tvl > 0 && Consistent(views)
    ensures BlockShares(views, quantum, tvl) * tvl <= quantum * Tvl(views)
    ensures quantum * Tvl(views) <= BlockShares(views, quantum, tvl) * tvl + Pairs(views) * (tvl - 1)
    ensures Pairs(views) == 0 ==> Tvl(views) == 0
    decreases |views|
  {
    if views != [] {
      var n := |views| - 1;
      var prefix, v := views[..n], views[n];
      assert Consistent(prefix);
      BlockSharesBounds(prefix, quantum, tvl);
      PoolSharesBounds(v.balances, v.price, quantum, tvl);
      MulAdd(quantum, Tvl(prefix), v.total, v.price);
      AddPoolBounds(BlockShares(prefix, quantum, tvl), PoolShares(v.balances, v.price, quantum, tvl), tvl, quantum,
        Tvl(prefix), v.total * v.price * quantum, Pairs(prefix), |v.balances|);
    }
  }

  lemma MulAtLeast(a: int, t: int)
    requires a >= 1 && t >= 1
    ensures a * t >= t
  {
  }

  /** Dividing the scaled bounds by the TVL. */
  lemma DivideBounds(s: int, q: int, t: int, p: nat)
    requires t > 0 && p > 0
    requires s * t <= q * t && q * t <= s * t + p * (t - 1)
    ensures s <= q && q - p < s
  {
    if s > q {
      assert (s - q) * t == s * t - q * t;
      MulAtLeast(s - q, t);
    }
    if q - p - s >= 0 {
      assert (q - p - s) * t == q * t - p * t - s * t;
      assert p * (t - 1) == p * t - p;
      MulAtLeast(q - p - s + 1, t);
    }
  }

  /**
   * With consistent books and a positive TVL, a block adds at most `quantum`
   * to the rewards, and falls short of it by less than the number of
   * (pool, holder) pairs.
   */
  lemma BlockDistributionBounds(rewards: Dict<int>, views: seq<PoolView>, quantum: nat)
    requires Consistent(views) && Tvl(views) > 0
    ensures Sum(rewards) + quantum - Pairs(views) < Sum(CreditAll(rewards, views, quantum, Tvl(views)))
    ensures Sum(CreditAll(rewards, views, quantum, Tvl(views))) <= Sum(rewards) + quantum
  {
    var tvl := Tvl(views);
    CreditAllSum(rewards, views, quantum, tvl);
    BlockSharesBounds(views, quantum, tvl);
    var s := BlockShares(views, quantum, tvl);
    assert quantum * tvl == tvl * quantum;
    DivideBounds(s, quantum, tvl, Pairs(views));
  }

  lemma {:induction false} SumNonNegative(balances: Dict<int>)
    requires NonNegative(balances)
    ensures Sum(balances) >= 0
    decreases |balances|
  {
    if balances != [] {
      SumNonNegative(balances[..|balances| - 1]);
    }
  }

  /** With consistent books the TVL is never negative. */
  lemma {:induction false} TvlNonNegative(views: seq<PoolView>)
    requires Consistent(views)
    ensures Tvl(views) >= 0
    decreases |views|
  {
    if views != [] {
      var n := |views| - 1;
      TvlNonNegative(views[..n]);
      SumNonNegative(views[n].balances);
      MulNonNegative(views[n].total, views[n].price);
    }
  }

  lemma MulNonNegative(a: int, b: int)
    requires a >= 0 && b >= 0
    ensures a * b >= 0
  {
  }

  lemma {:induction false} PoolSharesNonNegative(balances: Dict<int>, price: nat, quantum: nat, tvl: int)
    requires tvl > 0 && NonNegative(balances)
    ensures PoolShares(balances, price, quantum, tvl) >= 0
    decreases |balances|
  {
    if balances != [] {
      var n := |balances| - 1;
      PoolSharesNonNegative(balances[..n], price, quantum, tvl);
      ShareBounds(balances[n].1, price, quantum, tvl);
    }
  }

  /** No holder's share is negative, so a block never lowers the rewards. */
  lemma {:induction false} BlockSharesNonNegative(views: seq<PoolView>, quantum: nat, tvl: int)
    requires tvl > 0 && Consistent(views)
    ensures BlockShares(views, quantum, tvl) >= 0
    decreases |views|
  {
    if views != [] {
      var n := |views| - 1;
      BlockSharesNonNegative(views[..n], quantum, tvl);
      PoolSharesNonNegative(views[n].balances, views[n].price, quantum, tvl);
    }
  }
}
