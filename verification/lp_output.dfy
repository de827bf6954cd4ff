/**
 * What lp.ts writes once the replay is over: every holder's time-weighted
 * amount brought up to the present, each pool's amounts as text in
 * descending order, and the same amounts regrouped by address.
 */
module LpOutput {
  import opened Wrappers
  import opened Dicts
  import opened LpLogs
  import opened Decimal
  import opened LpLedger
  import I = IndexLedger
  import IR = IndexReplay

  // ---------------------------------------------------------------------------
  // Settling the time weights

  /** A holder whose time-weighted amount is brought up to `now`; its balance and times stay. */
  function Settle(h: Holder, now: int): Holder
  {
    h.(timeWightedLPAmount := Accrued(h, now))
  }

  function SettleAll(holders: Holders, now: int): (r: Holders)
    ensures |r| == |holders|
    ensures forall i :: 0 <= i < |holders| ==> r[i] == (holders[i].0, Settle(holders[i].1, now))
  {
    seq(|holders|, i requires 0 <= i < |holders| => (holders[i].0, Settle(holders[i].1, now)))
  }

  /**
   * Settling changes no balance, no time stamp and no address, so the books
   * as the distribution sees them stay as they were; with a history up to
   * `now`, every time-weighted amount grows by its balance times the seconds
   * since its holder's last action, which is never negative.
   */
  lemma SettleAllKeeps(holders: Holders, now: int, t: int)
    ensures Records(SettleAll(holders, now)) == Records(holders)
    ensures HistoryUpTo(holders, t) && t <= now && Distribution.NonNegative(I.Balances(Records(holders))) ==>
      HistoryUpTo(SettleAll(holders, now), now) &&
      forall i :: 0 <= i < |holders| ==>
        SettleAll(holders, now)[i].1.timeWightedLPAmount
          == holders[i].1.timeWightedLPAmount + holders[i].1.lastLPAmountSaved * (now - holders[i].1.lastActionTimestamp)
          >= holders[i].1.timeWightedLPAmount
  {
    if HistoryUpTo(holders, t) && t <= now && Distribution.NonNegative(I.Balances(Records(holders))) {
      forall i | 0 <= i < |holders|
        ensures holders[i].1.lastLPAmountSaved * (now - holders[i].1.lastActionTimestamp) >= 0
      {
        assert I.Balances(Records(holders))[i].1 == holders[i].1.lastLPAmountSaved;
      }
    }
  }

  /** Each holder's time-weighted amount under its address, in the holders' order. */
  function Amounts(holders: Holders): (r: Dict<int>)
    ensures |r| == |holders|
    ensures forall i :: 0 <= i < |holders| ==> r[i] == (holders[i].0, holders[i].1.timeWightedLPAmount)
  {
    seq(|holders|, i requires 0 <= i < |holders| => (holders[i].0, holders[i].1.timeWightedLPAmount))
  }

  // ---------------------------------------------------------------------------
  // Descending order

  ghost predicate Descending(d: Dict<int>)
  {
    forall i, j :: 0 <= i < j < |d| ==> d[i].1 >= d[j].1
  }

  /** Entries that are those of `t` plus `e` are all at least `b` when those of `t` and `e` are. */
  lemma AtLeastAll(s: Dict<int>, t: Dict<int>, e: (string, int), b: int)
    requires multiset(s) == multiset(t) + multiset{e}
    requires e.1 >= b
    requires forall i :: 0 <= i < |t| ==> t[i].1 >= b
    ensures forall i :: 0 <= i < |s| ==> s[i].1 >= b
  {
    forall i | 0 <= i < |s| ensures s[i].1 >= b {
      assert s[i] in multiset(s);
      if s[i] != e {
        assert s[i] in multiset(t);
        var k :| 0 <= k < |t| && t[k] == s[i];
      }
    }
  }

  /**
   * Inserts `e` after every entry whose value is at least its own. swap.ts
   * sorts its float values the same way (`Swap.InsertByValue`).
   */
  function InsertDesc(sorted: Dict<int>, e: (string, int)): (r: Dict<int>)
    ensures multiset(r) == multiset(sorted) + multiset{e}
    decreases |sorted|
  {
    if sorted == [] then [e]
    else
      var n := |sorted| - 1;
      if sorted[n].1 >= e.1 then
        sorted + [e]
      else
        LastSplit(sorted);
        InsertDesc(sorted[..n], e) + [sorted[n]]
  }

  /** Inserting into a descending list keeps it descending. */
  lemma {:induction false} InsertDescOrder(sorted: Dict<int>, e: (string, int))
    requires Descending(sorted)
    ensures Descending(InsertDesc(sorted, e))
    decreases |sorted|
  {
    if sorted != [] {
      var n := |sorted| - 1;
      if sorted[n].1 < e.1 {
        InsertDescOrder(sorted[..n], e);
        AtLeastAll(InsertDesc(sorted[..n], e), sorted[..n], e, sorted[n].1);
      }
    }
  }

  /**
   * The entries ordered by descending value: the `sort` with a comparator
   * on the BigNumber values, as an insertion sort. The result is a
   * rearrangement of the entries, in descending order.
   */
  function SortDesc(d: Dict<int>): (r: Dict<int>)
    ensures multiset(r) == multiset(d)
    ensures Descending(r)
    decreases |d|
  {
    if d == [] then []
    else
      var n := |d| - 1;
      LastSplit(d);
      InsertDescOrder(SortDesc(d[..n]), d[n]);
      InsertDesc(SortDesc(d[..n]), d[n])
  }

  // ---------------------------------------------------------------------------
  // processTimeWeightedAmount

  /** One pool of the time-weighted output: the settled amounts, largest first, as text. */
  function PoolOutput(holders: Holders, now: int): Dict<string>
  {
    IR.Render(SortDesc(Amounts(SettleAll(holders, now))))
  }

  /** What a text value of the output reads back as (0 where it does not read as a number). */
  function Parsed(out: Dict<string>): (r: Dict<int>)
    ensures |r| == |out|
  {
    seq(|out|, i requires 0 <= i < |out| => (out[i].0, match ParseDecimal(out[i].1) case Some(v) => v case None => 0))
  }

  /**
   * Every value of a pool's output reads back as a number; read back, the
   * entries are the pool's holders with their settled amounts, rearranged
   * in descending order.
   */
  lemma PoolOutputSorted(holders: Holders, now: int)
    ensures forall i :: 0 <= i < |PoolOutput(holders, now)| ==> ParseDecimal(PoolOutput(holders, now)[i].1).Some?
    ensures Descending(Parsed(PoolOutput(holders, now)))
    ensures multiset(Parsed(PoolOutput(holders, now))) == multiset(Amounts(SettleAll(holders, now)))
  {
    var sorted := SortDesc(Amounts(SettleAll(holders, now)));
    IR.RenderRoundTrip(sorted);
    assert Parsed(IR.Render(sorted)) == sorted by {
      forall i | 0 <= i < |sorted| ensures Parsed(IR.Render(sorted))[i] == sorted[i] {
        assert Keys(IR.Render(sorted))[i] == Keys(sorted)[i];
      }
    }
  }

  /** The time-weighted output of the pools so far: one entry per pool, in order. */
  function TimeWeightedOutput(allHolders: map<string, Holders>, pools: seq<string>, now: int): Dict<Dict<string>>
    requires forall i :: 0 <= i < |pools| ==> pools[i] in allHolders
    decreases |pools|
  {
    if pools == [] then []
    else
      var n := |pools| - 1;
      Put(TimeWeightedOutput(allHolders, pools[..n], now), pools[n], PoolOutput(allHolders[pools[n]], now))
  }

  /** For pools named once each, the output has exactly one entry per pool, in the pools' order, holding that pool's output. */
  lemma TimeWeightedOutputEntries(allHolders: map<string, Holders>, pools: seq<string>, now: int)
    requires forall i :: 0 <= i < |pools| ==> pools[i] in allHolders
    requires forall i, j :: 0 <= i < j < |pools| ==> pools[i] != pools[j]
    ensures |TimeWeightedOutput(allHolders, pools, now)| == |pools|
    ensures forall i :: 0 <= i < |pools| ==> TimeWeightedOutput(allHolders, pools, now)[i] == (pools[i], PoolOutput(allHolders[pools[i]], now))
  {
    TimeWeightedOutputKeys(allHolders, pools, now);
    forall i | 0 <= i < |pools| ensures TimeWeightedOutput(allHolders, pools, now)[i] == (pools[i], PoolOutput(allHolders[pools[i]], now)) {
      TimeWeightedOutputEntry(allHolders, pools, now, i);
    }
  }

  /** For pools named once each, the keys of the output are the pools, in order. */
  lemma {:induction false} TimeWeightedOutputKeys(allHolders: map<string, Holders>, pools: seq<string>, now: int)
    requires forall i :: 0 <= i < |pools| ==> pools[i] in allHolders
    requires forall i, j :: 0 <= i < j < |pools| ==> pools[i] != pools[j]
    ensures Keys(TimeWeightedOutput(allHolders, pools, now)) == pools
    decreases |pools|
  {
    if pools != [] {
      var n := |pools| - 1;
      var prefix := TimeWeightedOutput(allHolders, pools[..n], now);
      TimeWeightedOutputKeys(allHolders, pools[..n], now);
      assert pools[n] !in KeySet(prefix) by {
        assert pools[n] !in pools[..n];
      }
      PutLastKey(prefix, pools, PoolOutput(allHolders[pools[n]], now));
    }
  }

  /** For pools named once each, the entry at position `i` of the output is pool `i` with its output. */
  lemma {:induction false} TimeWeightedOutputEntry(allHolders: map<string, Holders>, pools: seq<string>, now: int, i: nat)
    requires forall i :: 0 <= i < |pools| ==> pools[i] in allHolders
    requires forall i, j :: 0 <= i < j < |pools| ==> pools[i] != pools[j]
    requires i < |pools|
    ensures i < |TimeWeightedOutput(allHolders, pools, now)|
    ensures TimeWeightedOutput(allHolders, pools, now)[i] == (pools[i], PoolOutput(allHolders[pools[i]], now))
    decreases |pools|
  {
    var n := |pools| - 1;
    var prefix := TimeWeightedOutput(allHolders, pools[..n], now);
    TimeWeightedOutputKeys(allHolders, pools[..n], now);
    assert pools[n] !in KeySet(prefix) by {
      assert pools[n] !in pools[..n];
    }
    PutFresh(prefix, pools[n], PoolOutput(allHolders[pools[n]], now));
    if i < n {
      TimeWeightedOutputEntry(allHolders, pools[..n], now, i);
    }
  }

  /** The number of (pool, holder) pairs of the pools. */
  function PairCount(allHolders: map<string, Holders>, pools: seq<string>): nat
    requires forall i :: 0 <= i < |pools| ==> pools[i] in allHolders
    decreases |pools|
  {
    if pools == [] then 0 else PairCount(allHolders, pools[..|pools| - 1]) + |allHolders[pools[|pools| - 1]]|
  }

  /** The holders after settling the pools, in order, at `now`. */
  function SettledHolders(allHolders: map<string, Holders>, pools: seq<string>, now: int): map<string, Holders>
    requires forall i :: 0 <= i < |pools| ==> pools[i] in allHolders
    decreases |pools|
  {
    if pools == [] then allHolders
    else
      var n := |pools| - 1;
      SettledHolders(allHolders, pools[..n], now)[pools[n] := SettleAll(allHolders[pools[n]], now)]
  }

  /** Settling the pools settles exactly their holders, and keeps every pool. */
  lemma {:induction false} SettledHoldersMeaning(allHolders: map<string, Holders>, pools: seq<string>, now: int)
    requires forall i :: 0 <= i < |pools| ==> pools[i] in allHolders
    ensures SettledHolders(allHolders, pools, now).Keys == allHolders.Keys
    ensures forall p :: p in allHolders ==>
      SettledHolders(allHolders, pools, now)[p] == if p in pools then SettleAll(allHolders[p], now) else allHolders[p]
    decreases |pools|
  {
    if pools != [] {
      var n := |pools| - 1;
      SettledHoldersMeaning(allHolders, pools[..n], now);
      assert forall p :: p in pools <==> p in pools[..n] || p == pools[n] by {
        LastSplit(pools);
      }
    }
  }

  /** Extending the pools by one more, not yet settled, pool settles that pool on top of the earlier ones. */
  lemma SettleStep(allHolders: map<string, Holders>, pools: seq<string>, i: nat, now: int)
    requires forall k :: 0 <= k < |pools| ==> pools[k] in allHolders
    requires forall k, j :: 0 <= k < j < |pools| ==> pools[k] != pools[j]
    requires i < |pools|
    ensures pools[i] in SettledHolders(allHolders, pools[..i], now)
    ensures SettledHolders(allHolders, pools[..i], now)[pools[i]] == allHolders[pools[i]]
    ensures SettledHolders(allHolders, pools[..i + 1], now)
      == SettledHolders(allHolders, pools[..i], now)[pools[i] := SettleAll(allHolders[pools[i]], now)]
    ensures TimeWeightedOutput(allHolders, pools[..i + 1], now)
      == Put(TimeWeightedOutput(allHolders, pools[..i], now), pools[i], PoolOutput(allHolders[pools[i]], now))
    ensures PairCount(allHolders, pools[..i + 1]) == PairCount(allHolders, pools[..i]) + |allHolders[pools[i]]|
  {
    SettledStep(allHolders, pools, i, now);
    OutputStep(allHolders, pools, i, now);
  }

  /** The pool settled at step `i` is still untouched before it, and settling it extends the settled map by one pool. */
  lemma SettledStep(allHolders: map<string, Holders>, pools: seq<string>, i: nat, now: int)
    requires forall k :: 0 <= k < |pools| ==> pools[k] in allHolders
    requires forall k, j :: 0 <= k < j < |pools| ==> pools[k] != pools[j]
    requires i < |pools|
    ensures pools[i] in SettledHolders(allHolders, pools[..i], now)
    ensures SettledHolders(allHolders, pools[..i], now)[pools[i]] == allHolders[pools[i]]
    ensures SettledHolders(allHolders, pools[..i + 1], now)
      == SettledHolders(allHolders, pools[..i], now)[pools[i] := SettleAll(allHolders[pools[i]], now)]
  {
    assert pools[i] !in pools[..i];
    SettledUntouched(allHolders, pools[..i], pools[i], now);
    assert pools[..i + 1][..i] == pools[..i];
  }

  /** A pool that is not listed is left as it was. */
  lemma {:induction false} SettledUntouched(allHolders: map<string, Holders>, pools: seq<string>, p: string, now: int)
    requires forall k :: 0 <= k < |pools| ==> pools[k] in allHolders
    requires p in allHolders && p !in pools
    ensures p in SettledHolders(allHolders, pools, now)
    ensures SettledHolders(allHolders, pools, now)[p] == allHolders[p]
    decreases |pools|
  {
    if pools != [] {
      var n := |pools| - 1;
      assert p != pools[n];
      assert p !in pools[..n];
      SettledUntouched(allHolders, pools[..n], p, now);
    }
  }

  /** Step `i` writes pool `i`'s output and counts its holders. */
  lemma OutputStep(allHolders: map<string, Holders>, pools: seq<string>, i: nat, now: int)
    requires forall k :: 0 <= k < |pools| ==> pools[k] in allHolders
    requires i < |pools|
    ensures TimeWeightedOutput(allHolders, pools[..i + 1], now)
      == Put(TimeWeightedOutput(allHolders, pools[..i], now), pools[i], PoolOutput(allHolders[pools[i]], now))
    ensures PairCount(allHolders, pools[..i + 1]) == PairCount(allHolders, pools[..i]) + |allHolders[pools[i]]|
  {
    assert pools[..i + 1][..i] == pools[..i];
  }

  /** The inner loop of `processTimeWeightedAmount`: settle each holder of one pool in place, collecting its amount. */
  method SettlePool(holders: Holders, now: int) returns (settled: Holders, amounts: Dict<int>)
    ensures settled == SettleAll(holders, now)
    ensures amounts == Amounts(settled)
  {
    settled := holders;
    amounts := [];
    for j := 0 to |holders|
      invariant |settled| == |holders|
      invariant forall k :: 0 <= k < |holders| ==> settled[k] == if k < j then (holders[k].0, Settle(holders[k].1, now)) else holders[k]
      invariant amounts == Amounts(settled[..j])
    {
      var (address, holder) := settled[j];
      var timeDiff := now - holder.lastActionTimestamp;
      var timeWeighted := holder.lastLPAmountSaved * timeDiff;
      settled := settled[j := (address, holder.(timeWightedLPAmount := holder.timeWightedLPAmount + timeWeighted))];
      amounts := amounts + [(address, settled[j].1.timeWightedLPAmount)];
    }
  }

  /** One pass of the outer loop of `processTimeWeightedAmount`: settle one pool's holders in place and write its output. */
  method SettleAndWritePool(ledger: Ledger, output: Dict<Dict<string>>, pool: string, now: int) returns (output': Dict<Dict<string>>, count: nat)
    requires pool in ledger.allHolders
    modifies ledger
    ensures ledger.lpTokens == old(ledger.lpTokens)
    ensures ledger.allHolders == old(ledger.allHolders)[pool := SettleAll(old(ledger.allHolders)[pool], now)]
    ensures output' == Put(output, pool, PoolOutput(old(ledger.allHolders)[pool], now))
    ensures count == |old(ledger.allHolders)[pool]|
  {
    output' := Put(output, pool, []);
    var holders := ledger.allHolders[pool];
    var settled, amounts := SettlePool(holders, now);
    count := |holders|;
    ledger.allHolders := ledger.allHolders[pool := settled];
    PutPut(output, pool, [], IR.Render(SortDesc(amounts)));
    output' := Put(output', pool, IR.Render(SortDesc(amounts)));
  }

  /**
   * `processTimeWeightedAmount`: over the pools in order, settle every
   * holder at `now` in place, count the (pool, holder) pairs and write the
   * pool's settled amounts, largest first, as text. Balances, time stamps
   * and pool totals are left as they were. lp.ts runs it over all its pools.
   */
  method ProcessTimeWeightedAmount(ledger: Ledger, pools: seq<string>, now: int) returns (output: Dict<Dict<string>>, nonUniqueLPCount: nat)
    requires forall i :: 0 <= i < |pools| ==> pools[i] in ledger.allHolders
    requires forall i, j :: 0 <= i < j < |pools| ==> pools[i] != pools[j]
    modifies ledger
    ensures ledger.lpTokens == old(ledger.lpTokens)
    ensures ledger.allHolders == SettledHolders(old(ledger.allHolders), pools, now)
    ensures output == TimeWeightedOutput(old(ledger.allHolders), pools, now)
    ensures nonUniqueLPCount == PairCount(old(ledger.allHolders), pools)
  {
    ghost var start := ledger.allHolders;
    output := [];
    nonUniqueLPCount := 0;
    for i := 0 to |pools|
      invariant ledger.lpTokens == old(ledger.lpTokens)
      invariant ledger.allHolders == SettledHolders(start, pools[..i], now)
      invariant output == TimeWeightedOutput(start, pools[..i], now)
      invariant nonUniqueLPCount == PairCount(start, pools[..i])
    {
      SettleStep(start, pools, i, now);
      var count;
      output, count := SettleAndWritePool(ledger, output, pools[i], now);
      nonUniqueLPCount := nonUniqueLPCount + count;
    }
    assert pools[..|pools|] == pools;
  }

  // ---------------------------------------------------------------------------
  // groupByAddress

  /** `out[x][y]`, when both keys are present. */
  function Lookup2(out: Dict<Dict<string>>, x: string, y: string): Option<string>
  {
    match Get(out, x)
    case None => None
    case Some(inner) => Get(inner, y)
  }

  /** `output[address][pool] = value`, creating the address's object on first use. */
  function Place(out: Dict<Dict<string>>, address: string, pool: string, value: string): Dict<Dict<string>>
  {
    Put(out, address, Put(GetOr(out, address, []), pool, value))
  }

  /** One pool's entries, in order, placed under their addresses. */
  function GroupPool(out: Dict<Dict<string>>, pool: string, entries: Dict<string>): Dict<Dict<string>>
    decreases |entries|
  {
    if entries == [] then out
    else
      var n := |entries| - 1;
      Place(GroupPool(out, pool, entries[..n]), entries[n].0, pool, entries[n].1)
  }

  /** Every pool's entries, pool by pool. */
  function GroupAll(input: Dict<Dict<string>>): Dict<Dict<string>>
    decreases |input|
  {
    if input == [] then []
    else
      var n := |input| - 1;
      GroupPool(GroupAll(input[..n]), input[n].0, input[n].1)
  }

  /** Every address with an entry in some pool. */
  function AllAddresses(input: Dict<Dict<string>>): set<string>
    decreases |input|
  {
    if input == [] then {} else AllAddresses(input[..|input| - 1]) + KeySet(input[|input| - 1].1)
  }

  /** Placing a value makes it the only thing that changes. */
  lemma PlaceLookup(out: Dict<Dict<string>>, address: string, pool: string, value: string, a: string, p: string)
    ensures Lookup2(Place(out, address, pool, value), a, p) == if a == address && p == pool then Some(value) else Lookup2(out, a, p)
  {
  }

  /** Placing a value adds the address as a key, appending it when it is new, and keeps keys distinct. */
  lemma PlaceKeys(out: Dict<Dict<string>>, address: string, pool: string, value: string)
    ensures KeySet(Place(out, address, pool, value)) == KeySet(out) + {address}
    ensures |Place(out, address, pool, value)| == if address in KeySet(out) then |out| else |out| + 1
    ensures UniqueKeys(out) ==> UniqueKeys(Place(out, address, pool, value))
  {
    PutKeys(out, address, Put(GetOr(out, address, []), pool, value));
  }

  lemma {:induction false} GroupPoolLookup(out: Dict<Dict<string>>, pool: string, entries: Dict<string>, a: string, p: string)
    requires UniqueKeys(entries)
    ensures Lookup2(GroupPool(out, pool, entries), a, p) == if p == pool && a in KeySet(entries) then Get(entries, a) else Lookup2(out, a, p)
    decreases |entries|
  {
    if entries != [] {
      var n := |entries| - 1;
      GroupPoolLookup(out, pool, entries[..n], a, p);
      PlaceLookup(GroupPool(out, pool, entries[..n]), entries[n].0, pool, entries[n].1, a, p);
      KeySetLast(entries);
      GetLast(entries, a);
      GetKeys(entries[..n], a);
      GetKeys(entries, a);
    }
  }

  lemma {:induction false} GroupPoolKeys(out: Dict<Dict<string>>, pool: string, entries: Dict<string>)
    ensures KeySet(GroupPool(out, pool, entries)) == KeySet(out) + KeySet(entries)
    ensures UniqueKeys(out) ==> UniqueKeys(GroupPool(out, pool, entries))
    decreases |entries|
  {
    if entries != [] {
      var n := |entries| - 1;
      GroupPoolKeys(out, pool, entries[..n]);
      PlaceKeys(GroupPool(out, pool, entries[..n]), entries[n].0, pool, entries[n].1);
      KeySetLast(entries);
    }
  }

  /**
   * `groupByAddress` is a transpose: for distinct pools, each with distinct
   * addresses, `out[a][p]` is `in[p][a]` (both absent together).
   */
  lemma {:induction false} GroupAllTransposes(input: Dict<Dict<string>>, a: string, p: string)
    requires UniqueKeys(input)
    requires forall i :: 0 <= i < |input| ==> UniqueKeys(input[i].1)
    ensures Lookup2(GroupAll(input), a, p) == Lookup2(input, p, a)
    decreases |input|
  {
    if input != [] {
      var n := |input| - 1;
      var (q, entries) := input[n];
      assert UniqueKeys(input[..n]);
      GroupAllTransposes(input[..n], a, p);
      GroupPoolLookup(GroupAll(input[..n]), q, entries, a, p);
      GetLast(input, p);
      GetKeys(entries, a);
      if p == q {
        UniqueIndex(input, n);
        IndexOfFirst(input, q);
        GetKeys(input[..n], q);
        KeySetLast(input);
        assert q !in KeySet(input[..n]) by {
          assert forall j :: 0 <= j < n ==> Keys(input[..n])[j] == input[j].0;
        }
      }
    }
  }

  /** The grouped output has one key per address found in some pool, and no key twice. */
  lemma {:induction false} GroupAllKeys(input: Dict<Dict<string>>)
    ensures KeySet(GroupAll(input)) == AllAddresses(input)
    ensures UniqueKeys(GroupAll(input))
    ensures |GroupAll(input)| == |AllAddresses(input)|
    decreases |input|
  {
    if input != [] {
      var n := |input| - 1;
      GroupAllKeys(input[..n]);
      GroupPoolKeys(GroupAll(input[..n]), input[n].0, input[n].1);
    }
    UniqueKeysCount(GroupAll(input));
  }

  /** The inner loop of `groupByAddress`: one pool's entries placed under their addresses, counting new addresses. */
  method GroupPoolInto(output: Dict<Dict<string>>, pool: string, entries: Dict<string>) returns (grouped: Dict<Dict<string>>, added: nat)
    ensures grouped == GroupPool(output, pool, entries)
    ensures |grouped| == |output| + added
  {
    grouped := output;
    added := 0;
    for j := 0 to |entries|
      invariant grouped == GroupPool(output, pool, entries[..j])
      invariant |grouped| == |output| + added
    {
      var (address, value) := entries[j];
      assert entries[..j + 1][..j] == entries[..j];
      PlaceKeys(grouped, address, pool, value);
      GetKeys(grouped, address);
      var existing := Get(grouped, address);
      if existing.Some? {
        grouped := Put(grouped, address, Put(existing.value, pool, value));
      } else {
        grouped := Put(grouped, address, [(pool, value)]);
        added := added + 1;
      }
    }
    assert entries[..|entries|] == entries;
  }

  /**
   * `groupByAddress`: every (pool, address, value) entry placed under its
   * address, pool by pool; the count of addresses seen for the first time
   * is the number of distinct addresses.
   */
  method GroupByAddress(timeWeightedAmounts: Dict<Dict<string>>) returns (output: Dict<Dict<string>>, uniqueLPCount: nat)
    ensures output == GroupAll(timeWeightedAmounts)
    ensures uniqueLPCount == |AllAddresses(timeWeightedAmounts)|
  {
    output := [];
    uniqueLPCount := 0;
    for i := 0 to |timeWeightedAmounts|
      invariant output == GroupAll(timeWeightedAmounts[..i])
      invariant uniqueLPCount == |output|
    {
      var (pool, entries) := timeWeightedAmounts[i];
      assert timeWeightedAmounts[..i + 1][..i] == timeWeightedAmounts[..i];
      var added;
      output, added := GroupPoolInto(output, pool, entries);
      uniqueLPCount := uniqueLPCount + added;
    }
    assert timeWeightedAmounts[..|timeWeightedAmounts|] == timeWeightedAmounts;
    GroupAllKeys(timeWeightedAmounts);
  }
}
