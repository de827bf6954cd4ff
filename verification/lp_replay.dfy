/**
 * The block replay of lp.ts: for every block from START_BLOCK up to and
 * including END_BLOCK, apply the block's logs to the time-weighted ledger,
 * price the pools at the block's minute and give every holder its share of
 * TOKENS_PER_BLOCK; then settle every holder's time weight, write the pools'
 * time-weighted amounts and group them by address.
 *
 * The ledger's records and totals evolve exactly as in index.ts (see
 * LpLedger.ApplyBlockProject), so the distribution is stated on the
 * projected books and reuses the invariant of IndexReplay.
 */
module LpReplay {
  import opened Wrappers
  import opened Dicts
  import opened LpLogs
  import opened LpLedger
  import I = IndexLedger
  import IR = IndexReplay
  import D = Distribution
  import O = LpOutput

  /** lp.ts's TOTAL_BLOCKS; its block loop visits one block more. */
  const TOTAL_BLOCKS: int := END_BLOCK - START_BLOCK

  /** The quanta of the blocks from `block` to END_BLOCK, one TOKENS_PER_BLOCK each. */
  function QuantaFrom(block: int, tokensPerBlock: nat): nat
    decreases END_BLOCK + 1 - block
  {
    if block > END_BLOCK then 0 else tokensPerBlock + QuantaFrom(block + 1, tokensPerBlock)
  }

  lemma {:induction false} QuantaFromClosedForm(block: int, tokensPerBlock: nat)
    requires block <= END_BLOCK + 1
    ensures QuantaFrom(block, tokensPerBlock) == tokensPerBlock * (END_BLOCK + 1 - block)
    decreases END_BLOCK + 1 - block
  {
    if block <= END_BLOCK {
      QuantaFromClosedForm(block + 1, tokensPerBlock);
      assert tokensPerBlock * (END_BLOCK + 1 - block) == tokensPerBlock + tokensPerBlock * (END_BLOCK - block);
    }
  }

  /** The inclusive loop hands out TOKENS_PER_BLOCK × (TOTAL_BLOCKS + 1): one quantum more than the budget's TOTAL_BLOCKS. */
  lemma QuantaTotal(tokensPerBlock: nat)
    ensures QuantaFrom(START_BLOCK, tokensPerBlock) == tokensPerBlock * (TOTAL_BLOCKS + 1)
    ensures QuantaFrom(START_BLOCK, tokensPerBlock) == tokensPerBlock * TOTAL_BLOCKS + tokensPerBlock
  {
    QuantaFromClosedForm(START_BLOCK, tokensPerBlock);
  }

  // ---------------------------------------------------------------------------
  // The replay

  /** The replay's pools all have books. */
  ghost predicate HasPools(b: Books)
  {
    forall p :: p in POOLS ==> p in b.allHolders
  }

  /** The pools in order, as the distribution sees them. */
  function Views(b: Books, btc: nat, eth: nat): seq<D.PoolView>
  {
    IR.ViewsOf(Project(b), POOLS, btc, eth)
  }

  /** The state carried from block to block: the time-weighted ledger and the rewards so far. */
  datatype Run = Run(books: Books, rewards: Dict<int>)

  /** One iteration of the block loop of `processAllLogs`: the quantum is TOKENS_PER_BLOCK at every block. */
  function Step(run: Run, block: int, byBlock: map<int, seq<LpTransferLog>>, priceData: PriceData, tokensPerBlock: nat): Result<Run, Fault>
  {
    var blockLogs := BlockLogs(byBlock, block);
    match ApplyBlock(run.books, blockLogs)
    case Err(e) => Err(e)
    case Ok(books) =>
      match MinutePrices(priceData, BlockTimestamp(blockLogs, block))
      case Err(e) => Err(e)
      case Ok(prices) =>
        match IR.Distribute(run.rewards, Views(books, prices.0, prices.1), tokensPerBlock)
        case Err(e) => Err(e)
        case Ok(rewards) => Ok(Run(books, rewards))
  }

  /** The block loop's iteration as a function value. */
  type Stepper = (Run, int) -> Result<Run, Fault>

  function StepOf(byBlock: map<int, seq<LpTransferLog>>, priceData: PriceData, tokensPerBlock: nat): Stepper
  {
    (run: Run, block: int) => Step(run, block, byBlock, priceData, tokensPerBlock)
  }

  /** `step` is Step over these logs and prices. */
  ghost predicate StepsAs(step: Stepper, byBlock: map<int, seq<LpTransferLog>>, priceData: PriceData, tokensPerBlock: nat)
  {
    forall run: Run, block: int {:trigger Step(run, block, byBlock, priceData, tokensPerBlock)} ::
      step(run, block) == Step(run, block, byBlock, priceData, tokensPerBlock)
  }

  /** The blocks from `block` to END_BLOCK inclusive, in order; the first fault stops the replay. */
  function ReplayFrom(step: Stepper, run: Run, block: int): Result<Run, Fault>
    decreases END_BLOCK + 1 - block
  {
    if block > END_BLOCK then Ok(run)
    else
      var next := step(run, block);
      if next.Err? then Err(next.error) else ReplayFrom(step, next.value, block + 1)
  }

  function Replay(logs: seq<LpTransferLog>, priceData: PriceData, tokensPerBlock: nat): Result<Run, Fault>
  {
    ReplayFrom(StepOf(GroupOf(logs), priceData, tokensPerBlock), Run(InitialBooks(), []), START_BLOCK)
  }

  /**
   * What holds between blocks, as in index.ts: the books are sound and know
   * the replay's pools, and the rewards have exactly one entry per address
   * that ever held a position.
   */
  ghost predicate RunInvariant(run: Run)
  {
    IR.RunInvariant(IR.Run(Project(run.books), run.rewards))
  }

  lemma InitialRunInvariant()
    ensures RunInvariant(Run(InitialBooks(), []))
  {
    IR.InitialRunInvariant();
  }

  /** A block's logs keep the books sound, keep the replay's pools and drop no address. */
  lemma StepKeepsBooks(run: Run, block: int, byBlock: map<int, seq<LpTransferLog>>, priceData: PriceData, tokensPerBlock: nat, next: Run)
    requires Sound(run.books) && HasPools(run.books)
    requires Step(run, block, byBlock, priceData, tokensPerBlock) == Ok(next)
    ensures Sound(next.books) && HasPools(next.books)
    ensures IR.AddressesIn(Project(run.books), POOLS) <= IR.AddressesIn(Project(next.books), POOLS)
  {
    var blockLogs := BlockLogs(byBlock, block);
    ApplyBlockProject(run.books, blockLogs);
    IR.ApplyBlockKeeps(Project(run.books), blockLogs, Project(next.books));
  }

  /**
   * A block's distribution keeps the reward keys distinct, makes every
   * holder of the new books a key, and adds at least nothing and at most
   * TOKENS_PER_BLOCK.
   */
  lemma StepKeepsRewards(run: Run, block: int, byBlock: map<int, seq<LpTransferLog>>, priceData: PriceData, tokensPerBlock: nat, next: Run)
    requires UniqueKeys(run.rewards) && Sound(next.books) && HasPools(next.books)
    requires Step(run, block, byBlock, priceData, tokensPerBlock) == Ok(next)
    ensures UniqueKeys(next.rewards)
    ensures KeySet(next.rewards) == KeySet(run.rewards) + IR.AddressesIn(Project(next.books), POOLS)
    ensures Sum(run.rewards) <= Sum(next.rewards) <= Sum(run.rewards) + tokensPerBlock
  {
    var blockLogs := BlockLogs(byBlock, block);
    var prices := MinutePrices(priceData, BlockTimestamp(blockLogs, block)).value;
    var projected := Project(next.books);
    IR.ViewsConsistent(projected, POOLS, prices.0, prices.1);
    IR.ViewsHolders(projected, POOLS, prices.0, prices.1);
    IR.DistributeKeeps(run.rewards, Views(next.books, prices.0, prices.1), tokensPerBlock, next.rewards);
  }

  /** A block keeps the invariant, and adds to the rewards at least nothing and at most TOKENS_PER_BLOCK. */
  lemma StepKeeps(run: Run, block: int, byBlock: map<int, seq<LpTransferLog>>, priceData: PriceData, tokensPerBlock: nat, next: Run)
    requires RunInvariant(run)
    requires Step(run, block, byBlock, priceData, tokensPerBlock) == Ok(next)
    ensures RunInvariant(next)
    ensures Sum(run.rewards) <= Sum(next.rewards) <= Sum(run.rewards) + tokensPerBlock
  {
    StepKeepsBooks(run, block, byBlock, priceData, tokensPerBlock, next);
    StepKeepsRewards(run, block, byBlock, priceData, tokensPerBlock, next);
  }

  /** Past END_BLOCK the replay has nothing left to do. */
  lemma ReplayFromDone(step: Stepper, run: Run, block: int)
    requires block > END_BLOCK
    ensures ReplayFrom(step, run, block) == Ok(run)
  {
  }

  /** A step that faults ends the replay with its fault. */
  lemma ReplayFromFault(step: Stepper, run: Run, block: int)
    requires block <= END_BLOCK && step(run, block).Err?
    ensures ReplayFrom(step, run, block) == Err(step(run, block).error)
  {
  }

  /** A step that succeeds hands the replay on to the next block. */
  lemma ReplayFromNext(step: Stepper, run: Run, next: Run, block: int)
    requires block <= END_BLOCK && step(run, block) == Ok(next)
    ensures ReplayFrom(step, run, block) == ReplayFrom(step, next, block + 1)
  {
  }

  /** The first block of a replay that completes: its step keeps the invariant, and the replay completes from the next block. */
  lemma ReplayStepKeeps(run: Run, block: int, byBlock: map<int, seq<LpTransferLog>>, priceData: PriceData, tokensPerBlock: nat, final: Run)
    returns (next: Run)
    requires RunInvariant(run) && block <= END_BLOCK
    requires ReplayFrom(StepOf(byBlock, priceData, tokensPerBlock), run, block) == Ok(final)
    ensures RunInvariant(next)
    ensures Sum(run.rewards) <= Sum(next.rewards) <= Sum(run.rewards) + tokensPerBlock
    ensures ReplayFrom(StepOf(byBlock, priceData, tokensPerBlock), next, block + 1) == Ok(final)
  {
    next := Step(run, block, byBlock, priceData, tokensPerBlock).value;
    StepKeeps(run, block, byBlock, priceData, tokensPerBlock, next);
  }

  /** The blocks from `block` on keep the invariant and add at most their quanta to the rewards. */
  lemma {:induction false} ReplayKeeps(run: Run, block: int, byBlock: map<int, seq<LpTransferLog>>, priceData: PriceData, tokensPerBlock: nat, final: Run)
    requires RunInvariant(run)
    requires ReplayFrom(StepOf(byBlock, priceData, tokensPerBlock), run, block) == Ok(final)
    ensures RunInvariant(final)
    ensures Sum(run.rewards) <= Sum(final.rewards) <= Sum(run.rewards) + QuantaFrom(block, tokensPerBlock)
    decreases END_BLOCK + 1 - block
  {
    if block > END_BLOCK {
      assert final == run && QuantaFrom(block, tokensPerBlock) == 0;
    } else {
      var next := ReplayStepKeeps(run, block, byBlock, priceData, tokensPerBlock, final);
      ReplayKeeps(next, block + 1, byBlock, priceData, tokensPerBlock, final);
    }
  }

  /**
   * A replay that completes hands out no negative total and never more than
   * TOKENS_PER_BLOCK × (TOTAL_BLOCKS + 1); every address that ever held a
   * position has exactly one reward entry, and no other address has one.
   */
  lemma ReplayWithinBudget(logs: seq<LpTransferLog>, priceData: PriceData, tokensPerBlock: nat, final: Run)
    requires Replay(logs, priceData, tokensPerBlock) == Ok(final)
    ensures 0 <= Sum(final.rewards) <= tokensPerBlock * (TOTAL_BLOCKS + 1)
    ensures UniqueKeys(final.rewards)
    ensures KeySet(final.rewards) == IR.AddressesIn(Project(final.books), POOLS)
    ensures Sound(final.books) && HasPools(final.books)
  {
    InitialRunInvariant();
    ReplayKeeps(Run(InitialBooks(), []), START_BLOCK, GroupOf(logs), priceData, tokensPerBlock, final);
    QuantaTotal(tokensPerBlock);
  }

  // ---------------------------------------------------------------------------
  // Time weighting over the replay

  /** The logs of one block share one time, and a later block never has an earlier time. */
  ghost predicate InOrder(byBlock: map<int, seq<LpTransferLog>>)
  {
    forall b1, b2, i, j :: b1 in byBlock && b2 in byBlock && b1 <= b2 && 0 <= i < |byBlock[b1]| && 0 <= j < |byBlock[b2]| ==>
      byBlock[b1][i].timestamp <= byBlock[b2][j].timestamp
  }

  /** Every log of the blocks from `block` on lies between `t` and `now`. */
  ghost predicate TimesWithin(byBlock: map<int, seq<LpTransferLog>>, block: int, t: int, now: int)
  {
    forall b, i :: b in byBlock && block <= b && 0 <= i < |byBlock[b]| ==> t <= byBlock[b][i].timestamp <= now
  }

  lemma ChronologicalLater(b: Books, t: int, t': int)
    requires Chronological(b, t) && t <= t'
    ensures Chronological(b, t')
  {
    forall p | p in b.allHolders ensures HistoryUpTo(b.allHolders[p], t') {
      HistoryLater(b.allHolders[p], t, t');
    }
  }

  /** One block of time-ordered logs moves the history on to the block's time, which later blocks do not precede. */
  lemma StepChronological(run: Run, block: int, byBlock: map<int, seq<LpTransferLog>>, priceData: PriceData, tokensPerBlock: nat,
                          t: int, now: int, next: Run) returns (t': int)
    requires Sound(run.books) && Chronological(run.books, t) && t <= now
    requires InOrder(byBlock) && TimesWithin(byBlock, block, t, now)
    requires Step(run, block, byBlock, priceData, tokensPerBlock) == Ok(next)
    ensures Sound(next.books) && Chronological(next.books, t') && t' <= now
    ensures TimesWithin(byBlock, block + 1, t', now)
    ensures Accrues(run.books, next.books)
  {
    var blockLogs := BlockLogs(byBlock, block);
    if blockLogs == [] {
      t' := t;
    } else {
      t' := blockLogs[0].timestamp;
    }
    ApplyBlockChronological(run.books, blockLogs, t, t');
  }

  /**
   * Over time-ordered logs that end no later than `now`, the replay keeps
   * the history: at the end every holder was first observed no later than
   * its last action, which is no later than `now`; no holder disappears, no
   * first-observed time changes and no time-weighted amount goes down.
   */
  lemma {:induction false} ReplayChronological(run: Run, block: int, byBlock: map<int, seq<LpTransferLog>>, priceData: PriceData,
                                               tokensPerBlock: nat, t: int, now: int, final: Run)
    requires Sound(run.books) && Chronological(run.books, t) && t <= now
    requires InOrder(byBlock) && TimesWithin(byBlock, block, t, now)
    requires ReplayFrom(StepOf(byBlock, priceData, tokensPerBlock), run, block) == Ok(final)
    ensures Sound(final.books) && Chronological(final.books, now) && Accrues(run.books, final.books)
    decreases END_BLOCK + 1 - block
  {
    if block > END_BLOCK {
      ChronologicalLater(run.books, t, now);
    } else {
      var next := Step(run, block, byBlock, priceData, tokensPerBlock).value;
      var t' := StepChronological(run, block, byBlock, priceData, tokensPerBlock, t, now, next);
      ReplayChronological(next, block + 1, byBlock, priceData, tokensPerBlock, t', now, final);
      AccruesTrans(run.books, next.books, final.books);
    }
  }

  /** The earliest time among the logs, and never later than `now`. */
  function Earliest(logs: seq<LpTransferLog>, now: int): (t: int)
    ensures t <= now
    ensures forall i :: 0 <= i < |logs| ==> t <= logs[i].timestamp
    decreases |logs|
  {
    if logs == [] then now
    else
      var t := Earliest(logs[..|logs| - 1], now);
      if logs[|logs| - 1].timestamp < t then logs[|logs| - 1].timestamp else t
  }

  /** Grouping time-ordered logs gives blocks in time order, each within the logs' times. */
  lemma GroupInOrder(logs: seq<LpTransferLog>, now: int)
    requires forall x, y :: x in logs && y in logs && x.blockNumber <= y.blockNumber ==> x.timestamp <= y.timestamp
    requires forall x :: x in logs ==> x.timestamp <= now
    ensures InOrder(GroupOf(logs))
    ensures TimesWithin(GroupOf(logs), START_BLOCK, Earliest(logs, now), now)
  {
    var byBlock := GroupOf(logs);
    forall b, i | b in byBlock && 0 <= i < |byBlock[b]|
      ensures byBlock[b][i] in logs && byBlock[b][i].blockNumber == b
    {
      GroupOfSelects(logs, b);
      SelectMembers(logs, InBlock(b), byBlock[b][i]);
    }
    forall b | b in byBlock && START_BLOCK <= b
      ensures forall i :: 0 <= i < |byBlock[b]| ==> Earliest(logs, now) <= byBlock[b][i].timestamp
    {
      forall i | 0 <= i < |byBlock[b]| ensures Earliest(logs, now) <= byBlock[b][i].timestamp {
        var k :| 0 <= k < |logs| && logs[k] == byBlock[b][i];
      }
    }
  }

  /**
   * A replay of time-ordered logs, all no later than `now`, ends with a
   * history up to `now`; settling it at `now` then adds to every holder its
   * balance × (now − lastActionTimestamp), and no settled time-weighted
   * amount is negative.
   */
  lemma ReplayTimeWeighted(logs: seq<LpTransferLog>, priceData: PriceData, tokensPerBlock: nat, now: int, final: Run)
    requires forall x, y :: x in logs && y in logs && x.blockNumber <= y.blockNumber ==> x.timestamp <= y.timestamp
    requires forall x :: x in logs ==> x.timestamp <= now
    requires Replay(logs, priceData, tokensPerBlock) == Ok(final)
    ensures Chronological(final.books, now)
    ensures forall p, i :: p in final.books.allHolders && 0 <= i < |final.books.allHolders[p]| ==>
      O.SettleAll(final.books.allHolders[p], now)[i].1.timeWightedLPAmount
        == Accrued(final.books.allHolders[p][i].1, now)
        >= final.books.allHolders[p][i].1.timeWightedLPAmount >= 0
  {
    ReplayEndsChronological(logs, priceData, tokensPerBlock, now, final);
    SettleChronological(final.books, now);
  }

  /** A replay of time-ordered logs, all no later than `now`, ends with sound books whose history reaches up to `now`. */
  lemma ReplayEndsChronological(logs: seq<LpTransferLog>, priceData: PriceData, tokensPerBlock: nat, now: int, final: Run)
    requires forall x, y :: x in logs && y in logs && x.blockNumber <= y.blockNumber ==> x.timestamp <= y.timestamp
    requires forall x :: x in logs ==> x.timestamp <= now
    requires Replay(logs, priceData, tokensPerBlock) == Ok(final)
    ensures Sound(final.books) && Chronological(final.books, now)
  {
    GroupInOrder(logs, now);
    I.InitialBooksSound();
    ReplayChronological(Run(InitialBooks(), []), START_BLOCK, GroupOf(logs), priceData, tokensPerBlock, Earliest(logs, now), now, final);
  }

  /** Settling sound books with a history up to `now` accrues a non-negative amount on top of a non-negative one. */
  lemma SettleChronological(b: Books, now: int)
    requires Sound(b) && Chronological(b, now)
    ensures forall p, i :: p in b.allHolders && 0 <= i < |b.allHolders[p]| ==>
      O.SettleAll(b.allHolders[p], now)[i].1.timeWightedLPAmount
        == Accrued(b.allHolders[p][i].1, now)
        >= b.allHolders[p][i].1.timeWightedLPAmount >= 0
  {
    forall p | p in b.allHolders
      ensures forall i :: 0 <= i < |b.allHolders[p]| ==>
        O.SettleAll(b.allHolders[p], now)[i].1.timeWightedLPAmount
          == Accrued(b.allHolders[p][i].1, now)
          >= b.allHolders[p][i].1.timeWightedLPAmount >= 0
    {
      assert Project(b).allHolders[p] == Records(b.allHolders[p]);
      O.SettleAllKeeps(b.allHolders[p], now, now);
    }
  }

  // ---------------------------------------------------------------------------
  // The loop of processAllLogs

  /** A block that succeeds keeps the replay's pools. */
  lemma ApplyBlockHasPools(b: Books, blockLogs: seq<LpTransferLog>, b': Books)
    requires HasPools(b) && ApplyBlock(b, blockLogs) == Ok(b')
    ensures HasPools(b')
  {
    ApplyBlockProject(b, blockLogs);
    I.ApplyBlockFrame(Project(b), blockLogs, Project(b'));
  }

  /** Every block the grouping lists has a log. */
  ghost predicate NoEmptyBlock(byBlock: map<int, seq<LpTransferLog>>)
  {
    forall b :: b in byBlock ==> byBlock[b] != []
  }

  /** Grouping lists a block only once it has a log. */
  lemma GroupOfNoEmptyBlock(logs: seq<LpTransferLog>)
    ensures NoEmptyBlock(GroupOf(logs))
  {
    forall b | b in GroupOf(logs) ensures GroupOf(logs)[b] != [] {
      GroupOfSelects(logs, b);
    }
  }

  /** The first leg loop of a block: the mints and incoming transfers, in order. */
  method ApplyMints(ledger: Ledger, minting: seq<LpTransferLog>) returns (outcome: Result<(), Fault>)
    requires ledger.Valid()
    modifies ledger
    ensures ledger.Valid()
    ensures MintAll(old(ledger.State()), minting).Ok? ==> outcome.Ok? && ledger.State() == MintAll(old(ledger.State()), minting).value
    ensures MintAll(old(ledger.State()), minting).Err? ==> outcome == Err(MintAll(old(ledger.State()), minting).error)
  {
    ghost var start := ledger.State();
    for i := 0 to |minting|
      invariant ledger.Valid()
      invariant MintAll(start, minting) == MintAll(ledger.State(), minting[i..])
    {
      assert minting[i..][0] == minting[i] && minting[i..][1..] == minting[i + 1..];
      var minted := ledger.ProcessMinting(minting[i]);
      if minted.Err? {
        return Err(minted.error);
      }
    }
    outcome := Ok(());
  }

  /** The second leg loop of a block: the burns and outgoing transfers, in order. */
  method ApplyBurns(ledger: Ledger, burning: seq<LpTransferLog>) returns (outcome: Result<(), Fault>)
    requires ledger.Valid()
    modifies ledger
    ensures ledger.Valid()
    ensures BurnAll(old(ledger.State()), burning).Ok? ==> outcome.Ok? && ledger.State() == BurnAll(old(ledger.State()), burning).value
    ensures BurnAll(old(ledger.State()), burning).Err? ==> outcome == Err(BurnAll(old(ledger.State()), burning).error)
  {
    ghost var start := ledger.State();
    for i := 0 to |burning|
      invariant ledger.Valid()
      invariant BurnAll(start, burning) == BurnAll(ledger.State(), burning[i..])
    {
      assert burning[i..][0] == burning[i] && burning[i..][1..] == burning[i + 1..];
      var burned := ledger.ProcessBurning(burning[i]);
      if burned.Err? {
        return Err(burned.error);
      }
    }
    outcome := Ok(());
  }

  /** The two leg loops of a block: mints and incoming transfers, then burns and outgoing transfers. */
  method ApplyBlockLogs(ledger: Ledger, blockLogs: seq<LpTransferLog>) returns (outcome: Result<(), Fault>)
    requires ledger.Valid()
    modifies ledger
    ensures ledger.Valid()
    ensures ApplyBlock(old(ledger.State()), blockLogs).Ok? ==> outcome.Ok? && ledger.State() == ApplyBlock(old(ledger.State()), blockLogs).value
    ensures ApplyBlock(old(ledger.State()), blockLogs).Err? ==> outcome == Err(ApplyBlock(old(ledger.State()), blockLogs).error)
  {
    outcome := ApplyMints(ledger, MintLegs(blockLogs));
    if outcome.Ok? {
      outcome := ApplyBurns(ledger, BurnLegs(blockLogs));
    }
  }

  /**
   * One pool's term of the TVL loop: the BTC pool's total times the BTC
   * price, an ETH pool's total times the ETH price, and any other pool's
   * total as it is. It fails exactly when the pool's price is missing.
   */
  method PoolTvl(total: int, pool: string, priceData: PriceData, ts: int, ghost btc: nat, ghost eth: nat)
    returns (r: Result<int, Fault>)
    requires GetTokenPrice(pool, Lookup(priceData, ts), ts).Ok? ==>
      GetTokenPrice(pool, Lookup(priceData, ts), ts).value == PoolPrice(pool, btc, eth)
    ensures r.Ok? <==> GetTokenPrice(pool, Lookup(priceData, ts), ts).Ok?
    ensures r.Err? ==> r.error == MissingPrice(ts)
    ensures r.Ok? ==> r.value == total * PoolPrice(pool, btc, eth)
  {
    if pool == "BTC" || pool == "vETH2" || pool == "alETH" {
      var tokenPrice := GetTokenPrice(pool, Lookup(priceData, ts), ts);
      if tokenPrice.Err? {
        return Err(tokenPrice.error);
      }
      r := Ok(total * tokenPrice.value);
    } else {
      r := Ok(total);
    }
  }

  /**
   * The TVL loop: over the pools in order, the BTC pool's total times the
   * BTC price, the ETH pools' totals times the ETH price, and any other
   * pool's total as it is. It succeeds exactly when every pool that needs a
   * price finds one, and then sums what the distribution's views of these
   * pools hold, priced at `btc` and `eth` (the minute's prices, when it has
   * them).
   */
  method TotalUsdTvl(ledger: Ledger, pools: seq<string>, priceData: PriceData, ts: int, ghost btc: nat, ghost eth: nat)
    returns (r: Result<int, Fault>)
    requires forall j :: 0 <= j < |pools| ==> pools[j] in ledger.lpTokens
    requires forall j :: 0 <= j < |pools| && GetTokenPrice(pools[j], Lookup(priceData, ts), ts).Ok? ==>
      GetTokenPrice(pools[j], Lookup(priceData, ts), ts).value == PoolPrice(pools[j], btc, eth)
    ensures r.Ok? <==> forall j :: 0 <= j < |pools| ==> GetTokenPrice(pools[j], Lookup(priceData, ts), ts).Ok?
    ensures r.Err? ==> r.error == MissingPrice(ts)
    ensures r.Ok? ==> r.value == D.Tvl(IR.ViewsOf(Project(ledger.State()), pools, btc, eth))
  {
    ghost var books := Project(ledger.State());
    assert books.lpTokens == ledger.lpTokens;
    var totalUsdTvl := 0;
    for i := 0 to |pools|
      invariant forall j :: 0 <= j < i ==> GetTokenPrice(pools[j], Lookup(priceData, ts), ts).Ok?
      invariant totalUsdTvl == D.Tvl(IR.ViewsOf(books, pools[..i], btc, eth))
    {
      IR.TvlStep(books, pools, i, btc, eth);
      var poolTvl := PoolTvl(ledger.lpTokens[pools[i]], pools[i], priceData, ts, btc, eth);
      if poolTvl.Err? {
        return Err(poolTvl.error);
      }
      totalUsdTvl := totalUsdTvl + poolTvl.value;
    }
    assert pools[..|pools|] == pools;
    return Ok(totalUsdTvl);
  }

  /**
   * The inner distribution loop: each holder of one pool, in order, is
   * credited `lastLPAmountSaved × price × TOKENS_PER_BLOCK / totalUSDTVL`
   * (no price factor for a pool priced at 1); a zero TVL faults at the
   * first holder.
   */
  method CreditHolders(acc: Dict<int>, holders: Holders, pool: string, priceData: PriceData, ts: int, tokensPerBlock: nat, totalUsdTvl: int)
    returns (r: Result<Dict<int>, Fault>)
    requires MinutePrices(priceData, ts).Ok?
    ensures totalUsdTvl != 0 ==>
      r == Ok(D.CreditPool(acc, I.Balances(Records(holders)),
                           PoolPrice(pool, MinutePrices(priceData, ts).value.0, MinutePrices(priceData, ts).value.1), tokensPerBlock, totalUsdTvl))
    ensures totalUsdTvl == 0 ==> r == if holders == [] then Ok(acc) else Err(DivisionByZero)
  {
    ghost var price := PoolPrice(pool, MinutePrices(priceData, ts).value.0, MinutePrices(priceData, ts).value.1);
    ghost var balances := I.Balances(Records(holders));
    assert GetTokenPrice(pool, Lookup(priceData, ts), ts) == Ok(price);
    var credited := acc;
    for j := 0 to |holders|
      invariant totalUsdTvl != 0 ==> credited == D.CreditPool(acc, balances[..j], price, tokensPerBlock, totalUsdTvl)
      invariant totalUsdTvl == 0 ==> j == 0 && credited == acc
    {
      var (address, holder) := holders[j];
      var userShare := holder.lastLPAmountSaved;
      if totalUsdTvl == 0 {
        return Err(DivisionByZero);
      }
      D.CreditPoolStep(acc, balances, j, price, tokensPerBlock, totalUsdTvl);
      if pool == "BTC" || pool == "vETH2" || pool == "alETH" {
        var tokenPrice := GetTokenPrice(pool, Lookup(priceData, ts), ts).value;
        credited := AddTo(credited, address, D.Quot(userShare * tokenPrice * tokensPerBlock, totalUsdTvl));
      } else {
        credited := AddTo(credited, address, D.Quot(userShare * tokensPerBlock, totalUsdTvl));
      }
    }
    assert balances[..|holders|] == balances;
    r := Ok(credited);
  }

  /** The outer distribution loop, over the pools in order. */
  method DistributeRewards(ledger: Ledger, rewards: Dict<int>, priceData: PriceData, ts: int, tokensPerBlock: nat, totalUsdTvl: int)
    returns (r: Result<Dict<int>, Fault>)
    requires HasPools(ledger.State())
    requires MinutePrices(priceData, ts).Ok?
    requires totalUsdTvl == D.Tvl(Views(ledger.State(), MinutePrices(priceData, ts).value.0, MinutePrices(priceData, ts).value.1))
    ensures r == IR.Distribute(rewards, Views(ledger.State(), MinutePrices(priceData, ts).value.0, MinutePrices(priceData, ts).value.1), tokensPerBlock)
  {
    ghost var prices := MinutePrices(priceData, ts).value;
    ghost var views := Views(ledger.State(), prices.0, prices.1);
    IR.ViewsOfIndex(Project(ledger.State()), POOLS, prices.0, prices.1);
    var acc := rewards;
    for i := 0 to |POOLS|
      invariant totalUsdTvl != 0 ==> acc == D.CreditAll(rewards, views[..i], tokensPerBlock, totalUsdTvl)
      invariant totalUsdTvl == 0 ==> acc == rewards && D.Pairs(views[..i]) == 0
    {
      var pool := POOLS[i];
      var holders := ledger.allHolders[pool];
      assert views[i].balances == I.Balances(Records(holders)) && views[i].price == PoolPrice(pool, prices.0, prices.1);
      var credited := CreditHolders(acc, holders, pool, priceData, ts, tokensPerBlock, totalUsdTvl);
      if credited.Err? {
        IR.PairsAtLeast(views, i);
        return credited;
      }
      acc := credited.value;
      D.PairsStep(views, i);
      if totalUsdTvl != 0 {
        D.CreditAllStep(rewards, views, i, tokensPerBlock, totalUsdTvl);
      }
    }
    assert views[..|POOLS|] == views;
    r := Ok(acc);
  }

  /**
   * One pass of the block loop: the block's logs when it has any, its
   * minute, the TVL and the distribution. It faults as the replay's step
   * does; otherwise the ledger and the rewards are the step's result.
   */
  method ProcessBlock(ledger: Ledger, rewards: Dict<int>, logsByBlock: map<int, seq<LpTransferLog>>, block: int,
                      priceData: PriceData, tokensPerBlock: nat, ghost step: Stepper)
    returns (r: Result<Dict<int>, Fault>)
    requires ledger.Valid() && HasPools(ledger.State())
    requires NoEmptyBlock(logsByBlock) && StepsAs(step, logsByBlock, priceData, tokensPerBlock)
    modifies ledger
    ensures r.Err? ==> step(Run(old(ledger.State()), rewards), block) == Err(r.error)
    ensures r.Ok? ==> step(Run(old(ledger.State()), rewards), block) == Ok(Run(ledger.State(), r.value))
    ensures r.Ok? ==> ledger.Valid() && HasPools(ledger.State())
  {
    ghost var run := Run(ledger.State(), rewards);
    assert step(run, block) == Step(run, block, logsByBlock, priceData, tokensPerBlock);
    var blockLogs: seq<LpTransferLog> := [];
    var ts: int;
    if block in logsByBlock {
      blockLogs := logsByBlock[block];
      ts := MinuteFloor(blockLogs[0].timestamp);
      var applied := ApplyBlockLogs(ledger, blockLogs);
      if applied.Err? {
        return Err(applied.error);
      }
    } else {
      var estimate := START_BLOCK_TS + (block - START_BLOCK) * AVERAGE_BLOCK_TIME;
      ts := MinuteFloor(estimate);
    }
    assert blockLogs == BlockLogs(logsByBlock, block) && ts == BlockTimestamp(blockLogs, block);
    assert ApplyBlock(run.books, blockLogs) == Ok(ledger.State());
    ApplyBlockHasPools(run.books, blockLogs, ledger.State());
    r := PriceAndDistribute(ledger, rewards, priceData, ts, tokensPerBlock);
  }

  /**
   * The rest of one block once its logs are applied: the TVL of the pools
   * at the block's minute, then TOKENS_PER_BLOCK shared out; a minute
   * without both prices faults with the missing price.
   */
  method PriceAndDistribute(ledger: Ledger, rewards: Dict<int>, priceData: PriceData, ts: int, tokensPerBlock: nat)
    returns (r: Result<Dict<int>, Fault>)
    requires HasPools(ledger.State()) && forall p :: p in POOLS ==> p in ledger.lpTokens
    ensures MinutePrices(priceData, ts).Err? ==> r == Err(MissingPrice(ts))
    ensures MinutePrices(priceData, ts).Ok? ==>
      r == IR.Distribute(rewards, Views(ledger.State(), MinutePrices(priceData, ts).value.0, MinutePrices(priceData, ts).value.1), tokensPerBlock)
  {
    ghost var btc: nat, eth: nat := PricingAllPools(priceData, ts);
    var tvl := TotalUsdTvl(ledger, POOLS, priceData, ts, btc, eth);
    if tvl.Err? {
      return Err(tvl.error);
    }
    r := DistributeRewards(ledger, rewards, priceData, ts, tokensPerBlock, tvl.value);
  }

  /**
   * The block loop of `processAllLogs`, from `first` up to and including
   * END_BLOCK, starting with no rewards: it faults exactly when the replay
   * from `first` does, with the same fault, and otherwise ends with that
   * replay's books and rewards. `processAllLogs` starts it at START_BLOCK.
   */
  method ProcessBlocks(ledger: Ledger, logsByBlock: map<int, seq<LpTransferLog>>, first: int, priceData: PriceData, tokensPerBlock: nat,
                       ghost step: Stepper)
    returns (r: Result<Dict<int>, Fault>)
    requires ledger.Valid() && HasPools(ledger.State())
    requires NoEmptyBlock(logsByBlock) && StepsAs(step, logsByBlock, priceData, tokensPerBlock)
    modifies ledger
    ensures r.Err? ==> ReplayFrom(step, Run(old(ledger.State()), []), first) == Err(r.error)
    ensures r.Ok? ==> ReplayFrom(step, Run(old(ledger.State()), []), first) == Ok(Run(ledger.State(), r.value))
  {
    var rewards: Dict<int> := [];
    var block := first;
    ghost var replay := ReplayFrom(step, Run(ledger.State(), rewards), block);
    while block <= END_BLOCK
      invariant ledger.Valid() && HasPools(ledger.State())
      invariant ReplayFrom(step, Run(ledger.State(), rewards), block) == replay
      decreases END_BLOCK + 1 - block
    {
      ghost var run := Run(ledger.State(), rewards);
      var processed := ProcessBlock(ledger, rewards, logsByBlock, block, priceData, tokensPerBlock, step);
      if processed.Err? {
        ReplayFromFault(step, run, block);
        return Err(processed.error);
      }
      ReplayFromNext(step, run, Run(ledger.State(), processed.value), block);
      rewards := processed.value;
      block := block + 1;
    }
    ReplayFromDone(step, Run(ledger.State(), rewards), block);
    r := Ok(rewards);
  }

  /** The sanity-check loop: the total of the rewards. */
  method TotalRewards(rewards: Dict<int>) returns (totalRewardsDistributed: int)
    ensures totalRewardsDistributed == Sum(rewards)
  {
    totalRewardsDistributed := 0;
    for i := 0 to |rewards|
      invariant totalRewardsDistributed == Sum(rewards[..i])
    {
      assert rewards[..i + 1][..i] == rewards[..i];
      totalRewardsDistributed := totalRewardsDistributed + rewards[i].1;
    }
    assert rewards[..|rewards|] == rewards;
  }

  // ---------------------------------------------------------------------------
  // What processAllLogs ends with

  /**
   * The three objects lp.ts writes out and the figures it reports: the
   * holders as the replay left them, the settled time-weighted amounts per
   * pool, the same grouped by address, the two counts, the distributed
   * total and whether it is the 120 million token budget.
   */
  datatype Report = Report(
    detailed: map<string, Holders>,
    timeWeighted: Dict<Dict<string>>,
    byAddress: Dict<Dict<string>>,
    nonUniqueLPCount: nat,
    uniqueLPCount: nat,
    totalRewardsDistributed: int,
    matchesBudget: bool)

  function ReportOf(final: Run, now: int): Report
    requires HasPools(final.books)
  {
    var timeWeighted := O.TimeWeightedOutput(final.books.allHolders, POOLS, now);
    var total := Sum(final.rewards);
    Report(final.books.allHolders, timeWeighted, O.GroupAll(timeWeighted),
           O.PairCount(final.books.allHolders, POOLS), |O.AllAddresses(timeWeighted)|,
           total, total == TOTAL_LP_TOKENS * IR.WEI)
  }

  /**
   * The end of `processAllLogs`: add up the rewards, keep the holders as
   * they are for the detailed output, then settle the time weights at `now`,
   * write them per pool and group them by address.
   */
  method Finish(ledger: Ledger, rewards: Dict<int>, now: int) returns (report: Report)
    requires HasPools(ledger.State())
    modifies ledger
    ensures report == ReportOf(Run(old(ledger.State()), rewards), now)
  {
    var totalRewardsDistributed := TotalRewards(rewards);
    var detailed := ledger.allHolders;
    assert forall i, j :: 0 <= i < j < |POOLS| ==> POOLS[i] != POOLS[j];
    var timeWeighted, nonUniqueLPCount := O.ProcessTimeWeightedAmount(ledger, POOLS, now);
    var byAddress, uniqueLPCount := O.GroupByAddress(timeWeighted);
    report := Report(detailed, timeWeighted, byAddress, nonUniqueLPCount, uniqueLPCount,
                     totalRewardsDistributed, totalRewardsDistributed == TOTAL_LP_TOKENS * IR.WEI);
  }

  /**
   * `processAllLogs`: group the logs, run the block loop, then finish. It
   * faults exactly when the replay does, with the same fault, and otherwise
   * reports on the replay's books and rewards.
   */
  method ProcessAllLogs(logs: seq<LpTransferLog>, priceData: PriceData, tokensPerBlock: nat, now: int) returns (r: Result<Report, Fault>)
    ensures Replay(logs, priceData, tokensPerBlock).Err? ==> r == Err(Replay(logs, priceData, tokensPerBlock).error)
    ensures Replay(logs, priceData, tokensPerBlock).Ok? ==>
      HasPools(Replay(logs, priceData, tokensPerBlock).value.books) &&
      r == Ok(ReportOf(Replay(logs, priceData, tokensPerBlock).value, now))
  {
    var ledger := new Ledger();
    var logsByBlock := GroupByBlock(logs);
    GroupOfNoEmptyBlock(logs);
    ghost var step := StepOf(logsByBlock, priceData, tokensPerBlock);
    var rewards := ProcessBlocks(ledger, logsByBlock, START_BLOCK, priceData, tokensPerBlock, step);
    if rewards.Err? {
      return Err(rewards.error);
    }
    ghost var final := Replay(logs, priceData, tokensPerBlock).value;
    assert final == Run(ledger.State(), rewards.value);
    ReplayWithinBudget(logs, priceData, tokensPerBlock, final);
    var report := Finish(ledger, rewards.value, now);
    r := Ok(report);
  }
}
