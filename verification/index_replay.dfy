/**
 * The block replay of index.ts: for every block from START_BLOCK up to (not
 * including) END_BLOCK, apply the block's logs, price the pools at the
 * block's minute and give every holder its share of the block's quantum,
 * which is doubled before the guarded launch ends.
 */
module IndexReplay {
  import opened Wrappers
  import opened Dicts
  import opened LpLogs
  import opened Decimal
  import opened IndexLedger
  import D = Distribution

  /** The blocks of the guarded launch count twice. */
  const TOTAL_BLOCKS: int := END_BLOCK - START_BLOCK + (GUARDED_LAUNCH_END_BLOCK - START_BLOCK)

  /** 10^18, the unit of the reward token. */
  const WEI: nat := 1_000_000_000_000_000_000

  /** `reward`: the tokens handed out at one block. */
  function Quantum(block: int, tokensPerBlock: nat): (q: nat)
    ensures q == 2 * tokensPerBlock <==> block < GUARDED_LAUNCH_END_BLOCK || tokensPerBlock == 0
    ensures q == tokensPerBlock || q == 2 * tokensPerBlock
  {
    if block < GUARDED_LAUNCH_END_BLOCK then 2 * tokensPerBlock else tokensPerBlock
  }

  /** The quanta of the blocks from `block` to the end of the replay. */
  function QuantaFrom(block: int, tokensPerBlock: nat): nat
    decreases END_BLOCK - block
  {
    if block >= END_BLOCK then 0 else Quantum(block, tokensPerBlock) + QuantaFrom(block + 1, tokensPerBlock)
  }

  lemma QuantaStep(block: int, tokensPerBlock: nat)
    requires block < END_BLOCK
    ensures QuantaFrom(block, tokensPerBlock) == Quantum(block, tokensPerBlock) + QuantaFrom(block + 1, tokensPerBlock)
  {
  }

  lemma {:induction false} QuantaFromClosedForm(block: int, tokensPerBlock: nat)
    requires block <= END_BLOCK
    ensures block < GUARDED_LAUNCH_END_BLOCK ==>
      QuantaFrom(block, tokensPerBlock) == tokensPerBlock * (END_BLOCK - block + (GUARDED_LAUNCH_END_BLOCK - block))
    ensures block >= GUARDED_LAUNCH_END_BLOCK ==> QuantaFrom(block, tokensPerBlock) == tokensPerBlock * (END_BLOCK - block)
    decreases END_BLOCK - block
  {
    if block < END_BLOCK {
      QuantaFromClosedForm(block + 1, tokensPerBlock);
      if block < GUARDED_LAUNCH_END_BLOCK {
        var n := END_BLOCK - block + (GUARDED_LAUNCH_END_BLOCK - block);
        if block + 1 < GUARDED_LAUNCH_END_BLOCK {
          assert tokensPerBlock * n == 2 * tokensPerBlock + tokensPerBlock * (n - 2);
        } else {
          assert tokensPerBlock * n == 2 * tokensPerBlock + tokensPerBlock * (END_BLOCK - (block + 1));
        }
      } else {
        assert tokensPerBlock * (END_BLOCK - block) == tokensPerBlock + tokensPerBlock * (END_BLOCK - (block + 1));
      }
    }
  }

  /** Over the whole replay the quanta add up to TOKENS_PER_BLOCK × TOTAL_BLOCKS. */
  lemma QuantaTotal(tokensPerBlock: nat)
    ensures QuantaFrom(START_BLOCK, tokensPerBlock) == tokensPerBlock * TOTAL_BLOCKS
  {
    QuantaFromClosedForm(START_BLOCK, tokensPerBlock);
  }

  // ---------------------------------------------------------------------------
  // What the distribution sees

  /** One pool as the distribution sees it. */
  function ViewOf(b: Books, pool: string, btc: nat, eth: nat): D.PoolView
  {
    D.PoolView(
      PoolPrice(pool, btc, eth),
      if pool in b.lpTokens then b.lpTokens[pool] else 0,
      if pool in b.allHolders then Balances(b.allHolders[pool]) else [])
  }

  /** The pools in order, as the distribution sees them. */
  function ViewsOf(b: Books, pools: seq<string>, btc: nat, eth: nat): (views: seq<D.PoolView>)
    ensures |views| == |pools|
    decreases |pools|
  {
    if pools == [] then []
    else
      var n := |pools| - 1;
      ViewsOf(b, pools[..n], btc, eth) + [ViewOf(b, pools[n], btc, eth)]
  }

  /** Extending the pools by one adds that pool's total times its price to the TVL. */
  lemma TvlStep(b: Books, pools: seq<string>, i: nat, btc: nat, eth: nat)
    requires i < |pools| && pools[i] in b.lpTokens
    ensures D.Tvl(ViewsOf(b, pools[..i + 1], btc, eth))
      == D.Tvl(ViewsOf(b, pools[..i], btc, eth)) + b.lpTokens[pools[i]] * PoolPrice(pools[i], btc, eth)
  {
    assert pools[..i + 1][..i] == pools[..i];
  }

  /** The addresses holding in any of the pools. */
  function AddressesIn(b: Books, pools: seq<string>): set<string>
    decreases |pools|
  {
    if pools == [] then {}
    else
      var n := |pools| - 1;
      AddressesIn(b, pools[..n]) + (if pools[n] in b.allHolders then KeySet(b.allHolders[pools[n]]) else {})
  }

  /** The replay's pools all have books. */
  ghost predicate HasPools(b: Books)
  {
    forall p :: p in POOLS ==> p in b.allHolders
  }

  lemma {:induction false} ViewsHolders(b: Books, pools: seq<string>, btc: nat, eth: nat)
    ensures D.Holders(ViewsOf(b, pools, btc, eth)) == AddressesIn(b, pools)
    decreases |pools|
  {
    if pools != [] {
      var n := |pools| - 1;
      var views := ViewsOf(b, pools, btc, eth);
      assert views[..n] == ViewsOf(b, pools[..n], btc, eth);
      ViewsHolders(b, pools[..n], btc, eth);
      if pools[n] in b.allHolders {
        BalancesKeys(b.allHolders[pools[n]]);
      }
    }
  }

  lemma {:induction false} ViewsConsistent(b: Books, pools: seq<string>, btc: nat, eth: nat)
    requires Sound(b) && forall i :: 0 <= i < |pools| ==> pools[i] in b.allHolders
    ensures D.Consistent(ViewsOf(b, pools, btc, eth))
    decreases |pools|
  {
    if pools != [] {
      ViewsConsistent(b, pools[..|pools| - 1], btc, eth);
    }
  }

  lemma {:induction false} AddressesGrow(b: Books, b': Books, pools: seq<string>)
    requires SamePools(b, b') && Grows(b, b')
    ensures AddressesIn(b, pools) <= AddressesIn(b', pools)
    decreases |pools|
  {
    if pools != [] {
      AddressesGrow(b, b', pools[..|pools| - 1]);
    }
  }

  // ---------------------------------------------------------------------------
  // The replay

  /** The state carried from block to block: the ledger and the rewards so far. */
  datatype Run = Run(books: Books, rewards: Dict<int>)

  /**
   * One block's distribution: with a positive TVL every holder gets its
   * share; with a zero TVL nothing happens when there are no holders, and
   * the division faults when there are.
   */
  function Distribute(rewards: Dict<int>, views: seq<D.PoolView>, quantum: nat): Result<Dict<int>, Fault>
  {
    var tvl := D.Tvl(views);
    if tvl != 0 then Ok(D.CreditAll(rewards, views, quantum, tvl))
    else if D.Pairs(views) == 0 then Ok(rewards)
    else Err(DivisionByZero)
  }

  /** One iteration of the block loop of `processAllLogs`. */
  function Step(run: Run, block: int, byBlock: map<int, seq<LpTransferLog>>, priceData: PriceData, tokensPerBlock: nat): Result<Run, Fault>
  {
    var blockLogs := BlockLogs(byBlock, block);
    match ApplyBlock(run.books, blockLogs)
    case Err(e) => Err(e)
    case Ok(books) =>
      match MinutePrices(priceData, BlockTimestamp(blockLogs, block))
      case Err(e) => Err(e)
      case Ok(prices) =>
        match Distribute(run.rewards, ViewsOf(books, POOLS, prices.0, prices.1), Quantum(block, tokensPerBlock))
        case Err(e) => Err(e)
        case Ok(rewards) => Ok(Run(books, rewards))
  }

  /** The block loop's iteration as a function value. */
  type Stepper = (Run, int) -> Result<Run, Fault>

  function StepOf(byBlock: map<int, seq<LpTransferLog>>, priceData: PriceData, tokensPerBlock: nat): Stepper
  {
    (run: Run, block: int) => Step(run, block, byBlock, priceData, tokensPerBlock)
  }

  /** `step` is Step over these logs and prices. */
  ghost predicate StepsAs(step: Stepper, byBlock: map<int, seq<LpTransferLog>>, priceData: PriceData, tokensPerBlock: nat)
  {
    forall run: Run, block: int {:trigger Step(run, block, byBlock, priceData, tokensPerBlock)} ::
      step(run, block) == Step(run, block, byBlock, priceData, tokensPerBlock)
  }

  /** The blocks from `block` to the end, in order; the first fault stops the replay. */
  function ReplayFrom(step: Stepper, run: Run, block: int): Result<Run, Fault>
    decreases END_BLOCK - block
  {
    if block >= END_BLOCK then Ok(run)
    else
      var next := step(run, block);
      if next.Err? then Err(next.error) else ReplayFrom(step, next.value, block + 1)
  }

  function Replay(logs: seq<LpTransferLog>, priceData: PriceData, tokensPerBlock: nat): Result<Run, Fault>
  {
    ReplayFrom(StepOf(GroupOf(logs), priceData, tokensPerBlock), Run(InitialBooks(), []), START_BLOCK)
  }

  /**
   * What holds between blocks: the books are sound and know the replay's
   * pools, and the rewards have exactly one entry per address that ever
   * held a position.
   */
  ghost predicate RunInvariant(run: Run)
  {
    && Sound(run.books) && HasPools(run.books)
    && UniqueKeys(run.rewards)
    && KeySet(run.rewards) == AddressesIn(run.books, POOLS)
  }

  lemma InitialRunInvariant()
    ensures RunInvariant(Run(InitialBooks(), []))
  {
    InitialBooksSound();
    var b := InitialBooks();
    assert AddressesIn(b, POOLS) == {} by {
      forall n | 0 <= n <= |POOLS| ensures AddressesIn(b, POOLS[..n]) == {} {
        AddressesEmpty(b, POOLS[..n]);
      }
      assert POOLS[..|POOLS|] == POOLS;
    }
  }

  lemma {:induction false} AddressesEmpty(b: Books, pools: seq<string>)
    requires forall p :: p in b.allHolders ==> b.allHolders[p] == []
    ensures AddressesIn(b, pools) == {}
    decreases |pools|
  {
    if pools != [] {
      AddressesEmpty(b, pools[..|pools| - 1]);
    }
  }

  lemma {:induction false} PairsZeroNoHolders(views: seq<D.PoolView>)
    requires D.Pairs(views) == 0
    ensures D.Holders(views) == {}
    decreases |views|
  {
    if views != [] {
      PairsZeroNoHolders(views[..|views| - 1]);
    }
  }

  /**
   * A block's distribution keeps the reward keys distinct, makes every
   * holder a key, and adds at least nothing and at most the quantum.
   */
  lemma DistributeKeeps(rewards: Dict<int>, views: seq<D.PoolView>, quantum: nat, rewards': Dict<int>)
    requires D.Consistent(views) && UniqueKeys(rewards)
    requires Distribute(rewards, views, quantum) == Ok(rewards')
    ensures UniqueKeys(rewards')
    ensures KeySet(rewards') == KeySet(rewards) + D.Holders(views)
    ensures Sum(rewards) <= Sum(rewards') <= Sum(rewards) + quantum
  {
    var tvl := D.Tvl(views);
    D.TvlNonNegative(views);
    if tvl != 0 {
      D.CreditAllSum(rewards, views, quantum, tvl);
      D.CreditAllUnique(rewards, views, quantum, tvl);
      D.BlockDistributionBounds(rewards, views, quantum);
      D.BlockSharesNonNegative(views, quantum, tvl);
    } else {
      PairsZeroNoHolders(views);
    }
  }

  /** A block's logs keep the books sound, keep the replay's pools and drop no address. */
  lemma ApplyBlockKeeps(books: Books, blockLogs: seq<LpTransferLog>, books': Books)
    requires Sound(books) && HasPools(books)
    requires ApplyBlock(books, blockLogs) == Ok(books')
    ensures Sound(books') && HasPools(books')
    ensures AddressesIn(books, POOLS) <= AddressesIn(books', POOLS)
  {
    ApplyBlockSound(books, blockLogs);
    ApplyBlockFrame(books, blockLogs, books');
    AddressesGrow(books, books', POOLS);
  }

  /** A block's logs keep the books sound, keep the replay's pools and drop no address. */
  lemma StepKeepsBooks(run: Run, block: int, byBlock: map<int, seq<LpTransferLog>>, priceData: PriceData, tokensPerBlock: nat, next: Run)
    requires Sound(run.books) && HasPools(run.books)
    requires Step(run, block, byBlock, priceData, tokensPerBlock) == Ok(next)
    ensures Sound(next.books) && HasPools(next.books)
    ensures AddressesIn(run.books, POOLS) <= AddressesIn(next.books, POOLS)
  {
    ApplyBlockKeeps(run.books, BlockLogs(byBlock, block), next.books);
  }

  /**
   * A block's distribution keeps the reward keys distinct, makes every
   * holder of the new books a key, and adds at least nothing and at most
   * the block's quantum.
   */
  lemma StepKeepsRewards(run: Run, block: int, byBlock: map<int, seq<LpTransferLog>>, priceData: PriceData, tokensPerBlock: nat, next: Run)
    requires UniqueKeys(run.rewards) && Sound(next.books) && HasPools(next.books)
    requires Step(run, block, byBlock, priceData, tokensPerBlock) == Ok(next)
    ensures UniqueKeys(next.rewards)
    ensures KeySet(next.rewards) == KeySet(run.rewards) + AddressesIn(next.books, POOLS)
    ensures Sum(run.rewards) <= Sum(next.rewards) <= Sum(run.rewards) + Quantum(block, tokensPerBlock)
  {
    var blockLogs := BlockLogs(byBlock, block);
    var prices := MinutePrices(priceData, BlockTimestamp(blockLogs, block)).value;
    var views := ViewsOf(next.books, POOLS, prices.0, prices.1);
    ViewsConsistent(next.books, POOLS, prices.0, prices.1);
    ViewsHolders(next.books, POOLS, prices.0, prices.1);
    DistributeKeeps(run.rewards, views, Quantum(block, tokensPerBlock), next.rewards);
  }

  /**
   * A block keeps the invariant, and adds to the rewards at least nothing
   * and at most the block's quantum.
   */
  lemma StepKeeps(run: Run, block: int, byBlock: map<int, seq<LpTransferLog>>, priceData: PriceData, tokensPerBlock: nat, next: Run)
    requires RunInvariant(run)
    requires Step(run, block, byBlock, priceData, tokensPerBlock) == Ok(next)
    ensures RunInvariant(next)
    ensures Sum(run.rewards) <= Sum(next.rewards) <= Sum(run.rewards) + Quantum(block, tokensPerBlock)
  {
    StepKeepsBooks(run, block, byBlock, priceData, tokensPerBlock, next);
    StepKeepsRewards(run, block, byBlock, priceData, tokensPerBlock, next);
  }

  /** Past the last block the replay has nothing left to do. */
  lemma ReplayFromDone(step: Stepper, run: Run, block: int)
    requires block >= END_BLOCK
    ensures ReplayFrom(step, run, block) == Ok(run)
  {
  }

  /** A step that faults ends the replay with its fault. */
  lemma ReplayFromFault(step: Stepper, run: Run, block: int)
    requires block < END_BLOCK && step(run, block).Err?
    ensures ReplayFrom(step, run, block) == Err(step(run, block).error)
  {
  }

  /** A step that succeeds hands the replay on to the next block. */
  lemma ReplayFromNext(step: Stepper, run: Run, next: Run, block: int)
    requires block < END_BLOCK && step(run, block) == Ok(next)
    ensures ReplayFrom(step, run, block) == ReplayFrom(step, next, block + 1)
  {
  }

  /** The first block of a replay that completes: its step keeps the invariant, and the replay completes from the next block. */
  lemma ReplayStepKeeps(run: Run, block: int, byBlock: map<int, seq<LpTransferLog>>, priceData: PriceData, tokensPerBlock: nat, final: Run)
    returns (next: Run)
    requires RunInvariant(run) && block < END_BLOCK
    requires ReplayFrom(StepOf(byBlock, priceData, tokensPerBlock), run, block) == Ok(final)
    ensures RunInvariant(next)
    ensures Sum(run.rewards) <= Sum(next.rewards) <= Sum(run.rewards) + Quantum(block, tokensPerBlock)
    ensures ReplayFrom(StepOf(byBlock, priceData, tokensPerBlock), next, block + 1) == Ok(final)
  {
    next := Step(run, block, byBlock, priceData, tokensPerBlock).value;
    StepKeeps(run, block, byBlock, priceData, tokensPerBlock, next);
  }

  /** The blocks from `block` on keep the invariant and add at most their quanta to the rewards. */
  lemma {:induction false} ReplayKeeps(run: Run, block: int, byBlock: map<int, seq<LpTransferLog>>, priceData: PriceData, tokensPerBlock: nat, final: Run)
    requires RunInvariant(run)
    requires ReplayFrom(StepOf(byBlock, priceData, tokensPerBlock), run, block) == Ok(final)
    ensures RunInvariant(final)
    ensures Sum(run.rewards) <= Sum(final.rewards) <= Sum(run.rewards) + QuantaFrom(block, tokensPerBlock)
    decreases END_BLOCK - block
  {
    if block >= END_BLOCK {
      assert final == run && QuantaFrom(block, tokensPerBlock) == 0;
    } else {
      var next := ReplayStepKeeps(run, block, byBlock, priceData, tokensPerBlock, final);
      ReplayKeeps(next, block + 1, byBlock, priceData, tokensPerBlock, final);
      QuantaStep(block, tokensPerBlock);
    }
  }

  /**
   * A replay that completes hands out no negative total and never more than
   * TOKENS_PER_BLOCK × TOTAL_BLOCKS; every address that ever held a position
   * has exactly one reward entry, and no other address has one.
   */
  lemma ReplayWithinBudget(logs: seq<LpTransferLog>, priceData: PriceData, tokensPerBlock: nat, final: Run)
    requires Replay(logs, priceData, tokensPerBlock) == Ok(final)
    ensures 0 <= Sum(final.rewards) <= tokensPerBlock * TOTAL_BLOCKS
    ensures UniqueKeys(final.rewards)
    ensures KeySet(final.rewards) == AddressesIn(final.books, POOLS)
    ensures Sound(final.books)
  {
    InitialRunInvariant();
    ReplayKeeps(Run(InitialBooks(), []), START_BLOCK, GroupOf(logs), priceData, tokensPerBlock, final);
    QuantaTotal(tokensPerBlock);
  }

  // ---------------------------------------------------------------------------
  // The output

  /** The JSON object written out: every reward as decimal text, under its address, in the rewards' order. */
  function Render(rewards: Dict<int>): (output: Dict<string>)
    ensures |output| == |rewards|
  {
    seq(|rewards|, i requires 0 <= i < |rewards| => (rewards[i].0, DecimalString(rewards[i].1)))
  }

  /** The output has the rewards' addresses in the same order, and each text reads back as its reward. */
  lemma RenderRoundTrip(rewards: Dict<int>)
    ensures Keys(Render(rewards)) == Keys(rewards)
    ensures UniqueKeys(rewards) ==> UniqueKeys(Render(rewards))
    ensures forall i :: 0 <= i < |rewards| ==> ParseDecimal(Render(rewards)[i].1) == Some(rewards[i].1)
  {
    forall i | 0 <= i < |rewards| ensures ParseDecimal(Render(rewards)[i].1) == Some(rewards[i].1) {
      DecimalRoundTrip(rewards[i].1);
    }
  }

  /**
   * What `processAllLogs` ends with: the output object, the total it
   * distributed and whether that total is the 120 million token budget.
   */
  datatype Report = Report(output: Dict<string>, totalRewardsDistributed: int, matchesBudget: bool)

  function ReportOf(rewards: Dict<int>): Report
  {
    var total := Sum(rewards);
    Report(Render(rewards), total, total == TOTAL_LP_TOKENS * WEI)
  }

  /** Writing entry `i` of rewards with distinct addresses appends it to the output and to the total. */
  lemma RenderStep(rewards: Dict<int>, i: nat)
    requires UniqueKeys(rewards) && i < |rewards|
    ensures Render(rewards[..i + 1]) == Put(Render(rewards[..i]), rewards[i].0, DecimalString(rewards[i].1))
    ensures Sum(rewards[..i + 1]) == Sum(rewards[..i]) + rewards[i].1
  {
    RenderPutStep(rewards, i);
    assert rewards[..i + 1][..i] == rewards[..i];
  }

  /** Rendering one more reward, under a new address, writes it as a new key. */
  lemma RenderPutStep(rewards: Dict<int>, i: nat)
    requires UniqueKeys(rewards) && i < |rewards|
    ensures Render(rewards[..i + 1]) == Put(Render(rewards[..i]), rewards[i].0, DecimalString(rewards[i].1))
  {
    var output := Render(rewards[..i]);
    assert rewards[i].0 !in KeySet(output) by {
      UniqueSplit(rewards, i);
      assert forall j :: 0 <= j < i ==> output[j].0 == rewards[..i][j].0;
    }
    PutFresh(output, rewards[i].0, DecimalString(rewards[i].1));
    PrefixSplit(rewards, i);
    RenderAppend(rewards[..i], rewards[i]);
  }

  /** Rendering one more reward appends its text. */
  lemma RenderAppend(rewards: Dict<int>, kv: (string, int))
    ensures Render(rewards + [kv]) == Render(rewards) + [(kv.0, DecimalString(kv.1))]
  {
    assert Render(rewards + [kv]) == Render(rewards) + [(kv.0, DecimalString(kv.1))];
  }

  /** The output loop: the total of the rewards, and each reward written as text under its address. */
  method ConvertOutput(rewards: Dict<int>) returns (output: Dict<string>, totalRewardsDistributed: int)
    requires UniqueKeys(rewards)
    ensures output == Render(rewards)
    ensures totalRewardsDistributed == Sum(rewards)
  {
    output := [];
    totalRewardsDistributed := 0;
    for i := 0 to |rewards|
      invariant output == Render(rewards[..i])
      invariant totalRewardsDistributed == Sum(rewards[..i])
    {
      var (address, reward) := rewards[i];
      RenderStep(rewards, i);
      totalRewardsDistributed := totalRewardsDistributed + reward;
      output := Put(output, address, DecimalString(reward));
    }
    assert rewards[..|rewards|] == rewards;
  }

  // ---------------------------------------------------------------------------
  // The loop of processAllLogs

  lemma {:induction false} ViewsOfIndex(b: Books, pools: seq<string>, btc: nat, eth: nat)
    ensures forall i :: 0 <= i < |pools| ==> ViewsOf(b, pools, btc, eth)[i] == ViewOf(b, pools[i], btc, eth)
    decreases |pools|
  {
    if pools != [] {
      ViewsOfIndex(b, pools[..|pools| - 1], btc, eth);
    }
  }

  lemma {:induction false} PairsAtLeast(views: seq<D.PoolView>, i: nat)
    requires i < |views|
    ensures |views[i].balances| <= D.Pairs(views)
    decreases |views|
  {
    if i < |views| - 1 {
      PairsAtLeast(views[..|views| - 1], i);
    }
  }

  /** The first leg loop of a block: the mints and incoming transfers, in order. */
  method ApplyMints(ledger: Ledger, minting: seq<LpTransferLog>) returns (outcome: Result<(), Fault>)
    requires ledger.Valid()
    modifies ledger
    ensures ledger.Valid()
    ensures MintAll(old(ledger.State()), minting).Ok? ==> outcome.Ok? && ledger.State() == MintAll(old(ledger.State()), minting).value
    ensures MintAll(old(ledger.State()), minting).Err? ==> outcome == Err(MintAll(old(ledger.State()), minting).error)
  {
    ghost var start := ledger.State();
    for i := 0 to |minting|
      invariant ledger.Valid()
      invariant MintAll(start, minting) == MintAll(ledger.State(), minting[i..])
    {
      assert minting[i..][0] == minting[i] && minting[i..][1..] == minting[i + 1..];
      var minted := ledger.ProcessMinting(minting[i]);
      if minted.Err? {
        return Err(minted.error);
      }
    }
    outcome := Ok(());
  }

  /** The second leg loop of a block: the burns and outgoing transfers, in order. */
  method ApplyBurns(ledger: Ledger, burning: seq<LpTransferLog>) returns (outcome: Result<(), Fault>)
    requires ledger.Valid()
    modifies ledger
    ensures ledger.Valid()
    ensures BurnAll(old(ledger.State()), burning).Ok? ==> outcome.Ok? && ledger.State() == BurnAll(old(ledger.State()), burning).value
    ensures BurnAll(old(ledger.State()), burning).Err? ==> outcome == Err(BurnAll(old(ledger.State()), burning).error)
  {
    ghost var start := ledger.State();
    for i := 0 to |burning|
      invariant ledger.Valid()
      invariant BurnAll(start, burning) == BurnAll(ledger.State(), burning[i..])
    {
      assert burning[i..][0] == burning[i] && burning[i..][1..] == burning[i + 1..];
      var burned := ledger.ProcessBurning(burning[i]);
      if burned.Err? {
        return Err(burned.error);
      }
    }
    outcome := Ok(());
  }

  /** The two leg loops of a block: mints and incoming transfers, then burns and outgoing transfers. */
  method ApplyBlockLogs(ledger: Ledger, blockLogs: seq<LpTransferLog>) returns (outcome: Result<(), Fault>)
    requires ledger.Valid()
    modifies ledger
    ensures ledger.Valid()
    ensures ApplyBlock(old(ledger.State()), blockLogs).Ok? ==> outcome.Ok? && ledger.State() == ApplyBlock(old(ledger.State()), blockLogs).value
    ensures ApplyBlock(old(ledger.State()), blockLogs).Err? ==> outcome == Err(ApplyBlock(old(ledger.State()), blockLogs).error)
  {
    outcome := ApplyMints(ledger, MintLegs(blockLogs));
    if outcome.Ok? {
      outcome := ApplyBurns(ledger, BurnLegs(blockLogs));
    }
  }

  /** One pool's term of `totalUSDTVL`: its total times its token price, or the missing price. */
  method PoolTvl(total: int, pool: string, priceData: PriceData, ts: int, ghost btc: nat, ghost eth: nat)
    returns (r: Result<int, Fault>)
    requires GetTokenPrice(pool, Lookup(priceData, ts), ts).Ok? ==>
      GetTokenPrice(pool, Lookup(priceData, ts), ts).value == PoolPrice(pool, btc, eth)
    ensures r.Ok? <==> GetTokenPrice(pool, Lookup(priceData, ts), ts).Ok?
    ensures r.Err? ==> r.error == MissingPrice(ts)
    ensures r.Ok? ==> r.value == total * PoolPrice(pool, btc, eth)
  {
    var tokenPrice := GetTokenPrice(pool, Lookup(priceData, ts), ts);
    if tokenPrice.Err? {
      return Err(tokenPrice.error);
    }
    r := Ok(total * tokenPrice.value);
  }

  /**
   * `totalUSDTVL`: over the pools in order, each pool's total times its
   * token price. It succeeds exactly when every pool has a price, and then
   * sums what the distribution's views of these pools hold, priced at
   * `btc` and `eth` (the minute's prices, when it has them).
   */
  method TotalUsdTvl(ledger: Ledger, pools: seq<string>, priceData: PriceData, ts: int, ghost btc: nat, ghost eth: nat)
    returns (r: Result<int, Fault>)
    requires forall j :: 0 <= j < |pools| ==> pools[j] in ledger.lpTokens
    requires forall j :: 0 <= j < |pools| && GetTokenPrice(pools[j], Lookup(priceData, ts), ts).Ok? ==>
      GetTokenPrice(pools[j], Lookup(priceData, ts), ts).value == PoolPrice(pools[j], btc, eth)
    ensures r.Ok? <==> forall j :: 0 <= j < |pools| ==> GetTokenPrice(pools[j], Lookup(priceData, ts), ts).Ok?
    ensures r.Err? ==> r.error == MissingPrice(ts)
    ensures r.Ok? ==> r.value == D.Tvl(ViewsOf(ledger.State(), pools, btc, eth))
  {
    ghost var books := ledger.State();
    assert books.lpTokens == ledger.lpTokens;
    var totalUsdTvl := 0;
    for i := 0 to |pools|
      invariant forall j :: 0 <= j < i ==> GetTokenPrice(pools[j], Lookup(priceData, ts), ts).Ok?
      invariant totalUsdTvl == D.Tvl(ViewsOf(books, pools[..i], btc, eth))
    {
      TvlStep(books, pools, i, btc, eth);
      var poolTvl := PoolTvl(ledger.lpTokens[pools[i]], pools[i], priceData, ts, btc, eth);
      if poolTvl.Err? {
        return Err(poolTvl.error);
      }
      totalUsdTvl := totalUsdTvl + poolTvl.value;
    }
    assert pools[..|pools|] == pools;
    return Ok(totalUsdTvl);
  }

  /**
   * The inner distribution loop: each holder of one pool, in order, is
   * credited `balance × price × reward / totalUSDTVL`; a zero TVL faults at
   * the first holder.
   */
  method CreditHolders(acc: Dict<int>, holders: Holders, pool: string, priceData: PriceData, ts: int, quantum: nat, totalUsdTvl: int)
    returns (r: Result<Dict<int>, Fault>)
    requires MinutePrices(priceData, ts).Ok?
    ensures totalUsdTvl != 0 ==>
      r == Ok(D.CreditPool(acc, Balances(holders), PoolPrice(pool, MinutePrices(priceData, ts).value.0, MinutePrices(priceData, ts).value.1), quantum, totalUsdTvl))
    ensures totalUsdTvl == 0 ==> r == if holders == [] then Ok(acc) else Err(DivisionByZero)
  {
    ghost var price := PoolPrice(pool, MinutePrices(priceData, ts).value.0, MinutePrices(priceData, ts).value.1);
    assert GetTokenPrice(pool, Lookup(priceData, ts), ts) == Ok(price);
    var credited := acc;
    for j := 0 to |holders|
      invariant totalUsdTvl != 0 ==> credited == D.CreditPool(acc, Balances(holders)[..j], price, quantum, totalUsdTvl)
      invariant totalUsdTvl == 0 ==> j == 0 && credited == acc
    {
      var (address, holder) := holders[j];
      var tokenPrice := GetTokenPrice(pool, Lookup(priceData, ts), ts).value;
      if totalUsdTvl == 0 {
        return Err(DivisionByZero);
      }
      D.CreditPoolStep(acc, Balances(holders), j, price, quantum, totalUsdTvl);
      credited := AddTo(credited, address, D.Share(holder.lastLPAmountSaved, tokenPrice, quantum, totalUsdTvl));
    }
    assert Balances(holders)[..|holders|] == Balances(holders);
    r := Ok(credited);
  }

  /** The outer distribution loop, over the pools in order. */
  method DistributeRewards(ledger: Ledger, rewards: Dict<int>, priceData: PriceData, ts: int, quantum: nat, totalUsdTvl: int)
    returns (r: Result<Dict<int>, Fault>)
    requires HasPools(ledger.State())
    requires MinutePrices(priceData, ts).Ok?
    requires totalUsdTvl == D.Tvl(ViewsOf(ledger.State(), POOLS, MinutePrices(priceData, ts).value.0, MinutePrices(priceData, ts).value.1))
    ensures r == Distribute(rewards, ViewsOf(ledger.State(), POOLS, MinutePrices(priceData, ts).value.0, MinutePrices(priceData, ts).value.1), quantum)
  {
    ghost var prices := MinutePrices(priceData, ts).value;
    ghost var views := ViewsOf(ledger.State(), POOLS, prices.0, prices.1);
    ViewsOfIndex(ledger.State(), POOLS, prices.0, prices.1);
    var acc := rewards;
    for i := 0 to |POOLS|
      invariant totalUsdTvl != 0 ==> acc == D.CreditAll(rewards, views[..i], quantum, totalUsdTvl)
      invariant totalUsdTvl == 0 ==> acc == rewards && D.Pairs(views[..i]) == 0
    {
      var pool := POOLS[i];
      var holders := ledger.allHolders[pool];
      assert views[i].balances == Balances(holders) && views[i].price == PoolPrice(pool, prices.0, prices.1);
      var credited := CreditHolders(acc, holders, pool, priceData, ts, quantum, totalUsdTvl);
      if credited.Err? {
        PairsAtLeast(views, i);
        return credited;
      }
      acc := credited.value;
      D.PairsStep(views, i);
      if totalUsdTvl != 0 {
        D.CreditAllStep(rewards, views, i, quantum, totalUsdTvl);
      }
    }
    assert views[..|POOLS|] == views;
    r := Ok(acc);
  }

  /**
   * One pass of the block loop: the block's logs when it has any, its
   * minute, the TVL and the distribution. It faults as the replay's step
   * does; otherwise the ledger and the rewards are the step's result.
   */
  method ProcessBlock(ledger: Ledger, rewards: Dict<int>, logsByBlock: map<int, seq<LpTransferLog>>, block: int,
                      priceData: PriceData, tokensPerBlock: nat, ghost step: Stepper)
    returns (r: Result<Dict<int>, Fault>)
    requires ledger.Valid() && HasPools(ledger.State())
    requires StepsAs(step, logsByBlock, priceData, tokensPerBlock)
    modifies ledger
    ensures r.Err? ==> step(Run(old(ledger.State()), rewards), block) == Err(r.error)
    ensures r.Ok? ==> step(Run(old(ledger.State()), rewards), block) == Ok(Run(ledger.State(), r.value))
    ensures r.Ok? ==> ledger.Valid() && HasPools(ledger.State())
  {
    ghost var run := Run(ledger.State(), rewards);
    assert step(run, block) == Step(run, block, logsByBlock, priceData, tokensPerBlock);
    var blockLogs: seq<LpTransferLog> := [];
    var ts: int;
    if block in logsByBlock {
      blockLogs := logsByBlock[block];
      ts := BlockTimestamp(blockLogs, block);
      var applied := ApplyBlockLogs(ledger, blockLogs);
      if applied.Err? {
        return Err(applied.error);
      }
    } else {
      ts := MinuteFloor(EstimatedTimestamp(block));
    }
    assert blockLogs == BlockLogs(logsByBlock, block) && ts == BlockTimestamp(blockLogs, block);
    assert ApplyBlock(run.books, blockLogs) == Ok(ledger.State());
    ApplyBlockKeeps(run.books, blockLogs, ledger.State());
    var quantum := Quantum(block, tokensPerBlock);
    r := PriceAndDistribute(ledger, rewards, priceData, ts, quantum);
  }

  /**
   * The rest of one block once its logs are applied: the TVL of the pools
   * at the block's minute, then the block's quantum shared out; a minute
   * without both prices faults with the missing price.
   */
  method PriceAndDistribute(ledger: Ledger, rewards: Dict<int>, priceData: PriceData, ts: int, quantum: nat)
    returns (r: Result<Dict<int>, Fault>)
    requires HasPools(ledger.State()) && forall p :: p in POOLS ==> p in ledger.lpTokens
    ensures MinutePrices(priceData, ts).Err? ==> r == Err(MissingPrice(ts))
    ensures MinutePrices(priceData, ts).Ok? ==>
      r == Distribute(rewards, ViewsOf(ledger.State(), POOLS, MinutePrices(priceData, ts).value.0, MinutePrices(priceData, ts).value.1), quantum)
  {
    ghost var btc: nat, eth: nat := PricingAllPools(priceData, ts);
    var tvl := TotalUsdTvl(ledger, POOLS, priceData, ts, btc, eth);
    if tvl.Err? {
      return Err(tvl.error);
    }
    r := DistributeRewards(ledger, rewards, priceData, ts, quantum, tvl.value);
  }

  /**
   * The block loop of `processAllLogs`, from `first` up to (not including)
   * END_BLOCK, starting with no rewards: it faults exactly when the replay
   * from `first` does, with the same fault, and otherwise ends with that
   * replay's books and rewards. `processAllLogs` starts it at START_BLOCK.
   */
  method ProcessBlocks(ledger: Ledger, logsByBlock: map<int, seq<LpTransferLog>>, first: int, priceData: PriceData, tokensPerBlock: nat,
                       ghost step: Stepper)
    returns (r: Result<Dict<int>, Fault>)
    requires ledger.Valid() && HasPools(ledger.State())
    requires StepsAs(step, logsByBlock, priceData, tokensPerBlock)
    modifies ledger
    ensures r.Err? ==> ReplayFrom(step, Run(old(ledger.State()), []), first) == Err(r.error)
    ensures r.Ok? ==> ReplayFrom(step, Run(old(ledger.State()), []), first) == Ok(Run(ledger.State(), r.value))
  {
    var rewards: Dict<int> := [];
    var block := first;
    ghost var replay := ReplayFrom(step, Run(ledger.State(), rewards), block);
    while block < END_BLOCK
      invariant ledger.Valid() && HasPools(ledger.State())
      invariant ReplayFrom(step, Run(ledger.State(), rewards), block) == replay
      decreases END_BLOCK - block
    {
      ghost var run := Run(ledger.State(), rewards);
      var processed := ProcessBlock(ledger, rewards, logsByBlock, block, priceData, tokensPerBlock, step);
      if processed.Err? {
        ReplayFromFault(step, run, block);
        return Err(processed.error);
      }
      ReplayFromNext(step, run, Run(ledger.State(), processed.value), block);
      rewards := processed.value;
      block := block + 1;
    }
    ReplayFromDone(step, Run(ledger.State(), rewards), block);
    r := Ok(rewards);
  }

  /**
   * `processAllLogs`: group the logs, run the block loop, then the output
   * loop. It faults exactly when the replay does, with the same fault, and
   * otherwise reports the replay's rewards.
   */
  method ProcessAllLogs(logs: seq<LpTransferLog>, priceData: PriceData, tokensPerBlock: nat) returns (r: Result<Report, Fault>)
    ensures Replay(logs, priceData, tokensPerBlock).Err? ==> r == Err(Replay(logs, priceData, tokensPerBlock).error)
    ensures Replay(logs, priceData, tokensPerBlock).Ok? ==> r == Ok(ReportOf(Replay(logs, priceData, tokensPerBlock).value.rewards))
  {
    var ledger := new Ledger();
    var logsByBlock := GroupByBlock(logs);
    InitialRunInvariant();
    ghost var step := StepOf(logsByBlock, priceData, tokensPerBlock);
    var rewards := ProcessBlocks(ledger, logsByBlock, START_BLOCK, priceData, tokensPerBlock, step);
    if rewards.Err? {
      return Err(rewards.error);
    }
    ghost var final := Replay(logs, priceData, tokensPerBlock).value;
    ReplayWithinBudget(logs, priceData, tokensPerBlock, final);
    var output, totalRewardsDistributed := ConvertOutput(rewards.value);
    r := Ok(Report(output, totalRewardsDistributed, totalRewardsDistributed == TOTAL_LP_TOKENS * WEI));
  }
}
