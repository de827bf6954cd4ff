/**
 * What lp.ts and index.ts share: the LP-token transfer log, the replay's
 * constants, the faults a replay can raise, grouping logs by block, splitting
 * a block into mint, burn and transfer legs, the minute timestamp of a block
 * and the price of a pool token.
 */
module LpLogs {
  import opened Wrappers

  const START_BLOCK: int := 11686727
  const START_BLOCK_TS: int := 1611072272
  const GUARDED_LAUNCH_END_BLOCK: int := 11909762
  const END_BLOCK: int := 12923115
  /** Seconds per block, used to estimate the timestamp of a block without logs. */
  const AVERAGE_BLOCK_TIME: int := 13
  const TOTAL_LP_TOKENS: nat := 120_000_000
  const ZERO_ADDRESS: string := "0x0000000000000000000000000000000000000000"

  /** The pools the replay keeps books for, in the order it visits them. */
  const POOLS: seq<string> := ["BTC", "USD", "vETH2", "alETH", "d4"]

  /** One LP-token transfer; `timestamp` is the block time in whole seconds. */
  datatype LpTransferLog = LpTransferLog(
    blockNumber: int,
    timestamp: int,
    addressFrom: string,
    addressTo: string,
    amount: nat,
    pool: string)

  /** What makes a replay stop: each is a throw or a TypeError in the scripts. */
  datatype Fault =
    | UnknownPool(pool: string)
    | NoHolderRecord(pool: string, address: string)
    | BurnExceedsBalance(address: string, amount: nat, balance: int)
    | MissingPrice(ts: int)
    | DivisionByZero

  // ---------------------------------------------------------------------------
  // Selecting logs, keeping their order

  datatype Selector = InBlock(block: int) | FromZero | ToZero | NeitherZero

  predicate Selects(sel: Selector, log: LpTransferLog)
  {
    match sel
    case InBlock(b) => log.blockNumber == b
    case FromZero => log.addressFrom == ZERO_ADDRESS
    case ToZero => log.addressTo == ZERO_ADDRESS
    case NeitherZero => log.addressFrom != ZERO_ADDRESS && log.addressTo != ZERO_ADDRESS
  }

  /** `logs.filter(...)`: the selected logs in their original order. */
  function Select(logs: seq<LpTransferLog>, sel: Selector): (r: seq<LpTransferLog>)
    ensures |r| <= |logs|
    decreases |logs|
  {
    if logs == [] then []
    else
      var n := |logs| - 1;
      Select(logs[..n], sel) + (if Selects(sel, logs[n]) then [logs[n]] else [])
  }

  /** Selection keeps order: selecting from a concatenation concatenates the selections. */
  lemma {:induction false} SelectConcat(a: seq<LpTransferLog>, b: seq<LpTransferLog>, sel: Selector)
    ensures Select(a + b, sel) == Select(a, sel) + Select(b, sel)
    decreases |b|
  {
    if b == [] {
      assert a + b == a;
    } else {
      var n := |b| - 1;
      var ab := a + b;
      var last := if Selects(sel, b[n]) then [b[n]] else [];
      SelectConcat(a, b[..n], sel);
      assert ab[..|ab| - 1] == a + b[..n];
      assert ab[|ab| - 1] == b[n];
      assert Select(ab, sel) == Select(a + b[..n], sel) + last;
      assert Select(b, sel) == Select(b[..n], sel) + last;
    }
  }

  /** A log is selected exactly when it occurs in the input and the selector accepts it. */
  lemma {:induction false} SelectMembers(logs: seq<LpTransferLog>, sel: Selector, x: LpTransferLog)
    ensures x in Select(logs, sel) <==> x in logs && Selects(sel, x)
    decreases |logs|
  {
    if logs != [] {
      var n := |logs| - 1;
      SelectMembers(logs[..n], sel, x);
      LastSplit(logs);
    }
  }

  function LogsOfBlock(logs: seq<LpTransferLog>, block: int): seq<LpTransferLog>
  {
    Select(logs, InBlock(block))
  }

  /**
   * The `logsByBlock` map: each log, in order, is appended to the list of
   * its block, which is created on first use.
   */
  function GroupOf(logs: seq<LpTransferLog>): map<int, seq<LpTransferLog>>
    decreases |logs|
  {
    if logs == [] then map[]
    else
      var byBlock := GroupOf(logs[..|logs| - 1]);
      var log := logs[|logs| - 1];
      byBlock[log.blockNumber := BlockLogs(byBlock, log.blockNumber) + [log]]
  }

  /** The logs grouped under `block`, or none. */
  function BlockLogs(byBlock: map<int, seq<LpTransferLog>>, block: int): seq<LpTransferLog>
  {
    if block in byBlock then byBlock[block] else []
  }

  /**
   * What the grouping means: a block is a key exactly when it has logs, and
   * its list is the block's logs in their original order.
   */
  lemma {:induction false} GroupOfSelects(logs: seq<LpTransferLog>, block: int)
    ensures block in GroupOf(logs) <==> LogsOfBlock(logs, block) != []
    ensures BlockLogs(GroupOf(logs), block) == LogsOfBlock(logs, block)
    decreases |logs|
  {
    if logs != [] {
      GroupOfSelects(logs[..|logs| - 1], block);
    }
  }

  /** Grouping the logs by block, one log at a time. */
  method GroupByBlock(logs: seq<LpTransferLog>) returns (logsByBlock: map<int, seq<LpTransferLog>>)
    ensures logsByBlock == GroupOf(logs)
  {
    logsByBlock := map[];
    for i := 0 to |logs|
      invariant logsByBlock == GroupOf(logs[..i])
    {
      var log := logs[i];
      var blockLogs: seq<LpTransferLog> := [];
      if log.blockNumber in logsByBlock {
        blockLogs := logsByBlock[log.blockNumber];
      }
      logsByBlock := logsByBlock[log.blockNumber := blockLogs + [log]];
      assert logs[..i + 1][..i] == logs[..i];
    }
    assert logs[..|logs|] == logs;
  }

  // ---------------------------------------------------------------------------
  // Mint legs before burn legs

  /** `[...minting, ...transfers]`: the logs that credit their `addressTo`. */
  function MintLegs(block: seq<LpTransferLog>): seq<LpTransferLog>
  {
    Select(block, FromZero) + Select(block, NeitherZero)
  }

  /** `[...burning, ...transfers]`: the logs that debit their `addressFrom`. */
  function BurnLegs(block: seq<LpTransferLog>): seq<LpTransferLog>
  {
    Select(block, ToZero) + Select(block, NeitherZero)
  }

  /**
   * Every mint and every transfer of a block is credited, every burn and
   * every transfer is debited, and nothing else is: a transfer splits into
   * a receiving leg and a sending leg.
   */
  lemma LegsOfBlock(block: seq<LpTransferLog>, x: LpTransferLog)
    ensures x in MintLegs(block) <==> x in block && (x.addressFrom == ZERO_ADDRESS || x.addressTo != ZERO_ADDRESS)
    ensures x in BurnLegs(block) <==> x in block && (x.addressTo == ZERO_ADDRESS || x.addressFrom != ZERO_ADDRESS)
  {
    SelectMembers(block, FromZero, x);
    SelectMembers(block, ToZero, x);
    SelectMembers(block, NeitherZero, x);
  }

  // ---------------------------------------------------------------------------
  // Timestamps

  /** JavaScript's `a % b`: the remainder takes the sign of the dividend. */
  function JsRem(a: int, b: int): (r: int)
    requires b != 0
    ensures a >= 0 ==> r == a % b
  {
    var m := (if a < 0 then -a else a) % (if b < 0 then -b else b);
    if a < 0 then -m else m
  }

  /** `t - (t % 60)`: the time truncated to its minute. */
  function MinuteFloor(t: int): (m: int)
    ensures m % 60 == 0
    ensures t >= 0 ==> m <= t < m + 60
    ensures t < 0 ==> m - 60 < t <= m
  {
    t - JsRem(t, 60)
  }

  lemma MinuteFloorIdempotent(t: int)
    ensures MinuteFloor(MinuteFloor(t)) == MinuteFloor(t)
  {
  }

  /** The estimated time of a block without logs, extrapolated from the start block. */
  function EstimatedTimestamp(block: int): int
  {
    START_BLOCK_TS + (block - START_BLOCK) * AVERAGE_BLOCK_TIME
  }

  /** The minute used for price lookups at a block, given the block's logs. */
  function BlockTimestamp(blockLogs: seq<LpTransferLog>, block: int): (ts: int)
    ensures ts % 60 == 0
    ensures blockLogs != [] && blockLogs[0].timestamp >= 0 ==> ts <= blockLogs[0].timestamp < ts + 60
    ensures blockLogs == [] && block >= START_BLOCK ==> ts <= EstimatedTimestamp(block) < ts + 60
  {
    if blockLogs != [] then MinuteFloor(blockLogs[0].timestamp) else MinuteFloor(EstimatedTimestamp(block))
  }

  // ---------------------------------------------------------------------------
  // Prices

  /** The BTC and ETH prices of one minute in 2-decimal ticks; None where the table has no usable value. */
  datatype MinutePriceData = MinutePriceData(btc: Option<nat>, eth: Option<nat>)

  type PriceData = map<int, MinutePriceData>

  function Lookup(priceData: PriceData, ts: int): Option<MinutePriceData>
  {
    if ts in priceData then Some(priceData[ts]) else None
  }

  /**
   * `getTokenPrice` of index.ts: the BTC price for "BTC", the ETH price for
   * "vETH2" and "alETH", and 1 for any other pool without reading the table.
   */
  function GetTokenPrice(pool: string, minute: Option<MinutePriceData>, ts: int): (r: Result<nat, Fault>)
    ensures pool != "BTC" && pool != "vETH2" && pool != "alETH" ==> r == Ok(1)
    ensures pool == "BTC" ==> (r.Ok? <==> minute.Some? && minute.value.btc.Some?)
    ensures pool == "BTC" && r.Ok? ==> r.value == minute.value.btc.value
    ensures (pool == "vETH2" || pool == "alETH") ==> (r.Ok? <==> minute.Some? && minute.value.eth.Some?)
    ensures (pool == "vETH2" || pool == "alETH") && r.Ok? ==> r.value == minute.value.eth.value
    ensures r.Err? ==> r.error == MissingPrice(ts)
  {
    if pool == "BTC" then
      if minute.Some? && minute.value.btc.Some? then Ok(minute.value.btc.value) else Err(MissingPrice(ts))
    else if pool == "vETH2" || pool == "alETH" then
      if minute.Some? && minute.value.eth.Some? then Ok(minute.value.eth.value) else Err(MissingPrice(ts))
    else Ok(1)
  }

  /** A pool's price once the minute is known to have both prices. */
  function PoolPrice(pool: string, btc: nat, eth: nat): nat
  {
    if pool == "BTC" then btc else if pool == "vETH2" || pool == "alETH" then eth else 1
  }

  /** The prices of a minute, when the table has both. */
  function MinutePrices(priceData: PriceData, ts: int): Result<(nat, nat), Fault>
  {
    match Lookup(priceData, ts)
    case Some(MinutePriceData(Some(btc), Some(eth))) => Ok((btc, eth))
    case _ => Err(MissingPrice(ts))
  }

  /**
   * The replay's pools are priced at one pair of prices: the minute's BTC
   * and ETH prices where it has them. Pricing every pool succeeds exactly
   * when the minute has both, and then the pair is the minute's.
   */
  lemma PricingAllPools(priceData: PriceData, ts: int) returns (btc: nat, eth: nat)
    ensures forall j :: 0 <= j < |POOLS| && GetTokenPrice(POOLS[j], Lookup(priceData, ts), ts).Ok? ==>
      GetTokenPrice(POOLS[j], Lookup(priceData, ts), ts).value == PoolPrice(POOLS[j], btc, eth)
    ensures (forall j :: 0 <= j < |POOLS| ==> GetTokenPrice(POOLS[j], Lookup(priceData, ts), ts).Ok?) <==> MinutePrices(priceData, ts).Ok?
    ensures MinutePrices(priceData, ts).Ok? ==> MinutePrices(priceData, ts).value == (btc, eth)
  {
    var minute := Lookup(priceData, ts);
    btc := if minute.Some? && minute.value.btc.Some? then minute.value.btc.value else 0;
    eth := if minute.Some? && minute.value.eth.Some? then minute.value.eth.value else 0;
    if forall j :: 0 <= j < |POOLS| ==> GetTokenPrice(POOLS[j], minute, ts).Ok? {
      assert GetTokenPrice(POOLS[0], minute, ts).Ok? && GetTokenPrice(POOLS[2], minute, ts).Ok?;
    }
  }


}
