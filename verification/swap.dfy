/**
 * Swap rewards: 5,000,000 tokens split equally among the addresses whose
 * swaps through Saddle pools add up to more than 100 USD and which are not
 * on the block list. Swaps are valued at the minute's BTC or ETH price, or
 * at one dollar per token for the stablecoin pools.
 */
module Swap {
  import opened Wrappers
  import opened Dicts
  import opened LpLogs
  import opened Decimal

  const TOTAL_REWARD_TOKENS: nat := 5_000_000
  /** TOTAL_REWARD_TOKENS with 18 decimals. */
  const TOTAL_REWARD_TOKENS_WEI: nat := TOTAL_REWARD_TOKENS * 1_000_000_000_000_000_000

  /** Pool contract address to pool name. */
  const POOL_ADDRESS_MAP: map<string, string> := map[
    "0x4f6a43ad7cba042606decaca730d4ce0a57ac62e" := "BTC",
    "0x3911f80530595fbd01ab1516ab61255d75aeb066" := "USD",
    "0xdec2157831d6abc3ec328291119cc91b337272b5" := "vETH2",
    "0xa6018520eaacc06c30ff2e1b3ee2c7c22e64196a" := "alETH",
    "0xc69ddcd4dfef25d8a793241834d4cc4b3668ead6" := "d4",
    "0xacb83e0633d6605c5001e2ab59ef3c745547c8c7" := "USDv2",
    "0x0c8bae14c9f9bf2c953997c881befac7729fd314" := "sUSD",
    "0xdf3309771d2bf82cb2b6c56f9f5365c8bd97c4f2" := "BTCv2",
    "0xf74ebe6e5586275dc4ced78f5dbef31b1efbe7a5" := "tBTCv2",
    "0x3f1d224557afa4365155ea77ce4bc32d5dae2174" := "WCUSD"
  ]

  /** Addresses that get no swap reward (pool contracts, aggregators, team wallets). */
  const BLOCK_LIST: seq<string> := [
    "0x4f6a43ad7cba042606decaca730d4ce0a57ac62e",
    "0x21a0ca9064e46d7fb0145365a897ebecfff52677",
    "0x8ee5ee714adb4513ac682cbfc3122b85fd288be9",
    "0x19270be884763562361677a305a1250dbc8b75f8",
    "0x4c7081307a91177655ea1802d99595cb49ef5a99",
    "0x93eb7e6e64bdcf8af8231bc8a284135a23f56d09",
    "0x910e985623e79f9d3901b75b99b38d5480e2d1a6",
    "0x69c9c08c3531cc5c0fd6014adb7f670532cdc43e",
    "0x789b7315eb095e6d00f616ed427a7e7eda03f3d3",
    "0x0f28619684e57f5ffd21c6e9af55694b6235046e",
    "0x42f1614d2b19041cdd9872fe9ba803d260e64a94",
    "0x6de5f1772d422b8e3f7ede0f705ad9a21e351a6f",
    "0xa4cbb26b8ff855cd18c151c8c1351953c2955ab9",
    "0x36e480542adb535cd15df1303748a5298b033952",
    "0x4d1f84c10ebe86de55317265f8a855bad119cf64",
    "0x0e0c74c535689564c0c5806470eb5394d5d9c207",
    "0x298542fdec1b23d1bec2987dceedcc3eaa960858",
    "0x6da516ec1b135b23778a421cfe50340fe7c99363",
    "0x42822fba1ae09b5aeb7e06c6104232114f3c822a",
    "0x74797aa63403905131a5589269b5401ad43cb018",
    "0xd8ac7f37c08e3797f77197d363e7328b3d2cce3d",
    "0xf50506e3a1a5c150fd01113f8a7b044d0c20fbe9",
    "0xfc281b0ceb5dea914e5790d281eae81fde067228",
    "0xca8c4e133c92292ced38b34b5a0697b02d8a6caf",
    "0x9e8d4b8575d814c5012bbf04a1e251d81ec4d627",
    "0x1562c3ee780964c1fe1e95ba6ab22962a96cb12e",
    "0x094f318f73670ca1deee1e94bbe8d6b573db0872",
    "0x35334e0f6223be2da00d9f316339c64d3507334d",
    "0x61dac98eeeb0ba429468eca3cebec9b5c8f4b2a0",
    "0xbbe71d844bf28bc7d9334a19bb4c84a19f150298",
    "0x7d5e1e1f96a50324715bb118f8ae8b6649d987a2",
    "0xbe6879f28f87a11e881509a2f9e5fc1ec9215a96",
    "0x50aa5bfcd9d07d8a08d2658018fdce0621a18eef",
    "0x298542fdec1b23d1bec2987dceedcc3eaa960858",
    "0x1a874798a8521174ea5f9d07e92c17e24ccff383",
    "0xd8a6a21ea8d868c37a09e27838e15f119452b07a",
    "0xb4d266198f406b2c358696242e981e389977f279",
    "0xdeafea012c3617378511d3fc8dc277354388c9ad",
    "0x51d2cb51c57c4efc0a75ffe40ae9cd724d6ebf04",
    "0x0530fbb21dd9140f072f3d41073b3e8c60106ea1",
    "0xac179e0a41f1cc4db42513520f762f1d57ae6ed6",
    "0x85d25644526693897a3417fe149639e4422dc44b",
    "0xa3aaac039c2c934c3675e1aae847bc7d2254505d",
    "0x1eda03afc1100ed5e02333150ae301d0f61fde21",
    "0x7cab57893a1e796537b543a1144e1a1f6c170fa1",
    "0xe0e14f967629f54e30a44408ebd9962edee65e25",
    "0x6f914408be952200149e6f36fc13cad58028603e",
    "0xc72cbd909a3d755ce42ec8e7641bf0c531f6213b",
    "0x77b4619fd0a82bdbbd76d41b2c9e9f3d78c9eb6f",
    "0x8e0ffdeabbb0dc652e02460dd44aa3c54dfd2954",
    "0xf4ec77ef0c2cdc00d736614028b153694db5e16f",
    "0x36a7875f0247b2d857f76ae32efbef0c32bee07d",
    "0x19b36216934c567f5c87c7c2f2eade7385198392",
    "0x746cf079a50addd7ff1a11b4606907a30cb81b3a",
    "0x2a3b4c526264bdb46cf2dda1aa20c6b151714659",
    "0x360f2ba1bc1fb1e56ac7eed7739dd6db694d1d70",
    "0x1f49cb6bc216ed06cf420f9a83fb50fddc465928",
    "0x656833562aa937766b767cc8976dcecabcbf5f9d",
    "0x07333f178ca73cb1e50060c73a99048f3693aae4",
    "0x5e9af368d0000734b740c1205dd22f07eb96411e",
    "0x8bb6a8a802c6240a6dc5c74dded3f3901507524a",
    "0x66690e4cdb2d9ee9df49d4e2c1b2ac26c4a0595d",
    "0x11f05bf3865055fc53d8cb92da21029a90f245bf",
    "0x2cf96a2534aabb11e201f0711d5da080c01c990e",
    "0x2b3f9c0a2d0ecd565caf1a208727a7419506fa98",
    "0x6bce0e6927b145ded926e361b2edafb5fe07a6bb",
    "0x6159a7c5bcb27387cb96f0113b48bd9ce0583764",
    "0xcc5a3ea94ea5f7aa8eee2ac045cb7492a89448ae",
    "0x643ea5357b3dd4700c0a3d48d4b712d35163df7b",
    "0xe3c67f22b45e8de9f2a5aebbbe75dce56383fda0",
    "0x8752237f0d25529e3380b56aea1c8fb5cb3cff1b",
    "0xe4fd533ef337fb8f91d7b515ccc631c494b55e3b",
    "0xabbf83845eabb128587eecbfe98c1a50a7057e1b",
    "0x8a637a94b9e5163a13b2d33c44c9f137387d35a5",
    "0x01122ae3d7ba9fbd2f5fff3c9b8dbf4b21622a47",
    "0x28d804bf2212e220bc2b7b6252993db8286df07f",
    "0x28666c39d680f6212163f02030b45b0ee3a6e261",
    "0x1c051112075feaee33bcdbe0984c2bb0db53cf47"
  ]

  /**
   * One swap log: the pool contract, the time of its block in seconds, the
   * buyer and the number of tokens sold, already scaled by the sold token's
   * decimals.
   */
  datatype SwapLog = SwapLog(pool: string, timestamp: int, buyer: string, tokensSold: real)

  // ---------------------------------------------------------------------------
  // getTokenPrice

  /** `part` occurs in `s` starting at position `i`. */
  predicate OccursAt(s: string, part: string, i: int)
  {
    0 <= i <= |s| - |part| && s[i..i + |part|] == part
  }

  /** `s.includes(part)`. */
  predicate Includes(s: string, part: string)
  {
    exists i :: 0 <= i <= |s| - |part| && OccursAt(s, part, i)
  }

  /** A string without the first character of `part` does not include `part`. */
  lemma FirstCharAbsent(s: string, part: string)
    requires |part| > 0 && part[0] !in s
    ensures !Includes(s, part)
  {
    forall i | 0 <= i <= |s| - |part| ensures !OccursAt(s, part, i) {
      assert s[i..i + |part|][0] == s[i] && s[i] in s;
    }
  }

  /**
   * The price of a pool's token in cents: the minute's BTC price for a pool
   * whose name mentions BTC, else the ETH price for one that mentions ETH,
   * else 100 (one dollar). A missing price fails to parse.
   */
  function SwapTokenPrice(poolName: string, minute: Option<MinutePriceData>, ts: int): (r: Result<nat, Fault>)
    ensures r.Err? ==> r.error == MissingPrice(ts) && (Includes(poolName, "BTC") || Includes(poolName, "ETH"))
    ensures !Includes(poolName, "BTC") && !Includes(poolName, "ETH") ==> r == Ok(100)
  {
    if Includes(poolName, "BTC") then
      if minute.Some? && minute.value.btc.Some? then Ok(minute.value.btc.value) else Err(MissingPrice(ts))
    else if Includes(poolName, "ETH") then
      if minute.Some? && minute.value.eth.Some? then Ok(minute.value.eth.value) else Err(MissingPrice(ts))
    else Ok(100)
  }

  /** Every pool a swap can go through is one of the ten named ones. */
  lemma PoolNames()
    ensures forall a :: a in POOL_ADDRESS_MAP ==>
      POOL_ADDRESS_MAP[a] in {"BTC", "USD", "vETH2", "alETH", "d4", "USDv2", "sUSD", "BTCv2", "tBTCv2", "WCUSD"}
  {
  }

  /** The three BTC pools are priced at the minute's BTC price. */
  lemma BtcPools(minute: MinutePriceData, ts: int)
    requires minute.btc.Some?
    ensures forall name :: name in {"BTC", "BTCv2", "tBTCv2"} ==> SwapTokenPrice(name, Some(minute), ts) == Ok(minute.btc.value)
  {
    assert OccursAt("BTC", "BTC", 0) && OccursAt("BTCv2", "BTC", 0) && OccursAt("tBTCv2", "BTC", 1);
  }

  /** The two ETH pools are priced at the minute's ETH price. */
  lemma EthPools(minute: MinutePriceData, ts: int)
    requires minute.eth.Some?
    ensures forall name :: name in {"vETH2", "alETH"} ==> SwapTokenPrice(name, Some(minute), ts) == Ok(minute.eth.value)
  {
    FirstCharAbsent("vETH2", "BTC");
    FirstCharAbsent("alETH", "BTC");
    assert OccursAt("vETH2", "ETH", 1) && OccursAt("alETH", "ETH", 2);
  }

  /** The five stablecoin pools are priced at one dollar, whatever the price table holds. */
  lemma StablePools(minute: Option<MinutePriceData>, ts: int)
    ensures forall name :: name in {"USD", "d4", "USDv2", "sUSD", "WCUSD"} ==> SwapTokenPrice(name, minute, ts) == Ok(100)
  {
    var stable := ["USD", "d4", "USDv2", "sUSD", "WCUSD"];
    forall i | 0 <= i < |stable| ensures !Includes(stable[i], "BTC") && !Includes(stable[i], "ETH") {
      FirstCharAbsent(stable[i], "BTC");
      FirstCharAbsent(stable[i], "ETH");
    }
    assert stable[0] == "USD" && stable[1] == "d4" && stable[2] == "USDv2" && stable[3] == "sUSD" && stable[4] == "WCUSD";
  }

  /** In a minute that has both prices, every pool of the table has a price. */
  lemma PoolsPriced(minute: MinutePriceData, ts: int)
    requires minute.btc.Some? && minute.eth.Some?
    ensures forall a :: a in POOL_ADDRESS_MAP ==> SwapTokenPrice(POOL_ADDRESS_MAP[a], Some(minute), ts).Ok?
  {
    PoolNames();
    BtcPools(minute, ts);
    EthPools(minute, ts);
    StablePools(Some(minute), ts);
  }

  // ---------------------------------------------------------------------------
  // processSwaps: valuing and adding up the swaps

  /** The USD value of `tokensSold` tokens at `price` cents each. */
  function SoldValue(tokensSold: real, price: nat): real
  {
    tokensSold * (price as real) / 100.0
  }

  /** The USD value of one swap, or why it has none. */
  function SwapValue(log: SwapLog, priceData: PriceData, poolAddressMap: map<string, string>): (r: Result<real, Fault>)
    ensures log.pool !in poolAddressMap ==> r == Err(UnknownPool(log.pool))
    ensures r.Err? ==> r.error.UnknownPool? || r.error.MissingPrice?
  {
    if log.pool !in poolAddressMap then Err(UnknownPool(log.pool))
    else
      var ts := MinuteFloor(log.timestamp);
      match SwapTokenPrice(poolAddressMap[log.pool], Lookup(priceData, ts), ts)
      case Err(e) => Err(e)
      case Ok(price) => Ok(SoldValue(log.tokensSold, price))
  }

  /**
   * A swap in a stablecoin pool is worth its token count; one in a BTC or ETH
   * pool is worth its token count at the minute's price, in dollars; and no
   * swap of a non-negative amount has a negative value.
   */
  lemma SwapValueMeaning(log: SwapLog, priceData: PriceData, poolAddressMap: map<string, string>)
    requires log.pool in poolAddressMap
    ensures var name := poolAddressMap[log.pool];
      !Includes(name, "BTC") && !Includes(name, "ETH") ==>
        SwapValue(log, priceData, poolAddressMap).Ok? && SwapValue(log, priceData, poolAddressMap).value == log.tokensSold
    ensures var m := Lookup(priceData, MinuteFloor(log.timestamp));
      Includes(poolAddressMap[log.pool], "BTC") && m.Some? && m.value.btc.Some? ==>
        SwapValue(log, priceData, poolAddressMap).Ok? &&
        SwapValue(log, priceData, poolAddressMap).value == log.tokensSold * (m.value.btc.value as real) / 100.0
    ensures var m := Lookup(priceData, MinuteFloor(log.timestamp));
      !Includes(poolAddressMap[log.pool], "BTC") && Includes(poolAddressMap[log.pool], "ETH") && m.Some? && m.value.eth.Some? ==>
        SwapValue(log, priceData, poolAddressMap).Ok? &&
        SwapValue(log, priceData, poolAddressMap).value == log.tokensSold * (m.value.eth.value as real) / 100.0
    ensures log.tokensSold >= 0.0 && SwapValue(log, priceData, poolAddressMap).Ok? ==> SwapValue(log, priceData, poolAddressMap).value >= 0.0
  {
    var ts := MinuteFloor(log.timestamp);
    var price := SwapTokenPrice(poolAddressMap[log.pool], Lookup(priceData, ts), ts);
    if price.Ok? {
      var v := SwapValue(log, priceData, poolAddressMap);
      var p := price.value as real;
      assert v.Ok? && v.value == SoldValue(log.tokensSold, price.value) == log.tokensSold * p / 100.0;
      if log.tokensSold >= 0.0 {
        assert log.tokensSold * p >= 0.0;
      }
    }
  }

  /**
   * The (buyer, value) pairs of the swaps in order, or the fault of the
   * first swap that has no value.
   */
  function Valued(logs: seq<SwapLog>, priceData: PriceData, poolAddressMap: map<string, string>): (r: Result<Dict<real>, Fault>)
    decreases |logs|
  {
    if logs == [] then Ok([])
    else
      var n := |logs| - 1;
      match Valued(logs[..n], priceData, poolAddressMap)
      case Err(e) => Err(e)
      case Ok(front) =>
        match SwapValue(logs[n], priceData, poolAddressMap)
        case Err(e) => Err(e)
        case Ok(v) => Ok(front + [(logs[n].buyer, v)])
  }

  /**
   * Every swap has a value exactly when the pairs exist, and then pair `i`
   * is swap `i`'s buyer with its value; otherwise the fault is that of the
   * first swap without a value.
   */
  lemma {:induction false} ValuedMeaning(logs: seq<SwapLog>, priceData: PriceData, poolAddressMap: map<string, string>)
    ensures var r := Valued(logs, priceData, poolAddressMap);
      r.Ok? ==> |r.value| == |logs| && forall i :: 0 <= i < |logs| ==>
        r.value[i].0 == logs[i].buyer && SwapValue(logs[i], priceData, poolAddressMap) == Ok(r.value[i].1)
    ensures var r := Valued(logs, priceData, poolAddressMap);
      r.Err? ==> exists i :: 0 <= i < |logs| && SwapValue(logs[i], priceData, poolAddressMap) == Err(r.error) &&
                             (forall j :: 0 <= j < i ==> SwapValue(logs[j], priceData, poolAddressMap).Ok?)
    decreases |logs|
  {
    if logs != [] {
      var n := |logs| - 1;
      ValuedMeaning(logs[..n], priceData, poolAddressMap);
      assert forall i :: 0 <= i < n ==> logs[..n][i] == logs[i];
    }
  }

  /** When the swaps before `i` have values and swap `i` has none, its fault is that of all of them. */
  lemma ValuedStops(logs: seq<SwapLog>, priceData: PriceData, poolAddressMap: map<string, string>, i: nat)
    requires i < |logs| && Valued(logs[..i], priceData, poolAddressMap).Ok? && SwapValue(logs[i], priceData, poolAddressMap).Err?
    ensures Valued(logs, priceData, poolAddressMap) == Err(SwapValue(logs[i], priceData, poolAddressMap).error)
  {
    assert forall j :: 0 <= j < i ==> logs[..i][j] == logs[j];
    ValuedMeaning(logs[..i], priceData, poolAddressMap);
    ValuedMeaning(logs, priceData, poolAddressMap);
    if Valued(logs, priceData, poolAddressMap).Err? {
      var k :| 0 <= k < |logs| && SwapValue(logs[k], priceData, poolAddressMap) == Err(Valued(logs, priceData, poolAddressMap).error) &&
        forall j :: 0 <= j < k ==> SwapValue(logs[j], priceData, poolAddressMap).Ok?;
      assert k == i;
    }
  }

  /** When the swaps before `i` and swap `i` have values, the pairs of the first `i + 1` extend those of the first `i`. */
  lemma ValuedStep(logs: seq<SwapLog>, priceData: PriceData, poolAddressMap: map<string, string>, i: nat)
    requires i < |logs| && Valued(logs[..i], priceData, poolAddressMap).Ok?
    requires SwapValue(logs[i], priceData, poolAddressMap).Ok?
    ensures Valued(logs[..i + 1], priceData, poolAddressMap).Ok?
    ensures Valued(logs[..i + 1], priceData, poolAddressMap).value ==
      Valued(logs[..i], priceData, poolAddressMap).value + [(logs[i].buyer, SwapValue(logs[i], priceData, poolAddressMap).value)]
  {
    assert logs[..i + 1][..i] == logs[..i];
  }

  /** The sum of all values. */
  function Total(swaps: Dict<real>): real
    decreases |swaps|
  {
    if swaps == [] then 0.0 else Total(swaps[..|swaps| - 1]) + swaps[|swaps| - 1].1
  }

  /** The sum of the values of one buyer's swaps. */
  function BuyerTotal(swaps: Dict<real>, buyer: string): real
    decreases |swaps|
  {
    if swaps == [] then 0.0
    else
      var n := |swaps| - 1;
      BuyerTotal(swaps[..n], buyer) + (if swaps[n].0 == buyer then swaps[n].1 else 0.0)
  }

  lemma TotalAppend(d: Dict<real>, kv: (string, real))
    ensures Total(d + [kv]) == Total(d) + kv.1
  {
    assert (d + [kv])[..|d|] == d;
  }

  lemma {:induction false} TotalUpdate(d: Dict<real>, i: nat, kv: (string, real))
    requires i < |d|
    ensures Total(d[i := kv]) == Total(d) - d[i].1 + kv.1
    decreases |d|
  {
    var n := |d| - 1;
    if i == n {
      assert d[i := kv][..n] == d[..n];
    } else {
      TotalUpdate(d[..n], i, kv);
      assert d[i := kv][..n] == d[..n][i := kv];
    }
  }

  /** Writing `v` at key `k` changes the total by `v` minus what `k` held before. */
  lemma TotalPut(d: Dict<real>, k: string, v: real)
    ensures Total(Put(d, k, v)) == Total(d) - GetOr(d, k, 0.0) + v
  {
    var i := IndexOf(d, k);
    if i < 0 {
      TotalAppend(d, (k, v));
    } else {
      TotalUpdate(d, i, (k, v));
    }
  }

  /** `obj[k] = (obj[k] || 0) + v` on a number-valued object. */
  function AddValue(d: Dict<real>, k: string, v: real): Dict<real>
  {
    Put(d, k, GetOr(d, k, 0.0) + v)
  }

  /** Adding to a key raises the total by the amount. */
  lemma AddValueTotal(d: Dict<real>, k: string, v: real)
    ensures Total(AddValue(d, k, v)) == Total(d) + v
  {
    TotalPut(d, k, GetOr(d, k, 0.0) + v);
  }

  /** Adding to a key makes it a key and keeps keys distinct. */
  lemma AddValueKeys(d: Dict<real>, k: string, v: real)
    ensures KeySet(AddValue(d, k, v)) == KeySet(d) + {k}
    ensures UniqueKeys(d) ==> UniqueKeys(AddValue(d, k, v))
  {
    PutKeys(d, k, GetOr(d, k, 0.0) + v);
  }

  /** The swappers object: each buyer with the sum of the values of their swaps, in order of first swap. */
  function Tally(swaps: Dict<real>): Dict<real>
    decreases |swaps|
  {
    if swaps == [] then []
    else
      var n := |swaps| - 1;
      AddValue(Tally(swaps[..n]), swaps[n].0, swaps[n].1)
  }

  lemma TallyStep(swaps: Dict<real>)
    requires swaps != []
    ensures var n := |swaps| - 1; Tally(swaps) == AddValue(Tally(swaps[..n]), swaps[n].0, swaps[n].1)
  {
  }

  /** The swappers object has every buyer once. */
  lemma {:induction false} TallyKeys(swaps: Dict<real>)
    ensures UniqueKeys(Tally(swaps)) && KeySet(Tally(swaps)) == KeySet(swaps)
    decreases |swaps|
  {
    if swaps != [] {
      var n := |swaps| - 1;
      var t := Tally(swaps[..n]);
      var k, v := swaps[n].0, swaps[n].1;
      TallyStep(swaps);
      TallyKeys(swaps[..n]);
      AddValueKeys(t, k, v);
      KeySetLast(swaps);
    }
  }

  /** The swappers object holds for each buyer the sum of the values of their swaps. */
  lemma {:induction false} TallyValues(swaps: Dict<real>, b: string)
    ensures GetOr(Tally(swaps), b, 0.0) == BuyerTotal(swaps, b)
    decreases |swaps|
  {
    if swaps != [] {
      var n := |swaps| - 1;
      var t := Tally(swaps[..n]);
      var k, v := swaps[n].0, swaps[n].1;
      TallyStep(swaps);
      TallyValues(swaps[..n], b);
      TallyValues(swaps[..n], k);
      assert BuyerTotal(swaps, b) == BuyerTotal(swaps[..n], b) + (if k == b then v else 0.0);
    }
  }

  /** The values of the swappers object add up to the total swap value. */
  lemma {:induction false} TallyTotal(swaps: Dict<real>)
    ensures Total(Tally(swaps)) == Total(swaps)
    decreases |swaps|
  {
    if swaps != [] {
      var n := |swaps| - 1;
      TallyStep(swaps);
      TallyTotal(swaps[..n]);
      AddValueTotal(Tally(swaps[..n]), swaps[n].0, swaps[n].1);
    }
  }

  /** Adds one swap's value to its buyer, creating the buyer's entry on their first swap, and to the total. */
  method AddSwap(swappers: Dict<real>, totalSwapValue: real, buyer: string, soldValue: real)
    returns (swappers': Dict<real>, totalSwapValue': real)
    ensures swappers' == AddValue(swappers, buyer, soldValue)
    ensures totalSwapValue' == totalSwapValue + soldValue
  {
    var previous := Get(swappers, buyer);
    if previous.None? {
      swappers' := Put(swappers, buyer, soldValue);
    } else {
      swappers' := Put(swappers, buyer, previous.value + soldValue);
    }
    totalSwapValue' := totalSwapValue + soldValue;
  }

  /**
   * The first loop of `processSwaps`: checks each swap's pool, values it at
   * its minute's price and adds it to its buyer and to the total.
   */
  method AggregateSwaps(logs: seq<SwapLog>, priceData: PriceData, poolAddressMap: map<string, string>) returns (r: Result<(Dict<real>, real), Fault>)
    ensures Valued(logs, priceData, poolAddressMap).Err? ==> r == Err(Valued(logs, priceData, poolAddressMap).error)
    ensures Valued(logs, priceData, poolAddressMap).Ok? ==>
      r == Ok((Tally(Valued(logs, priceData, poolAddressMap).value), Total(Valued(logs, priceData, poolAddressMap).value)))
  {
    var swappers: Dict<real> := [];
    var totalSwapValue := 0.0;
    for i := 0 to |logs|
      invariant Valued(logs[..i], priceData, poolAddressMap).Ok?
      invariant swappers == Tally(Valued(logs[..i], priceData, poolAddressMap).value)
      invariant totalSwapValue == Total(Valued(logs[..i], priceData, poolAddressMap).value)
    {
      var swapLog := logs[i];
      var value := SwapValue(swapLog, priceData, poolAddressMap);
      if value.Err? {
        ValuedStops(logs, priceData, poolAddressMap, i);
        return Err(value.error);
      }
      var soldValue := value.value;
      ValuedStep(logs, priceData, poolAddressMap, i);
      ghost var front := Valued(logs[..i], priceData, poolAddressMap).value;
      TallyStep(front + [(swapLog.buyer, soldValue)]);
      TotalAppend(front, (swapLog.buyer, soldValue));
      assert (front + [(swapLog.buyer, soldValue)])[..|front|] == front;
      swappers, totalSwapValue := AddSwap(swappers, totalSwapValue, swapLog.buyer, soldValue);
    }
    assert logs[..|logs|] == logs;
    r := Ok((swappers, totalSwapValue));
  }

  // ---------------------------------------------------------------------------
  // processSwaps: sorting by value

  predicate DescendingValues(d: Dict<real>)
  {
    forall i, j :: 0 <= i < j < |d| ==> d[i].1 >= d[j].1
  }

  /** Entries that are those of `t` plus `e` are all at least `b` when those of `t` and `e` are. */
  lemma ValuesAtLeast(s: Dict<real>, t: Dict<real>, e: (string, real), b: real)
    requires multiset(s) == multiset(t) + multiset{e}
    requires e.1 >= b
    requires forall i :: 0 <= i < |t| ==> t[i].1 >= b
    ensures forall i :: 0 <= i < |s| ==> s[i].1 >= b
  {
    forall i | 0 <= i < |s| ensures s[i].1 >= b {
      assert s[i] in multiset(s);
      if s[i] != e {
        assert s[i] in multiset(t);
        var k :| 0 <= k < |t| && t[k] == s[i];
      }
    }
  }

  /**
   * Inserts `e` after every entry whose value is at least its own. This is
   * the insertion sort of `LpOutput.InsertDesc`, over the swap values
   * (`real`) instead of token amounts (`int`).
   */
  function InsertByValue(sorted: Dict<real>, e: (string, real)): (r: Dict<real>)
    ensures multiset(r) == multiset(sorted) + multiset{e}
    decreases |sorted|
  {
    if sorted == [] then [e]
    else
      var n := |sorted| - 1;
      if sorted[n].1 >= e.1 then
        sorted + [e]
      else
        LastSplit(sorted);
        InsertByValue(sorted[..n], e) + [sorted[n]]
  }

  /** Inserting into a list in descending order of value keeps it in that order. */
  lemma {:induction false} InsertByValueOrder(sorted: Dict<real>, e: (string, real))
    requires DescendingValues(sorted)
    ensures DescendingValues(InsertByValue(sorted, e))
    decreases |sorted|
  {
    if sorted != [] {
      var n := |sorted| - 1;
      if sorted[n].1 < e.1 {
        InsertByValueOrder(sorted[..n], e);
        ValuesAtLeast(InsertByValue(sorted[..n], e), sorted[..n], e, sorted[n].1);
      }
    }
  }

  /** Inserting an entry adds its key. */
  lemma {:induction false} InsertByValueKeys(sorted: Dict<real>, e: (string, real))
    ensures KeySet(InsertByValue(sorted, e)) == KeySet(sorted) + {e.0}
    decreases |sorted|
  {
    if sorted == [] {
      KeySetLast([e]);
    } else {
      var n := |sorted| - 1;
      KeySetLast(sorted);
      if sorted[n].1 >= e.1 {
        KeySetLast(sorted + [e]);
        assert (sorted + [e])[..|sorted|] == sorted;
      } else {
        var front := InsertByValue(sorted[..n], e);
        InsertByValueKeys(sorted[..n], e);
        KeySetLast(front + [sorted[n]]);
        assert (front + [sorted[n]])[..|front|] == front;
      }
    }
  }

  /** Inserting an entry with a new key keeps keys distinct. */
  lemma {:induction false} InsertByValueUnique(sorted: Dict<real>, e: (string, real))
    requires UniqueKeys(sorted) && e.0 !in KeySet(sorted)
    ensures UniqueKeys(InsertByValue(sorted, e))
    decreases |sorted|
  {
    if sorted == [] {
    } else {
      var n := |sorted| - 1;
      KeySetLast(sorted);
      if sorted[n].1 >= e.1 {
        UniqueAppend(sorted, e);
      } else {
        var front := InsertByValue(sorted[..n], e);
        InsertByValueUnique(sorted[..n], e);
        InsertByValueKeys(sorted[..n], e);
        UniqueSplit(sorted, n);
        UniqueAppend(front, sorted[n]);
      }
    }
  }

  /**
   * The swappers ordered by descending value (the `sort` with comparator
   * `b - a`), as an insertion sort: a rearrangement of the entries, in
   * descending order.
   */
  function SortByValue(d: Dict<real>): (r: Dict<real>)
    ensures multiset(r) == multiset(d)
    ensures DescendingValues(r)
    decreases |d|
  {
    if d == [] then []
    else
      var n := |d| - 1;
      LastSplit(d);
      InsertByValueOrder(SortByValue(d[..n]), d[n]);
      InsertByValue(SortByValue(d[..n]), d[n])
  }

  /** Sorting keeps the keys, and keeps them distinct. */
  lemma {:induction false} SortByValueKeys(d: Dict<real>)
    ensures KeySet(SortByValue(d)) == KeySet(d)
    ensures UniqueKeys(d) ==> UniqueKeys(SortByValue(d))
    decreases |d|
  {
    if d != [] {
      var n := |d| - 1;
      SortByValueKeys(d[..n]);
      InsertByValueKeys(SortByValue(d[..n]), d[n]);
      KeySetLast(d);
      if UniqueKeys(d) {
        UniqueSplit(d, n);
        InsertByValueUnique(SortByValue(d[..n]), d[n]);
      }
    }
  }

  // ---------------------------------------------------------------------------
  // processSwaps: eligibility and the equal split

  /** An address earns a reward when its swaps add up to more than 100 USD and it is not blocked. */
  predicate IsEligible(entry: (string, real), blockList: seq<string>)
  {
    !(entry.1 <= 100.0 || entry.0 in blockList)
  }

  /** The eligible entries, in order. */
  function Eligible(d: Dict<real>, blockList: seq<string>): Dict<real>
    decreases |d|
  {
    if d == [] then []
    else
      var n := |d| - 1;
      Eligible(d[..n], blockList) + (if IsEligible(d[n], blockList) then [d[n]] else [])
  }

  /** An entry is kept exactly when it is there and eligible. */
  lemma {:induction false} EligibleMembers(d: Dict<real>, blockList: seq<string>)
    ensures forall x :: x in Eligible(d, blockList) <==> x in d && IsEligible(x, blockList)
    decreases |d|
  {
    if d != [] {
      var n := |d| - 1;
      EligibleMembers(d[..n], blockList);
      LastSplit(d);
    }
  }

  /** Filtering keeps keys distinct. */
  lemma {:induction false} EligibleUnique(d: Dict<real>, blockList: seq<string>)
    requires UniqueKeys(d)
    ensures UniqueKeys(Eligible(d, blockList))
    decreases |d|
  {
    if d != [] {
      var n := |d| - 1;
      EligibleUnique(d[..n], blockList);
      if IsEligible(d[n], blockList) {
        UniqueSplit(d, n);
        EligibleMembers(d[..n], blockList);
        KeySubset(Eligible(d[..n], blockList), d[..n]);
        UniqueAppend(Eligible(d[..n], blockList), d[n]);
      }
    }
  }

  /** The key of entry `i` is not among the filtered entries before it. */
  lemma EligibleAbsent(d: Dict<real>, blockList: seq<string>, i: nat)
    requires UniqueKeys(d) && i < |d|
    ensures d[i].0 !in KeySet(Eligible(d[..i], blockList))
  {
    UniqueSplit(d, i);
    EligibleMembers(d[..i], blockList);
    KeySubset(Eligible(d[..i], blockList), d[..i]);
  }

  /** Deleting the key of entry `i`, once the entries before it are filtered, leaves the entries after it. */
  lemma DeleteIneligible(d: Dict<real>, blockList: seq<string>, i: nat)
    requires UniqueKeys(d) && i < |d|
    ensures Remove(Eligible(d[..i], blockList) + d[i..], d[i].0) == Eligible(d[..i], blockList) + d[i + 1..]
  {
    var k := d[i].0;
    var kept := Eligible(d[..i], blockList);
    EligibleAbsent(d, blockList, i);
    RemoveAbsent(kept, k);
    UniqueSplit(d, i);
    assert d[i..] == [d[i]] + d[i + 1..];
    RemoveFirst(d[i], d[i + 1..]);
    RemoveConcat(kept, d[i..], k);
  }

  /** One step of the filtering loop: an eligible entry is kept and counted, an ineligible one is deleted. */
  lemma FilterStep(d: Dict<real>, blockList: seq<string>, i: nat)
    requires UniqueKeys(d) && i < |d|
    ensures IsEligible(d[i], blockList) ==>
      Eligible(d[..i + 1], blockList) + d[i + 1..] == Eligible(d[..i], blockList) + d[i..] &&
      |Eligible(d[..i + 1], blockList)| == |Eligible(d[..i], blockList)| + 1
    ensures !IsEligible(d[i], blockList) ==>
      Eligible(d[..i + 1], blockList) + d[i + 1..] == Remove(Eligible(d[..i], blockList) + d[i..], d[i].0) &&
      |Eligible(d[..i + 1], blockList)| == |Eligible(d[..i], blockList)|
  {
    assert d[..i + 1][..i] == d[..i];
    assert d[i..] == [d[i]] + d[i + 1..];
    if !IsEligible(d[i], blockList) {
      DeleteIneligible(d, blockList, i);
    }
  }

  /**
   * The second loop of `processSwaps`: deletes every address that is not
   * eligible and counts the others.
   */
  method FilterEligible(output: Dict<real>, blockList: seq<string>) returns (eligible: Dict<real>, numberOfEligibleWallets: nat)
    requires UniqueKeys(output)
    ensures eligible == Eligible(output, blockList)
    ensures numberOfEligibleWallets == |eligible|
  {
    eligible := output;
    numberOfEligibleWallets := 0;
    for i := 0 to |output|
      invariant eligible == Eligible(output[..i], blockList) + output[i..]
      invariant numberOfEligibleWallets == |Eligible(output[..i], blockList)|
    {
      var (address, swapValue) := output[i];
      FilterStep(output, blockList, i);
      if swapValue <= 100.0 || address in blockList {
        eligible := Remove(eligible, address);
      } else {
        numberOfEligibleWallets := numberOfEligibleWallets + 1;
      }
    }
    assert output[..|output|] == output;
  }

  /**
   * The budget split over `n` eligible addresses, rounded down: what is
   * handed out in total falls short of the budget by less than `n`, by the
   * remainder of the division.
   */
  function Share(n: nat): (per: nat)
    requires n > 0
    ensures 0 <= TOTAL_REWARD_TOKENS_WEI - n * per < n
    ensures TOTAL_REWARD_TOKENS_WEI - n * per == TOTAL_REWARD_TOKENS_WEI % n
  {
    TOTAL_REWARD_TOKENS_WEI / n
  }

  /** The rewards object: every eligible address with the reward per address as text. */
  function RewardsOf(eligible: Dict<real>, rewardPerAddr: nat): (r: Dict<string>)
    ensures |r| == |eligible|
  {
    seq(|eligible|, i requires 0 <= i < |eligible| => (eligible[i].0, DecimalString(rewardPerAddr)))
  }

  /**
   * The last loop of `processSwaps`: divides the budget by the number of
   * eligible addresses (a BigNumber division by zero when there is none),
   * writes that share for every address and adds it to the total.
   */
  method SplitRewards(output: Dict<real>, numberOfEligibleWallets: nat) returns (r: Result<(Dict<string>, nat, int), Fault>)
    requires numberOfEligibleWallets == |output|
    ensures numberOfEligibleWallets == 0 ==> r == Err(DivisionByZero)
    ensures numberOfEligibleWallets > 0 ==>
      var rewardPerAddr := Share(numberOfEligibleWallets);
      r == Ok((RewardsOf(output, rewardPerAddr), rewardPerAddr, numberOfEligibleWallets * rewardPerAddr))
  {
    if numberOfEligibleWallets == 0 {
      return Err(DivisionByZero);
    }
    var rewardPerAddr := Share(numberOfEligibleWallets);
    var rewards: Dict<string> := [];
    var totalRewards := 0;
    for i := 0 to |output|
      invariant rewards == RewardsOf(output[..i], rewardPerAddr)
      invariant totalRewards == i * rewardPerAddr
    {
      totalRewards := totalRewards + rewardPerAddr;
      rewards := rewards + [(output[i].0, DecimalString(rewardPerAddr))];
    }
    assert output[..|output|] == output;
    r := Ok((rewards, rewardPerAddr, totalRewards));
  }

  // ---------------------------------------------------------------------------
  // processSwaps

  /**
   * What `processSwaps` ends with: the addresses file (every swapper with
   * the total value of their swaps, largest first), the total swap value,
   * the rewards file, the number of eligible addresses, the share of each,
   * the total handed out and whether it is the whole budget.
   */
  datatype SwapReport = SwapReport(
    addresses: Dict<real>,
    totalSwapValue: real,
    rewards: Dict<string>,
    numberOfEligibleWallets: nat,
    rewardPerAddr: nat,
    totalRewards: int,
    matchesBudget: bool)

  /** The report computed from the valued swaps. */
  function ReportOf(swaps: Dict<real>, blockList: seq<string>): Result<SwapReport, Fault>
  {
    var output := SortByValue(Tally(swaps));
    var eligible := Eligible(output, blockList);
    if |eligible| == 0 then Err(DivisionByZero)
    else
      var rewardPerAddr := Share(|eligible|);
      var totalRewards := |eligible| * rewardPerAddr;
      Ok(SwapReport(output, Total(swaps), RewardsOf(eligible, rewardPerAddr), |eligible|, rewardPerAddr,
                    totalRewards, totalRewards == TOTAL_REWARD_TOKENS_WEI))
  }

  function SwapsOf(logs: seq<SwapLog>, priceData: PriceData, poolAddressMap: map<string, string>, blockList: seq<string>): Result<SwapReport, Fault>
  {
    match Valued(logs, priceData, poolAddressMap)
    case Err(e) => Err(e)
    case Ok(swaps) => ReportOf(swaps, blockList)
  }

  /** `processSwaps` over the swap logs and the price table, without the file writes. */
  method ProcessSwaps(logs: seq<SwapLog>, priceData: PriceData, poolAddressMap: map<string, string>, blockList: seq<string>) returns (r: Result<SwapReport, Fault>)
    ensures r == SwapsOf(logs, priceData, poolAddressMap, blockList)
  {
    var aggregated := AggregateSwaps(logs, priceData, poolAddressMap);
    if aggregated.Err? {
      return Err(aggregated.error);
    }
    var (swappers, totalSwapValue) := aggregated.value;
    TallyKeys(Valued(logs, priceData, poolAddressMap).value);
    var output := SortByValue(swappers);
    SortByValueKeys(swappers);
    var eligible, numberOfEligibleWallets := FilterEligible(output, blockList);
    var split := SplitRewards(eligible, numberOfEligibleWallets);
    if split.Err? {
      return Err(split.error);
    }
    var (rewards, rewardPerAddr, totalRewards) := split.value;
    r := Ok(SwapReport(output, totalSwapValue, rewards, numberOfEligibleWallets, rewardPerAddr,
                       totalRewards, totalRewards == TOTAL_REWARD_TOKENS_WEI));
  }

  /** An address is eligible exactly when it bought, its swaps add up to more than 100 USD, and it is not blocked. */
  lemma EligibleAddresses(swaps: Dict<real>, blockList: seq<string>, a: string)
    ensures a in KeySet(Eligible(SortByValue(Tally(swaps)), blockList)) <==>
      a in KeySet(swaps) && BuyerTotal(swaps, a) > 100.0 && a !in blockList
  {
    var t := Tally(swaps);
    var s := SortByValue(t);
    TallyKeys(swaps);
    EligibleMembers(s, blockList);
    GetKeys(t, a);
    KeySetMember(Eligible(s, blockList), a);
    var x := (a, BuyerTotal(swaps, a));
    TallyValues(swaps, a);
    if a in KeySet(Eligible(s, blockList)) {
      var i :| 0 <= i < |Eligible(s, blockList)| && Eligible(s, blockList)[i].0 == a;
      var y := Eligible(s, blockList)[i];
      assert y in s && y in multiset(s);
      assert y in t;
      UniqueMember(t, y);
      KeySetMember(t, a);
    }
    if a in KeySet(swaps) && BuyerTotal(swaps, a) > 100.0 && a !in blockList {
      UniqueMember(t, x);
      assert x in multiset(t);
      assert x in s;
      assert x in Eligible(s, blockList);
    }
  }

  /** The run fails with a division by zero exactly when no address is eligible. */
  lemma ReportNoEligible(swaps: Dict<real>, blockList: seq<string>)
    ensures ReportOf(swaps, blockList) == Err(DivisionByZero) <==>
      forall a :: a in KeySet(swaps) ==> BuyerTotal(swaps, a) <= 100.0 || a in blockList
    ensures ReportOf(swaps, blockList).Err? ==> ReportOf(swaps, blockList) == Err(DivisionByZero)
  {
    var e := Eligible(SortByValue(Tally(swaps)), blockList);
    forall a ensures a in KeySet(e) <==> a in KeySet(swaps) && BuyerTotal(swaps, a) > 100.0 && a !in blockList {
      EligibleAddresses(swaps, blockList, a);
    }
    if e == [] {
      KeySetMember(e, "");
    } else {
      assert e[0].0 in KeySet(e);
    }
  }

  /**
   * The addresses file of `processSwaps`: every swapper once, with the sum
   * of their swaps, rearranged in descending order; the total swap value is
   * the sum over all of them.
   */
  lemma ReportAddresses(swaps: Dict<real>, blockList: seq<string>)
    ensures var r := ReportOf(swaps, blockList);
      r.Ok? ==>
        && multiset(r.value.addresses) == multiset(Tally(swaps)) && DescendingValues(r.value.addresses)
        && UniqueKeys(r.value.addresses)
        && r.value.totalSwapValue == Total(Tally(swaps))
  {
    var t := Tally(swaps);
    TallyKeys(swaps);
    TallyTotal(swaps);
    SortByValueKeys(t);
  }

  /** The rewards object names the eligible addresses, in their order, each with the share as text that reads back as the share. */
  lemma RewardsOfMeaning(eligible: Dict<real>, rewardPerAddr: nat)
    ensures Keys(RewardsOf(eligible, rewardPerAddr)) == Keys(eligible)
    ensures forall i :: 0 <= i < |eligible| ==> ParseDecimal(RewardsOf(eligible, rewardPerAddr)[i].1) == Some(rewardPerAddr)
  {
    DecimalRoundTrip(rewardPerAddr);
  }

  /**
   * The rewards file of `processSwaps` goes to the eligible addresses, once
   * each, and counts them.
   */
  lemma ReportRewardKeys(swaps: Dict<real>, blockList: seq<string>)
    ensures var r := ReportOf(swaps, blockList);
      r.Ok? ==>
        && (forall a :: a in KeySet(r.value.rewards) <==> a in KeySet(swaps) && BuyerTotal(swaps, a) > 100.0 && a !in blockList)
        && UniqueKeys(r.value.rewards)
        && r.value.numberOfEligibleWallets == |r.value.rewards| > 0
  {
    var t := Tally(swaps);
    var s := SortByValue(t);
    var e := Eligible(s, blockList);
    if e != [] {
      var rewards := RewardsOf(e, Share(|e|));
      RewardsOfMeaning(e, Share(|e|));
      TallyKeys(swaps);
      SortByValueKeys(t);
      EligibleUnique(s, blockList);
      forall a ensures a in KeySet(rewards) <==> a in KeySet(swaps) && BuyerTotal(swaps, a) > 100.0 && a !in blockList {
        EligibleAddresses(swaps, blockList, a);
      }
    }
  }

  /**
   * Every reward of `processSwaps` is the same text, reading back as the
   * budget divided by the number of eligible addresses; the total handed
   * out falls short of the budget by the remainder of that division, so it
   * matches the budget exactly when the number divides it.
   */
  lemma ReportRewardShares(swaps: Dict<real>, blockList: seq<string>)
    ensures var r := ReportOf(swaps, blockList);
      r.Ok? ==>
        && (forall i :: 0 <= i < |r.value.rewards| ==> ParseDecimal(r.value.rewards[i].1) == Some(r.value.rewardPerAddr))
        && r.value.rewardPerAddr == Share(|r.value.rewards|)
        && TOTAL_REWARD_TOKENS_WEI - r.value.totalRewards == TOTAL_REWARD_TOKENS_WEI % |r.value.rewards|
        && (r.value.matchesBudget <==> TOTAL_REWARD_TOKENS_WEI % |r.value.rewards| == 0)
  {
    var e := Eligible(SortByValue(Tally(swaps)), blockList);
    if e != [] {
      RewardsOfMeaning(e, Share(|e|));
    }
  }
}
