# Saddle retroactive reward distribution, modelled in Dafny

This project models the scripts that compute Saddle's retroactive token
rewards from on-chain logs:

- **index.ts**: the LP replay without time weighting. It replays every LP-token
  transfer block by block from `START_BLOCK` to `END_BLOCK`, keeping each
  pool's holders and total supply. It shares every block's reward quantum
  among the holders in proportion to the USD value of their position, and
  counts blocks of the guarded launch twice.
- **lp.ts**: the same replay with one more quantity per holder, the time-weighted
  LP amount. Its block loop is inclusive of `END_BLOCK` and has no doubling.
  At the end it settles every holder's time weight at "now", writes each
  pool's amounts sorted in descending order, and regroups them by address.
- **swap.ts**: values every swap in USD at the minute's BTC or ETH price, or at
  one dollar for stablecoin pools. It adds up the values per buyer and sorts
  the buyers by total. It splits 5 million tokens equally among the buyers
  above 100 USD who are not on the block list.
- **merge.ts**: adds up the LP, veCRV and depositor reward files address by
  address and compares the total with the 135 million token budget.
- **galaxy.ts**: builds the three campaign lists:
  - Mezcal: every LP and every swapper;
  - Amphitrite: the first round(n/10) − 1 addresses of the LP rewards file,
    in file order. That order is the order in which addresses were first
    credited, so these are the earliest LPs. The file is not sorted by
    reward, although galaxy.ts:19 describes the list as the top 10% of LPs;
  - Alpha: the receivers of guarded-launch mints, each once and in order.
- **multisig.ts**: splits 5 million tokens by integer division among the
  seven multisig signers.

## How the model is built

- JavaScript objects, which are dictionaries that keep insertion order,
  are association lists `Dict<V> = seq<(string, V)>` in module `Dicts`.
  - `Put` replaces the value of an existing key where it stands and appends
    a new key at the end, as `obj[k] = v` does.
  - `AddTo` is the "create with zero if absent, then add" idiom.
- Every `throw`, and every `TypeError` the code would raise on a missing
  entry, is an error value:
  - `LpLogs.Fault` covers an unknown pool, a burn from an address with no
    record, a burn larger than the balance, a missing minute price and a
    division by zero;
  - `Merge.MergeError` covers a reward text that `BigNumber.from` refuses.
- `BigNumber` values are unbounded integers (`int`) and `div` is integer
  division. The divisions that occur have a non-negative dividend and a
  positive divisor, and the model shows where JavaScript would truncate a
  negative dividend (`Distribution.Quot`, `LpLogs.JsRem`).
- The stateful parts follow the code's own form:
  - The holder books of each replay are a `Ledger` class whose
    `ProcessMinting`/`ProcessBurning` methods update `allHolders` and
    `lpTokens` in place.
  - The block loops, the TVL loop, the distribution loops, the
    output-conversion loops, `processTimeWeightedAmount`, `groupByAddress`,
    the swap loops, the merge loops and `createAlphaList` are methods with
    loop invariants.
  - Each such method is proved equal to a specification function. The
    properties the scripts promise are lemmas about those functions:
    soundness of the books, the rewards staying within the budget,
    round-trips of the decimal output, sortedness and permutation, and
    key sets.

## Model

| member | source | states |
|---|---|---|
| Dicts.Put | lp.ts:88-102 | after `obj[k] = v`, `k` maps to `v` and every other key keeps its value |
| Dicts.PutKeys | lp.ts:88-102 | assigning a key adds it to the key set, keeps the order and place of existing keys, appends a new key at the end, and keeps keys unique |
| Dicts.PutPut | lp.ts:88-102 | assigning the same key twice is the same as assigning the last value once |
| Dicts.RemoveMembers | swap.ts:237 | after `delete obj[k]` the entries are exactly the old entries whose key is not `k` |
| Dicts.AddTo | merge.ts:35-36 | "zero if absent, then add" raises the key's value by the amount, leaves every other key alone and raises the sum by the amount |
| Dicts.AddToKeys | merge.ts:35-36 | "zero if absent, then add" adds the key to the key set and keeps keys unique |
| Dicts.SumPut | lp.ts:331-350 | assigning a key changes the sum of the values by the new value minus the old one |
| Dicts.IndexOfFirst | lp.ts:82 | key lookup finds the first entry with that key and fails exactly when the key is absent |
| Decimal.DecimalRoundTrip | index.ts:274 | `BigNumber.from(x.toString())` gives back `x` for every integer |
| Decimal.DecimalStringInjective | index.ts:274 | distinct integers are written as distinct decimal texts |
| LpLogs.SelectMembers | index.ts:210-222 | the filtered list holds exactly the logs of the input that pass the filter |
| LpLogs.SelectConcat | index.ts:210-222 | filtering a concatenation is concatenating the filtered parts |
| LpLogs.GroupOfSelects | index.ts:181-192 | a block is in the grouped map exactly when some log has that block number, and its entry is those logs in input order |
| LpLogs.GroupByBlock | index.ts:181-192 | the grouping loop builds exactly the grouped map of the logs |
| LpLogs.LegsOfBlock | index.ts:225-235 | the mint pass takes the mints and plain transfers, and the burn pass takes the burns and plain transfers |
| LpLogs.MinuteFloor | index.ts:204-207 | `t - t % 60` with JavaScript's truncating remainder is a multiple of 60 within the minute of `t` (and within the minute above `t` when `t` is negative) |
| LpLogs.MinuteFloorIdempotent | index.ts:204-207 | flooring a floored time changes nothing |
| LpLogs.BlockTimestamp | index.ts:204-240 | a block's time is the minute of its first log, or of the time estimated from 13-second blocks when the block has no logs |
| LpLogs.PricingAllPools | index.ts:244-248 | all five pools are priced exactly when the minute has both prices, and then each pool's price is the matching one |
| Distribution.Quot | index.ts:263-264 | BigNumber `div` truncates towards zero, which is Euclidean division for a non-negative dividend and a positive divisor |
| Distribution.ShareBounds | index.ts:263-264 | one holder's share `balance*price*quantum div tvl` is non-negative and falls short of the exact quotient by less than 1 |
| Distribution.CreditAllSum | index.ts:255-268 | the distribution loop raises the rewards' sum by the sum of the shares and adds exactly the holders to the reward keys |
| Distribution.CreditAllUnique | index.ts:255-268 | the distribution loop keeps the reward keys unique |
| Distribution.BlockSharesBounds | index.ts:244-268 | the shares of a block times the TVL lie between `quantum*TVL` minus the rounding of each pair and `quantum*TVL` |
| Distribution.BlockDistributionBounds | index.ts:244-268 | a block with positive TVL hands out at most its quantum and loses less than one unit per holder position to rounding |
| IndexLedger.BalancesKeys | index.ts:62-113 | the balance view of a pool has the same addresses, in the same order, as its holder records |
| IndexLedger.MintIntoSum | index.ts:72-89 | a mint raises the receiver's balance and the pool's balance sum by the amount |
| IndexLedger.MintIntoRecord | index.ts:73-89 | a mint stamps the receiver's last action and keeps the first-observed time of a known holder; a new holder starts with the amount and both times set to the log's time; no other record changes |
| IndexLedger.DebitFromSum | index.ts:107-112 | a burn lowers the sender's balance and the pool's balance sum by the amount |
| IndexLedger.DebitFromRecord | index.ts:107-112 | a burn stamps the sender's last action, keeps its first-observed time, and changes no other record and no address |
| IndexLedger.InitialBooksSound | index.ts:157-170 | the five empty pools with zero supply are sound books |
| IndexLedger.MintSucceeds | index.ts:62-90 | a mint fails exactly when its pool is unknown |
| IndexLedger.MintSound | index.ts:62-90 | a mint keeps the books sound: balances non-negative and each pool's supply equal to the sum of its balances |
| IndexLedger.MintFrame | index.ts:72 | a mint keeps the pools, loses no holder, and raises only its own pool's supply, by the amount |
| IndexLedger.BurnSucceeds | index.ts:98-105 | a burn fails exactly when the pool is unknown, the sender has no record, or the amount exceeds the sender's balance |
| IndexLedger.BurnSound | index.ts:92-113 | a burn that succeeds keeps the books sound |
| IndexLedger.BurnFrame | index.ts:107 | a burn keeps the pools, loses no holder, and lowers only its own pool's supply, by the amount |
| IndexLedger.MintAllSucceeds | index.ts:226-229 | the mint pass fails exactly when some log names an unknown pool |
| IndexLedger.MintAllSound | index.ts:226-229 | the mint pass keeps the books sound |
| IndexLedger.MintAllFrame | index.ts:226-229 | the mint pass raises each pool's supply by the amounts of its logs |
| IndexLedger.BurnAllSound | index.ts:232-235 | the burn pass keeps the books sound |
| IndexLedger.BurnAllFrame | index.ts:232-235 | the burn pass lowers each pool's supply by the amounts of its logs |
| IndexLedger.AmountInConcat | index.ts:226-235 | the amount a pass moves in a pool adds up over concatenated log lists |
| IndexLedger.ApplyBlockSound | index.ts:225-235 | a block's mints-then-burns keep the books sound |
| IndexLedger.ApplyBlockFrame | index.ts:225-235 | a block changes each pool's supply by its minted amount minus its burned amount, and loses no holder |
| IndexLedger.Ledger.constructor | index.ts:157-170 | the ledger starts with the five empty pools at zero supply |
| IndexLedger.Ledger.ProcessMinting | index.ts:62-90 | `processMinting` updates the ledger in place to the mint's result, or leaves it unchanged and reports an unknown pool |
| IndexLedger.Ledger.ProcessBurning | index.ts:92-113 | `processBurning` updates the ledger in place to the burn's result, or leaves it unchanged and reports the fault (no record, or a burn exceeding the balance) |
| IndexReplay.QuantaFromClosedForm | index.ts:16-19 | the quanta from a block to the end add up to the per-block amount times the blocks left, with the guarded-launch blocks counted twice |
| IndexReplay.QuantaTotal | index.ts:16-19 | over the whole replay the quanta add up to the per-block amount times `TOTAL_BLOCKS`, the doubled block count |
| IndexReplay.ViewsHolders | index.ts:255-258 | the addresses the distribution loop visits are exactly the holders of the five pools |
| IndexReplay.DistributeKeeps | index.ts:255-268 | one block's distribution keeps the reward keys unique, adds the holders to them, and raises the reward total by at most the quantum |
| IndexReplay.StepKeeps | index.ts:195-268 | one block of the replay keeps the books sound and the rewards consistent, and raises the reward total by at most that block's quantum |
| IndexReplay.ReplayKeeps | index.ts:195-268 | the replay from any block to the end keeps the invariant and hands out at most the quanta of those blocks |
| IndexReplay.ReplayWithinBudget | index.ts:195-286 | a replay that does not fault hands out between 0 and `TOKENS_PER_BLOCK * TOTAL_BLOCKS`, rewards exactly the addresses holding an LP record, each once, and leaves sound books |
| IndexReplay.RenderRoundTrip | index.ts:272-277 | the written output has the reward addresses in order, unique, and each text reads back as its reward |
| IndexReplay.ConvertOutput | index.ts:272-277 | the output loop writes every reward as text and adds up the distributed total |
| IndexReplay.ApplyMints | index.ts:226-229 | the mint loop leaves the ledger at the mint pass's result or reports its fault |
| IndexReplay.ApplyBurns | index.ts:232-235 | the burn loop leaves the ledger at the burn pass's result or reports its fault |
| IndexReplay.ApplyBlockLogs | index.ts:202-236 | a block's logs leave the ledger at the block's result or report its fault |
| IndexReplay.TotalUsdTvl | index.ts:244-248 | the TVL loop succeeds exactly when every pool is priced and then returns the sum of supply times price |
| IndexReplay.CreditHolders | index.ts:257-266 | crediting one pool adds each holder's share, and faults on a zero TVL exactly when the pool has holders |
| IndexReplay.DistributeRewards | index.ts:255-268 | the distribution loop over the five pools computes the block's distribution or its fault |
| IndexReplay.PriceAndDistribute | index.ts:243-268 | after a block's logs, the block faults with the missing price when its minute lacks a price, and otherwise shares out its quantum by the pools' TVL |
| IndexReplay.ProcessBlock | index.ts:195-268 | one iteration of the block loop is one replay step |
| IndexReplay.ProcessBlocks | index.ts:195-268 | the block loop computes the replay, faulting with the replay's fault |
| IndexReplay.ProcessAllLogs | index.ts:156-286 | `processAllLogs` faults exactly when the replay does, and otherwise reports the replay's rewards as text, their total, and whether the total is the 120 million token budget |
| LpLedger.MintIntoRecords | lp.ts:81-103 | lp.ts's mint agrees with index.ts's mint on everything but the time weight |
| LpLedger.DebitFromRecords | lp.ts:124-130 | lp.ts's burn agrees with index.ts's burn on everything but the time weight |
| LpLedger.MintIntoRecord | lp.ts:82-103 | a mint adds the old balance times the elapsed time to a known holder's time weight; a new holder starts at weight 0 |
| LpLedger.DebitFromRecord | lp.ts:115-130 | a burn adds the old balance times the elapsed time to the sender's time weight and lowers the balance by the amount |
| LpLedger.InitialBooks | lp.ts:222-237 | lp.ts starts from the same five empty pools as index.ts |
| LpLedger.MintProject | lp.ts:72-104 | a mint faults, or succeeds, exactly as index.ts's does, with the same books apart from time weights |
| LpLedger.BurnProject | lp.ts:106-131 | a burn faults, or succeeds, exactly as index.ts's does, with the same books apart from time weights |
| LpLedger.ApplyBlockProject | lp.ts:290-301 | a block's mint and burn passes agree with index.ts's on everything but time weights |
| LpLedger.MintSound | lp.ts:72-104 | a mint keeps the books sound |
| LpLedger.BurnSound | lp.ts:106-131 | a burn keeps the books sound |
| LpLedger.MintChronological | lp.ts:82-103 | with logs in time order, a mint keeps every record's times ordered and time weights non-negative, and no time weight decreases |
| LpLedger.BurnChronological | lp.ts:115-130 | with logs in time order, a burn keeps every record's times ordered and time weights non-negative, and no time weight decreases |
| LpLedger.ApplyBlockChronological | lp.ts:290-301 | a block whose logs share one time keeps the books chronological and no time weight decreases |
| LpLedger.Ledger.constructor | lp.ts:223-236 | the ledger starts with the five empty pools at zero supply |
| LpLedger.Ledger.ProcessMinting | lp.ts:72-104 | `processMinting` updates the ledger in place to the mint's result, or leaves it unchanged and reports an unknown pool |
| LpLedger.Ledger.ProcessBurning | lp.ts:106-131 | `processBurning` updates the ledger in place to the burn's result, or leaves it unchanged and reports the fault |
| LpOutput.SettleAllKeeps | lp.ts:144-150 | settling changes no balance or timestamp, and with a history up to `now` no time weight decreases |
| LpOutput.InsertDesc | lp.ts:155-161 | inserting adds exactly the new entry to the entries |
| LpOutput.InsertDescOrder | lp.ts:155-161 | inserting into a descending list keeps it descending |
| LpOutput.SortDesc | lp.ts:155-161 | the comparator sort gives a permutation of the entries in descending order of amount |
| LpOutput.PoolOutputSorted | lp.ts:141-161 | a pool's output holds readable decimal texts in descending order, and reads back as a permutation of the settled time weights |
| LpOutput.TimeWeightedOutputEntries | lp.ts:141-162 | the output has one entry per pool, in pool order, each that pool's sorted output |
| LpOutput.TimeWeightedOutputKeys | lp.ts:141-162 | the output's keys are the pools, in order |
| LpOutput.SettledHoldersMeaning | lp.ts:141-152 | settling the listed pools settles each of them and leaves every other pool untouched |
| LpOutput.SettlePool | lp.ts:144-151 | the inner loop settles each holder and collects the time weights |
| LpOutput.SettleAndWritePool | lp.ts:141-161 | one pool's iteration settles that pool in place and writes its sorted output |
| LpOutput.ProcessTimeWeightedAmount | lp.ts:133-165 | `processTimeWeightedAmount` settles every pool in place, writes every pool's sorted output, and counts the holder positions |
| LpOutput.PlaceLookup | lp.ts:173-179 | placing a value under (address, pool) changes that cell only |
| LpOutput.GroupPoolLookup | lp.ts:173-179 | grouping one pool fills exactly that pool's column for its addresses |
| LpOutput.GroupAllTransposes | lp.ts:167-187 | the grouped output is the transpose of the per-pool output: address `a` has pool `p` with value `v` exactly when pool `p` has address `a` with value `v` |
| LpOutput.GroupAllKeys | lp.ts:167-187 | the grouped output names every address of any pool exactly once |
| LpOutput.GroupPoolInto | lp.ts:172-182 | one pool's loop groups its entries and counts the addresses it adds |
| LpOutput.GroupByAddress | lp.ts:167-187 | `groupByAddress` builds the transposed output and counts the distinct addresses |
| LpReplay.QuantaFromClosedForm | lp.ts:261 | with the inclusive loop and no doubling, the quanta from a block add up to the per-block amount times the blocks left including `END_BLOCK` |
| LpReplay.QuantaTotal | lp.ts:14-20 | over the whole replay the quanta add up to `TOKENS_PER_BLOCK * (TOTAL_BLOCKS + 1)`, one block more than `TOTAL_BLOCKS` |
| LpReplay.StepKeeps | lp.ts:261-354 | one block keeps the books sound and the rewards consistent, and raises the total by at most the per-block amount |
| LpReplay.ReplayKeeps | lp.ts:261-354 | the replay from any block keeps the invariant and hands out at most the quanta of the blocks left |
| LpReplay.ReplayWithinBudget | lp.ts:261-369 | a replay that does not fault hands out between 0 and `TOKENS_PER_BLOCK * (TOTAL_BLOCKS + 1)`, rewards exactly the LP holders, each once, and leaves sound books |
| LpReplay.Earliest | lp.ts:261-301 | the earliest log time is no later than every log and no later than `now` |
| LpReplay.GroupInOrder | lp.ts:247-258 | logs whose times follow their block numbers stay in order once grouped |
| LpReplay.ReplayChronological | lp.ts:261-354 | replaying logs in time order keeps the books chronological and time weights never decrease |
| LpReplay.ReplayTimeWeighted | lp.ts:133-165 | with logs in time order up to `now`, every settled time weight is the accrued amount, at least the saved weight and non-negative |
| LpReplay.SettleChronological | lp.ts:144-150 | on chronological books every settled time weight equals the accrued amount and is at least the saved weight |
| LpReplay.GroupOfNoEmptyBlock | lp.ts:247-258 | every grouped block has at least one log, so `blocks[0]` exists |
| LpReplay.ApplyMints | lp.ts:291-295 | the mint loop leaves the ledger at the mint pass's result or reports its fault |
| LpReplay.ApplyBurns | lp.ts:297-301 | the burn loop leaves the ledger at the burn pass's result or reports its fault |
| LpReplay.ApplyBlockLogs | lp.ts:267-301 | a block's logs leave the ledger at the block's result or report its fault |
| LpReplay.TotalUsdTvl | lp.ts:310-323 | the TVL loop succeeds exactly when every pool is priced and then returns the sum of supply times price |
| LpReplay.CreditHolders | lp.ts:329-352 | crediting one pool adds each holder's share, and faults on a zero TVL exactly when the pool has holders |
| LpReplay.DistributeRewards | lp.ts:328-353 | the distribution loop computes the block's distribution or its fault |
| LpReplay.PriceAndDistribute | lp.ts:309-353 | after a block's logs, the block faults with the missing price when its minute lacks a price, and otherwise shares out TOKENS_PER_BLOCK by the pools' TVL |
| LpReplay.ProcessBlock | lp.ts:261-354 | one iteration of the block loop is one replay step |
| LpReplay.ProcessBlocks | lp.ts:261-354 | the block loop computes the replay, faulting with the replay's fault |
| LpReplay.TotalRewards | lp.ts:357-360 | the sanity-check loop adds up all rewards |
| LpReplay.Finish | lp.ts:357-394 | the end of the script reports the detailed holders, the settled and sorted per-pool output, the output grouped by address, both counts, the total and whether it is the budget |
| LpReplay.ProcessAllLogs | lp.ts:222-395 | `processAllLogs` faults exactly when the replay does, and otherwise reports on the replay's books and rewards |
| Swap.FirstCharAbsent | swap.ts:177-179 | a name without the first letter of `part` does not include `part` |
| Swap.SwapTokenPrice | swap.ts:175-183 | a pool name without "BTC" or "ETH" is priced at 100 cents; otherwise a missing price is the only error |
| Swap.PoolNames | swap.ts:37-48 | the pool map names only the ten known pools |
| Swap.BtcPools | swap.ts:175-183 | BTC, BTCv2 and tBTCv2 are priced at the minute's BTC price |
| Swap.EthPools | swap.ts:175-183 | vETH2 and alETH are priced at the minute's ETH price |
| Swap.StablePools | swap.ts:175-183 | the five stablecoin pools are priced at 100 cents whatever the minute |
| Swap.PoolsPriced | swap.ts:175-183 | with both prices present every mapped pool is priced |
| Swap.SwapValue | swap.ts:193-205 | an unmapped pool is an error, and the only other error is a missing price |
| Swap.SwapValueMeaning | swap.ts:199-205 | a swap's value is the tokens sold times the price in cents divided by 100: the amount itself in a stablecoin pool, the BTC or ETH price otherwise |
| Swap.ValuedMeaning | swap.ts:190-217 | the valuation pass succeeds with one value per log, in order, or fails with the fault of some log |
| Swap.ValuedStops | swap.ts:190-217 | valuation stops at the first log that faults, with its fault |
| Swap.TallyKeys | swap.ts:209-215 | the per-buyer tally names each buyer exactly once |
| Swap.TallyValues | swap.ts:209-215 | each buyer's tallied value is the sum of that buyer's swap values |
| Swap.TallyTotal | swap.ts:209-216 | the tally adds up to the running total of all swap values |
| Swap.AddSwap | swap.ts:209-216 | one iteration adds the swap to its buyer's total and to the running total |
| Swap.AggregateSwaps | swap.ts:190-217 | the swap loop faults with the valuation's fault, or returns the per-buyer tally and the total value |
| Swap.InsertByValue | swap.ts:220-222 | inserting adds exactly the new entry to the buyers |
| Swap.InsertByValueOrder | swap.ts:220-222 | inserting into a list in descending order of value keeps it in that order |
| Swap.SortByValue | swap.ts:220-222 | the sort gives a permutation of the buyers in descending order of value |
| Swap.SortByValueKeys | swap.ts:220-222 | sorting keeps the buyers and their uniqueness |
| Swap.EligibleMembers | swap.ts:234-241 | the filtered output keeps exactly the entries over 100 USD whose address is not blocked |
| Swap.EligibleUnique | swap.ts:234-241 | filtering keeps keys unique |
| Swap.FilterStep | swap.ts:234-241 | deleting the current ineligible entry while iterating matches filtering the prefix, and counting the current eligible entry adds one |
| Swap.FilterEligible | swap.ts:232-241 | the delete-while-iterating loop leaves exactly the eligible entries and counts them |
| Swap.Share | swap.ts:244-245 | each eligible address gets the budget divided by their number, and the shortfall is the remainder |
| Swap.RewardsOfMeaning | swap.ts:247-250 | the reward output keeps the eligible addresses in order and writes the same share as text for each |
| Swap.SplitRewards | swap.ts:243-250 | with no eligible address the split is a division by zero; otherwise every address gets the share and the total is share times their number |
| Swap.ProcessSwaps | swap.ts:185-256 | `processSwaps` computes the swap report or its fault |
| Swap.EligibleAddresses | swap.ts:209-241 | an address is rewarded exactly when it swapped, its total is over 100 USD and it is not blocked |
| Swap.ReportNoEligible | swap.ts:243-245 | the script faults after valuation exactly when no buyer is over 100 USD and unblocked, and then only with the division by zero |
| Swap.ReportAddresses | swap.ts:219-222 | the addresses output is a permutation of the per-buyer tally in descending order, each buyer once, and the total value is the tally's sum |
| Swap.ReportRewardKeys | swap.ts:234-250 | the rewards name exactly the eligible buyers, each once, and the count of eligible wallets is their number, which is positive |
| Swap.ReportRewardShares | swap.ts:243-256 | every reward text reads back as the share; the total falls short of the budget by the budget modulo the number of addresses; the sanity check passes exactly when that remainder is 0 |
| Merge.ParseRewardsMeaning | merge.ts:34-36 | reading a reward file succeeds exactly when every text is a decimal integer, and then keeps the addresses in order with the parsed values |
| Merge.ParseRewardsError | merge.ts:34-36 | a failed read names the first entry whose text is not a decimal integer |
| Merge.ParseRender | merge.ts:34-36 | reading back a file the reward scripts wrote gives the rewards they wrote |
| Merge.AddInto | merge.ts:34-37 | adding a file into the merged rewards raises their sum by the file's sum |
| Merge.AddIntoMeaning | merge.ts:34-37 | adding a file gives the union of the addresses, keeps them unique, and raises each address's value by its reward in the file |
| Merge.AddRewards | merge.ts:34-37 | one merge loop adds the file into the merged rewards, or stops at the first text it cannot read |
| Merge.ParseRewardsPrefix | merge.ts:34-37 | once a prefix of a file fails to read, the whole file fails with the same error |
| Merge.ParsedReward | merge.ts:34-37 | the parsed reward of an address is its reward in the file, or 0 when absent |
| Merge.SameKeys | merge.ts:34-37 | reading a file keeps its address set and its uniqueness |
| Merge.MergedKeys | merge.ts:33-56 | the merged rewards name the union of the three files' addresses, each once |
| Merge.MergeRewards | merge.ts:25-66 | `mergeRewards` computes the merge report or the first unreadable reward |
| Merge.MergeMeaning | merge.ts:25-66 | the merge succeeds exactly when all three files read; each address's output reads back as the sum of its three rewards; the total is the sum of the three files' totals; the check passes exactly when that is 135 million tokens |
| Galaxy.MezcalMeaning | galaxy.ts:32-34 | the Mezcal list is the LPs followed by the swappers, duplicates kept |
| Galaxy.Cutoff | galaxy.ts:37 | `Math.round(len / 10)` is the nearest whole number with halves rounded up |
| Galaxy.AmphitriteMeaning | galaxy.ts:36-39 | the Amphitrite list is a prefix of the LPs; from 5 LPs on it has one fewer than the rounded tenth; below 5 it keeps all but the last |
| Galaxy.CreateAlphaList | galaxy.ts:41-54 | the loop with its insertion-ordered set builds the Alpha list |
| Galaxy.AlphaMembers | galaxy.ts:41-54 | an address is on the Alpha list exactly when it received a mint before the end of the guarded launch, and it is there once |
| Galaxy.FirstMintMember | galaxy.ts:41-54 | an address has a first guarded-launch mint exactly when it is on the Alpha list |
| Galaxy.AlphaOrder | galaxy.ts:41-54 | the Alpha list is ordered by each address's first guarded-launch mint |
| Galaxy.ProcessGalaxyList | galaxy.ts:56-59 | `processGalaxyList` builds the Mezcal, Amphitrite and Alpha lists |
| Multisig.SignersDistinct | multisig.ts:21-29 | the seven signers are distinct addresses |
| Multisig.RowsSum | multisig.ts:31-35 | the rows add up to the number of signers times the reward |
| Multisig.ProcessMultisig | multisig.ts:16-41 | every signer, each once, gets the budget divided by 7 written as text; the total falls short of 5 million tokens by 5 of the smallest unit, so the sanity check fails |

## Left out

- File input and output are not modelled:
  - reading the JSON log files and the price CSV (`loadPriceData`);
  - writing the JSON results.

  The logs, the reward files and the price table are parameters. A missing
  price or an empty CSV field is `None`.
- Timestamps are taken as given integers of seconds. `Date.parse` and
  `new Date(...)` on the log strings are not modelled.
- `new Date()` ("now" in lp.ts) is a parameter of
  `LpReplay.ProcessAllLogs` and `LpOutput.ProcessTimeWeightedAmount`.
- `TOKENS_PER_BLOCK` is a parameter. Computing it with `parseUnits` of a
  floating-point quotient is not modelled, because floating point is out
  of scope.
- ethers' `formatUnits` is not modelled, and the budget checks compare
  integers instead.
  - `IndexReplay.ProcessAllLogs` and `LpReplay.ProcessAllLogs` report
    `matchesBudget` as "total == 120 million tokens". They do not model the
    exact strings compared, and `formatUnits` writes a trailing ".0" for
    whole numbers.
  - Because of that ".0", the scripts' own string comparison can never
    pass. `matchesBudget` is the integer comparison it was meant to make,
    and it can be true.
  - `console.log` and `console.assert` are not modelled.
- `LpLogs.LpTransferLog`: transfer amounts are taken as `nat`, because
  ERC-20 transfer values are unsigned. The scripts read them as decimal
  strings with `BigNumber.from`, which would also accept a negative one.
  The "balances are non-negative" half of `IndexLedger.MintSound`,
  `LpLedger.MintSound` and of `Sound` in every replay lemma rests on this.
- `parseUnits(price, 2)` is not modelled. Prices are given as whole cents
  (`nat`).
- Swap values are computed with JavaScript floating point (`parseFloat`,
  `/ 100`) but are modelled as exact `real` numbers.
  - `tokensSold` is given already scaled by the sold token's decimals, so
    `POOL_ASSET_DECIMAL_MAP` and `formatUnits` are not modelled.
  - `Swap.ReportAddresses` states the order as "descending". It does not
    state where ties end up, because the stability of
    `Array.prototype.sort` is not modelled.
- `LpOutput.SortDesc` likewise states descending order and a permutation,
  but not the relative order of equal amounts.
- In swap.ts the addresses file is written before the division by zero
  that a report without eligible wallets raises. With no file I/O, the
  model reports only the fault.
- `BigNumber.from` also accepts hexadecimal strings, but
  `Decimal.ParseDecimal` reads only optionally signed base-10 integers.
  Reward files written by these scripts are decimal (`Merge.ParseRender`).
- The reward files read by merge.ts are dictionaries with unique keys, as
  JSON objects are. `Merge.MergeRewards` therefore requires unique keys.
- galaxy.ts's `lpAddresses` and `swapperAddresses` are the key lists of two
  reward files, given as parameters.
- Balances after a fault are not modelled. A thrown error ends the script,
  so the model returns the fault and no further state.
- `Promise.all` over async callbacks in index.ts runs no real concurrency.
  The callbacks do not await, so the model runs them one after the other
  in key order.
- `LpReplay.ReplayTimeWeighted` needs the logs' times to follow their block
  numbers and to be no later than `now`. This holds for chain data but is
  not checked by lp.ts, so it is a hypothesis of that lemma, not a
  precondition of any method.
- depositors.ts and eps.ts are not part of this model.
