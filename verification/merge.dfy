/**
 * merge.ts: the rewards of the historical LPs, of the veCRV holders and of
 * the early depositors are added up per address into one rewards object,
 * whose total is checked against the 135 million token budget.
 *
 * A rewards file is an object from address to a base-10 integer text; as a
 * parsed JSON object its keys are distinct.
 */
module Merge {
  import opened Wrappers
  import opened Dicts
  import opened Decimal
  import IndexReplay

  const TOTAL_EXPECTED_REWARD_TOKENS: nat := 135_000_000
  /** TOTAL_EXPECTED_REWARD_TOKENS with 18 decimals. */
  const TOTAL_EXPECTED_REWARD_TOKENS_WEI: nat := TOTAL_EXPECTED_REWARD_TOKENS * 1_000_000_000_000_000_000

  /** `BigNumber.from(reward)` throws on a text that is not an integer. */
  datatype MergeError = InvalidReward(address: string, reward: string)

  // ---------------------------------------------------------------------------
  // Reading a rewards file

  /**
   * Every reward of a file read as a number, in the file's order; the first
   * text that is not a base-10 integer is the error.
   */
  function ParseRewards(rewards: Dict<string>): Result<Dict<int>, MergeError>
    decreases |rewards|
  {
    if rewards == [] then Ok([])
    else
      var n := |rewards| - 1;
      match ParseRewards(rewards[..n])
      case Err(e) => Err(e)
      case Ok(parsed) =>
        match ParseDecimal(rewards[n].1)
        case None => Err(InvalidReward(rewards[n].0, rewards[n].1))
        case Some(v) => Ok(parsed + [(rewards[n].0, v)])
  }

  /**
   * A file reads without error exactly when every reward is an integer text;
   * the numbers then keep the file's addresses and order.
   */
  lemma {:induction false} ParseRewardsMeaning(rewards: Dict<string>)
    ensures ParseRewards(rewards).Ok? <==> forall i :: 0 <= i < |rewards| ==> ParseDecimal(rewards[i].1).Some?
    ensures ParseRewards(rewards).Ok? ==>
      && Keys(ParseRewards(rewards).value) == Keys(rewards)
      && forall i :: 0 <= i < |rewards| ==> ParseDecimal(rewards[i].1) == Some(ParseRewards(rewards).value[i].1)
    decreases |rewards|
  {
    if rewards != [] {
      var n := |rewards| - 1;
      ParseRewardsMeaning(rewards[..n]);
      assert forall i :: 0 <= i < n ==> rewards[..n][i] == rewards[i];
      if ParseRewards(rewards[..n]).Ok? && ParseDecimal(rewards[n].1).Some? {
        var parsed := ParseRewards(rewards[..n]).value;
        assert ParseRewards(rewards).value == parsed + [(rewards[n].0, ParseDecimal(rewards[n].1).value)];
      }
    }
  }

  /** A file that does not read names its first reward that is not an integer text. */
  lemma {:induction false} ParseRewardsError(rewards: Dict<string>)
    ensures ParseRewards(rewards).Err? ==>
      exists i :: 0 <= i < |rewards| && ParseDecimal(rewards[i].1).None? &&
        ParseRewards(rewards).error == InvalidReward(rewards[i].0, rewards[i].1) &&
        forall j :: 0 <= j < i ==> ParseDecimal(rewards[j].1).Some?
    decreases |rewards|
  {
    if rewards != [] {
      var n := |rewards| - 1;
      ParseRewardsError(rewards[..n]);
      ParseRewardsMeaning(rewards[..n]);
      assert forall i :: 0 <= i < n ==> rewards[..n][i] == rewards[i];
    }
  }

  /** Reading back a rewards object written with `toString()` gives its numbers. */
  lemma {:induction false} ParseRender(rewards: Dict<int>)
    ensures ParseRewards(IndexReplay.Render(rewards)) == Ok(rewards)
    decreases |rewards|
  {
    if rewards != [] {
      var n := |rewards| - 1;
      var text := IndexReplay.Render(rewards);
      assert text[..n] == IndexReplay.Render(rewards[..n]);
      assert text[n] == (rewards[n].0, DecimalString(rewards[n].1));
      ParseRender(rewards[..n]);
      DecimalRoundTrip(rewards[n].1);
      assert ParseRewards(text) == Ok(rewards[..n] + [(rewards[n].0, rewards[n].1)]);
      assert rewards[..n] + [(rewards[n].0, rewards[n].1)] == rewards;
    }
  }

  // ---------------------------------------------------------------------------
  // Adding a rewards file into the merged rewards

  /** `mergedRewards[address] = (mergedRewards[address] || 0) + reward` for every entry, in order. */
  function AddInto(merged: Dict<int>, rewards: Dict<int>): (r: Dict<int>)
    ensures Sum(r) == Sum(merged) + Sum(rewards)
    decreases |rewards|
  {
    if rewards == [] then merged
    else
      var n := |rewards| - 1;
      AddTo(AddInto(merged, rewards[..n]), rewards[n].0, rewards[n].1)
  }

  /** Adding a file makes its addresses keys, keeps the keys distinct, and adds each reward to its address. */
  lemma {:induction false} AddIntoMeaning(merged: Dict<int>, rewards: Dict<int>)
    requires UniqueKeys(rewards)
    ensures KeySet(AddInto(merged, rewards)) == KeySet(merged) + KeySet(rewards)
    ensures UniqueKeys(merged) ==> UniqueKeys(AddInto(merged, rewards))
    ensures forall a :: GetOr(AddInto(merged, rewards), a, 0) == GetOr(merged, a, 0) + GetOr(rewards, a, 0)
    decreases |rewards|
  {
    if rewards != [] {
      var n := |rewards| - 1;
      var prefix := rewards[..n];
      var (k, v) := rewards[n];
      assert UniqueKeys(prefix);
      AddIntoMeaning(merged, prefix);
      AddToKeys(AddInto(merged, prefix), k, v);
      KeySetLast(rewards);
      UniqueSplit(rewards, n);
      forall a ensures GetOr(rewards, a, 0) == GetOr(prefix, a, 0) + (if a == k then v else 0) {
        GetLast(rewards, a);
        GetKeys(prefix, a);
      }
    }
  }

  /**
   * One of the three loops of `mergeRewards`: reads every reward of the file
   * and adds it into the merged rewards; the first reward that is not an
   * integer text stops the run.
   */
  method AddRewards(mergedRewards: Dict<int>, rewards: Dict<string>) returns (r: Result<Dict<int>, MergeError>)
    ensures ParseRewards(rewards).Err? ==> r == Err(ParseRewards(rewards).error)
    ensures ParseRewards(rewards).Ok? ==> r == Ok(AddInto(mergedRewards, ParseRewards(rewards).value))
  {
    var merged := mergedRewards;
    for i := 0 to |rewards|
      invariant ParseRewards(rewards[..i]).Ok?
      invariant merged == AddInto(mergedRewards, ParseRewards(rewards[..i]).value)
    {
      var (address, reward) := rewards[i];
      assert rewards[..i + 1][..i] == rewards[..i];
      var parsed := ParseRewards(rewards[..i]).value;
      var amount := ParseDecimal(reward);
      if amount.None? {
        ParseRewardsPrefix(rewards, i + 1);
        return Err(InvalidReward(address, reward));
      }
      assert ParseRewards(rewards[..i + 1]).value == parsed + [(address, amount.value)];
      assert (parsed + [(address, amount.value)])[..|parsed|] == parsed;
      merged := AddTo(merged, address, amount.value);
    }
    assert rewards[..|rewards|] == rewards;
    r := Ok(merged);
  }

  /** A file whose first `i` rewards do not all read fails as that prefix does. */
  lemma {:induction false} ParseRewardsPrefix(rewards: Dict<string>, i: nat)
    requires i <= |rewards| && ParseRewards(rewards[..i]).Err?
    ensures ParseRewards(rewards) == ParseRewards(rewards[..i])
    decreases |rewards| - i
  {
    if i < |rewards| {
      assert rewards[..i + 1][..i] == rewards[..i];
      ParseRewardsPrefix(rewards, i + 1);
    } else {
      assert rewards[..i] == rewards;
    }
  }

  // ---------------------------------------------------------------------------
  // mergeRewards

  /** What `mergeRewards` ends with: the rewards object, its total and whether that is the budget. */
  datatype MergeReport = MergeReport(output: Dict<string>, totalRewards: int, matchesExpected: bool)

  /** The three files read and added in turn: LP rewards, veCRV rewards, depositor rewards. */
  function MergedOf(lpRewards: Dict<string>, vecrvRewards: Dict<string>, depositorRewards: Dict<string>): Result<Dict<int>, MergeError>
  {
    match ParseRewards(lpRewards)
    case Err(e) => Err(e)
    case Ok(lp) =>
      match ParseRewards(vecrvRewards)
      case Err(e) => Err(e)
      case Ok(vecrv) =>
        match ParseRewards(depositorRewards)
        case Err(e) => Err(e)
        case Ok(dep) => Ok(AddInto(AddInto(AddInto([], lp), vecrv), dep))
  }

  function MergeOf(lpRewards: Dict<string>, vecrvRewards: Dict<string>, depositorRewards: Dict<string>): Result<MergeReport, MergeError>
  {
    match MergedOf(lpRewards, vecrvRewards, depositorRewards)
    case Err(e) => Err(e)
    case Ok(merged) =>
      Ok(MergeReport(IndexReplay.Render(merged), Sum(merged), Sum(merged) == TOTAL_EXPECTED_REWARD_TOKENS_WEI))
  }

  /** `mergeRewards` over the three rewards files, without the file write. */
  method MergeRewards(lpRewards: Dict<string>, vecrvRewards: Dict<string>, depositorRewards: Dict<string>)
    returns (r: Result<MergeReport, MergeError>)
    requires UniqueKeys(lpRewards) && UniqueKeys(vecrvRewards) && UniqueKeys(depositorRewards)
    ensures r == MergeOf(lpRewards, vecrvRewards, depositorRewards)
  {
    var lp := AddRewards([], lpRewards);
    if lp.Err? {
      return Err(lp.error);
    }
    var vecrv := AddRewards(lp.value, vecrvRewards);
    if vecrv.Err? {
      return Err(vecrv.error);
    }
    var dep := AddRewards(vecrv.value, depositorRewards);
    if dep.Err? {
      return Err(dep.error);
    }
    MergedKeys(lpRewards, vecrvRewards, depositorRewards);
    var output, totalRewards := IndexReplay.ConvertOutput(dep.value);
    r := Ok(MergeReport(output, totalRewards, totalRewards == TOTAL_EXPECTED_REWARD_TOKENS_WEI));
  }

  /** The reward an input file gives an address: its number, or 0 when the address is not in it. */
  function RewardOf(rewards: Dict<string>, a: string): int
  {
    match Get(rewards, a)
    case None => 0
    case Some(text) => match ParseDecimal(text) case None => 0 case Some(v) => v
  }

  /** A file read without error gives every address the reward `RewardOf` finds for it. */
  lemma ParsedReward(rewards: Dict<string>, a: string)
    requires ParseRewards(rewards).Ok?
    ensures GetOr(ParseRewards(rewards).value, a, 0) == RewardOf(rewards, a)
  {
    var parsed := ParseRewards(rewards).value;
    ParseRewardsMeaning(rewards);
    IndexOfSameKeys(parsed, rewards, a);
  }

  /** The merged keys are distinct and are the addresses of the three files. */
  lemma MergedKeys(lpRewards: Dict<string>, vecrvRewards: Dict<string>, depositorRewards: Dict<string>)
    requires UniqueKeys(lpRewards) && UniqueKeys(vecrvRewards) && UniqueKeys(depositorRewards)
    ensures MergedOf(lpRewards, vecrvRewards, depositorRewards).Ok? ==>
      var merged := MergedOf(lpRewards, vecrvRewards, depositorRewards).value;
      && UniqueKeys(merged)
      && KeySet(merged) == KeySet(lpRewards) + KeySet(vecrvRewards) + KeySet(depositorRewards)
      && forall a :: GetOr(merged, a, 0) == RewardOf(lpRewards, a) + RewardOf(vecrvRewards, a) + RewardOf(depositorRewards, a)
  {
    if MergedOf(lpRewards, vecrvRewards, depositorRewards).Ok? {
      var lp := ParseRewards(lpRewards).value;
      var vecrv := ParseRewards(vecrvRewards).value;
      var dep := ParseRewards(depositorRewards).value;
      SameKeys(lpRewards);
      SameKeys(vecrvRewards);
      SameKeys(depositorRewards);
      AddIntoMeaning([], lp);
      AddIntoMeaning(AddInto([], lp), vecrv);
      AddIntoMeaning(AddInto(AddInto([], lp), vecrv), dep);
      forall a ensures GetOr(lp, a, 0) == RewardOf(lpRewards, a) && GetOr(vecrv, a, 0) == RewardOf(vecrvRewards, a)
        && GetOr(dep, a, 0) == RewardOf(depositorRewards, a)
      {
        ParsedReward(lpRewards, a);
        ParsedReward(vecrvRewards, a);
        ParsedReward(depositorRewards, a);
      }
    }
  }

  /** A file read without error has the file's addresses, so distinct ones when the file's are. */
  lemma SameKeys(rewards: Dict<string>)
    requires ParseRewards(rewards).Ok?
    ensures KeySet(ParseRewards(rewards).value) == KeySet(rewards)
    ensures UniqueKeys(rewards) ==> UniqueKeys(ParseRewards(rewards).value)
  {
    var parsed := ParseRewards(rewards).value;
    ParseRewardsMeaning(rewards);
    assert forall i :: 0 <= i < |parsed| ==> parsed[i].0 == Keys(parsed)[i] == Keys(rewards)[i] == rewards[i].0;
    KeySetSame(parsed, rewards);
  }

  lemma KeySetSame<V, W>(d: Dict<V>, e: Dict<W>)
    requires |d| == |e| && forall i :: 0 <= i < |d| ==> d[i].0 == e[i].0
    ensures KeySet(d) == KeySet(e)
  {
    forall k ensures k in KeySet(d) <==> k in KeySet(e) {
      KeySetMember(d, k);
      KeySetMember(e, k);
    }
  }

  /**
   * The rewards object of `mergeRewards` holds every address of the three
   * files once, each with the text of the sum of its three rewards (an
   * absent one counting as 0); the total is the sum of all the rewards of
   * the three files, and the sanity check passes exactly when that is the
   * 135 million token budget. The run fails exactly when some reward of
   * some file is not an integer text.
   */
  lemma MergeMeaning(lpRewards: Dict<string>, vecrvRewards: Dict<string>, depositorRewards: Dict<string>)
    requires UniqueKeys(lpRewards) && UniqueKeys(vecrvRewards) && UniqueKeys(depositorRewards)
    ensures MergeOf(lpRewards, vecrvRewards, depositorRewards).Ok? <==>
      ParseRewards(lpRewards).Ok? && ParseRewards(vecrvRewards).Ok? && ParseRewards(depositorRewards).Ok?
    ensures var r := MergeOf(lpRewards, vecrvRewards, depositorRewards);
      r.Ok? ==>
        && UniqueKeys(r.value.output)
        && (forall a :: a in KeySet(r.value.output) <==> a in KeySet(lpRewards) || a in KeySet(vecrvRewards) || a in KeySet(depositorRewards))
        && (forall i :: 0 <= i < |r.value.output| ==>
              var a := r.value.output[i].0;
              ParseDecimal(r.value.output[i].1) == Some(RewardOf(lpRewards, a) + RewardOf(vecrvRewards, a) + RewardOf(depositorRewards, a)))
        && r.value.totalRewards == Sum(ParseRewards(lpRewards).value) + Sum(ParseRewards(vecrvRewards).value) + Sum(ParseRewards(depositorRewards).value)
        && (r.value.matchesExpected <==> r.value.totalRewards == TOTAL_EXPECTED_REWARD_TOKENS_WEI)
  {
    var r := MergeOf(lpRewards, vecrvRewards, depositorRewards);
    if r.Ok? {
      var merged := MergedOf(lpRewards, vecrvRewards, depositorRewards).value;
      MergedKeys(lpRewards, vecrvRewards, depositorRewards);
      IndexReplay.RenderRoundTrip(merged);
      KeySetSame(r.value.output, merged);
      forall i | 0 <= i < |r.value.output|
        ensures ParseDecimal(r.value.output[i].1) == Some(GetOr(merged, r.value.output[i].0, 0))
      {
        assert r.value.output[i].0 == Keys(merged)[i] == merged[i].0;
        UniqueIndex(merged, i);
      }
    }
  }
}
