/**
 * multisig.ts: 0.5% of the 1B tokens (5 million) is split evenly, by
 * integer division, among the seven signers of the community multisig.
 */
module Multisig {
  import opened Wrappers
  import opened Dicts
  import opened Decimal
  import IndexReplay

  const TOTAL_REWARD_TOKENS: nat := 5_000_000
  /** TOTAL_REWARD_TOKENS with 18 decimals. */
  const TOTAL_REWARD_TOKENS_WEI: nat := TOTAL_REWARD_TOKENS * 1_000_000_000_000_000_000

  /** The seven signers, in the order of the rows object. */
  const SIGNERS: seq<string> := [
    "0x0AF91FA049A7e1894F480bFE5bBa20142C6c29a9",
    "0x0Cec743b8CE4Ef8802cAc0e5df18a180ed8402A7",
    "0x4E60bE84870FE6AE350B563A121042396Abe1eaF",
    "0x5b97680e165B4DbF5C45f4ff4241e85F418c66C2",
    "0x6F2A8Ee9452ba7d336b3fba03caC27f7818AeAD6",
    "0xa83838221278f22ee5bAe3E523f34D42b066D67D",
    "0xf872703F1C8f93fA186869Bac83BAC5A0c87C3c8"
  ]

  /** `TOTAL_REWARD_TOKENS_BIGNUMBER.div(7)`. */
  const REWARD: nat := TOTAL_REWARD_TOKENS_WEI / 7

  /** The rows object: every signer with the same reward. */
  function Rows(signers: seq<string>, reward: int): (rows: Dict<int>)
    ensures Keys(rows) == signers
    ensures forall i :: 0 <= i < |rows| ==> rows[i].1 == reward
  {
    seq(|signers|, i requires 0 <= i < |signers| => (signers[i], reward))
  }

  /** The signers are seven distinct addresses. */
  lemma SignersDistinct()
    ensures |SIGNERS| == 7
    ensures forall i, j :: 0 <= i < j < |SIGNERS| ==> SIGNERS[i] != SIGNERS[j]
  {
    forall i, j | 0 <= i < j < |SIGNERS| ensures SIGNERS[i] != SIGNERS[j] {
      assert SIGNERS[i][2] != SIGNERS[j][2] || SIGNERS[i][3] != SIGNERS[j][3];
    }
  }

  /** The sum of `n` equal rewards. */
  lemma {:induction false} RowsSum(signers: seq<string>, reward: int)
    ensures Sum(Rows(signers, reward)) == |signers| * reward
    decreases |signers|
  {
    if signers != [] {
      var n := |signers| - 1;
      assert Rows(signers, reward)[..n] == Rows(signers[..n], reward);
      RowsSum(signers[..n], reward);
    }
  }

  /** What `processMultisig` ends with: the output object, its total and whether that is the budget. */
  datatype MultisigReport = MultisigReport(output: Dict<string>, totalRewards: int, matchesBudget: bool)

  /**
   * `processMultisig` without the file write: the loop over the rows adds up
   * the total and writes each reward as text. Every signer gets the budget
   * divided by seven; the total falls short of the budget by the remainder,
   * 5 of the smallest unit, so the sanity check never passes.
   */
  method ProcessMultisig() returns (r: MultisigReport)
    ensures Keys(r.output) == SIGNERS && UniqueKeys(r.output)
    ensures forall i :: 0 <= i < |r.output| ==> ParseDecimal(r.output[i].1) == Some(TOTAL_REWARD_TOKENS_WEI / 7)
    ensures r.totalRewards == 7 * (TOTAL_REWARD_TOKENS_WEI / 7)
    ensures TOTAL_REWARD_TOKENS_WEI - r.totalRewards == TOTAL_REWARD_TOKENS_WEI % 7 == 5
    ensures !r.matchesBudget
  {
    var rows := Rows(SIGNERS, REWARD);
    SignersDistinct();
    assert UniqueKeys(rows) by {
      forall i, j | 0 <= i < j < |rows| ensures rows[i].0 != rows[j].0 {
        assert rows[i].0 == SIGNERS[i] && rows[j].0 == SIGNERS[j];
      }
    }
    var output, totalRewards := IndexReplay.ConvertOutput(rows);
    IndexReplay.RenderRoundTrip(rows);
    RowsSum(SIGNERS, REWARD);
    r := MultisigReport(output, totalRewards, totalRewards == TOTAL_REWARD_TOKENS_WEI);
  }
}
