/**
 * galaxy.ts: three address lists for the Galaxy campaigns. Mezcal is every
 * LP and every swapper, Amphitrite the first round(n/10) - 1 addresses of the
 * LP rewards file in file order, Alpha the addresses that minted LP tokens
 * during the guarded launch.
 *
 * The LP rewards file keeps the order in which addresses were first credited,
 * not an order by reward. The Amphitrite list therefore holds the earliest
 * LPs, although the script's comment calls it the top 10% of LPs.
 *
 * `lpAddresses` and `swapperAddresses` are the keys of the LP rewards file
 * and of the swap addresses file, in their order.
 */
module Galaxy {
  import opened LpLogs

  // ---------------------------------------------------------------------------
  // Mezcal

  /** `createMezcalList`: the LP addresses followed by the swapper addresses, duplicates kept. */
  function MezcalList(lpAddresses: seq<string>, swapperAddresses: seq<string>): seq<string>
  {
    lpAddresses + swapperAddresses
  }

  /**
   * The Mezcal list names exactly the LPs and the swappers, each as often as
   * the two lists together name it, LPs first.
   */
  lemma MezcalMeaning(lpAddresses: seq<string>, swapperAddresses: seq<string>)
    ensures var r := MezcalList(lpAddresses, swapperAddresses);
      && |r| == |lpAddresses| + |swapperAddresses|
      && r[..|lpAddresses|] == lpAddresses && r[|lpAddresses|..] == swapperAddresses
      && multiset(r) == multiset(lpAddresses) + multiset(swapperAddresses)
      && forall a :: a in r <==> a in lpAddresses || a in swapperAddresses
  {
    var r := MezcalList(lpAddresses, swapperAddresses);
    assert r[..|lpAddresses|] == lpAddresses;
  }

  // ---------------------------------------------------------------------------
  // Amphitrite

  /** `Math.round(len / 10)`: the nearest whole number, a half rounded up. */
  function Cutoff(len: nat): (c: nat)
    ensures 10 * c <= len + 5 < 10 * c + 10
  {
    (len + 5) / 10
  }

  /** Where `slice(0, end)` stops on a list of `len` elements: a negative end counts back from the length. */
  function SliceEnd(len: nat, end: int): (e: nat)
    ensures e <= len
    ensures 0 <= end ==> e == if end <= len then end else len
    ensures end < 0 ==> e == if len + end >= 0 then len + end else 0
  {
    if end < 0 then (if len + end < 0 then 0 else len + end)
    else if end < len then end else len
  }

  /** `createAmphitriteList`: the LP addresses cut one before the rounded tenth. */
  function AmphitriteList(lpAddresses: seq<string>): seq<string>
  {
    lpAddresses[..SliceEnd(|lpAddresses|, Cutoff(|lpAddresses|) - 1)]
  }

  /**
   * The Amphitrite list is a prefix of the LP addresses. From 5 LPs on it has
   * one fewer than the rounded tenth, so its length n satisfies
   * 10n + 5 <= len < 10n + 15; below 5 LPs the rounded tenth is 0 and the cut
   * at -1 keeps all but the last address.
   */
  lemma AmphitriteMeaning(lpAddresses: seq<string>)
    ensures var r := AmphitriteList(lpAddresses); var len := |lpAddresses|;
      && r <= lpAddresses
      && (len >= 5 ==> |r| == Cutoff(len) - 1 && 10 * |r| + 5 <= len < 10 * |r| + 15)
      && (len < 5 ==> |r| == if len == 0 then 0 else len - 1)
  {
  }

  // ---------------------------------------------------------------------------
  // Alpha

  /** A mint (a transfer from the zero address) in a block before the end of the guarded launch. */
  predicate IsGuardedMint(log: LpTransferLog)
  {
    log.blockNumber < GUARDED_LAUNCH_END_BLOCK && log.addressFrom == ZERO_ADDRESS
  }

  /** The receivers of the guarded-launch mints, each once, in the order they first receive one. */
  function AlphaOf(logs: seq<LpTransferLog>): seq<string>
    decreases |logs|
  {
    if logs == [] then []
    else
      var n := |logs| - 1;
      var alpha := AlphaOf(logs[..n]);
      if IsGuardedMint(logs[n]) && logs[n].addressTo !in alpha then alpha + [logs[n].addressTo] else alpha
  }

  /**
   * `createAlphaList`: walks the LP-token transfers and adds the receiver of
   * every guarded-launch mint to an insertion-ordered set.
   */
  method CreateAlphaList(lpTransactions: seq<LpTransferLog>) returns (alpha: seq<string>)
    ensures alpha == AlphaOf(lpTransactions)
  {
    var alphaSet: seq<string> := [];
    for i := 0 to |lpTransactions|
      invariant alphaSet == AlphaOf(lpTransactions[..i])
    {
      var log := lpTransactions[i];
      assert lpTransactions[..i + 1][..i] == lpTransactions[..i];
      if log.blockNumber < GUARDED_LAUNCH_END_BLOCK && log.addressFrom == ZERO_ADDRESS {
        if log.addressTo !in alphaSet {
          alphaSet := alphaSet + [log.addressTo];
        }
      }
    }
    assert lpTransactions[..|lpTransactions|] == lpTransactions;
    alpha := alphaSet;
  }

  /** An address is on the Alpha list exactly when it received a guarded-launch mint; it is there once. */
  lemma {:induction false} AlphaMembers(logs: seq<LpTransferLog>)
    ensures forall a :: a in AlphaOf(logs) <==> exists i :: 0 <= i < |logs| && IsGuardedMint(logs[i]) && logs[i].addressTo == a
    ensures forall i, j :: 0 <= i < j < |AlphaOf(logs)| ==> AlphaOf(logs)[i] != AlphaOf(logs)[j]
    decreases |logs|
  {
    if logs != [] {
      var n := |logs| - 1;
      AlphaMembers(logs[..n]);
      assert forall i :: 0 <= i < n ==> logs[..n][i] == logs[i];
      forall a | exists i :: 0 <= i < |logs| && IsGuardedMint(logs[i]) && logs[i].addressTo == a
        ensures a in AlphaOf(logs)
      {
        var i :| 0 <= i < |logs| && IsGuardedMint(logs[i]) && logs[i].addressTo == a;
        if i < n {
          assert logs[..n][i] == logs[i];
        }
      }
    }
  }

  /** The first log that is a guarded-launch mint to `a`, or -1. */
  function FirstMint(logs: seq<LpTransferLog>, a: string): (i: int)
    ensures -1 <= i < |logs|
    decreases |logs|
  {
    if logs == [] then -1
    else
      var n := |logs| - 1;
      var i := FirstMint(logs[..n], a);
      if 0 <= i then i
      else if IsGuardedMint(logs[n]) && logs[n].addressTo == a then n
      else -1
  }

  /** The Alpha addresses are the ones that have a first mint. */
  lemma {:induction false} FirstMintMember(logs: seq<LpTransferLog>, a: string)
    ensures 0 <= FirstMint(logs, a) <==> a in AlphaOf(logs)
    decreases |logs|
  {
    if logs != [] {
      FirstMintMember(logs[..|logs| - 1], a);
    }
  }

  /** The Alpha list keeps the order in which its addresses first received a guarded-launch mint. */
  lemma {:induction false} AlphaOrder(logs: seq<LpTransferLog>, i: nat, j: nat)
    requires i < j < |AlphaOf(logs)|
    ensures 0 <= FirstMint(logs, AlphaOf(logs)[i]) < FirstMint(logs, AlphaOf(logs)[j])
    decreases |logs|
  {
    var n := |logs| - 1;
    var prev := AlphaOf(logs[..n]);
    var alpha := AlphaOf(logs);
    assert alpha[i] == prev[i];
    FirstMintMember(logs[..n], alpha[i]);
    if j < |prev| {
      assert alpha[j] == prev[j];
      AlphaOrder(logs[..n], i, j);
    } else {
      FirstMintMember(logs[..n], alpha[j]);
    }
  }

  // ---------------------------------------------------------------------------
  // processGalaxyList

  datatype GalaxyLists = GalaxyLists(mezcal: seq<string>, amphitrite: seq<string>, alpha: seq<string>)

  /** `processGalaxyList` without the file writes: the three lists. */
  method ProcessGalaxyList(lpAddresses: seq<string>, swapperAddresses: seq<string>, lpTransactions: seq<LpTransferLog>)
    returns (lists: GalaxyLists)
    ensures lists.mezcal == MezcalList(lpAddresses, swapperAddresses)
    ensures lists.amphitrite == AmphitriteList(lpAddresses)
    ensures lists.alpha == AlphaOf(lpTransactions)
  {
    var alpha := CreateAlphaList(lpTransactions);
    lists := GalaxyLists(MezcalList(lpAddresses, swapperAddresses), AmphitriteList(lpAddresses), alpha);
  }
}
