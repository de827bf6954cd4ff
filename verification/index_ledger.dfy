/**
 * The ledger of index.ts: per pool, each holder's LP balance with the times
 * of its first and latest action, and each pool's locked total.
 * `processMinting` credits a log's recipient, `processBurning` debits its
 * sender and throws when the sender holds less than the amount.
 */
module IndexLedger {
  import opened Wrappers
  import opened Dicts
  import opened LpLogs
  import Distribution

  datatype Holder = Holder(lastLPAmountSaved: int, lastActionTimestamp: int, firstObservedTimestamp: int)

  type Holders = Dict<Holder>

  /** The balances of a pool's holders, in the same order. */
  function Balances(holders: Holders): (b: Dict<int>)
    ensures |b| == |holders|
    ensures forall i :: 0 <= i < |holders| ==> b[i] == (holders[i].0, holders[i].1.lastLPAmountSaved)
  {
    seq(|holders|, i requires 0 <= i < |holders| => (holders[i].0, holders[i].1.lastLPAmountSaved))
  }

  lemma BalancesKeys(holders: Holders)
    ensures Keys(Balances(holders)) == Keys(holders)
    ensures KeySet(Balances(holders)) == KeySet(holders)
  {
    assert Keys(Balances(holders)) == Keys(holders);
  }

  /** A holder's balance, read through the balances view. */
  lemma BalanceOf(holders: Holders, address: string)
    ensures Get(holders, address).Some? ==> GetOr(Balances(holders), address, 0) == Get(holders, address).value.lastLPAmountSaved
    ensures Get(holders, address).None? ==> GetOr(Balances(holders), address, 0) == 0
  {
    IndexOfSameKeys(holders, Balances(holders), address);
  }

  /** Writing a holder record writes its balance into the balances view. */
  lemma BalancesPut(holders: Holders, address: string, h: Holder)
    ensures Balances(Put(holders, address, h)) == Put(Balances(holders), address, h.lastLPAmountSaved)
  {
    IndexOfSameKeys(holders, Balances(holders), address);
  }

  /** The pool update of `processMinting`: an existing record gains the amount, a new one starts with it. */
  function MintInto(holders: Holders, to: string, amount: nat, ts: int): Holders
  {
    match Get(holders, to)
    case Some(h) => Put(holders, to, Holder(h.lastLPAmountSaved + amount, ts, h.firstObservedTimestamp))
    case None => Put(holders, to, Holder(amount, ts, ts))
  }

  /** A mint raises the recipient's balance and the pool's sum by exactly the amount. */
  lemma MintIntoSum(holders: Holders, to: string, amount: nat, ts: int)
    ensures GetOr(Balances(MintInto(holders, to, amount, ts)), to, 0) == GetOr(Balances(holders), to, 0) + amount
    ensures Sum(Balances(MintInto(holders, to, amount, ts))) == Sum(Balances(holders)) + amount
  {
    var h := match Get(holders, to)
      case Some(h) => Holder(h.lastLPAmountSaved + amount, ts, h.firstObservedTimestamp)
      case None => Holder(amount, ts, ts);
    BalanceOf(holders, to);
    BalancesPut(holders, to, h);
    SumPut(Balances(holders), to, h.lastLPAmountSaved);
    BalanceOf(Put(holders, to, h), to);
  }

  /**
   * A mint stamps the recipient's record with the event time, keeps the
   * first-observed time of an existing record, starts a new record at the
   * event time, and leaves every other holder as it was.
   */
  lemma MintIntoRecord(holders: Holders, to: string, amount: nat, ts: int)
    ensures var r := MintInto(holders, to, amount, ts);
      && Get(r, to).Some? && Get(r, to).value.lastActionTimestamp == ts
      && (Get(holders, to).Some? ==> Get(r, to).value.firstObservedTimestamp == Get(holders, to).value.firstObservedTimestamp)
      && (Get(holders, to).None? ==> Get(r, to) == Some(Holder(amount, ts, ts)))
      && (forall a :: a != to ==> Get(r, a) == Get(holders, a))
      && KeySet(r) == KeySet(holders) + {to}
  {
    match Get(holders, to)
    case Some(h) => PutKeys(holders, to, Holder(h.lastLPAmountSaved + amount, ts, h.firstObservedTimestamp));
    case None => PutKeys(holders, to, Holder(amount, ts, ts));
  }

  /** The pool update of a `processBurning` that passed its checks: the sender's record loses the amount. */
  function DebitFrom(holders: Holders, from: string, amount: nat, ts: int): Holders
    requires Get(holders, from).Some?
  {
    var h := Get(holders, from).value;
    Put(holders, from, Holder(h.lastLPAmountSaved - amount, ts, h.firstObservedTimestamp))
  }

  /** A burn lowers the sender's balance and the pool's sum by exactly the amount. */
  lemma DebitFromSum(holders: Holders, from: string, amount: nat, ts: int)
    requires Get(holders, from).Some?
    ensures GetOr(Balances(DebitFrom(holders, from, amount, ts)), from, 0) == GetOr(Balances(holders), from, 0) - amount
    ensures Sum(Balances(DebitFrom(holders, from, amount, ts))) == Sum(Balances(holders)) - amount
  {
    var h := Get(holders, from).value;
    var h' := Holder(h.lastLPAmountSaved - amount, ts, h.firstObservedTimestamp);
    BalanceOf(holders, from);
    BalancesPut(holders, from, h');
    SumPut(Balances(holders), from, h'.lastLPAmountSaved);
    BalanceOf(Put(holders, from, h'), from);
  }

  /** A burn stamps the sender's record with the event time, keeps its first-observed time and leaves every other holder as it was. */
  lemma DebitFromRecord(holders: Holders, from: string, amount: nat, ts: int)
    requires Get(holders, from).Some?
    ensures var r := DebitFrom(holders, from, amount, ts);
      && Get(r, from).Some? && Get(r, from).value.lastActionTimestamp == ts
      && Get(r, from).value.firstObservedTimestamp == Get(holders, from).value.firstObservedTimestamp
      && (forall a :: a != from ==> Get(r, a) == Get(holders, a))
      && KeySet(r) == KeySet(holders)
  {
    var h := Get(holders, from).value;
    PutKeys(holders, from, Holder(h.lastLPAmountSaved - amount, ts, h.firstObservedTimestamp));
    GetKeys(holders, from);
  }

  /** All pools' holders and locked totals. */
  datatype Books = Books(allHolders: map<string, Holders>, lpTokens: map<string, int>)

  const POOL_SET: set<string> := set p | p in POOLS

  /** Five empty pools with zero totals. */
  function InitialBooks(): Books
  {
    Books(map p | p in POOL_SET :: [], map p | p in POOL_SET :: 0)
  }

  /** A pool's holders: no negative balance and no address twice. */
  ghost predicate PoolSound(holders: Holders)
  {
    Distribution.NonNegative(Balances(holders)) && UniqueKeys(holders)
  }

  /**
   * The ledger's invariant: every pool with holders has a total, which is
   * the sum of its holders' balances; no balance is negative and no holder
   * appears twice.
   */
  ghost predicate Sound(b: Books)
  {
    forall p :: p in b.allHolders ==>
      p in b.lpTokens && b.lpTokens[p] == Sum(Balances(b.allHolders[p])) && PoolSound(b.allHolders[p])
  }

  /** Both books know the same pools. */
  ghost predicate SamePools(b: Books, b': Books)
  {
    forall p :: (p in b'.allHolders <==> p in b.allHolders) && (p in b'.lpTokens <==> p in b.lpTokens)
  }

  /** Every holder of b is still a holder of the same pool in b'. */
  ghost predicate Grows(b: Books, b': Books)
  {
    forall p :: p in b.allHolders && p in b'.allHolders ==> KeySet(b.allHolders[p]) <= KeySet(b'.allHolders[p])
  }

  lemma InitialBooksSound()
    ensures Sound(InitialBooks())
    ensures InitialBooks().allHolders.Keys == POOL_SET && InitialBooks().lpTokens.Keys == POOL_SET
  {
  }

  /** `processMinting` on the books: an unknown pool is a fault. */
  function Mint(b: Books, log: LpTransferLog): Result<Books, Fault>
  {
    if log.pool !in b.lpTokens || log.pool !in b.allHolders then Err(UnknownPool(log.pool))
    else Ok(Books(
      b.allHolders[log.pool := MintInto(b.allHolders[log.pool], log.addressTo, log.amount, log.timestamp)],
      b.lpTokens[log.pool := b.lpTokens[log.pool] + log.amount]))
  }

  /** `processBurning` on the books: an unknown pool, a sender without a record or with less than the amount is a fault. */
  function Burn(b: Books, log: LpTransferLog): Result<Books, Fault>
  {
    if log.pool !in b.lpTokens || log.pool !in b.allHolders then Err(UnknownPool(log.pool))
    else
      var holders := b.allHolders[log.pool];
      match Get(holders, log.addressFrom)
      case None => Err(NoHolderRecord(log.pool, log.addressFrom))
      case Some(h) =>
        if h.lastLPAmountSaved - log.amount < 0 then Err(BurnExceedsBalance(log.addressFrom, log.amount, h.lastLPAmountSaved))
        else Ok(Books(
          b.allHolders[log.pool := DebitFrom(holders, log.addressFrom, log.amount, log.timestamp)],
          b.lpTokens[log.pool := b.lpTokens[log.pool] - log.amount]))
  }

  /** Writing a non-negative balance keeps every balance non-negative. */
  lemma PutNonNegative(balances: Dict<int>, address: string, v: int)
    requires Distribution.NonNegative(balances) && v >= 0
    ensures Distribution.NonNegative(Put(balances, address, v))
  {
    PutKeys(balances, address, v);
  }

  lemma MintIntoSound(holders: Holders, to: string, amount: nat, ts: int)
    requires PoolSound(holders)
    ensures PoolSound(MintInto(holders, to, amount, ts))
  {
    var h := match Get(holders, to)
      case Some(h) => Holder(h.lastLPAmountSaved + amount, ts, h.firstObservedTimestamp)
      case None => Holder(amount, ts, ts);
    BalanceOf(holders, to);
    BalancesPut(holders, to, h);
    PutNonNegative(Balances(holders), to, h.lastLPAmountSaved);
    PutKeys(holders, to, h);
  }

  lemma DebitFromSound(holders: Holders, from: string, amount: nat, ts: int)
    requires PoolSound(holders)
    requires Get(holders, from).Some? && amount <= Get(holders, from).value.lastLPAmountSaved
    ensures PoolSound(DebitFrom(holders, from, amount, ts))
  {
    var h := Get(holders, from).value;
    var h' := Holder(h.lastLPAmountSaved - amount, ts, h.firstObservedTimestamp);
    BalancesPut(holders, from, h');
    PutNonNegative(Balances(holders), from, h'.lastLPAmountSaved);
    PutKeys(holders, from, h');
  }

  /** Replacing one pool's holders and total by sound ones that agree keeps the books sound. */
  lemma UpdatePoolSound(b: Books, pool: string, holders: Holders, total: int)
    requires Sound(b)
    requires PoolSound(holders) && total == Sum(Balances(holders))
    ensures Sound(Books(b.allHolders[pool := holders], b.lpTokens[pool := total]))
  {
  }

  /** A mint succeeds exactly on a known pool. */
  lemma MintSucceeds(b: Books, log: LpTransferLog)
    requires Sound(b)
    ensures Mint(b, log).Ok? <==> log.pool in b.allHolders
  {
  }

  /** A mint keeps the books sound. */
  lemma MintSound(b: Books, log: LpTransferLog, b': Books)
    requires Sound(b) && Mint(b, log) == Ok(b')
    ensures Sound(b')
  {
    var holders := b.allHolders[log.pool];
    var holders' := MintInto(holders, log.addressTo, log.amount, log.timestamp);
    MintIntoSum(holders, log.addressTo, log.amount, log.timestamp);
    MintIntoSound(holders, log.addressTo, log.amount, log.timestamp);
    UpdatePoolSound(b, log.pool, holders', b.lpTokens[log.pool] + log.amount);
  }

  /** A mint raises its pool's total by the amount, leaves the other pools alone and drops no holder. */
  lemma MintFrame(b: Books, log: LpTransferLog, b': Books)
    requires Mint(b, log) == Ok(b')
    ensures SamePools(b, b') && Grows(b, b')
    ensures forall p :: p in b.lpTokens ==> b'.lpTokens[p] == b.lpTokens[p] + (if p == log.pool then log.amount else 0)
  {
    MintIntoRecord(b.allHolders[log.pool], log.addressTo, log.amount, log.timestamp);
  }

  /** A burn succeeds exactly when the pool is known and the sender's record holds at least the amount. */
  lemma BurnSucceeds(b: Books, log: LpTransferLog)
    requires Sound(b)
    ensures Burn(b, log).Ok? <==>
      log.pool in b.allHolders && Get(b.allHolders[log.pool], log.addressFrom).Some? &&
      log.amount <= Get(b.allHolders[log.pool], log.addressFrom).value.lastLPAmountSaved
  {
  }

  /** A successful burn keeps the books sound. */
  lemma BurnSound(b: Books, log: LpTransferLog, b': Books)
    requires Sound(b) && Burn(b, log) == Ok(b')
    ensures Sound(b')
  {
    var holders := b.allHolders[log.pool];
    var holders' := DebitFrom(holders, log.addressFrom, log.amount, log.timestamp);
    var total := b.lpTokens[log.pool] - log.amount;
    assert b' == Books(b.allHolders[log.pool := holders'], b.lpTokens[log.pool := total]);
    DebitFromSum(holders, log.addressFrom, log.amount, log.timestamp);
    DebitFromSound(holders, log.addressFrom, log.amount, log.timestamp);
    UpdatePoolSound(b, log.pool, holders', total);
  }

  /** A burn lowers its pool's total by the amount, leaves the other pools alone and drops no holder. */
  lemma BurnFrame(b: Books, log: LpTransferLog, b': Books)
    requires Burn(b, log) == Ok(b')
    ensures SamePools(b, b') && Grows(b, b')
    ensures forall p :: p in b.lpTokens ==> b'.lpTokens[p] == b.lpTokens[p] - (if p == log.pool then log.amount else 0)
  {
    DebitFromRecord(b.allHolders[log.pool], log.addressFrom, log.amount, log.timestamp);
  }

  lemma GrowsTrans(b0: Books, b1: Books, b2: Books)
    requires SamePools(b0, b1) && Grows(b0, b1) && Grows(b1, b2)
    ensures Grows(b0, b2)
  {
  }

  /** The mint legs of a block, applied in order; the first fault stops them. */
  function MintAll(b: Books, legs: seq<LpTransferLog>): Result<Books, Fault>
    decreases |legs|
  {
    if legs == [] then Ok(b)
    else
      match Mint(b, legs[0])
      case Err(e) => Err(e)
      case Ok(b') => MintAll(b', legs[1..])
  }

  /** The burn legs of a block, applied in order; the first fault stops them. */
  function BurnAll(b: Books, legs: seq<LpTransferLog>): Result<Books, Fault>
    decreases |legs|
  {
    if legs == [] then Ok(b)
    else
      match Burn(b, legs[0])
      case Err(e) => Err(e)
      case Ok(b') => BurnAll(b', legs[1..])
  }

  /** One block: all mint and transfer-in legs, then all burn and transfer-out legs. */
  function ApplyBlock(b: Books, blockLogs: seq<LpTransferLog>): Result<Books, Fault>
  {
    match MintAll(b, MintLegs(blockLogs))
    case Err(e) => Err(e)
    case Ok(minted) => BurnAll(minted, BurnLegs(blockLogs))
  }

  /** The total amount of the legs in one pool. */
  function AmountIn(legs: seq<LpTransferLog>, pool: string): nat
    decreases |legs|
  {
    if legs == [] then 0
    else (if legs[0].pool == pool then legs[0].amount else 0) + AmountIn(legs[1..], pool)
  }

  lemma {:induction false} AmountInConcat(a: seq<LpTransferLog>, c: seq<LpTransferLog>, pool: string)
    ensures AmountIn(a + c, pool) == AmountIn(a, pool) + AmountIn(c, pool)
    decreases |a|
  {
    if a == [] {
      assert a + c == c;
    } else {
      assert (a + c)[0] == a[0] && (a + c)[1..] == a[1..] + c;
      AmountInConcat(a[1..], c, pool);
    }
  }

  /** Every pool with holders has a total. */
  ghost predicate Totalled(b: Books)
  {
    forall p :: p in b.allHolders ==> p in b.lpTokens
  }

  /** The mint legs succeed exactly when every leg names a known pool. */
  lemma {:induction false} MintAllSucceeds(b: Books, legs: seq<LpTransferLog>)
    requires Totalled(b)
    ensures MintAll(b, legs).Ok? <==> forall i :: 0 <= i < |legs| ==> legs[i].pool in b.allHolders
    decreases |legs|
  {
    if legs != [] {
      if legs[0].pool in b.allHolders {
        var b1 := Mint(b, legs[0]).value;
        MintFrame(b, legs[0], b1);
        MintAllSucceeds(b1, legs[1..]);
        assert (forall i :: 0 <= i < |legs| ==> legs[i].pool in b.allHolders)
          <==> (forall i :: 0 <= i < |legs| - 1 ==> legs[1..][i].pool in b1.allHolders);
      }
    }
  }

  /** The mint legs keep the books sound. */
  lemma {:induction false} MintAllSound(b: Books, legs: seq<LpTransferLog>)
    requires Sound(b)
    ensures MintAll(b, legs).Ok? ==> Sound(MintAll(b, legs).value)
    decreases |legs|
  {
    if legs != [] && Mint(b, legs[0]).Ok? {
      var b1 := Mint(b, legs[0]).value;
      MintSound(b, legs[0], b1);
      MintAllSound(b1, legs[1..]);
    }
  }

  /** The mint legs raise each pool's total by that pool's amount and drop no holder. */
  lemma {:induction false} MintAllFrame(b: Books, legs: seq<LpTransferLog>, b': Books)
    requires MintAll(b, legs) == Ok(b')
    ensures SamePools(b, b') && Grows(b, b')
    ensures forall p :: p in b.lpTokens ==> b'.lpTokens[p] == b.lpTokens[p] + AmountIn(legs, p)
    decreases |legs|
  {
    if legs != [] {
      var b1 := Mint(b, legs[0]).value;
      MintFrame(b, legs[0], b1);
      MintAllFrame(b1, legs[1..], b');
      GrowsTrans(b, b1, b');
    }
  }

  /** The burn legs keep the books sound. */
  lemma {:induction false} BurnAllSound(b: Books, legs: seq<LpTransferLog>)
    requires Sound(b)
    ensures BurnAll(b, legs).Ok? ==> Sound(BurnAll(b, legs).value)
    decreases |legs|
  {
    if legs != [] && Burn(b, legs[0]).Ok? {
      var b1 := Burn(b, legs[0]).value;
      BurnSound(b, legs[0], b1);
      BurnAllSound(b1, legs[1..]);
    }
  }

  /** The burn legs lower each pool's total by that pool's amount and drop no holder. */
  lemma {:induction false} BurnAllFrame(b: Books, legs: seq<LpTransferLog>, b': Books)
    requires BurnAll(b, legs) == Ok(b')
    ensures SamePools(b, b') && Grows(b, b')
    ensures forall p :: p in b.lpTokens ==> b'.lpTokens[p] == b.lpTokens[p] - AmountIn(legs, p)
    decreases |legs|
  {
    if legs != [] {
      var b1 := Burn(b, legs[0]).value;
      BurnFrame(b, legs[0], b1);
      BurnAllFrame(b1, legs[1..], b');
      GrowsTrans(b, b1, b');
    }
  }

  /** A block keeps the books sound. */
  lemma ApplyBlockSound(b: Books, blockLogs: seq<LpTransferLog>)
    requires Sound(b)
    ensures ApplyBlock(b, blockLogs).Ok? ==> Sound(ApplyBlock(b, blockLogs).value)
  {
    MintAllSound(b, MintLegs(blockLogs));
    if MintAll(b, MintLegs(blockLogs)).Ok? {
      BurnAllSound(MintAll(b, MintLegs(blockLogs)).value, BurnLegs(blockLogs));
    }
  }

  /**
   * A block moves each pool's total by its mints minus its burns (the two
   * legs of a transfer cancel), keeps the pools and drops no holder.
   */
  lemma ApplyBlockFrame(b: Books, blockLogs: seq<LpTransferLog>, b': Books)
    requires ApplyBlock(b, blockLogs) == Ok(b')
    ensures SamePools(b, b') && Grows(b, b')
    ensures forall p :: p in b.lpTokens ==>
      b'.lpTokens[p] == b.lpTokens[p] + AmountIn(Select(blockLogs, FromZero), p) - AmountIn(Select(blockLogs, ToZero), p)
  {
    var mintLegs, burnLegs := MintLegs(blockLogs), BurnLegs(blockLogs);
    var minted := MintAll(b, mintLegs).value;
    MintAllFrame(b, mintLegs, minted);
    BurnAllFrame(minted, burnLegs, b');
    GrowsTrans(b, minted, b');
    forall p | p in b.lpTokens
      ensures AmountIn(mintLegs, p) == AmountIn(Select(blockLogs, FromZero), p) + AmountIn(Select(blockLogs, NeitherZero), p)
      ensures AmountIn(burnLegs, p) == AmountIn(Select(blockLogs, ToZero), p) + AmountIn(Select(blockLogs, NeitherZero), p)
    {
      AmountInConcat(Select(blockLogs, FromZero), Select(blockLogs, NeitherZero), p);
      AmountInConcat(Select(blockLogs, ToZero), Select(blockLogs, NeitherZero), p);
    }
  }

  /**
   * The ledger of index.ts: the holders of every pool and every pool's
   * locked total, both updated in place by each log.
   */
  class Ledger {
    var allHolders: map<string, Holders>
    var lpTokens: map<string, int>

    function State(): Books
      reads this
    {
      Books(allHolders, lpTokens)
    }

    ghost predicate Valid()
      reads this
    {
      Sound(State())
    }

    /** Five empty pools with zero totals. */
    constructor ()
      ensures State() == InitialBooks() && Valid()
    {
      allHolders := map p | p in POOL_SET :: [];
      lpTokens := map p | p in POOL_SET :: 0;
      new;
      InitialBooksSound();
    }

    /** `processMinting`: an unknown pool is a fault and writes nothing. */
    method ProcessMinting(log: LpTransferLog) returns (outcome: Result<(), Fault>)
      requires Valid()
      modifies this
      ensures Valid()
      ensures Mint(old(State()), log).Ok? ==> outcome.Ok? && State() == Mint(old(State()), log).value
      ensures Mint(old(State()), log).Err? ==> outcome == Err(Mint(old(State()), log).error) && State() == old(State())
    {
      if log.pool !in lpTokens || log.pool !in allHolders {
        return Err(UnknownPool(log.pool));
      }
      ghost var before := State();
      lpTokens := lpTokens[log.pool := lpTokens[log.pool] + log.amount];
      var holders := allHolders[log.pool];
      match Get(holders, log.addressTo) {
        case Some(h) =>
          holders := Put(holders, log.addressTo, Holder(h.lastLPAmountSaved + log.amount, log.timestamp, h.firstObservedTimestamp));
        case None =>
          holders := Put(holders, log.addressTo, Holder(log.amount, log.timestamp, log.timestamp));
      }
      allHolders := allHolders[log.pool := holders];
      MintSound(before, log, State());
      outcome := Ok(());
    }

    /**
     * `processBurning`: an unknown pool, a sender without a record or a
     * balance below the amount is a fault raised before anything is written.
     */
    method ProcessBurning(log: LpTransferLog) returns (outcome: Result<(), Fault>)
      requires Valid()
      modifies this
      ensures Valid()
      ensures Burn(old(State()), log).Ok? ==> outcome.Ok? && State() == Burn(old(State()), log).value
      ensures Burn(old(State()), log).Err? ==> outcome == Err(Burn(old(State()), log).error) && State() == old(State())
    {
      if log.pool !in lpTokens || log.pool !in allHolders {
        return Err(UnknownPool(log.pool));
      }
      var holders := allHolders[log.pool];
      var record := Get(holders, log.addressFrom);
      if record.None? {
        return Err(NoHolderRecord(log.pool, log.addressFrom));
      }
      var h := record.value;
      if h.lastLPAmountSaved - log.amount < 0 {
        return Err(BurnExceedsBalance(log.addressFrom, log.amount, h.lastLPAmountSaved));
      }
      ghost var before := State();
      lpTokens := lpTokens[log.pool := lpTokens[log.pool] - log.amount];
      holders := Put(holders, log.addressFrom, Holder(h.lastLPAmountSaved - log.amount, log.timestamp, h.firstObservedTimestamp));
      allHolders := allHolders[log.pool := holders];
      BurnSound(before, log, State());
      outcome := Ok(());
    }
  }
}
