/**
 * The ledger of lp.ts: the ledger of index.ts with, for every holder, a
 * time-weighted amount that grows by `balance × seconds held` each time the
 * holder acts. Forgetting the time-weighted amounts maps this ledger onto
 * the one of index.ts, operation by operation, so the books' soundness
 * carries over from there.
 */
module LpLedger {
  import opened Wrappers
  import opened Dicts
  import opened LpLogs
  import I = IndexLedger
  import Distribution

  datatype Holder = Holder(lastLPAmountSaved: int, lastActionTimestamp: int, firstObservedTimestamp: int, timeWightedLPAmount: int)

  type Holders = Dict<Holder>

  /** The time-weighted amount of `h` brought up to time `t`: its balance counts for every second since its last action. */
  function Accrued(h: Holder, t: int): int
  {
    h.timeWightedLPAmount + h.lastLPAmountSaved * (t - h.lastActionTimestamp)
  }

  // ---------------------------------------------------------------------------
  // Forgetting the time-weighted amount

  /** A holder as index.ts keeps it. */
  function Record(h: Holder): I.Holder
  {
    I.Holder(h.lastLPAmountSaved, h.lastActionTimestamp, h.firstObservedTimestamp)
  }

  function Records(holders: Holders): (r: I.Holders)
    ensures |r| == |holders|
    ensures forall i :: 0 <= i < |holders| ==> r[i] == (holders[i].0, Record(holders[i].1))
  {
    seq(|holders|, i requires 0 <= i < |holders| => (holders[i].0, Record(holders[i].1)))
  }

  /** Reading an address through the index.ts view reads its record there. */
  lemma RecordsGet(holders: Holders, address: string)
    ensures Get(holders, address).Some? ==> Get(Records(holders), address) == Some(Record(Get(holders, address).value))
    ensures Get(holders, address).None? ==> Get(Records(holders), address).None?
  {
    IndexOfSameKeys(holders, Records(holders), address);
  }

  /** Writing a holder writes its record into the index.ts view. */
  lemma RecordsPut(holders: Holders, address: string, h: Holder)
    ensures Records(Put(holders, address, h)) == Put(Records(holders), address, Record(h))
  {
    IndexOfSameKeys(holders, Records(holders), address);
  }

  /** The pool update of `processMinting`: an existing record gains the amount and its accrued time weight. */
  function MintInto(holders: Holders, to: string, amount: nat, ts: int): Holders
  {
    match Get(holders, to)
    case Some(h) => Put(holders, to, Holder(h.lastLPAmountSaved + amount, ts, h.firstObservedTimestamp, Accrued(h, ts)))
    case None => Put(holders, to, Holder(amount, ts, ts, 0))
  }

  /** The pool update of a `processBurning` that passed its checks. */
  function DebitFrom(holders: Holders, from: string, amount: nat, ts: int): Holders
    requires Get(holders, from).Some?
  {
    var h := Get(holders, from).value;
    Put(holders, from, Holder(h.lastLPAmountSaved - amount, ts, h.firstObservedTimestamp, Accrued(h, ts)))
  }

  /** Without its time weights, a mint of lp.ts is the mint of index.ts. */
  lemma MintIntoRecords(holders: Holders, to: string, amount: nat, ts: int)
    ensures Records(MintInto(holders, to, amount, ts)) == I.MintInto(Records(holders), to, amount, ts)
  {
    RecordsGet(holders, to);
    match Get(holders, to)
    case Some(h) => RecordsPut(holders, to, Holder(h.lastLPAmountSaved + amount, ts, h.firstObservedTimestamp, Accrued(h, ts)));
    case None => RecordsPut(holders, to, Holder(amount, ts, ts, 0));
  }

  /** Without its time weights, a burn of lp.ts is the burn of index.ts. */
  lemma DebitFromRecords(holders: Holders, from: string, amount: nat, ts: int)
    requires Get(holders, from).Some?
    ensures Get(Records(holders), from).Some?
    ensures Records(DebitFrom(holders, from, amount, ts)) == I.DebitFrom(Records(holders), from, amount, ts)
  {
    var h := Get(holders, from).value;
    RecordsGet(holders, from);
    RecordsPut(holders, from, Holder(h.lastLPAmountSaved - amount, ts, h.firstObservedTimestamp, Accrued(h, ts)));
  }

  /**
   * A mint credits the recipient with the amount and stamps it with the
   * event time. An existing record also accrues its old balance times the
   * seconds since its last action and keeps its first-observed time; a new
   * record starts at time weight 0 with both times set to the event time.
   * Every other holder is left as it was.
   */
  lemma MintIntoRecord(holders: Holders, to: string, amount: nat, ts: int)
    ensures var r := MintInto(holders, to, amount, ts);
      && (Get(holders, to).Some? ==> var h := Get(holders, to).value;
            Get(r, to) == Some(Holder(h.lastLPAmountSaved + amount, ts, h.firstObservedTimestamp,
                                      h.timeWightedLPAmount + h.lastLPAmountSaved * (ts - h.lastActionTimestamp))))
      && (Get(holders, to).None? ==> Get(r, to) == Some(Holder(amount, ts, ts, 0)))
      && (forall a :: a != to ==> Get(r, a) == Get(holders, a))
      && KeySet(r) == KeySet(holders) + {to}
  {
    match Get(holders, to)
    case Some(h) => PutKeys(holders, to, Holder(h.lastLPAmountSaved + amount, ts, h.firstObservedTimestamp, Accrued(h, ts)));
    case None => PutKeys(holders, to, Holder(amount, ts, ts, 0));
  }

  /**
   * A burn debits the sender by the amount, stamps it with the event time,
   * accrues its old balance times the seconds since its last action and
   * keeps its first-observed time. Every other holder is left as it was.
   */
  lemma DebitFromRecord(holders: Holders, from: string, amount: nat, ts: int)
    requires Get(holders, from).Some?
    ensures var r := DebitFrom(holders, from, amount, ts); var h := Get(holders, from).value;
      && Get(r, from) == Some(Holder(h.lastLPAmountSaved - amount, ts, h.firstObservedTimestamp,
                                     h.timeWightedLPAmount + h.lastLPAmountSaved * (ts - h.lastActionTimestamp)))
      && (forall a :: a != from ==> Get(r, a) == Get(holders, a))
      && KeySet(r) == KeySet(holders)
  {
    var h := Get(holders, from).value;
    PutKeys(holders, from, Holder(h.lastLPAmountSaved - amount, ts, h.firstObservedTimestamp, Accrued(h, ts)));
    GetKeys(holders, from);
  }

  // ---------------------------------------------------------------------------
  // The books

  datatype Books = Books(allHolders: map<string, Holders>, lpTokens: map<string, int>)

  /** The books as index.ts keeps them. */
  function Project(b: Books): (r: I.Books)
    ensures r.allHolders.Keys == b.allHolders.Keys && r.lpTokens == b.lpTokens
  {
    I.Books(map p | p in b.allHolders :: Records(b.allHolders[p]), b.lpTokens)
  }

  /** Five empty pools with zero totals. */
  function InitialBooks(): (b: Books)
    ensures Project(b) == I.InitialBooks()
  {
    Books(map p | p in I.POOL_SET :: [], map p | p in I.POOL_SET :: 0)
  }

  /** A result of lp.ts seen as a result of index.ts. */
  function ProjectResult(r: Result<Books, Fault>): Result<I.Books, Fault>
  {
    match r
    case Ok(b) => Ok(Project(b))
    case Err(e) => Err(e)
  }

  /** `processMinting` on the books: an unknown pool is a fault. */
  function Mint(b: Books, log: LpTransferLog): Result<Books, Fault>
  {
    if log.pool !in b.lpTokens || log.pool !in b.allHolders then Err(UnknownPool(log.pool))
    else Ok(Books(
      b.allHolders[log.pool := MintInto(b.allHolders[log.pool], log.addressTo, log.amount, log.timestamp)],
      b.lpTokens[log.pool := b.lpTokens[log.pool] + log.amount]))
  }

  /** `processBurning` on the books: an unknown pool, a sender without a record or with less than the amount is a fault. */
  function Burn(b: Books, log: LpTransferLog): Result<Books, Fault>
  {
    if log.pool !in b.lpTokens || log.pool !in b.allHolders then Err(UnknownPool(log.pool))
    else
      var holders := b.allHolders[log.pool];
      match Get(holders, log.addressFrom)
      case None => Err(NoHolderRecord(log.pool, log.addressFrom))
      case Some(h) =>
        if h.lastLPAmountSaved - log.amount < 0 then Err(BurnExceedsBalance(log.addressFrom, log.amount, h.lastLPAmountSaved))
        else Ok(Books(
          b.allHolders[log.pool := DebitFrom(holders, log.addressFrom, log.amount, log.timestamp)],
          b.lpTokens[log.pool := b.lpTokens[log.pool] - log.amount]))
  }

  /** A mint of lp.ts succeeds or faults as the one of index.ts does, and agrees with it on the records and totals. */
  lemma MintProject(b: Books, log: LpTransferLog)
    ensures ProjectResult(Mint(b, log)) == I.Mint(Project(b), log)
  {
    if log.pool in b.lpTokens && log.pool in b.allHolders {
      var holders := b.allHolders[log.pool];
      MintIntoRecords(holders, log.addressTo, log.amount, log.timestamp);
      assert Project(Mint(b, log).value).allHolders
        == Project(b).allHolders[log.pool := I.MintInto(Records(holders), log.addressTo, log.amount, log.timestamp)];
    }
  }

  /** A burn of lp.ts succeeds or faults as the one of index.ts does, with the same fault, and agrees with it on the records and totals. */
  lemma BurnProject(b: Books, log: LpTransferLog)
    ensures ProjectResult(Burn(b, log)) == I.Burn(Project(b), log)
  {
    if log.pool in b.lpTokens && log.pool in b.allHolders {
      var holders := b.allHolders[log.pool];
      RecordsGet(holders, log.addressFrom);
      if Get(holders, log.addressFrom).Some? {
        var h := Get(holders, log.addressFrom).value;
        if h.lastLPAmountSaved - log.amount >= 0 {
          DebitFromRecords(holders, log.addressFrom, log.amount, log.timestamp);
          assert Project(Burn(b, log).value).allHolders
            == Project(b).allHolders[log.pool := I.DebitFrom(Records(holders), log.addressFrom, log.amount, log.timestamp)];
        }
      }
    }
  }

  /** The mint legs of a block, applied in order; the first fault stops them. */
  function MintAll(b: Books, legs: seq<LpTransferLog>): Result<Books, Fault>
    decreases |legs|
  {
    if legs == [] then Ok(b)
    else
      match Mint(b, legs[0])
      case Err(e) => Err(e)
      case Ok(b') => MintAll(b', legs[1..])
  }

  /** The burn legs of a block, applied in order; the first fault stops them. */
  function BurnAll(b: Books, legs: seq<LpTransferLog>): Result<Books, Fault>
    decreases |legs|
  {
    if legs == [] then Ok(b)
    else
      match Burn(b, legs[0])
      case Err(e) => Err(e)
      case Ok(b') => BurnAll(b', legs[1..])
  }

  /** One block: all mint and transfer-in legs, then all burn and transfer-out legs. */
  function ApplyBlock(b: Books, blockLogs: seq<LpTransferLog>): Result<Books, Fault>
  {
    match MintAll(b, MintLegs(blockLogs))
    case Err(e) => Err(e)
    case Ok(minted) => BurnAll(minted, BurnLegs(blockLogs))
  }

  lemma {:induction false} MintAllProject(b: Books, legs: seq<LpTransferLog>)
    ensures ProjectResult(MintAll(b, legs)) == I.MintAll(Project(b), legs)
    decreases |legs|
  {
    if legs != [] {
      MintProject(b, legs[0]);
      if Mint(b, legs[0]).Ok? {
        MintAllProject(Mint(b, legs[0]).value, legs[1..]);
      }
    }
  }

  lemma {:induction false} BurnAllProject(b: Books, legs: seq<LpTransferLog>)
    ensures ProjectResult(BurnAll(b, legs)) == I.BurnAll(Project(b), legs)
    decreases |legs|
  {
    if legs != [] {
      BurnProject(b, legs[0]);
      if Burn(b, legs[0]).Ok? {
        BurnAllProject(Burn(b, legs[0]).value, legs[1..]);
      }
    }
  }

  /**
   * A block of lp.ts succeeds or faults exactly as the same block of
   * index.ts, with the same fault, and leaves the same records and totals.
   */
  lemma ApplyBlockProject(b: Books, blockLogs: seq<LpTransferLog>)
    ensures ProjectResult(ApplyBlock(b, blockLogs)) == I.ApplyBlock(Project(b), blockLogs)
  {
    MintAllProject(b, MintLegs(blockLogs));
    if MintAll(b, MintLegs(blockLogs)).Ok? {
      BurnAllProject(MintAll(b, MintLegs(blockLogs)).value, BurnLegs(blockLogs));
    }
  }

  /**
   * The ledger's invariant, as in index.ts: every pool with holders has a
   * total, which is the sum of its holders' balances; no balance is negative
   * and no holder appears twice.
   */
  ghost predicate Sound(b: Books)
  {
    I.Sound(Project(b))
  }

  /** A mint keeps the books sound. */
  lemma MintSound(b: Books, log: LpTransferLog)
    requires Sound(b) && Mint(b, log).Ok?
    ensures Sound(Mint(b, log).value)
  {
    MintProject(b, log);
    I.MintSound(Project(b), log, Project(Mint(b, log).value));
  }

  /** A successful burn keeps the books sound. */
  lemma BurnSound(b: Books, log: LpTransferLog)
    requires Sound(b) && Burn(b, log).Ok?
    ensures Sound(Burn(b, log).value)
  {
    BurnProject(b, log);
    I.BurnSound(Project(b), log, Project(Burn(b, log).value));
  }

  // ---------------------------------------------------------------------------
  // Time weighting

  /**
   * A pool's history up to time `t`: every holder was first observed no
   * later than its last action, which is no later than `t`, and has a
   * non-negative time-weighted amount.
   */
  ghost predicate HistoryUpTo(holders: Holders, t: int)
  {
    forall i :: 0 <= i < |holders| ==>
      holders[i].1.firstObservedTimestamp <= holders[i].1.lastActionTimestamp <= t && holders[i].1.timeWightedLPAmount >= 0
  }

  ghost predicate Chronological(b: Books, t: int)
  {
    forall p :: p in b.allHolders ==> HistoryUpTo(b.allHolders[p], t)
  }

  /** Every holder of a pool is still one, observed first at the same time, with no less time weight. */
  ghost predicate PoolAccrues(holders: Holders, holders': Holders)
  {
    forall a :: Get(holders, a).Some? ==>
      && Get(holders', a).Some?
      && Get(holders', a).value.firstObservedTimestamp == Get(holders, a).value.firstObservedTimestamp
      && Get(holders', a).value.timeWightedLPAmount >= Get(holders, a).value.timeWightedLPAmount
  }

  /** Every pool of `b` is still a pool in `b'`, and its holders accrue. */
  ghost predicate Accrues(b: Books, b': Books)
  {
    forall p :: p in b.allHolders ==> p in b'.allHolders && PoolAccrues(b.allHolders[p], b'.allHolders[p])
  }

  lemma AccruesTrans(b0: Books, b1: Books, b2: Books)
    requires Accrues(b0, b1) && Accrues(b1, b2)
    ensures Accrues(b0, b2)
  {
  }

  lemma HistoryLater(holders: Holders, t: int, t': int)
    requires HistoryUpTo(holders, t) && t <= t'
    ensures HistoryUpTo(holders, t')
  {
  }

  /** The record an address finds is one of the pool's entries, and in sound books its balance is not negative. */
  lemma GetEntry(holders: Holders, address: string)
    requires Get(holders, address).Some?
    requires Distribution.NonNegative(I.Balances(Records(holders)))
    ensures exists i :: 0 <= i < |holders| && holders[i].1 == Get(holders, address).value
    ensures Get(holders, address).value.lastLPAmountSaved >= 0
  {
    var i := IndexOf(holders, address);
    assert I.Balances(Records(holders))[i].1 == holders[i].1.lastLPAmountSaved;
  }

  /** Writing a record that has a history up to `t` keeps the pool's history up to `t`. */
  lemma PutHistory(holders: Holders, address: string, h: Holder, t: int)
    requires HistoryUpTo(holders, t)
    requires h.firstObservedTimestamp <= h.lastActionTimestamp <= t && h.timeWightedLPAmount >= 0
    ensures HistoryUpTo(Put(holders, address, h), t)
  {
    PutKeys(holders, address, h);
  }

  /**
   * An action at time `t'`, no earlier than the pool's history: the actor's
   * record accrues a non-negative time weight (its balance is not negative
   * and time does not run back), and the history extends to `t'`.
   */
  lemma AccrueHistory(holders: Holders, address: string, t: int, t': int)
    requires HistoryUpTo(holders, t) && t <= t'
    requires Get(holders, address).Some?
    requires Distribution.NonNegative(I.Balances(Records(holders)))
    ensures var h := Get(holders, address).value;
      && h.firstObservedTimestamp <= t' && Accrued(h, t') >= h.timeWightedLPAmount >= 0
  {
    GetEntry(holders, address);
    var h := Get(holders, address).value;
    assert h.lastActionTimestamp <= t;
    assert h.lastLPAmountSaved * (t' - h.lastActionTimestamp) >= 0;
  }

  /** A mint at time `ts`, no earlier than the pool's history, extends the history to `ts` and lowers no time weight. */
  lemma MintIntoHistory(holders: Holders, to: string, amount: nat, ts: int, t: int)
    requires HistoryUpTo(holders, t) && t <= ts
    requires Distribution.NonNegative(I.Balances(Records(holders)))
    ensures HistoryUpTo(MintInto(holders, to, amount, ts), ts)
    ensures PoolAccrues(holders, MintInto(holders, to, amount, ts))
  {
    HistoryLater(holders, t, ts);
    MintIntoRecord(holders, to, amount, ts);
    match Get(holders, to)
    case Some(h) =>
      AccrueHistory(holders, to, t, ts);
      PutHistory(holders, to, Holder(h.lastLPAmountSaved + amount, ts, h.firstObservedTimestamp, Accrued(h, ts)), ts);
    case None =>
      PutHistory(holders, to, Holder(amount, ts, ts, 0), ts);
  }

  /** A burn at time `ts`, no earlier than the pool's history, extends the history to `ts` and lowers no time weight. */
  lemma DebitFromHistory(holders: Holders, from: string, amount: nat, ts: int, t: int)
    requires HistoryUpTo(holders, t) && t <= ts
    requires Distribution.NonNegative(I.Balances(Records(holders)))
    requires Get(holders, from).Some?
    ensures HistoryUpTo(DebitFrom(holders, from, amount, ts), ts)
    ensures PoolAccrues(holders, DebitFrom(holders, from, amount, ts))
  {
    var h := Get(holders, from).value;
    HistoryLater(holders, t, ts);
    DebitFromRecord(holders, from, amount, ts);
    AccrueHistory(holders, from, t, ts);
    PutHistory(holders, from, Holder(h.lastLPAmountSaved - amount, ts, h.firstObservedTimestamp, Accrued(h, ts)), ts);
  }

  /**
   * With events in time order, a mint keeps the history in order up to its
   * time, never lowers a time-weighted amount and never changes a
   * first-observed time.
   */
  lemma MintChronological(b: Books, log: LpTransferLog, t: int)
    requires Sound(b) && Chronological(b, t) && t <= log.timestamp && Mint(b, log).Ok?
    ensures Chronological(Mint(b, log).value, log.timestamp)
    ensures Accrues(b, Mint(b, log).value)
  {
    var holders := b.allHolders[log.pool];
    assert Project(b).allHolders[log.pool] == Records(holders);
    MintIntoHistory(holders, log.addressTo, log.amount, log.timestamp, t);
    forall p | p in b.allHolders && p != log.pool ensures HistoryUpTo(b.allHolders[p], log.timestamp) {
      HistoryLater(b.allHolders[p], t, log.timestamp);
    }
  }

  /**
   * With events in time order, a burn keeps the history in order up to its
   * time, never lowers a time-weighted amount and never changes a
   * first-observed time.
   */
  lemma BurnChronological(b: Books, log: LpTransferLog, t: int)
    requires Sound(b) && Chronological(b, t) && t <= log.timestamp && Burn(b, log).Ok?
    ensures Chronological(Burn(b, log).value, log.timestamp)
    ensures Accrues(b, Burn(b, log).value)
  {
    var holders := b.allHolders[log.pool];
    assert Project(b).allHolders[log.pool] == Records(holders);
    DebitFromHistory(holders, log.addressFrom, log.amount, log.timestamp, t);
    forall p | p in b.allHolders && p != log.pool ensures HistoryUpTo(b.allHolders[p], log.timestamp) {
      HistoryLater(b.allHolders[p], t, log.timestamp);
    }
  }

  /** Legs that all happen at time `t'`, no earlier than the history. */
  lemma {:induction false} MintAllChronological(b: Books, legs: seq<LpTransferLog>, t: int, t': int)
    requires Sound(b) && Chronological(b, t) && t <= t'
    requires forall i :: 0 <= i < |legs| ==> legs[i].timestamp == t'
    requires MintAll(b, legs).Ok?
    ensures Sound(MintAll(b, legs).value) && Chronological(MintAll(b, legs).value, t')
    ensures Accrues(b, MintAll(b, legs).value)
    decreases |legs|
  {
    if legs == [] {
      forall p | p in b.allHolders ensures HistoryUpTo(b.allHolders[p], t') {
        HistoryLater(b.allHolders[p], t, t');
      }
    } else {
      var b1 := Mint(b, legs[0]).value;
      MintSound(b, legs[0]);
      MintChronological(b, legs[0], t);
      MintAllChronological(b1, legs[1..], t', t');
      AccruesTrans(b, b1, MintAll(b, legs).value);
    }
  }

  lemma {:induction false} BurnAllChronological(b: Books, legs: seq<LpTransferLog>, t: int, t': int)
    requires Sound(b) && Chronological(b, t) && t <= t'
    requires forall i :: 0 <= i < |legs| ==> legs[i].timestamp == t'
    requires BurnAll(b, legs).Ok?
    ensures Sound(BurnAll(b, legs).value) && Chronological(BurnAll(b, legs).value, t')
    ensures Accrues(b, BurnAll(b, legs).value)
    decreases |legs|
  {
    if legs == [] {
      forall p | p in b.allHolders ensures HistoryUpTo(b.allHolders[p], t') {
        HistoryLater(b.allHolders[p], t, t');
      }
    } else {
      var b1 := Burn(b, legs[0]).value;
      BurnSound(b, legs[0]);
      BurnChronological(b, legs[0], t);
      BurnAllChronological(b1, legs[1..], t', t');
      AccruesTrans(b, b1, BurnAll(b, legs).value);
    }
  }

  /**
   * A block whose logs all carry the block's time `t'`, no earlier than the
   * history so far: the books stay sound, the history extends to `t'`, no
   * holder disappears, no time-weighted amount goes down and no
   * first-observed time changes.
   */
  lemma ApplyBlockChronological(b: Books, blockLogs: seq<LpTransferLog>, t: int, t': int)
    requires Sound(b) && Chronological(b, t) && t <= t'
    requires forall i :: 0 <= i < |blockLogs| ==> blockLogs[i].timestamp == t'
    requires ApplyBlock(b, blockLogs).Ok?
    ensures Sound(ApplyBlock(b, blockLogs).value) && Chronological(ApplyBlock(b, blockLogs).value, t')
    ensures Accrues(b, ApplyBlock(b, blockLogs).value)
  {
    var mintLegs, burnLegs := MintLegs(blockLogs), BurnLegs(blockLogs);
    forall x | x in mintLegs || x in burnLegs ensures x.timestamp == t' {
      LegsOfBlock(blockLogs, x);
    }
    MintAllChronological(b, mintLegs, t, t');
    var minted := MintAll(b, mintLegs).value;
    BurnAllChronological(minted, burnLegs, t', t');
    AccruesTrans(b, minted, ApplyBlock(b, blockLogs).value);
  }

  /**
   * The ledger of lp.ts: the holders of every pool and every pool's locked
   * total, both updated in place by each log.
   */
  class Ledger {
    var allHolders: map<string, Holders>
    var lpTokens: map<string, int>

    function State(): Books
      reads this
    {
      Books(allHolders, lpTokens)
    }

    ghost predicate Valid()
      reads this
    {
      Sound(State())
    }

    /** Five empty pools with zero totals. */
    constructor ()
      ensures State() == InitialBooks() && Valid()
    {
      allHolders := map p | p in I.POOL_SET :: [];
      lpTokens := map p | p in I.POOL_SET :: 0;
      new;
      I.InitialBooksSound();
    }

    /** `processMinting`: an unknown pool is a fault and writes nothing. */
    method ProcessMinting(log: LpTransferLog) returns (outcome: Result<(), Fault>)
      requires Valid()
      modifies this
      ensures Valid()
      ensures Mint(old(State()), log).Ok? ==> outcome.Ok? && State() == Mint(old(State()), log).value
      ensures Mint(old(State()), log).Err? ==> outcome == Err(Mint(old(State()), log).error) && State() == old(State())
    {
      if log.pool !in lpTokens || log.pool !in allHolders {
        return Err(UnknownPool(log.pool));
      }
      ghost var before := State();
      lpTokens := lpTokens[log.pool := lpTokens[log.pool] + log.amount];
      var holders := allHolders[log.pool];
      match Get(holders, log.addressTo) {
        case Some(h) =>
          var timeDiff := log.timestamp - h.lastActionTimestamp;
          var timeWeighted := h.lastLPAmountSaved * timeDiff;
          holders := Put(holders, log.addressTo,
            Holder(h.lastLPAmountSaved + log.amount, log.timestamp, h.firstObservedTimestamp, h.timeWightedLPAmount + timeWeighted));
        case None =>
          holders := Put(holders, log.addressTo, Holder(log.amount, log.timestamp, log.timestamp, 0));
      }
      assert holders == MintInto(before.allHolders[log.pool], log.addressTo, log.amount, log.timestamp);
      allHolders := allHolders[log.pool := holders];
      assert State() == Mint(before, log).value;
      MintSound(before, log);
      outcome := Ok(());
    }

    /**
     * `processBurning`: an unknown pool, a sender without a record or a
     * balance below the amount is a fault raised before anything is written.
     */
    method ProcessBurning(log: LpTransferLog) returns (outcome: Result<(), Fault>)
      requires Valid()
      modifies this
      ensures Valid()
      ensures Burn(old(State()), log).Ok? ==> outcome.Ok? && State() == Burn(old(State()), log).value
      ensures Burn(old(State()), log).Err? ==> outcome == Err(Burn(old(State()), log).error) && State() == old(State())
    {
      if log.pool !in lpTokens || log.pool !in allHolders {
        return Err(UnknownPool(log.pool));
      }
      var holders := allHolders[log.pool];
      var record := Get(holders, log.addressFrom);
      if record.None? {
        return Err(NoHolderRecord(log.pool, log.addressFrom));
      }
      var h := record.value;
      var timeDiff := log.timestamp - h.lastActionTimestamp;
      var timeWeighted := h.lastLPAmountSaved * timeDiff;
      if h.lastLPAmountSaved - log.amount < 0 {
        return Err(BurnExceedsBalance(log.addressFrom, log.amount, h.lastLPAmountSaved));
      }
      ghost var before := State();
      lpTokens := lpTokens[log.pool := lpTokens[log.pool] - log.amount];
      holders := Put(holders, log.addressFrom,
        Holder(h.lastLPAmountSaved - log.amount, log.timestamp, h.firstObservedTimestamp, h.timeWightedLPAmount + timeWeighted));
      assert holders == DebitFrom(before.allHolders[log.pool], log.addressFrom, log.amount, log.timestamp);
      allHolders := allHolders[log.pool := holders];
      assert State() == Burn(before, log).value;
      BurnSound(before, log);
      outcome := Ok(());
    }
  }
}
