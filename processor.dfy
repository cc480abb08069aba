/**
 * The `TransactionProcessor`: the catch-up loops of shard-block mode and
 * hyperblock mode, the in-memory nonce store, the cross-shard dictionary they
 * keep between runs, and the consumer notifications they make.
 *
 * The gateway is a value (`Gateway`) whose answers are fixed for a run; the
 * consumer callbacks and the store writes are recorded, in order, in `events`.
 * Each step of a loop is specified by a function (`ShardStep`,
 * `HyperblockStep`); the lemmas about those functions give the loops their
 * termination measure and their final state.
 */
module Processor {
  import opened Wrappers
  import opened Seqs
  import opened Transactions
  import opened Decoder
  import opened Reconciler
  import opened Watermark

  datatype Mode = Shardblock | Hyperblock

  /**
   * The options a run reads. `maxLookBehind` 0 stands for "not set" (any
   * falsy value); the three flags count only when they are `true`.
   */
  datatype Options = Options(
    mode: Mode,
    maxLookBehind: nat,
    waitForFinalizedCrossShardSmartContractResults: bool,
    notifyEmptyBlocks: bool,
    includeCrossShardStartedTransactions: bool)

  /**
   * The options a shard-mode run works with: those passed to
   * `startProcessByShardblock`, except that the finalized-results flag is read
   * from the options `start` recorded.
   */
  function RunOptions(passed: Options, recorded: Options): (run: Options)
    ensures run.maxLookBehind == passed.maxLookBehind && run.notifyEmptyBlocks == passed.notifyEmptyBlocks
    ensures run.includeCrossShardStartedTransactions == passed.includeCrossShardStartedTransactions
    ensures run.waitForFinalizedCrossShardSmartContractResults == recorded.waitForFinalizedCrossShardSmartContractResults
    ensures passed == recorded ==> run == passed
  {
    passed.(waitForFinalizedCrossShardSmartContractResults := recorded.waitForFinalizedCrossShardSmartContractResults)
  }

  /** The answers of the gateway: a `Failure` is a request that threw, `None` a reply without data. */
  datatype Gateway = Gateway(
    shardCount: Result<int, Fault>,
    status: int -> Result<int, Fault>,
    block: (int, int) -> Result<Option<BlockEnvelope>, Fault>,
    hyperblock: int -> Result<Option<HyperblockEnvelope>, Fault>)

  /** What the consumer sees: the two callbacks, and each write to the nonce store. */
  datatype Event =
    | Received(shardId: int, nonce: int, round: int, timestamp: int, transactions: seq<ShardTransaction>,
               statistics: Statistics, blockHash: string)
    | Pending(shardId: int, nonce: int, transactions: seq<ShardTransaction>)
    | NonceStored(shardId: int, nonce: int)

  datatype Outcome = AlreadyRunning | Finished | Aborted(fault: Fault)

  function Lookup(store: map<int, int>, shardId: int): (r: Option<int>)
    ensures r.Some? <==> shardId in store
    ensures r.Some? ==> r.value == store[shardId]
  {
    if shardId in store then Some(store[shardId]) else None
  }

  /** The store after `getLastProcessedNonceOrCurrent`: a missing value is initialised to the nonce before the current one. */
  function Initialised(store: map<int, int>, shardId: int, current: int): map<int, int> {
    if shardId in store then store else store[shardId := current - 1]
  }

  function InitialisedEvents(store: map<int, int>, shardId: int, current: int): seq<Event> {
    if shardId in store then [] else [NonceStored(shardId, current - 1)]
  }

  /** `startLastProcessedNonces[shardId]` is set when it is missing or 0 (falsy). */
  function StartNonces(start: map<int, int>, shardId: int, lastProcessed: int): (r: map<int, int>)
    ensures r.Keys == start.Keys + {shardId}
    ensures forall t :: t in start && t != shardId ==> r[t] == start[t]
    ensures shardId !in start || start[shardId] == 0 ==> r[shardId] == lastProcessed
    ensures shardId in start && start[shardId] != 0 ==> r[shardId] == start[shardId]
  {
    if shardId !in start || start[shardId] == 0 then start[shardId := lastProcessed] else start
  }

  /** The gateway reports the status of every shard of `ids`. */
  ghost predicate StatusesAvailable(gw: Gateway, ids: seq<int>) {
    forall i :: 0 <= i < |ids| ==> gw.status(ids[i]).Success?
  }

  /** The current nonce of each of `ids`, as the gateway reports it. */
  function CurrentNonces(gw: Gateway, ids: seq<int>): map<int, int>
    requires StatusesAvailable(gw, ids)
  {
    map s | s in ids :: gw.status(s).value
  }

  // ---------------------------------------------------------------- one shard block

  /** A transaction of a block of `shardId` that is passed on now. */
  function Delivers(d: Dictionary, shardId: int, includeStarted: bool): ShardTransaction -> bool {
    (tx: ShardTransaction) => (tx.destinationShard == shardId || includeStarted) && tx.hash !in d.entries
  }

  /** A transaction of a block of `shardId` that is reported as pending: it still awaits cross-shard SCRs. */
  function Withholds(d: Dictionary, shardId: int, includeStarted: bool): ShardTransaction -> bool {
    (tx: ShardTransaction) => (tx.destinationShard == shardId || includeStarted) && tx.hash in d.entries
  }

  /**
   * Each transaction of a block is either dropped (bound for another shard while
   * cross-shard-started transactions are not wanted), or pending (its hash is a
   * key of the dictionary), or delivered, and never two of these.
   */
  lemma BatchPartition(d: Dictionary, shardId: int, includeStarted: bool, txs: seq<ShardTransaction>, tx: ShardTransaction)
    requires tx in txs
    ensures var dropped := tx.destinationShard != shardId && !includeStarted;
            var delivered := tx in Filter(txs, Delivers(d, shardId, includeStarted));
            var pending := tx in Filter(txs, Withholds(d, shardId, includeStarted));
            (dropped <==> !delivered && !pending)
            && (pending <==> !dropped && tx.hash in d.entries)
            && (delivered <==> !dropped && tx.hash !in d.entries)
  {
    var i :| 0 <= i < |txs| && txs[i] == tx;
    var delivers := Delivers(d, shardId, includeStarted);
    var withholds := Withholds(d, shardId, includeStarted);
    if tx in Filter(txs, delivers) {
      var j :| 0 <= j < |Filter(txs, delivers)| && Filter(txs, delivers)[j] == tx;
    }
    if tx in Filter(txs, withholds) {
      var j :| 0 <= j < |Filter(txs, withholds)| && Filter(txs, withholds)[j] == tx;
    }
  }

  /**
   * The events of one fetched shard block: `Received` with the `delivered`
   * transactions when there are any or empty blocks are wanted, then `Pending`
   * when some are `withheld`, and the store write last.
   */
  function BlockEvents(shardId: int, nonce: int, block: Block, delivered: seq<ShardTransaction>, withheld: seq<ShardTransaction>,
                       notifyEmptyBlocks: bool, stats: Statistics): (ev: seq<Event>)
    ensures |ev| >= 1 && ev[|ev| - 1] == NonceStored(shardId, nonce)
    ensures forall i :: 0 <= i < |ev| - 1 ==> !ev[i].NonceStored?
    ensures (exists i :: 0 <= i < |ev| && ev[i].Received?) <==> |delivered| > 0 || notifyEmptyBlocks
    ensures (exists i :: 0 <= i < |ev| && ev[i].Pending?) <==> |withheld| > 0
    ensures forall i :: 0 <= i < |ev| && ev[i].Received? ==>
              ev[i] == Received(shardId, nonce, block.round, block.timestamp, delivered, stats, block.blockHash)
    ensures forall i :: 0 <= i < |ev| && ev[i].Pending? ==> ev[i] == Pending(shardId, nonce, withheld)
    ensures |ev| == (if |delivered| > 0 || notifyEmptyBlocks then 1 else 0) + (if |withheld| > 0 then 1 else 0) + 1
    ensures forall i, j :: 0 <= i < j < |ev| && ev[i].Pending? ==> !ev[j].Received?
  {
    var received := if |delivered| > 0 || notifyEmptyBlocks then [Received(shardId, nonce, block.round, block.timestamp, delivered, stats, block.blockHash)] else [];
    var pending := if |withheld| > 0 then [Pending(shardId, nonce, withheld)] else [];
    var ev := received + pending + [NonceStored(shardId, nonce)];
    assert forall i :: 0 <= i < |received| ==> ev[i] == received[i];
    assert forall i :: |received| <= i < |received| + |pending| ==> ev[i] == pending[i - |received|];
    assert |ev| == |received| + |pending| + 1;
    assert |received| > 0 ==> ev[0].Received?;
    assert |pending| > 0 ==> ev[|received|].Pending?;
    ev
  }

  /** The state one iteration of the shard loop leaves behind. */
  datatype Step = Step(outcome: Result<bool, Fault>, store: map<int, int>, dictionary: Dictionary, emitted: seq<Event>, start: map<int, int>)

  /**
   * One iteration of the shard-mode loop for `shardId`: `outcome` is
   * `Success(true)` when a block was processed (the tip is not reached yet),
   * `Success(false)` when the shard was skipped, `Failure` when the gateway threw.
   */
  function ShardStep(opts: Options, gw: Gateway, store: map<int, int>, dictionary: Dictionary, shardId: int,
                     current: int, now: int, start: map<int, int>): (s: Step)
    requires dictionary.Valid()
    ensures s.dictionary.Valid()
  {
    var initialised := Initialised(store, shardId, current);
    var initEvents := InitialisedEvents(store, shardId, current);
    match Decide(Resolve(Lookup(store, shardId), current), current, opts.maxLookBehind)
    case AtTip => Step(Success(false), initialised, dictionary, initEvents, start)
    case AheadOfTip => Step(Success(false), initialised, dictionary, initEvents, start)
    case Fetch(p) =>
      var fetched := FetchStep(opts, gw, initialised, dictionary, shardId, p, current, now, StartNonces(start, shardId, p));
      fetched.(emitted := initEvents + fetched.emitted)
  }

  /** The fetch part of a shard-mode iteration, after the watermark decided to fetch block `lastProcessed + 1`. */
  function FetchStep(opts: Options, gw: Gateway, store: map<int, int>, dictionary: Dictionary,
                     shardId: int, lastProcessed: int, current: int, now: int, start: map<int, int>): (s: Step)
    requires dictionary.Valid()
    requires shardId in start
    ensures s.dictionary.Valid()
    ensures s.outcome == Success(true) ==> s.store == store[shardId := lastProcessed + 1]
    ensures s.outcome != Success(true) ==> s.store == store && s.dictionary == dictionary && s.emitted == []
    ensures s.outcome == Success(true) ==> |s.emitted| > 0 && s.emitted[|s.emitted| - 1] == NonceStored(shardId, lastProcessed + 1)
                                           && forall i :: 0 <= i < |s.emitted| - 1 ==> !s.emitted[i].NonceStored?
    ensures s.outcome == Success(false) <==> gw.block(shardId, lastProcessed + 1).Success?
                                             && DecodeShardBlock(gw.block(shardId, lastProcessed + 1).value).None?
  {
    match gw.block(shardId, lastProcessed + 1)
    case Failure(e) => Step(Failure(e), store, dictionary, [], start)
    case Success(reply) =>
      match DecodeShardBlock(reply)
      case None => Step(Success(false), store, dictionary, [], start)
      case Some(block) =>
        var processed := ProcessedBlock(opts, dictionary, shardId, lastProcessed + 1, block, now,
                                        BlockStatistics(lastProcessed, start[shardId], current));
        Step(Success(true), store[shardId := lastProcessed + 1], processed.0, processed.1, start)
  }

  /**
   * A fetched shard block: the cross-shard reconciliation when the consumer
   * waits for finalized SCRs, then the block's events. Returns the new
   * dictionary and the events.
   */
  function ProcessedBlock(opts: Options, dictionary: Dictionary, shardId: int, nonce: int, block: Block, now: int,
                          stats: Statistics): (r: (Dictionary, seq<Event>))
    requires dictionary.Valid()
    ensures r.0.Valid()
    ensures !opts.waitForFinalizedCrossShardSmartContractResults ==> r.0 == dictionary
    ensures |r.1| > 0 && r.1[|r.1| - 1] == NonceStored(shardId, nonce)
  {
    var reconciled := if opts.waitForFinalizedCrossShardSmartContractResults
                      then Reconcile(dictionary, shardId, block.transactions, now)
                      else (dictionary, []);
    var includeStarted := opts.includeCrossShardStartedTransactions;
    var delivered := reconciled.1 + Filter(block.transactions, Delivers(reconciled.0, shardId, includeStarted));
    var withheld := Filter(block.transactions, Withholds(reconciled.0, shardId, includeStarted));
    (reconciled.0, BlockEvents(shardId, nonce, block, delivered, withheld, opts.notifyEmptyBlocks, stats))
  }

  /** A shard the loop has nothing to do for: its value is stored and it is at or ahead of the tip, or its next block is not available. */
  ghost predicate AtRest(opts: Options, gw: Gateway, store: map<int, int>, shardId: int, current: int) {
    Lookup(store, shardId).Some? && RestingValue(opts, gw, shardId, Lookup(store, shardId).value, current)
  }

  /** A stored value for `shardId` the loop has nothing to do for. */
  ghost predicate RestingValue(opts: Options, gw: Gateway, shardId: int, stored: int, current: int) {
    match Decide(stored, current, opts.maxLookBehind)
    case Fetch(p) => gw.block(shardId, p + 1).Success? && DecodeShardBlock(gw.block(shardId, p + 1).value).None?
    case _ => true
  }

  /** Every shard of `ids` is at rest against its current nonce. */
  ghost predicate AllAtRest(opts: Options, gw: Gateway, store: map<int, int>, ids: seq<int>, currentNonces: map<int, int>)
    requires forall s :: s in ids ==> s in currentNonces
  {
    forall s :: s in ids ==> AtRest(opts, gw, store, s, currentNonces[s])
  }

  /** Being at rest depends on the options only through `maxLookBehind`. */
  lemma AllAtRestOptions(opts: Options, opts': Options, gw: Gateway, store: map<int, int>, ids: seq<int>,
                         currentNonces: map<int, int>)
    requires forall s :: s in ids ==> s in currentNonces
    requires opts.maxLookBehind == opts'.maxLookBehind
    ensures AllAtRest(opts, gw, store, ids, currentNonces) <==> AllAtRest(opts', gw, store, ids, currentNonces)
  {
  }

  /** Shards already at rest stay so when only `ids[i]` changed, and `ids[i]` is now at rest too. */
  lemma AllAtRestExtend(opts: Options, gw: Gateway, store: map<int, int>, store': map<int, int>, ids: seq<int>, i: int,
                        currentNonces: map<int, int>)
    requires forall s :: s in ids ==> s in currentNonces
    requires 0 <= i < |ids|
    requires forall t :: t != ids[i] ==> Lookup(store', t) == Lookup(store, t)
    requires AllAtRest(opts, gw, store, ids[..i], currentNonces)
    requires AtRest(opts, gw, store', ids[i], currentNonces[ids[i]])
    ensures AllAtRest(opts, gw, store', ids[..i + 1], currentNonces)
  {
    forall s | s in ids[..i + 1]
      ensures AtRest(opts, gw, store', s, currentNonces[s])
    {
      if s != ids[i] {
        assert s in ids[..i];
        assert AtRest(opts, gw, store, s, currentNonces[s]);
      }
    }
  }

  function ShardDistance(store: map<int, int>, shardId: int, current: int): nat {
    Distance(Lookup(store, shardId), current)
  }

  /**
   * A step touches only its own shard's stored nonce, never moves it away from
   * rest, and moves it strictly closer when a block was processed; a step that
   * processed nothing leaves the shard at rest.
   */
  lemma ShardStepProgress(opts: Options, gw: Gateway, store: map<int, int>, dictionary: Dictionary, shardId: int,
                          current: int, now: int, start: map<int, int>)
    requires dictionary.Valid()
    ensures var s := ShardStep(opts, gw, store, dictionary, shardId, current, now, start);
            (forall t :: t != shardId ==> Lookup(s.store, t) == Lookup(store, t))
            && ShardDistance(s.store, shardId, current) <= ShardDistance(store, shardId, current)
            && (s.outcome == Success(true) ==> ShardDistance(s.store, shardId, current) < ShardDistance(store, shardId, current))
            && (s.outcome == Success(false) ==> AtRest(opts, gw, s.store, shardId, current))
  {
    InitProgress(current);
    var last := Resolve(Lookup(store, shardId), current);
    var s := ShardStep(opts, gw, store, dictionary, shardId, current, now, start);
    var initialised := Initialised(store, shardId, current);
    assert initialised[shardId] == last;
    match Decide(last, current, opts.maxLookBehind) {
      case Fetch(p) =>
        FetchProgress(Lookup(store, shardId), current, opts.maxLookBehind);
        var f := FetchStep(opts, gw, initialised, dictionary, shardId, p, current, now, StartNonces(start, shardId, p));
        assert s.store == f.store && s.outcome == f.outcome;
        FetchStepProgress(opts, gw, initialised, dictionary, shardId, p, current, now, StartNonces(start, shardId, p));
      case AtTip =>
        assert s.store == initialised && s.outcome == Success(false);
      case AheadOfTip =>
        assert s.store == initialised && s.outcome == Success(false);
    }
  }

  /** The fetch part of a step, from a stored value the watermark decided to fetch after. */
  lemma FetchStepProgress(opts: Options, gw: Gateway, store: map<int, int>, dictionary: Dictionary, shardId: int, p: int,
                          current: int, now: int, start: map<int, int>)
    requires dictionary.Valid() && shardId in start && shardId in store
    requires Decide(store[shardId], current, opts.maxLookBehind) == Fetch(p)
    ensures var f := FetchStep(opts, gw, store, dictionary, shardId, p, current, now, start);
            (forall t :: t != shardId ==> Lookup(f.store, t) == Lookup(store, t))
            && (f.outcome == Success(true) ==> Lookup(f.store, shardId) == Some(p + 1))
            && (f.outcome != Success(true) ==> f.store == store)
            && (f.outcome == Success(false) ==> AtRest(opts, gw, f.store, shardId, current))
  {
  }

  /**
   * The two cases of a step: a skipped shard only has its value initialised,
   * and a fetch is the fetch step after the initial store write.
   */
  lemma ShardStepCases(opts: Options, gw: Gateway, store: map<int, int>, dictionary: Dictionary, shardId: int,
                       current: int, now: int, start: map<int, int>)
    requires dictionary.Valid()
    ensures var s := ShardStep(opts, gw, store, dictionary, shardId, current, now, start);
            var decision := Decide(Resolve(Lookup(store, shardId), current), current, opts.maxLookBehind);
            (!decision.Fetch? ==>
                  s.outcome == Success(false) && s.store == Initialised(store, shardId, current) && s.dictionary == dictionary
                  && s.emitted == InitialisedEvents(store, shardId, current) && s.start == start)
            && (decision.Fetch? ==>
                  var f := FetchStep(opts, gw, Initialised(store, shardId, current), dictionary, shardId, decision.lastProcessed,
                                     current, now, StartNonces(start, shardId, decision.lastProcessed));
                  s.outcome == f.outcome && s.store == f.store && s.dictionary == f.dictionary && s.start == f.start
                  && s.emitted == InitialisedEvents(store, shardId, current) + f.emitted)
  {
  }

  /**
   * A step that processed a block fetched the nonce after the resolved and
   * clamped watermark and stored exactly that nonce, as its last event.
   */
  lemma ShardStepFetchesNext(opts: Options, gw: Gateway, store: map<int, int>, dictionary: Dictionary, shardId: int,
                             current: int, now: int, start: map<int, int>)
    requires dictionary.Valid()
    ensures var s := ShardStep(opts, gw, store, dictionary, shardId, current, now, start);
            var decision := Decide(Resolve(Lookup(store, shardId), current), current, opts.maxLookBehind);
            s.outcome == Success(true) ==>
              decision.Fetch? && Lookup(s.store, shardId) == Some(decision.lastProcessed + 1)
              && |s.emitted| > 0 && s.emitted[|s.emitted| - 1] == NonceStored(shardId, decision.lastProcessed + 1)
  {
    var s := ShardStep(opts, gw, store, dictionary, shardId, current, now, start);
    var decision := Decide(Resolve(Lookup(store, shardId), current), current, opts.maxLookBehind);
    ShardStepCases(opts, gw, store, dictionary, shardId, current, now, start);
    if decision.Fetch? && s.outcome == Success(true) {
      var p := decision.lastProcessed;
      var f := FetchStep(opts, gw, Initialised(store, shardId, current), dictionary, shardId, p, current, now, StartNonces(start, shardId, p));
      AppendLast(InitialisedEvents(store, shardId, current), f.emitted);
    }
  }

  /** A step that processed no block made no notification beyond the initial store write and left the dictionary alone. */
  lemma ShardStepQuiet(opts: Options, gw: Gateway, store: map<int, int>, dictionary: Dictionary, shardId: int,
                       current: int, now: int, start: map<int, int>)
    requires dictionary.Valid()
    ensures var s := ShardStep(opts, gw, store, dictionary, shardId, current, now, start);
            s.outcome != Success(true) ==> s.dictionary == dictionary && s.emitted == InitialisedEvents(store, shardId, current)
  {
    var s := ShardStep(opts, gw, store, dictionary, shardId, current, now, start);
    var initEvents := InitialisedEvents(store, shardId, current);
    match Decide(Resolve(Lookup(store, shardId), current), current, opts.maxLookBehind) {
      case Fetch(p) =>
        var f := FetchStep(opts, gw, Initialised(store, shardId, current), dictionary, shardId, p, current, now, StartNonces(start, shardId, p));
        assert s == f.(emitted := initEvents + f.emitted);
        if f.outcome != Success(true) {
          assert initEvents + [] == initEvents;
        }
      case AtTip =>
      case AheadOfTip =>
    }
  }

  /** A step for a shard already at rest changes nothing but the start nonces. */
  lemma ShardStepAtRest(opts: Options, gw: Gateway, store: map<int, int>, dictionary: Dictionary, shardId: int,
                        current: int, now: int, start: map<int, int>)
    requires dictionary.Valid() && AtRest(opts, gw, store, shardId, current)
    ensures var s := ShardStep(opts, gw, store, dictionary, shardId, current, now, start);
            s.outcome == Success(false) && s.store == store && s.dictionary == dictionary && s.emitted == []
  {
  }

  /** The sum of the shards' distances from rest: the measure of the shard-mode loop. */
  function TotalDistance(store: map<int, int>, currentNonces: map<int, int>, ids: seq<int>): nat
    requires forall s :: s in ids ==> s in currentNonces
  {
    if ids == [] then 0
    else TotalDistance(store, currentNonces, ids[..|ids| - 1]) + ShardDistance(store, ids[|ids| - 1], currentNonces[ids[|ids| - 1]])
  }

  /** Changing one shard's stored nonce to one no further from rest does not increase the total, and moving it closer decreases it. */
  lemma {:induction false} TotalDistanceUpdate(store: map<int, int>, store': map<int, int>, currentNonces: map<int, int>,
                                               ids: seq<int>, shardId: int)
    requires forall s :: s in ids ==> s in currentNonces
    requires shardId in currentNonces
    requires forall t :: t != shardId ==> Lookup(store', t) == Lookup(store, t)
    requires ShardDistance(store', shardId, currentNonces[shardId]) <= ShardDistance(store, shardId, currentNonces[shardId])
    ensures TotalDistance(store', currentNonces, ids) <= TotalDistance(store, currentNonces, ids)
    ensures shardId in ids && ShardDistance(store', shardId, currentNonces[shardId]) < ShardDistance(store, shardId, currentNonces[shardId])
            ==> TotalDistance(store', currentNonces, ids) < TotalDistance(store, currentNonces, ids)
  {
    if ids != [] {
      var init := ids[..|ids| - 1];
      TotalDistanceUpdate(store, store', currentNonces, init, shardId);
      assert shardId in ids ==> shardId in init || shardId == ids[|ids| - 1];
    }
  }

  // ---------------------------------------------------------------- one hyperblock

  /** The grouping of a hyperblock's transactions: each destination shard with the transactions bound for it. */
  function GroupsOf(txs: seq<ShardTransaction>): (groups: map<int, seq<ShardTransaction>>)
    ensures forall d :: d in groups <==> d in Destinations(txs)
  {
    map d | d in Destinations(txs) :: GroupFor(txs, d)
  }

  /** The notifications for the groups `ds` of a hyperblock, one `Received` per non-empty group (or every group when empty blocks are wanted). */
  function GroupEvents(groups: map<int, seq<ShardTransaction>>, ds: seq<int>, nonce: int, round: int, timestamp: int,
                       stats: Statistics, blockHash: string, notifyEmptyBlocks: bool): (ev: seq<Event>)
    requires forall d :: d in ds ==> d in groups
    ensures |ev| <= |ds|
    ensures forall i :: 0 <= i < |ev| ==>
              ev[i].Received? && ev[i].shardId in ds && ev[i].nonce == nonce && ev[i].transactions == groups[ev[i].shardId]
  {
    if ds == [] then []
    else
      var d := ds[|ds| - 1];
      GroupEvents(groups, ds[..|ds| - 1], nonce, round, timestamp, stats, blockHash, notifyEmptyBlocks)
      + (if |groups[d]| > 0 || notifyEmptyBlocks then [Received(d, nonce, round, timestamp, groups[d], stats, blockHash)] else [])
  }

  /** `x` is listed strictly before `y` in `ds`. */
  ghost predicate Before(ds: seq<int>, x: int, y: int) {
    exists a, b :: 0 <= a < b < |ds| && ds[a] == x && ds[b] == y
  }

  /** Of two events, the earlier is for a shard listed strictly earlier in `ds`. */
  ghost predicate InOrder(ds: seq<int>, ev: seq<Event>) {
    forall i, j :: 0 <= i < j < |ev| ==> Before(ds, ev[i].shardId, ev[j].shardId)
  }

  /**
   * The notifications follow the order of `ds`: of two notifications, the
   * earlier is for a shard listed strictly earlier. With distinct groups (the
   * keys of a `Map`), each group is therefore notified at most once, in order.
   */
  lemma {:induction false} GroupEventsInOrder(groups: map<int, seq<ShardTransaction>>, ds: seq<int>, nonce: int, round: int,
                                              timestamp: int, stats: Statistics, blockHash: string, notify: bool)
    requires forall d :: d in ds ==> d in groups
    ensures InOrder(ds, GroupEvents(groups, ds, nonce, round, timestamp, stats, blockHash, notify))
  {
    if ds != [] {
      var init := ds[..|ds| - 1];
      assert forall e :: e in init ==> e in ds;
      GroupEventsInOrder(groups, init, nonce, round, timestamp, stats, blockHash, notify);
      var prev := GroupEvents(groups, init, nonce, round, timestamp, stats, blockHash, notify);
      var ev := GroupEvents(groups, ds, nonce, round, timestamp, stats, blockHash, notify);
      assert InOrder(init, prev);
      forall i, j | 0 <= i < j < |ev|
        ensures Before(ds, ev[i].shardId, ev[j].shardId)
      {
        assert ev[i] == prev[i];
        if j < |prev| {
          assert ev[j] == prev[j];
          assert Before(init, prev[i].shardId, prev[j].shardId);
          var a, b :| 0 <= a < b < |init| && init[a] == prev[i].shardId && init[b] == prev[j].shardId;
          assert ds[a] == init[a] && ds[b] == init[b];
        } else {
          assert prev[i].shardId in init;
          var a :| 0 <= a < |init| && init[a] == prev[i].shardId;
          assert ds[a] == init[a] && ds[|ds| - 1] == ev[j].shardId;
        }
      }
    }
  }

  /** With distinct groups, no group is notified twice. */
  lemma GroupEventsOnce(groups: map<int, seq<ShardTransaction>>, ds: seq<int>, nonce: int, round: int,
                        timestamp: int, stats: Statistics, blockHash: string, notify: bool)
    requires forall d :: d in ds ==> d in groups
    requires Distinct(ds)
    ensures var ev := GroupEvents(groups, ds, nonce, round, timestamp, stats, blockHash, notify);
            forall i, j :: 0 <= i < j < |ev| ==> ev[i].shardId != ev[j].shardId
  {
    var ev := GroupEvents(groups, ds, nonce, round, timestamp, stats, blockHash, notify);
    GroupEventsInOrder(groups, ds, nonce, round, timestamp, stats, blockHash, notify);
    forall i, j | 0 <= i < j < |ev|
      ensures ev[i].shardId != ev[j].shardId
    {
      assert Before(ds, ev[i].shardId, ev[j].shardId);
    }
  }

  /** With no empty group among `ds`, every group of `ds` is notified, in order, whatever `notifyEmptyBlocks` says. */
  lemma {:induction false} GroupEventsAll(groups: map<int, seq<ShardTransaction>>, ds: seq<int>, nonce: int, round: int,
                                          timestamp: int, stats: Statistics, blockHash: string, notify: bool)
    requires forall d :: d in ds ==> d in groups && |groups[d]| > 0
    ensures var ev := GroupEvents(groups, ds, nonce, round, timestamp, stats, blockHash, notify);
            |ev| == |ds| && forall i :: 0 <= i < |ds| ==> ev[i] == Received(ds[i], nonce, round, timestamp, groups[ds[i]], stats, blockHash)
  {
    if ds != [] {
      var init := ds[..|ds| - 1];
      var d := ds[|ds| - 1];
      assert forall e :: e in init ==> e in ds;
      GroupEventsAll(groups, init, nonce, round, timestamp, stats, blockHash, notify);
      var prev := GroupEvents(groups, init, nonce, round, timestamp, stats, blockHash, notify);
      var ev := GroupEvents(groups, ds, nonce, round, timestamp, stats, blockHash, notify);
      assert ev == prev + [Received(d, nonce, round, timestamp, groups[d], stats, blockHash)];
      forall i | 0 <= i < |ds|
        ensures ev[i] == Received(ds[i], nonce, round, timestamp, groups[ds[i]], stats, blockHash)
      {
        if i < |init| {
          assert ev[i] == prev[i] && ds[i] == init[i];
        }
      }
    }
  }

  /**
   * A hyperblock notifies each destination shard once, in order of first
   * occurrence, with exactly the transactions bound for it; since no group is
   * empty, `notifyEmptyBlocks` makes no difference.
   */
  lemma HyperblockNotifications(txs: seq<ShardTransaction>, nonce: int, round: int, timestamp: int,
                                stats: Statistics, blockHash: string, notify: bool)
    ensures var ds := Destinations(txs);
            var ev := GroupEvents(GroupsOf(txs), ds, nonce, round, timestamp, stats, blockHash, notify);
            |ev| == |ds| && forall i :: 0 <= i < |ds| ==> ev[i] == Received(ds[i], nonce, round, timestamp, GroupFor(txs, ds[i]), stats, blockHash)
  {
    var groups := GroupsOf(txs);
    forall d | d in Destinations(txs)
      ensures d in groups && |groups[d]| > 0
    {
      GroupsNonEmpty(txs, d);
    }
    GroupEventsAll(groups, Destinations(txs), nonce, round, timestamp, stats, blockHash, notify);
  }

  /** One iteration of the hyperblock loop; a reply without a hyperblock is a `TypeError`. */
  function HyperblockStep(opts: Options, gw: Gateway, store: map<int, int>, current: int, start: int): (s: (Result<bool, Fault>, map<int, int>, seq<Event>, int))
  {
    var initialised := Initialised(store, METACHAIN, current);
    var initEvents := InitialisedEvents(store, METACHAIN, current);
    match Decide(Resolve(Lookup(store, METACHAIN), current), current, opts.maxLookBehind)
    case AtTip => (Success(false), initialised, initEvents, start)
    case AheadOfTip => (Success(false), initialised, initEvents, start)
    case Fetch(p) =>
      var fetched := HyperblockFetch(opts, gw, initialised, p, current, if start == 0 then p else start);
      (fetched.0, fetched.1, initEvents + fetched.2, fetched.3)
  }

  /** The fetch part of a hyperblock iteration, after the watermark decided to fetch hyperblock `lastProcessed + 1`; only the new events are returned. */
  function HyperblockFetch(opts: Options, gw: Gateway, store: map<int, int>, lastProcessed: int, current: int, start: int)
    : (s: (Result<bool, Fault>, map<int, int>, seq<Event>, int))
    ensures s.3 == start
    ensures s.0 == Success(true) ==> s.1 == store[METACHAIN := lastProcessed + 1]
    ensures s.0 != Success(true) ==> s.0.Failure? && s.1 == store && s.2 == []
    ensures s.0.Failure? <==> gw.hyperblock(lastProcessed + 1).Failure? || DecodeHyperblock(gw.hyperblock(lastProcessed + 1).value).Failure?
    ensures s.0 == Success(true) ==>
              var b := DecodeHyperblock(gw.hyperblock(lastProcessed + 1).value).value;
              var ds := Destinations(b.transactions);
              |s.2| == |ds| + 1 && s.2[|ds|] == NonceStored(METACHAIN, lastProcessed + 1)
              && forall i :: 0 <= i < |ds| ==>
                   s.2[i] == Received(ds[i], lastProcessed + 1, b.round, b.timestamp, GroupFor(b.transactions, ds[i]),
                                      BlockStatistics(lastProcessed, start, current), b.blockHash)
  {
    match gw.hyperblock(lastProcessed + 1)
    case Failure(e) => (Failure(e), store, [], start)
    case Success(reply) =>
      match DecodeHyperblock(reply)
      case Failure(e) => (Failure(e), store, [], start)
      case Success(block) =>
        var stats := BlockStatistics(lastProcessed, start, current);
        HyperblockNotifications(block.transactions, lastProcessed + 1, block.round, block.timestamp, stats, block.blockHash,
                                opts.notifyEmptyBlocks);
        var notified := GroupEvents(GroupsOf(block.transactions), Destinations(block.transactions), lastProcessed + 1,
                                    block.round, block.timestamp, stats, block.blockHash, opts.notifyEmptyBlocks);
        (Success(true), store[METACHAIN := lastProcessed + 1], notified + [NonceStored(METACHAIN, lastProcessed + 1)], start)
  }

  /**
   * A hyperblock step never moves the metachain nonce away from rest and moves
   * it closer when it processed a block; a step that processed nothing found the
   * metachain at or ahead of the tip (a missing hyperblock is a fault, not a skip).
   */
  lemma HyperblockStepProgress(opts: Options, gw: Gateway, store: map<int, int>, current: int, start: int)
    ensures var s := HyperblockStep(opts, gw, store, current, start);
            ShardDistance(s.1, METACHAIN, current) <= ShardDistance(store, METACHAIN, current)
            && (s.0 == Success(true) ==> ShardDistance(s.1, METACHAIN, current) < ShardDistance(store, METACHAIN, current))
            && (s.0 == Success(false) ==> METACHAIN in s.1 && !Decide(s.1[METACHAIN], current, opts.maxLookBehind).Fetch?)
  {
    InitProgress(current);
    var last := Resolve(Lookup(store, METACHAIN), current);
    if Decide(last, current, opts.maxLookBehind).Fetch? {
      FetchProgress(Lookup(store, METACHAIN), current, opts.maxLookBehind);
    }
  }

  /** A hyperblock step for a metachain already at or ahead of the tip changes nothing and emits nothing. */
  lemma HyperblockStepAtRest(opts: Options, gw: Gateway, store: map<int, int>, current: int, start: int)
    requires METACHAIN in store && !Decide(store[METACHAIN], current, opts.maxLookBehind).Fetch?
    ensures HyperblockStep(opts, gw, store, current, start) == (Success(false), store, [], start)
  {
  }

  // ---------------------------------------------------------------- store writes

  /** The stored nonces after the store writes among `ev` are applied, in order, to `store`. */
  function Replay(store: map<int, int>, ev: seq<Event>): (r: map<int, int>)
    ensures store.Keys <= r.Keys
  {
    if ev == [] then store
    else
      var before := Replay(store, ev[..|ev| - 1]);
      match ev[|ev| - 1]
      case NonceStored(shardId, nonce) => before[shardId := nonce]
      case _ => before
  }

  lemma {:induction false} ReplayAppend(store: map<int, int>, a: seq<Event>, b: seq<Event>)
    ensures Replay(store, a + b) == Replay(Replay(store, a), b)
  {
    if b == [] {
      assert a + b == a;
    } else {
      assert (a + b)[..|a + b| - 1] == a + b[..|b| - 1];
      ReplayAppend(store, a, b[..|b| - 1]);
    }
  }

  /** Events without a store write leave the replayed store as it was. */
  lemma {:induction false} ReplayQuiet(store: map<int, int>, ev: seq<Event>)
    requires forall i :: 0 <= i < |ev| ==> !ev[i].NonceStored?
    ensures Replay(store, ev) == store
  {
    if ev != [] {
      ReplayQuiet(store, ev[..|ev| - 1]);
    }
  }

  /**
   * A store write the loops may make, given the store before it: a missing
   * value is initialised to the nonce before the current one, and a stored one
   * becomes the nonce after the one the watermark decided to fetch after.
   */
  ghost predicate WriteFollows(maxLookBehind: nat, before: map<int, int>, shardId: int, nonce: int, current: int) {
    if shardId !in before then nonce == current - 1
    else Decide(before[shardId], current, maxLookBehind) == Fetch(nonce - 1)
  }

  /** Every store write among `ev` follows from the store as the writes before it left it. */
  ghost predicate StoreWrites(maxLookBehind: nat, currentNonces: map<int, int>, store: map<int, int>, ev: seq<Event>) {
    forall k :: 0 <= k < |ev| && ev[k].NonceStored? ==>
      ev[k].shardId in currentNonces
      && WriteFollows(maxLookBehind, Replay(store, ev[..k]), ev[k].shardId, ev[k].nonce, currentNonces[ev[k].shardId])
  }

  lemma StoreWritesAppend(maxLookBehind: nat, currentNonces: map<int, int>, store: map<int, int>, a: seq<Event>, b: seq<Event>)
    requires StoreWrites(maxLookBehind, currentNonces, store, a)
    requires StoreWrites(maxLookBehind, currentNonces, Replay(store, a), b)
    ensures StoreWrites(maxLookBehind, currentNonces, store, a + b)
  {
    forall k | 0 <= k < |a + b| && (a + b)[k].NonceStored?
      ensures (a + b)[k].shardId in currentNonces
              && WriteFollows(maxLookBehind, Replay(store, (a + b)[..k]), (a + b)[k].shardId, (a + b)[k].nonce,
                              currentNonces[(a + b)[k].shardId])
    {
      if k < |a| {
        assert (a + b)[..k] == a[..k];
        assert (a + b)[k] == a[k];
      } else {
        assert (a + b)[..k] == a + b[..k - |a|];
        assert (a + b)[k] == b[k - |a|];
        ReplayAppend(store, a, b[..k - |a|]);
      }
    }
  }

  /** Events that end in their only store write, the nonce after the one the watermark decided to fetch after. */
  lemma LastWrite(maxLookBehind: nat, currentNonces: map<int, int>, store: map<int, int>, ev: seq<Event>, shardId: int, nonce: int)
    requires shardId in store && shardId in currentNonces
    requires Decide(store[shardId], currentNonces[shardId], maxLookBehind) == Fetch(nonce - 1)
    requires |ev| > 0 && ev[|ev| - 1] == NonceStored(shardId, nonce)
    requires forall i :: 0 <= i < |ev| - 1 ==> !ev[i].NonceStored?
    ensures Replay(store, ev) == store[shardId := nonce]
    ensures StoreWrites(maxLookBehind, currentNonces, store, ev)
  {
    var init := ev[..|ev| - 1];
    ReplayQuiet(store, init);
  }

  /** The store writes of a fetch: the fetched nonce, at the end, when a block was processed. */
  lemma FetchStepWrites(opts: Options, gw: Gateway, store: map<int, int>, dictionary: Dictionary, shardId: int, p: int,
                        currentNonces: map<int, int>, now: int, start: map<int, int>)
    requires dictionary.Valid() && shardId in start && shardId in store && shardId in currentNonces
    requires Decide(store[shardId], currentNonces[shardId], opts.maxLookBehind) == Fetch(p)
    ensures var f := FetchStep(opts, gw, store, dictionary, shardId, p, currentNonces[shardId], now, start);
            Replay(store, f.emitted) == f.store && StoreWrites(opts.maxLookBehind, currentNonces, store, f.emitted)
  {
    var f := FetchStep(opts, gw, store, dictionary, shardId, p, currentNonces[shardId], now, start);
    if f.outcome == Success(true) {
      LastWrite(opts.maxLookBehind, currentNonces, store, f.emitted, shardId, p + 1);
    }
  }

  /**
   * The store writes of a shard step: the initial write of a missing value,
   * then, when a block was processed, the nonce after the resolved and clamped
   * watermark. Replaying them gives the step's store.
   */
  lemma ShardStepWrites(opts: Options, gw: Gateway, store: map<int, int>, dictionary: Dictionary, shardId: int,
                        currentNonces: map<int, int>, now: int, start: map<int, int>)
    requires dictionary.Valid() && shardId in currentNonces
    ensures var s := ShardStep(opts, gw, store, dictionary, shardId, currentNonces[shardId], now, start);
            Replay(store, s.emitted) == s.store && StoreWrites(opts.maxLookBehind, currentNonces, store, s.emitted)
  {
    var current := currentNonces[shardId];
    var initialised := Initialised(store, shardId, current);
    var initEvents := InitialisedEvents(store, shardId, current);
    assert Replay(store, initEvents) == initialised && StoreWrites(opts.maxLookBehind, currentNonces, store, initEvents) by {
      if shardId !in store {
        assert initEvents[..0] == [];
      }
    }
    ShardStepCases(opts, gw, store, dictionary, shardId, current, now, start);
    var decision := Decide(Resolve(Lookup(store, shardId), current), current, opts.maxLookBehind);
    if decision.Fetch? {
      var p := decision.lastProcessed;
      var f := FetchStep(opts, gw, initialised, dictionary, shardId, p, current, now, StartNonces(start, shardId, p));
      FetchStepWrites(opts, gw, initialised, dictionary, shardId, p, currentNonces, now, StartNonces(start, shardId, p));
      ReplayAppend(store, initEvents, f.emitted);
      StoreWritesAppend(opts.maxLookBehind, currentNonces, store, initEvents, f.emitted);
    }
  }

  /** The store writes of a hyperblock step, as for a shard step, with the metachain as the only shard. */
  lemma HyperblockStepWrites(opts: Options, gw: Gateway, store: map<int, int>, current: int, start: int)
    ensures var s := HyperblockStep(opts, gw, store, current, start);
            Replay(store, s.2) == s.1 && StoreWrites(opts.maxLookBehind, map[METACHAIN := current], store, s.2)
  {
    var currentNonces := map[METACHAIN := current];
    var initialised := Initialised(store, METACHAIN, current);
    var initEvents := InitialisedEvents(store, METACHAIN, current);
    assert Replay(store, initEvents) == initialised && StoreWrites(opts.maxLookBehind, currentNonces, store, initEvents) by {
      if METACHAIN !in store {
        assert initEvents[..0] == [];
      }
    }
    HyperblockStepCases(opts, gw, store, current, start);
    var decision := Decide(Resolve(Lookup(store, METACHAIN), current), current, opts.maxLookBehind);
    if decision.Fetch? {
      var p := decision.lastProcessed;
      var f := HyperblockFetch(opts, gw, initialised, p, current, if start == 0 then p else start);
      HyperblockFetchWrites(opts, gw, initialised, p, current, if start == 0 then p else start);
      ReplayAppend(store, initEvents, f.2);
      StoreWritesAppend(opts.maxLookBehind, currentNonces, store, initEvents, f.2);
    }
  }

  /** The two cases of a hyperblock step, as for a shard step. */
  lemma HyperblockStepCases(opts: Options, gw: Gateway, store: map<int, int>, current: int, start: int)
    ensures var s := HyperblockStep(opts, gw, store, current, start);
            var decision := Decide(Resolve(Lookup(store, METACHAIN), current), current, opts.maxLookBehind);
            (!decision.Fetch? ==> s == (Success(false), Initialised(store, METACHAIN, current), InitialisedEvents(store, METACHAIN, current), start))
            && (decision.Fetch? ==>
                  var p := decision.lastProcessed;
                  var f := HyperblockFetch(opts, gw, Initialised(store, METACHAIN, current), p, current, if start == 0 then p else start);
                  s == (f.0, f.1, InitialisedEvents(store, METACHAIN, current) + f.2, f.3))
  {
  }

  /** The store writes of a hyperblock fetch: the fetched nonce, at the end, when a hyperblock was processed. */
  lemma HyperblockFetchWrites(opts: Options, gw: Gateway, store: map<int, int>, p: int, current: int, start: int)
    requires METACHAIN in store && Decide(store[METACHAIN], current, opts.maxLookBehind) == Fetch(p)
    ensures var f := HyperblockFetch(opts, gw, store, p, current, start);
            Replay(store, f.2) == f.1 && StoreWrites(opts.maxLookBehind, map[METACHAIN := current], store, f.2)
  {
    var f := HyperblockFetch(opts, gw, store, p, current, start);
    if f.0 == Success(true) {
      LastWrite(opts.maxLookBehind, map[METACHAIN := current], store, f.2, METACHAIN, p + 1);
    }
  }

  // ---------------------------------------------------------------- runs

  /**
   * One pass of the shard-mode loop over `ids`, shard by shard, stopping at
   * the first fault; `Success(true)` when no shard processed a block.
   */
  function RoundStep(opts: Options, gw: Gateway, store: map<int, int>, dictionary: Dictionary, ids: seq<int>,
                     currentNonces: map<int, int>, now: int, start: map<int, int>): (r: Step)
    requires dictionary.Valid()
    requires forall s :: s in ids ==> s in currentNonces
    ensures r.dictionary.Valid()
  {
    if ids == [] then Step(Success(true), store, dictionary, [], start)
    else
      var prev := RoundStep(opts, gw, store, dictionary, ids[..|ids| - 1], currentNonces, now, start);
      if prev.outcome.Failure? then prev
      else
        var shardId := ids[|ids| - 1];
        var s := ShardStep(opts, gw, prev.store, prev.dictionary, shardId, currentNonces[shardId], now, prev.start);
        var outcome := if s.outcome.Failure? then s.outcome else Success(prev.outcome.value && !s.outcome.value);
        Step(outcome, s.store, s.dictionary, prev.emitted + s.emitted, s.start)
  }

  /** A pass over one more shard: the step for that shard after the pass over the ones before it. */
  lemma RoundStepNext(opts: Options, gw: Gateway, store: map<int, int>, dictionary: Dictionary, ids: seq<int>, i: nat,
                      currentNonces: map<int, int>, now: int, start: map<int, int>)
    requires dictionary.Valid()
    requires forall s :: s in ids ==> s in currentNonces
    requires i < |ids|
    ensures var prev := RoundStep(opts, gw, store, dictionary, ids[..i], currentNonces, now, start);
            prev.outcome.Success? ==>
              var s := ShardStep(opts, gw, prev.store, prev.dictionary, ids[i], currentNonces[ids[i]], now, prev.start);
              RoundStep(opts, gw, store, dictionary, ids[..i + 1], currentNonces, now, start)
              == Step(if s.outcome.Failure? then s.outcome else Success(prev.outcome.value && !s.outcome.value),
                      s.store, s.dictionary, prev.emitted + s.emitted, s.start)
  {
    assert ids[..i + 1][..i] == ids[..i];
  }

  /**
   * A pass touches only the stored nonces of its shards and never moves the
   * shards of `all` away from rest. A pass that processed a block moved them
   * strictly closer, and one that processed none left every shard at rest.
   */
  lemma RoundStepProgress(opts: Options, gw: Gateway, store: map<int, int>, dictionary: Dictionary,
                          ids: seq<int>, all: seq<int>, currentNonces: map<int, int>, now: int,
                          start: map<int, int>)
    requires dictionary.Valid()
    requires forall s :: s in all ==> s in currentNonces
    requires forall s :: s in ids ==> s in all
    ensures var r := RoundStep(opts, gw, store, dictionary, ids, currentNonces, now, start);
            (forall t :: t !in ids ==> Lookup(r.store, t) == Lookup(store, t))
            && TotalDistance(r.store, currentNonces, all) <= TotalDistance(store, currentNonces, all)
            && (r.outcome == Success(false) ==> TotalDistance(r.store, currentNonces, all) < TotalDistance(store, currentNonces, all))
            && (r.outcome == Success(true) ==> AllAtRest(opts, gw, r.store, ids, currentNonces))
  {
    RoundStepFrame(opts, gw, store, dictionary, ids, currentNonces, now, start);
    RoundStepDistance(opts, gw, store, dictionary, ids, all, currentNonces, now, start);
    RoundStepRest(opts, gw, store, dictionary, ids, currentNonces, now, start);
  }

  /** A pass touches only the stored nonces of its own shards. */
  lemma {:induction false} RoundStepFrame(opts: Options, gw: Gateway, store: map<int, int>, dictionary: Dictionary,
                                          ids: seq<int>, currentNonces: map<int, int>, now: int, start: map<int, int>)
    requires dictionary.Valid()
    requires forall s :: s in ids ==> s in currentNonces
    ensures var r := RoundStep(opts, gw, store, dictionary, ids, currentNonces, now, start);
            forall t :: t !in ids ==> Lookup(r.store, t) == Lookup(store, t)
  {
    if ids != [] {
      var init := ids[..|ids| - 1];
      var shardId := ids[|ids| - 1];
      assert forall s :: s in init ==> s in ids;
      RoundStepFrame(opts, gw, store, dictionary, init, currentNonces, now, start);
      var prev := RoundStep(opts, gw, store, dictionary, init, currentNonces, now, start);
      if prev.outcome.Success? {
        ShardStepProgress(opts, gw, prev.store, prev.dictionary, shardId, currentNonces[shardId], now, prev.start);
      }
    }
  }

  /** A pass never moves the shards of `all` away from rest, and one that processed a block moved them strictly closer. */
  lemma {:induction false} RoundStepDistance(opts: Options, gw: Gateway, store: map<int, int>, dictionary: Dictionary,
                                             ids: seq<int>, all: seq<int>, currentNonces: map<int, int>, now: int,
                                             start: map<int, int>)
    requires dictionary.Valid()
    requires forall s :: s in all ==> s in currentNonces
    requires forall s :: s in ids ==> s in all
    ensures var r := RoundStep(opts, gw, store, dictionary, ids, currentNonces, now, start);
            TotalDistance(r.store, currentNonces, all) <= TotalDistance(store, currentNonces, all)
            && (r.outcome == Success(false) ==> TotalDistance(r.store, currentNonces, all) < TotalDistance(store, currentNonces, all))
  {
    if ids != [] {
      var init := ids[..|ids| - 1];
      var shardId := ids[|ids| - 1];
      assert forall s :: s in init ==> s in ids;
      RoundStepDistance(opts, gw, store, dictionary, init, all, currentNonces, now, start);
      var prev := RoundStep(opts, gw, store, dictionary, init, currentNonces, now, start);
      if prev.outcome.Success? {
        ShardStepTotal(opts, gw, prev.store, prev.dictionary, shardId, all, currentNonces, now, prev.start);
      }
    }
  }

  /** A shard step never moves the shards of `all` away from rest, and one that processed a block moved them strictly closer. */
  lemma ShardStepTotal(opts: Options, gw: Gateway, store: map<int, int>, dictionary: Dictionary, shardId: int,
                       all: seq<int>, currentNonces: map<int, int>, now: int, start: map<int, int>)
    requires dictionary.Valid()
    requires forall s :: s in all ==> s in currentNonces
    requires shardId in all
    ensures var s := ShardStep(opts, gw, store, dictionary, shardId, currentNonces[shardId], now, start);
            TotalDistance(s.store, currentNonces, all) <= TotalDistance(store, currentNonces, all)
            && (s.outcome == Success(true) ==> TotalDistance(s.store, currentNonces, all) < TotalDistance(store, currentNonces, all))
  {
    var s := ShardStep(opts, gw, store, dictionary, shardId, currentNonces[shardId], now, start);
    ShardStepProgress(opts, gw, store, dictionary, shardId, currentNonces[shardId], now, start);
    TotalDistanceUpdate(store, s.store, currentNonces, all, shardId);
  }

  /** A shard step that processed no block after shards all at rest leaves all of them, and its own, at rest. */
  lemma ShardStepRest(opts: Options, gw: Gateway, store: map<int, int>, dictionary: Dictionary, ids: seq<int>,
                      currentNonces: map<int, int>, now: int, start: map<int, int>)
    requires dictionary.Valid() && ids != []
    requires forall s :: s in ids ==> s in currentNonces
    requires AllAtRest(opts, gw, store, ids[..|ids| - 1], currentNonces)
    ensures var s := ShardStep(opts, gw, store, dictionary, ids[|ids| - 1], currentNonces[ids[|ids| - 1]], now, start);
            s.outcome == Success(false) ==> AllAtRest(opts, gw, s.store, ids, currentNonces)
  {
    var shardId := ids[|ids| - 1];
    var s := ShardStep(opts, gw, store, dictionary, shardId, currentNonces[shardId], now, start);
    ShardStepProgress(opts, gw, store, dictionary, shardId, currentNonces[shardId], now, start);
    if s.outcome == Success(false) {
      AllAtRestExtend(opts, gw, store, s.store, ids, |ids| - 1, currentNonces);
      assert ids[..|ids|] == ids;
    }
  }

  /** A pass that processed no block left every one of its shards at rest. */
  lemma {:induction false} RoundStepRest(opts: Options, gw: Gateway, store: map<int, int>, dictionary: Dictionary,
                                         ids: seq<int>, currentNonces: map<int, int>, now: int, start: map<int, int>)
    requires dictionary.Valid()
    requires forall s :: s in ids ==> s in currentNonces
    ensures var r := RoundStep(opts, gw, store, dictionary, ids, currentNonces, now, start);
            r.outcome == Success(true) ==> AllAtRest(opts, gw, r.store, ids, currentNonces)
  {
    if ids != [] {
      var init := ids[..|ids| - 1];
      var shardId := ids[|ids| - 1];
      assert forall s :: s in init ==> s in ids;
      RoundStepRest(opts, gw, store, dictionary, init, currentNonces, now, start);
      var prev := RoundStep(opts, gw, store, dictionary, init, currentNonces, now, start);
      if prev.outcome == Success(true) {
        ShardStepRest(opts, gw, prev.store, prev.dictionary, ids, currentNonces, now, prev.start);
      }
    }
  }

  /** A pass over shards all at rest processes nothing, writes nothing and notifies nothing. */
  lemma {:induction false} RoundStepAtRest(opts: Options, gw: Gateway, store: map<int, int>, dictionary: Dictionary,
                                           ids: seq<int>, currentNonces: map<int, int>, now: int, start: map<int, int>)
    requires dictionary.Valid()
    requires forall s :: s in ids ==> s in currentNonces
    requires AllAtRest(opts, gw, store, ids, currentNonces)
    ensures var r := RoundStep(opts, gw, store, dictionary, ids, currentNonces, now, start);
            r.outcome == Success(true) && r.store == store && r.dictionary == dictionary && r.emitted == []
  {
    if ids != [] {
      var init := ids[..|ids| - 1];
      var shardId := ids[|ids| - 1];
      assert forall s :: s in init ==> s in ids;
      RoundStepAtRest(opts, gw, store, dictionary, init, currentNonces, now, start);
      var prev := RoundStep(opts, gw, store, dictionary, init, currentNonces, now, start);
      ShardStepAtRest(opts, gw, store, dictionary, shardId, currentNonces[shardId], now, prev.start);
    }
  }

  /** A pass that faulted on a prefix of `ids` stops there. */
  lemma {:induction false} RoundStepStopped(opts: Options, gw: Gateway, store: map<int, int>, dictionary: Dictionary,
                                            ids: seq<int>, k: nat, currentNonces: map<int, int>, now: int, start: map<int, int>)
    requires dictionary.Valid()
    requires forall s :: s in ids ==> s in currentNonces
    requires k <= |ids|
    requires RoundStep(opts, gw, store, dictionary, ids[..k], currentNonces, now, start).outcome.Failure?
    ensures RoundStep(opts, gw, store, dictionary, ids, currentNonces, now, start)
            == RoundStep(opts, gw, store, dictionary, ids[..k], currentNonces, now, start)
    decreases |ids|
  {
    if k == |ids| {
      assert ids[..k] == ids;
    } else {
      var init := ids[..|ids| - 1];
      assert init[..k] == ids[..k];
      RoundStepStopped(opts, gw, store, dictionary, init, k, currentNonces, now, start);
    }
  }

  /** The store writes of a pass follow the watermark, and replaying them gives the pass's store. */
  lemma {:induction false} RoundStepWrites(opts: Options, gw: Gateway, store: map<int, int>, dictionary: Dictionary,
                                           ids: seq<int>, currentNonces: map<int, int>, now: int, start: map<int, int>)
    requires dictionary.Valid()
    requires forall s :: s in ids ==> s in currentNonces
    ensures var r := RoundStep(opts, gw, store, dictionary, ids, currentNonces, now, start);
            Replay(store, r.emitted) == r.store && StoreWrites(opts.maxLookBehind, currentNonces, store, r.emitted)
  {
    if ids != [] {
      var init := ids[..|ids| - 1];
      var shardId := ids[|ids| - 1];
      assert forall s :: s in init ==> s in ids;
      RoundStepWrites(opts, gw, store, dictionary, init, currentNonces, now, start);
      var prev := RoundStep(opts, gw, store, dictionary, init, currentNonces, now, start);
      if prev.outcome.Success? {
        var s := ShardStep(opts, gw, prev.store, prev.dictionary, shardId, currentNonces[shardId], now, prev.start);
        ShardStepWrites(opts, gw, prev.store, prev.dictionary, shardId, currentNonces, now, prev.start);
        ReplayAppend(store, prev.emitted, s.emitted);
        StoreWritesAppend(opts.maxLookBehind, currentNonces, store, prev.emitted, s.emitted);
      }
    }
  }

  /**
   * The shard-mode loop: passes over `ids` until one processes no block or
   * faults. Each pass that processed a block brought the shards strictly
   * closer to rest, so the loop ends.
   */
  function Run(opts: Options, gw: Gateway, store: map<int, int>, dictionary: Dictionary, ids: seq<int>,
               currentNonces: map<int, int>, now: int, start: map<int, int>): (r: Step)
    requires dictionary.Valid()
    requires forall s :: s in ids ==> s in currentNonces
    ensures r.dictionary.Valid()
    ensures r.outcome != Success(false)
    decreases TotalDistance(store, currentNonces, ids)
  {
    var round := RoundStep(opts, gw, store, dictionary, ids, currentNonces, now, start);
    if round.outcome != Success(false) then round
    else
      RoundStepProgress(opts, gw, store, dictionary, ids, ids, currentNonces, now, start);
      var rest := Run(opts, gw, round.store, round.dictionary, ids, currentNonces, now, round.start);
      rest.(emitted := round.emitted + rest.emitted)
  }

  /** A run that ends without a fault leaves every shard at rest. */
  lemma {:induction false} RunAtRest(opts: Options, gw: Gateway, store: map<int, int>, dictionary: Dictionary, ids: seq<int>,
                                     currentNonces: map<int, int>, now: int, start: map<int, int>)
    requires dictionary.Valid()
    requires forall s :: s in ids ==> s in currentNonces
    ensures var r := Run(opts, gw, store, dictionary, ids, currentNonces, now, start);
            r.outcome.Success? ==> AllAtRest(opts, gw, r.store, ids, currentNonces)
    decreases TotalDistance(store, currentNonces, ids)
  {
    var round := RoundStep(opts, gw, store, dictionary, ids, currentNonces, now, start);
    RoundStepProgress(opts, gw, store, dictionary, ids, ids, currentNonces, now, start);
    if round.outcome == Success(false) {
      RunAtRest(opts, gw, round.store, round.dictionary, ids, currentNonces, now, round.start);
    }
  }

  /** A run over shards all at rest changes nothing and notifies nothing. */
  lemma RunQuiet(opts: Options, gw: Gateway, store: map<int, int>, dictionary: Dictionary, ids: seq<int>,
                 currentNonces: map<int, int>, now: int, start: map<int, int>)
    requires dictionary.Valid()
    requires forall s :: s in ids ==> s in currentNonces
    requires AllAtRest(opts, gw, store, ids, currentNonces)
    ensures var r := Run(opts, gw, store, dictionary, ids, currentNonces, now, start);
            r.outcome == Success(true) && r.store == store && r.dictionary == dictionary && r.emitted == []
  {
    RoundStepAtRest(opts, gw, store, dictionary, ids, currentNonces, now, start);
  }

  /**
   * Every store write of a run follows the watermark: a missing value becomes
   * the nonce before the current one, and a processed block's nonce is the one
   * after the stored value as the watermark clamps it. Replaying the writes
   * gives the run's store.
   */
  lemma {:induction false} RunWrites(opts: Options, gw: Gateway, store: map<int, int>, dictionary: Dictionary, ids: seq<int>,
                                     currentNonces: map<int, int>, now: int, start: map<int, int>)
    requires dictionary.Valid()
    requires forall s :: s in ids ==> s in currentNonces
    ensures var r := Run(opts, gw, store, dictionary, ids, currentNonces, now, start);
            Replay(store, r.emitted) == r.store && StoreWrites(opts.maxLookBehind, currentNonces, store, r.emitted)
    decreases TotalDistance(store, currentNonces, ids)
  {
    var round := RoundStep(opts, gw, store, dictionary, ids, currentNonces, now, start);
    RoundStepWrites(opts, gw, store, dictionary, ids, currentNonces, now, start);
    if round.outcome == Success(false) {
      RoundStepProgress(opts, gw, store, dictionary, ids, ids, currentNonces, now, start);
      var rest := Run(opts, gw, round.store, round.dictionary, ids, currentNonces, now, round.start);
      RunWrites(opts, gw, round.store, round.dictionary, ids, currentNonces, now, round.start);
      ReplayAppend(store, round.emitted, rest.emitted);
      StoreWritesAppend(opts.maxLookBehind, currentNonces, store, round.emitted, rest.emitted);
    }
  }

  /**
   * The hyperblock loop: steps until one processes no hyperblock or faults.
   * Each step that processed one brought the metachain strictly closer to the
   * tip, so the loop ends.
   */
  function HyperRun(opts: Options, gw: Gateway, store: map<int, int>, current: int, start: int)
    : (r: (Result<bool, Fault>, map<int, int>, seq<Event>, int))
    ensures r.0 != Success(true)
    decreases ShardDistance(store, METACHAIN, current)
  {
    var s := HyperblockStep(opts, gw, store, current, start);
    if s.0 != Success(true) then s
    else
      HyperblockStepProgress(opts, gw, store, current, start);
      var rest := HyperRun(opts, gw, s.1, current, s.3);
      (rest.0, rest.1, s.2 + rest.2, rest.3)
  }

  /** A hyperblock run is its first step, followed by the rest of the run when that step processed a hyperblock. */
  lemma HyperRunUnfold(opts: Options, gw: Gateway, store: map<int, int>, current: int, start: int)
    ensures var s := HyperblockStep(opts, gw, store, current, start);
            var r := HyperRun(opts, gw, store, current, start);
            (s.0 != Success(true) ==> r == s)
            && (s.0 == Success(true) ==>
                  var rest := HyperRun(opts, gw, s.1, current, s.3);
                  r == (rest.0, rest.1, s.2 + rest.2, rest.3))
  {
  }

  /** A hyperblock run that ends without a fault leaves the metachain at or ahead of the tip. */
  lemma {:induction false} HyperRunAtRest(opts: Options, gw: Gateway, store: map<int, int>, current: int, start: int)
    ensures var r := HyperRun(opts, gw, store, current, start);
            r.0.Success? ==> METACHAIN in r.1 && !Decide(r.1[METACHAIN], current, opts.maxLookBehind).Fetch?
    decreases ShardDistance(store, METACHAIN, current)
  {
    var s := HyperblockStep(opts, gw, store, current, start);
    HyperblockStepProgress(opts, gw, store, current, start);
    if s.0 == Success(true) {
      HyperRunAtRest(opts, gw, s.1, current, s.3);
    }
  }

  /** A hyperblock run from a metachain already at or ahead of the tip changes nothing and notifies nothing. */
  lemma HyperRunQuiet(opts: Options, gw: Gateway, store: map<int, int>, current: int, start: int)
    requires METACHAIN in store && !Decide(store[METACHAIN], current, opts.maxLookBehind).Fetch?
    ensures HyperRun(opts, gw, store, current, start) == (Success(false), store, [], start)
  {
    HyperblockStepAtRest(opts, gw, store, current, start);
  }

  /** Every store write of a hyperblock run follows the watermark, and replaying the writes gives the run's store. */
  lemma {:induction false} HyperRunWrites(opts: Options, gw: Gateway, store: map<int, int>, current: int, start: int)
    ensures var r := HyperRun(opts, gw, store, current, start);
            Replay(store, r.2) == r.1 && StoreWrites(opts.maxLookBehind, map[METACHAIN := current], store, r.2)
    decreases ShardDistance(store, METACHAIN, current)
  {
    var s := HyperblockStep(opts, gw, store, current, start);
    HyperblockStepWrites(opts, gw, store, current, start);
    if s.0 == Success(true) {
      HyperblockStepProgress(opts, gw, store, current, start);
      var rest := HyperRun(opts, gw, s.1, current, s.3);
      HyperRunWrites(opts, gw, s.1, current, s.3);
      ReplayAppend(store, s.2, rest.2);
      StoreWritesAppend(opts.maxLookBehind, map[METACHAIN := current], store, s.2, rest.2);
    }
  }

  // ---------------------------------------------------------------- the processor

  class TransactionProcessor {
    var shardIds: seq<int>
    var options: Options
    var lastProcessedNoncesInternal: map<int, int>
    var isRunning: bool
    var crossShardDictionary: Dictionary
    /** The consumer callbacks and store writes made so far, oldest first. */
    var events: seq<Event>

    ghost predicate Valid()
      reads this
    {
      crossShardDictionary.Valid()
    }

    constructor()
      ensures Valid()
      ensures shardIds == [] && lastProcessedNoncesInternal == map[] && !isRunning && events == []
      ensures crossShardDictionary.entries == map[]
      ensures options == Options(Shardblock, 0, false, false, false)
    {
      shardIds := [];
      options := Options(Shardblock, 0, false, false, false);
      lastProcessedNoncesInternal := map[];
      isRunning := false;
      crossShardDictionary := EmptyDictionary();
      events := [];
    }

    /** `getShards`: `0 .. count-1` and then the metachain, or the gateway's fault. */
    method GetShards(gw: Gateway) returns (r: Result<seq<int>, Fault>)
      ensures gw.shardCount.Failure? ==> r == Failure(gw.shardCount.error)
      ensures gw.shardCount.Success? ==> r == Success(Shards(gw.shardCount.value))
    {
      if gw.shardCount.Failure? {
        return Failure(gw.shardCount.error);
      }
      var count := gw.shardCount.value;
      var result: seq<int> := [];
      var i := 0;
      while i < count
        invariant 0 <= i <= (if count > 0 then count else 0)
        invariant |result| == i && forall j :: 0 <= j < i ==> result[j] == j
      {
        result := result + [i];
        i := i + 1;
      }
      result := result + [METACHAIN];
      var expected := Shards(count);
      assert |result| == |expected|;
      assert forall j :: 0 <= j < |result| ==> result[j] == expected[j];
      assert result == expected;
      return Success(result);
    }

    /** `getCurrentNonces`: the current nonce of every shard, or a fault when the status of some shard could not be read. */
    method GetCurrentNonces(gw: Gateway) returns (r: Result<map<int, int>, Fault>)
      ensures r.Success? <==> StatusesAvailable(gw, shardIds)
      ensures r.Success? ==> (forall s :: s in r.value <==> s in shardIds)
                             && forall s :: s in r.value ==> gw.status(s) == Success(r.value[s])
      ensures r.Failure? ==> exists i :: 0 <= i < |shardIds| && gw.status(shardIds[i]) == Failure(r.error)
      ensures r.Success? ==> r.value == CurrentNonces(gw, shardIds)
    {
      var result: map<int, int> := map[];
      for i := 0 to |shardIds|
        invariant StatusesAvailable(gw, shardIds[..i])
        invariant forall s :: s in result <==> s in shardIds[..i]
        invariant forall s :: s in result ==> gw.status(s) == Success(result[s])
      {
        var status := gw.status(shardIds[i]);
        if status.Failure? {
          return Failure(status.error);
        }
        result := result[shardIds[i] := status.value];
      }
      assert shardIds[..|shardIds|] == shardIds;
      ghost var expected := CurrentNonces(gw, shardIds);
      assert forall s :: s in result <==> s in expected;
      assert forall s :: s in result ==> result[s] == expected[s];
      assert result == expected;
      return Success(result);
    }

    /** `getLastProcessedNonce` with the in-memory store. */
    method GetLastProcessedNonce(shardId: int) returns (r: Option<int>)
      ensures r == Lookup(lastProcessedNoncesInternal, shardId)
    {
      if shardId in lastProcessedNoncesInternal {
        r := Some(lastProcessedNoncesInternal[shardId]);
      } else {
        r := None;
      }
    }

    /** `setLastProcessedNonce` with the in-memory store. */
    method SetLastProcessedNonce(shardId: int, nonce: int)
      modifies this`lastProcessedNoncesInternal, this`events
      ensures lastProcessedNoncesInternal == old(lastProcessedNoncesInternal)[shardId := nonce]
      ensures events == old(events) + [NonceStored(shardId, nonce)]
    {
      lastProcessedNoncesInternal := lastProcessedNoncesInternal[shardId := nonce];
      events := events + [NonceStored(shardId, nonce)];
    }

    /** `getLastProcessedNonceOrCurrent`: the stored nonce, or the one before the current nonce, which is then stored. */
    method GetLastProcessedNonceOrCurrent(shardId: int, currentNonce: int) returns (last: int)
      modifies this`lastProcessedNoncesInternal, this`events
      ensures last == Resolve(Lookup(old(lastProcessedNoncesInternal), shardId), currentNonce)
      ensures lastProcessedNoncesInternal == Initialised(old(lastProcessedNoncesInternal), shardId, currentNonce)
      ensures events == old(events) + InitialisedEvents(old(lastProcessedNoncesInternal), shardId, currentNonce)
    {
      var stored := GetLastProcessedNonce(shardId);
      if stored.None? {
        last := currentNonce - 1;
        SetLastProcessedNonce(shardId, last);
      } else {
        last := stored.value;
      }
    }

    method OnTransactionsReceived(shardId: int, nonce: int, round: int, timestamp: int, transactions: seq<ShardTransaction>,
                                  statistics: Statistics, blockHash: string)
      modifies this`events
      ensures events == old(events) + [Received(shardId, nonce, round, timestamp, transactions, statistics, blockHash)]
    {
      events := events + [Received(shardId, nonce, round, timestamp, transactions, statistics, blockHash)];
    }

    /** The pending callback receives the shard, the nonce and the transactions (not the round or the timestamp). */
    method OnTransactionsPending(shardId: int, nonce: int, transactions: seq<ShardTransaction>)
      modifies this`events
      ensures events == old(events) + [Pending(shardId, nonce, transactions)]
    {
      events := events + [Pending(shardId, nonce, transactions)];
    }

    /** The pruning at the start of a shard-mode run: entries created more than 600 seconds before `now` are deleted. */
    method PruneCrossShardDictionary(now: int)
      requires Valid()
      modifies this`crossShardDictionary
      ensures Valid()
      ensures crossShardDictionary == PruneKeys(old(crossShardDictionary), old(crossShardDictionary).keys, now)
    {
      var d0 := crossShardDictionary;
      var hashes := crossShardDictionary.keys;
      for i := 0 to |hashes|
        invariant crossShardDictionary.Valid()
        invariant crossShardDictionary == PruneKeys(d0, hashes[..i], now)
      {
        var hash := hashes[i];
        PruneKeysEffect(d0, hashes[..i], now);
        PruneKeysNext(d0, hashes, i, now);
        assert hash !in hashes[..i] && hash in d0.entries;
        var item := crossShardDictionary.entries[hash];
        if now - item.created > PRUNE_AFTER_MS {
          crossShardDictionary := Delete(crossShardDictionary, hash);
        }
      }
      assert hashes[..|hashes|] == hashes;
    }

    /** `getFinalizedCrossShardScrTransactions`: the two counting passes and the sweep, in place. */
    method GetFinalizedCrossShardScrTransactions(shardId: int, transactions: seq<ShardTransaction>, now: int)
      returns (crossShardTransactions: seq<ShardTransaction>)
      requires Valid()
      modifies this`crossShardDictionary
      ensures Valid()
      ensures (crossShardDictionary, crossShardTransactions) == Reconcile(old(crossShardDictionary), shardId, transactions, now)
    {
      CountOutgoing(shardId, transactions, now);
      CountIncoming(shardId, transactions);
      crossShardTransactions := SweepFinalized(transactions);
    }

    /** Pass 1: outgoing SCRs open or count their original transaction. */
    method CountOutgoing(shardId: int, transactions: seq<ShardTransaction>, now: int)
      requires Valid()
      modifies this`crossShardDictionary
      ensures Valid()
      ensures crossShardDictionary == OutgoingPass(old(crossShardDictionary), shardId, transactions, transactions, now)
    {
      var d0 := crossShardDictionary;
      for i := 0 to |transactions|
        invariant crossShardDictionary == OutgoingPass(d0, shardId, transactions, transactions[..i], now)
      {
        assert transactions[..i + 1][..i] == transactions[..i];
        var transaction := transactions[i];
        if OriginalHash(transaction).Some? && transaction.sourceShard == shardId && transaction.destinationShard != shardId {
          var hash := OriginalHash(transaction).value;
          var item: CrossShardTransaction;
          if hash in crossShardDictionary.entries {
            item := crossShardDictionary.entries[hash];
          } else {
            var original := FindByHash(transactions, hash);
            if original.None? {
              continue;
            }
            item := CrossShardTransaction(original.value, 0, now);
            crossShardDictionary := Put(crossShardDictionary, hash, item);
          }
          if IsOkMarker(transaction) {
            continue;
          }
          item := item.(counter := item.counter + 1);
          crossShardDictionary := Put(crossShardDictionary, hash, item);
        }
      }
      assert transactions[..|transactions|] == transactions;
    }

    /** Pass 2: incoming SCRs close a leg of an original transaction already known. */
    method CountIncoming(shardId: int, transactions: seq<ShardTransaction>)
      requires Valid()
      modifies this`crossShardDictionary
      ensures Valid()
      ensures crossShardDictionary == IncomingPass(old(crossShardDictionary), shardId, transactions)
    {
      var d1 := crossShardDictionary;
      for i := 0 to |transactions|
        invariant crossShardDictionary == IncomingPass(d1, shardId, transactions[..i])
      {
        assert transactions[..i + 1][..i] == transactions[..i];
        var transaction := transactions[i];
        if OriginalHash(transaction).Some? && transaction.sourceShard != shardId && transaction.destinationShard == shardId {
          var hash := OriginalHash(transaction).value;
          if hash !in crossShardDictionary.entries {
            continue;
          }
          var item := crossShardDictionary.entries[hash];
          if IsOkMarker(transaction) {
            continue;
          }
          item := item.(counter := item.counter - 1);
          crossShardDictionary := Put(crossShardDictionary, hash, item);
        }
      }
      assert transactions[..|transactions|] == transactions;
    }

    /** Step 3: entries whose counter reached zero are taken out; those not in this block are returned. */
    method SweepFinalized(transactions: seq<ShardTransaction>) returns (crossShardTransactions: seq<ShardTransaction>)
      requires Valid()
      modifies this`crossShardDictionary
      ensures Valid()
      ensures (crossShardDictionary, crossShardTransactions) == SweepKeys(old(crossShardDictionary), transactions, old(crossShardDictionary).keys)
    {
      var counted := crossShardDictionary;
      var hashes := crossShardDictionary.keys;
      crossShardTransactions := [];
      for i := 0 to |hashes|
        invariant (crossShardDictionary, crossShardTransactions) == SweepKeys(counted, transactions, hashes[..i])
      {
        var hash := hashes[i];
        assert hashes[..i + 1][..i] == hashes[..i];
        DistinctInit(hashes[..i + 1]);
        SweepKeysEffect(counted, transactions, hashes[..i]);
        var item := crossShardDictionary.entries[hash];
        if item.counter == 0 {
          if !HasHash(transactions, hash) {
            crossShardTransactions := crossShardTransactions + [item.transaction];
          }
          crossShardDictionary := Delete(crossShardDictionary, hash);
        }
      }
      assert hashes[..|hashes|] == hashes;
    }

    /** The split of a shard block into the transactions passed on (after the finalized ones) and those reported as pending. */
    method PartitionBatch(opts: Options, shardId: int, transactions: seq<ShardTransaction>, finalized: seq<ShardTransaction>)
      returns (validTransactions: seq<ShardTransaction>, crossShardTransactions: seq<ShardTransaction>)
      ensures validTransactions == finalized + Filter(transactions, Delivers(crossShardDictionary, shardId, opts.includeCrossShardStartedTransactions))
      ensures crossShardTransactions == Filter(transactions, Withholds(crossShardDictionary, shardId, opts.includeCrossShardStartedTransactions))
    {
      var includeStarted := opts.includeCrossShardStartedTransactions;
      validTransactions := finalized;
      crossShardTransactions := [];
      for i := 0 to |transactions|
        invariant validTransactions == finalized + Filter(transactions[..i], Delivers(crossShardDictionary, shardId, includeStarted))
        invariant crossShardTransactions == Filter(transactions[..i], Withholds(crossShardDictionary, shardId, includeStarted))
      {
        assert transactions[..i + 1][..i] == transactions[..i];
        var transaction := transactions[i];
        if transaction.destinationShard != shardId && !includeStarted {
          continue;
        }
        if transaction.hash in crossShardDictionary.entries {
          crossShardTransactions := crossShardTransactions + [transaction];
          continue;
        }
        validTransactions := validTransactions + [transaction];
      }
      assert transactions[..|transactions|] == transactions;
    }

    /** One iteration of the shard-mode loop for `shardId`, as `ShardStep` describes it. */
    method ProcessShard(opts: Options, gw: Gateway, shardId: int, currentNonce: int, now: int, startIn: map<int, int>)
      returns (r: Result<bool, Fault>, startOut: map<int, int>)
      requires Valid()
      modifies this`lastProcessedNoncesInternal, this`events, this`crossShardDictionary
      ensures Valid()
      ensures var s := ShardStep(opts, gw, old(lastProcessedNoncesInternal), old(crossShardDictionary), shardId, currentNonce, now, startIn);
              r == s.outcome && lastProcessedNoncesInternal == s.store && crossShardDictionary == s.dictionary
              && events == old(events) + s.emitted && startOut == s.start
    {
      startOut := startIn;
      var lastProcessedNonce := GetLastProcessedNonceOrCurrent(shardId, currentNonce);
      var decision := Decide(lastProcessedNonce, currentNonce, opts.maxLookBehind);
      if !decision.Fetch? {
        return Success(false), startOut;
      }
      ghost var initEvents := InitialisedEvents(old(lastProcessedNoncesInternal), shardId, currentNonce);
      ghost var store1 := lastProcessedNoncesInternal;
      startOut := StartNonces(startOut, shardId, decision.lastProcessed);
      ghost var fetched := FetchStep(opts, gw, store1, crossShardDictionary, shardId, decision.lastProcessed, currentNonce, now, startOut);
      assert ShardStep(opts, gw, old(lastProcessedNoncesInternal), old(crossShardDictionary), shardId, currentNonce, now, startIn)
             == fetched.(emitted := initEvents + fetched.emitted);
      r := FetchShardBlock(opts, gw, shardId, decision.lastProcessed, currentNonce, now, startOut);
      AppendAssoc(old(events), initEvents, fetched.emitted);
    }

    /** Fetches, decodes and processes block `lastProcessed + 1` of `shardId`, as `FetchStep` describes it. */
    method FetchShardBlock(opts: Options, gw: Gateway, shardId: int, lastProcessed: int, currentNonce: int, now: int, start: map<int, int>)
      returns (r: Result<bool, Fault>)
      requires Valid() && shardId in start
      modifies this`lastProcessedNoncesInternal, this`events, this`crossShardDictionary
      ensures Valid()
      ensures var s := FetchStep(opts, gw, old(lastProcessedNoncesInternal), old(crossShardDictionary),
                                 shardId, lastProcessed, currentNonce, now, start);
              r == s.outcome && lastProcessedNoncesInternal == s.store && crossShardDictionary == s.dictionary
              && events == old(events) + s.emitted
    {
      var nonce := lastProcessed + 1;
      var reply := gw.block(shardId, nonce);
      if reply.Failure? {
        return Failure(reply.error);
      }
      var transactionsResult := DecodeShardBlock(reply.value);
      if transactionsResult.None? {
        return Success(false);
      }
      var statistics := BlockStatistics(lastProcessed, start[shardId], currentNonce);
      ProcessBlock(opts, shardId, nonce, transactionsResult.value, now, statistics);
      return Success(true);
    }

    /** The part of an iteration after a shard block was fetched: reconciliation, partition, notifications, store write. */
    method ProcessBlock(opts: Options, shardId: int, nonce: int, block: Block, now: int, statistics: Statistics)
      requires Valid()
      modifies this`crossShardDictionary, this`events, this`lastProcessedNoncesInternal
      ensures Valid()
      ensures var processed := ProcessedBlock(opts, old(crossShardDictionary), shardId, nonce, block, now, statistics);
              crossShardDictionary == processed.0 && events == old(events) + processed.1
      ensures lastProcessedNoncesInternal == old(lastProcessedNoncesInternal)[shardId := nonce]
    {
      ghost var d0 := crossShardDictionary;
      var finalized: seq<ShardTransaction> := [];
      if opts.waitForFinalizedCrossShardSmartContractResults {
        finalized := GetFinalizedCrossShardScrTransactions(shardId, block.transactions, now);
      }
      assert (crossShardDictionary, finalized) == if opts.waitForFinalizedCrossShardSmartContractResults
                                                  then Reconcile(d0, shardId, block.transactions, now) else (d0, []);
      var validTransactions, crossShardTransactions := PartitionBatch(opts, shardId, block.transactions, finalized);
      NotifyBlock(opts, shardId, nonce, block, validTransactions, crossShardTransactions, statistics);
      assert ProcessedBlock(opts, d0, shardId, nonce, block, now, statistics)
             == (crossShardDictionary, BlockEvents(shardId, nonce, block, validTransactions, crossShardTransactions,
                                                   opts.notifyEmptyBlocks, statistics));
    }

    /** The callbacks for a fetched shard block, then the store write. */
    method NotifyBlock(opts: Options, shardId: int, nonce: int, block: Block, validTransactions: seq<ShardTransaction>,
                       crossShardTransactions: seq<ShardTransaction>, statistics: Statistics)
      modifies this`events, this`lastProcessedNoncesInternal
      ensures events == old(events) + BlockEvents(shardId, nonce, block, validTransactions, crossShardTransactions,
                                                  opts.notifyEmptyBlocks, statistics)
      ensures lastProcessedNoncesInternal == old(lastProcessedNoncesInternal)[shardId := nonce]
    {
      ghost var received := if |validTransactions| > 0 || opts.notifyEmptyBlocks
                            then [Received(shardId, nonce, block.round, block.timestamp, validTransactions, statistics, block.blockHash)]
                            else [];
      ghost var pending := if |crossShardTransactions| > 0 then [Pending(shardId, nonce, crossShardTransactions)] else [];
      if |validTransactions| > 0 || opts.notifyEmptyBlocks {
        OnTransactionsReceived(shardId, nonce, block.round, block.timestamp, validTransactions, statistics, block.blockHash);
      }
      assert events == old(events) + received;
      if |crossShardTransactions| > 0 {
        OnTransactionsPending(shardId, nonce, crossShardTransactions);
      }
      assert events == old(events) + received + pending;
      SetLastProcessedNonce(shardId, nonce);
      assert events == old(events) + (received + pending + [NonceStored(shardId, nonce)]);
      assert BlockEvents(shardId, nonce, block, validTransactions, crossShardTransactions, opts.notifyEmptyBlocks, statistics)
             == received + pending + [NonceStored(shardId, nonce)];
    }

    /**
     * The `do … while (!reachedTip)` loop of shard mode over a fixed snapshot
     * of current nonces, as `Run` describes it. When it finishes, every shard
     * is at rest; when every shard was at rest already, it changes nothing.
     */
    method CatchUpShards(opts: Options, gw: Gateway, currentNonces: map<int, int>, now: int) returns (r: Result<(), Fault>)
      requires Valid()
      requires forall s :: s in shardIds ==> s in currentNonces
      modifies this`lastProcessedNoncesInternal, this`events, this`crossShardDictionary
      ensures Valid()
      ensures var run := Run(opts, gw, old(lastProcessedNoncesInternal), old(crossShardDictionary), shardIds, currentNonces, now, map[]);
              (r.Success? <==> run.outcome.Success?) && (r.Failure? ==> run.outcome == Failure(r.error))
              && lastProcessedNoncesInternal == run.store && crossShardDictionary == run.dictionary
              && events == old(events) + run.emitted
      ensures r.Success? ==> AllAtRest(opts, gw, lastProcessedNoncesInternal, shardIds, currentNonces)
      ensures AllAtRest(opts, gw, old(lastProcessedNoncesInternal), shardIds, currentNonces)
              ==> r.Success? && events == old(events) && lastProcessedNoncesInternal == old(lastProcessedNoncesInternal)
                  && crossShardDictionary == old(crossShardDictionary)
    {
      ghost var store0, dictionary0 := lastProcessedNoncesInternal, crossShardDictionary;
      ghost var run := Run(opts, gw, store0, dictionary0, shardIds, currentNonces, now, map[]);
      var startLastProcessedNonces: map<int, int> := map[];
      var reachedTip := false;
      while !reachedTip
        invariant Valid()
        invariant old(events) <= events
        invariant !reachedTip ==>
                    var rest := Run(opts, gw, lastProcessedNoncesInternal, crossShardDictionary, shardIds, currentNonces, now,
                                    startLastProcessedNonces);
                    run == rest.(emitted := events[|old(events)|..] + rest.emitted)
        invariant reachedTip ==> run.outcome == Success(true) && lastProcessedNoncesInternal == run.store
                                 && crossShardDictionary == run.dictionary && events == old(events) + run.emitted
        decreases TotalDistance(lastProcessedNoncesInternal, currentNonces, shardIds), !reachedTip
      {
        ghost var done := events[|old(events)|..];
        ghost var round0 := RoundStep(opts, gw, lastProcessedNoncesInternal, crossShardDictionary, shardIds, currentNonces, now,
                                      startLastProcessedNonces);
        ghost var run0 := Run(opts, gw, lastProcessedNoncesInternal, crossShardDictionary, shardIds, currentNonces, now,
                              startLastProcessedNonces);
        assert events == old(events) + done;
        var round;
        round, startLastProcessedNonces := CatchUpRound(opts, gw, currentNonces, now, startLastProcessedNonces);
        AppendAssoc(old(events), done, round0.emitted);
        assert events[|old(events)|..] == done + round0.emitted;
        if round.Failure? {
          RunAtRest(opts, gw, store0, dictionary0, shardIds, currentNonces, now, map[]);
          if AllAtRest(opts, gw, store0, shardIds, currentNonces) {
            RunQuiet(opts, gw, store0, dictionary0, shardIds, currentNonces, now, map[]);
          }
          return Failure(round.error);
        }
        reachedTip := round.value;
        if !reachedTip {
          ghost var rest := Run(opts, gw, lastProcessedNoncesInternal, crossShardDictionary, shardIds, currentNonces, now,
                                startLastProcessedNonces);
          assert run0 == rest.(emitted := round0.emitted + rest.emitted);
          AppendAssoc(done, round0.emitted, rest.emitted);
        }
      }
      RunAtRest(opts, gw, store0, dictionary0, shardIds, currentNonces, now, map[]);
      if AllAtRest(opts, gw, store0, shardIds, currentNonces) {
        RunQuiet(opts, gw, store0, dictionary0, shardIds, currentNonces, now, map[]);
      }
      return Success(());
    }

    /**
     * One pass of the shard-mode loop over every shard, as `RoundStep`
     * describes it. It succeeds with `true` (the tip was reached) only when
     * every shard is left at rest, and with `false` only when the shards moved
     * strictly closer to rest.
     */
    method CatchUpRound(opts: Options, gw: Gateway, currentNonces: map<int, int>, now: int, startIn: map<int, int>)
      returns (r: Result<bool, Fault>, startOut: map<int, int>)
      requires Valid()
      requires forall s :: s in shardIds ==> s in currentNonces
      modifies this`lastProcessedNoncesInternal, this`events, this`crossShardDictionary
      ensures Valid()
      ensures var round := RoundStep(opts, gw, old(lastProcessedNoncesInternal), old(crossShardDictionary), shardIds,
                                     currentNonces, now, startIn);
              r == round.outcome && lastProcessedNoncesInternal == round.store && crossShardDictionary == round.dictionary
              && events == old(events) + round.emitted && startOut == round.start
      ensures TotalDistance(lastProcessedNoncesInternal, currentNonces, shardIds)
              <= TotalDistance(old(lastProcessedNoncesInternal), currentNonces, shardIds)
      ensures r == Success(false) ==> TotalDistance(lastProcessedNoncesInternal, currentNonces, shardIds)
                                      < TotalDistance(old(lastProcessedNoncesInternal), currentNonces, shardIds)
      ensures r == Success(true) ==> AllAtRest(opts, gw, lastProcessedNoncesInternal, shardIds, currentNonces)
      ensures AllAtRest(opts, gw, old(lastProcessedNoncesInternal), shardIds, currentNonces)
              ==> r == Success(true) && events == old(events) && lastProcessedNoncesInternal == old(lastProcessedNoncesInternal)
                  && crossShardDictionary == old(crossShardDictionary)
    {
      ghost var store0, dictionary0 := lastProcessedNoncesInternal, crossShardDictionary;
      startOut := startIn;
      var reachedTip := true;
      for i := 0 to |shardIds|
        invariant Valid()
        invariant var round := RoundStep(opts, gw, store0, dictionary0, shardIds[..i], currentNonces, now, startIn);
                  round.outcome == Success(reachedTip) && lastProcessedNoncesInternal == round.store
                  && crossShardDictionary == round.dictionary && events == old(events) + round.emitted && startOut == round.start
      {
        ghost var prev := RoundStep(opts, gw, store0, dictionary0, shardIds[..i], currentNonces, now, startIn);
        RoundStepNext(opts, gw, store0, dictionary0, shardIds, i, currentNonces, now, startIn);
        var shardId := shardIds[i];
        var advanced;
        advanced, startOut := ProcessShard(opts, gw, shardId, currentNonces[shardId], now, startOut);
        ghost var s := ShardStep(opts, gw, prev.store, prev.dictionary, shardId, currentNonces[shardId], now, prev.start);
        AppendAssoc(old(events), prev.emitted, s.emitted);
        if advanced.Failure? {
          RoundStepStopped(opts, gw, store0, dictionary0, shardIds, i + 1, currentNonces, now, startIn);
          RoundStepProgress(opts, gw, store0, dictionary0, shardIds, shardIds, currentNonces, now, startIn);
          if AllAtRest(opts, gw, store0, shardIds, currentNonces) {
            RoundStepAtRest(opts, gw, store0, dictionary0, shardIds, currentNonces, now, startIn);
          }
          return Failure(advanced.error), startOut;
        }
        if advanced.value {
          reachedTip := false;
        }
      }
      assert shardIds[..|shardIds|] == shardIds;
      RoundStepProgress(opts, gw, store0, dictionary0, shardIds, shardIds, currentNonces, now, startIn);
      if AllAtRest(opts, gw, store0, shardIds, currentNonces) {
        RoundStepAtRest(opts, gw, store0, dictionary0, shardIds, currentNonces, now, startIn);
      }
      return Success(reachedTip), startOut;
    }

    /** `startProcessByShardblock`: the `isRunning` guard, pruning, then the `try` block, and `isRunning` cleared again. */
    method StartProcessByShardblock(gw: Gateway, opts: Options, now: int) returns (outcome: Outcome)
      requires Valid()
      modifies this
      ensures Valid()
      ensures old(isRunning) ==> outcome == AlreadyRunning && isRunning && events == old(events)
                                 && lastProcessedNoncesInternal == old(lastProcessedNoncesInternal)
                                 && crossShardDictionary == old(crossShardDictionary) && shardIds == old(shardIds)
      ensures !old(isRunning) ==> !isRunning && outcome != AlreadyRunning
      ensures options == old(options) && old(events) <= events
      ensures !old(isRunning) && gw.shardCount.Failure? ==>
                outcome == Aborted(gw.shardCount.error) && events == old(events)
                && crossShardDictionary == PruneKeys(old(crossShardDictionary), old(crossShardDictionary).keys, now)
                && lastProcessedNoncesInternal == old(lastProcessedNoncesInternal) && shardIds == old(shardIds)
      ensures outcome == Finished ==>
                gw.shardCount.Success? && shardIds == Shards(gw.shardCount.value)
                && forall s :: s in shardIds ==> gw.status(s).Success?
                                                 && AtRest(opts, gw, lastProcessedNoncesInternal, s, gw.status(s).value)
      ensures !old(isRunning) && gw.shardCount.Success? ==>
                var ids := Shards(gw.shardCount.value);
                var pruned := PruneKeys(old(crossShardDictionary), old(crossShardDictionary).keys, now);
                shardIds == ids
                && if StatusesAvailable(gw, ids) then
                     var run := Run(RunOptions(opts, old(options)), gw, old(lastProcessedNoncesInternal), pruned, ids,
                                    CurrentNonces(gw, ids), now, map[]);
                     (outcome == Finished <==> run.outcome.Success?) && (run.outcome.Failure? ==> outcome == Aborted(run.outcome.error))
                     && lastProcessedNoncesInternal == run.store && crossShardDictionary == run.dictionary
                     && events == old(events) + run.emitted
                   else
                     outcome.Aborted? && lastProcessedNoncesInternal == old(lastProcessedNoncesInternal)
                     && crossShardDictionary == pruned && events == old(events)
    {
      if isRunning {
        return AlreadyRunning;
      }
      isRunning := true;
      PruneCrossShardDictionary(now);
      var r := ProcessShardblocks(gw, opts, now);
      isRunning := false;
      outcome := if r.Failure? then Aborted(r.error) else Finished;
    }

    /**
     * The `try` block of `startProcessByShardblock`: the shard list, the
     * snapshot of current nonces and the catch-up loop, with the finalized
     * results flag read from the recorded options.
     */
    method ProcessShardblocks(gw: Gateway, opts: Options, now: int) returns (r: Result<(), Fault>)
      requires Valid()
      modifies this`shardIds, this`lastProcessedNoncesInternal, this`events, this`crossShardDictionary
      ensures Valid()
      ensures gw.shardCount.Failure? ==>
                r == Failure(gw.shardCount.error) && shardIds == old(shardIds)
                && lastProcessedNoncesInternal == old(lastProcessedNoncesInternal)
                && crossShardDictionary == old(crossShardDictionary) && events == old(events)
      ensures r.Success? ==>
                gw.shardCount.Success? && shardIds == Shards(gw.shardCount.value)
                && forall s :: s in shardIds ==> gw.status(s).Success?
                                                 && AtRest(opts, gw, lastProcessedNoncesInternal, s, gw.status(s).value)
      ensures gw.shardCount.Success? ==>
                var ids := Shards(gw.shardCount.value);
                shardIds == ids
                && if StatusesAvailable(gw, ids) then
                     var run := Run(RunOptions(opts, options), gw, old(lastProcessedNoncesInternal), old(crossShardDictionary), ids,
                                    CurrentNonces(gw, ids), now, map[]);
                     (r.Success? <==> run.outcome.Success?) && (run.outcome.Failure? ==> r == Failure(run.outcome.error))
                     && lastProcessedNoncesInternal == run.store && crossShardDictionary == run.dictionary
                     && events == old(events) + run.emitted
                   else
                     r.Failure? && lastProcessedNoncesInternal == old(lastProcessedNoncesInternal)
                     && crossShardDictionary == old(crossShardDictionary) && events == old(events)
    {
      var shards := GetShards(gw);
      if shards.Failure? {
        return Failure(shards.error);
      }
      shardIds := shards.value;
      var run := RunOptions(opts, options);
      var currentNonces := GetCurrentNonces(gw);
      if currentNonces.Failure? {
        return Failure(currentNonces.error);
      }
      r := CatchUpShards(run, gw, currentNonces.value, now);
      if r.Success? {
        AllAtRestOptions(run, opts, gw, lastProcessedNoncesInternal, shardIds, currentNonces.value);
        forall s | s in shardIds
          ensures gw.status(s).Success? && AtRest(opts, gw, lastProcessedNoncesInternal, s, gw.status(s).value)
        {
          assert s in currentNonces.value;
        }
      }
    }

    /** `transactionsByShard`: the destinations in order of first occurrence and the transactions of each. */
    method GroupByDestination(transactions: seq<ShardTransaction>) returns (order: seq<int>, groups: map<int, seq<ShardTransaction>>)
      ensures order == Destinations(transactions)
      ensures groups == GroupsOf(transactions)
    {
      order := [];
      groups := map[];
      for i := 0 to |transactions|
        invariant order == Destinations(transactions[..i])
        invariant forall d :: d in groups <==> d in order
        invariant forall d :: d in groups ==> groups[d] == GroupFor(transactions[..i], d)
      {
        var prefix := transactions[..i];
        assert transactions[..i + 1][..i] == prefix;
        var transaction := transactions[i];
        var shardId := transaction.destinationShard;
        var shardTransactions := if shardId in groups then groups[shardId] else [];
        if shardId !in groups {
          NoGroup(prefix, shardId);
        }
        if shardId !in order {
          order := order + [shardId];
        }
        groups := groups[shardId := shardTransactions + [transaction]];
      }
      assert transactions[..|transactions|] == transactions;
      assert groups == GroupsOf(transactions);
    }

    /** One iteration of the hyperblock loop, as `HyperblockStep` describes it. */
    method ProcessHyperblock(opts: Options, gw: Gateway, currentNonce: int, startIn: int) returns (r: Result<bool, Fault>, startOut: int)
      modifies this`lastProcessedNoncesInternal, this`events
      ensures var s := HyperblockStep(opts, gw, old(lastProcessedNoncesInternal), currentNonce, startIn);
              r == s.0 && lastProcessedNoncesInternal == s.1 && events == old(events) + s.2 && startOut == s.3
    {
      startOut := startIn;
      var lastProcessedNonce := GetLastProcessedNonceOrCurrent(METACHAIN, currentNonce);
      var decision := Decide(lastProcessedNonce, currentNonce, opts.maxLookBehind);
      if !decision.Fetch? {
        return Success(false), startOut;
      }
      ghost var initEvents := InitialisedEvents(old(lastProcessedNoncesInternal), METACHAIN, currentNonce);
      ghost var store1 := lastProcessedNoncesInternal;
      if startOut == 0 {
        startOut := decision.lastProcessed;
      }
      ghost var fetched := HyperblockFetch(opts, gw, store1, decision.lastProcessed, currentNonce, startOut);
      assert HyperblockStep(opts, gw, old(lastProcessedNoncesInternal), currentNonce, startIn)
             == (fetched.0, fetched.1, initEvents + fetched.2, fetched.3);
      r := FetchHyperblock(opts, gw, decision.lastProcessed, currentNonce, startOut);
      AppendAssoc(old(events), initEvents, fetched.2);
    }

    /** Fetches, decodes and notifies hyperblock `lastProcessed + 1`, as `HyperblockFetch` describes it. */
    method FetchHyperblock(opts: Options, gw: Gateway, lastProcessed: int, currentNonce: int, start: int) returns (r: Result<bool, Fault>)
      modifies this`lastProcessedNoncesInternal, this`events
      ensures var s := HyperblockFetch(opts, gw, old(lastProcessedNoncesInternal), lastProcessed, currentNonce, start);
              r == s.0 && lastProcessedNoncesInternal == s.1 && events == old(events) + s.2
    {
      var nonce := lastProcessed + 1;
      var reply := gw.hyperblock(nonce);
      if reply.Failure? {
        return Failure(reply.error);
      }
      var transactionsResult := DecodeHyperblock(reply.value);
      if transactionsResult.Failure? {
        return Failure(transactionsResult.error);
      }
      var block := transactionsResult.value;
      var order, transactionsByShard := GroupByDestination(block.transactions);
      var statistics := BlockStatistics(lastProcessed, start, currentNonce);
      ghost var events0 := events;
      NotifyGroups(opts, order, transactionsByShard, nonce, block, statistics);
      ghost var notified := events[|events0|..];
      SetLastProcessedNonce(METACHAIN, nonce);
      AppendAssoc(events0, notified, [NonceStored(METACHAIN, nonce)]);
      return Success(true);
    }

    /** One notification per group of a hyperblock, in the order of `order`. */
    method NotifyGroups(opts: Options, order: seq<int>, transactionsByShard: map<int, seq<ShardTransaction>>, nonce: int, block: Block,
                        statistics: Statistics)
      requires forall d :: d in order ==> d in transactionsByShard
      modifies this`events
      ensures events == old(events) + GroupEvents(transactionsByShard, order, nonce, block.round, block.timestamp,
                                                  statistics, block.blockHash, opts.notifyEmptyBlocks)
    {
      for k := 0 to |order|
        invariant events == old(events) + GroupEvents(transactionsByShard, order[..k], nonce, block.round, block.timestamp,
                                                      statistics, block.blockHash, opts.notifyEmptyBlocks)
      {
        assert order[..k + 1][..k] == order[..k];
        var shardId := order[k];
        var transactions := transactionsByShard[shardId];
        if |transactions| > 0 || opts.notifyEmptyBlocks {
          OnTransactionsReceived(shardId, nonce, block.round, block.timestamp, transactions, statistics, block.blockHash);
        }
      }
      assert order[..|order|] == order;
    }

    /**
     * The `do … while (!reachedTip)` loop of hyperblock mode, as `HyperRun`
     * describes it. When it finishes, the metachain is at or ahead of the tip;
     * when it was already, it changes nothing.
     */
    method CatchUpHyperblocks(opts: Options, gw: Gateway, currentNonce: int) returns (r: Result<(), Fault>)
      modifies this`lastProcessedNoncesInternal, this`events
      ensures var run := HyperRun(opts, gw, old(lastProcessedNoncesInternal), currentNonce, 0);
              (r.Success? <==> run.0.Success?) && (r.Failure? ==> run.0 == Failure(r.error))
              && lastProcessedNoncesInternal == run.1 && events == old(events) + run.2
      ensures r.Success? ==> METACHAIN in lastProcessedNoncesInternal
                             && !Decide(lastProcessedNoncesInternal[METACHAIN], currentNonce, opts.maxLookBehind).Fetch?
      ensures METACHAIN in old(lastProcessedNoncesInternal)
              && !Decide(old(lastProcessedNoncesInternal)[METACHAIN], currentNonce, opts.maxLookBehind).Fetch?
              ==> r.Success? && events == old(events) && lastProcessedNoncesInternal == old(lastProcessedNoncesInternal)
    {
      ghost var store0 := lastProcessedNoncesInternal;
      ghost var run := HyperRun(opts, gw, store0, currentNonce, 0);
      HyperRunAtRest(opts, gw, store0, currentNonce, 0);
      if METACHAIN in store0 && !Decide(store0[METACHAIN], currentNonce, opts.maxLookBehind).Fetch? {
        HyperRunQuiet(opts, gw, store0, currentNonce, 0);
      }
      var startLastProcessedNonce := 0;
      var reachedTip := false;
      ghost var done: seq<Event> := [];
      assert events == old(events) + done && done + run.2 == run.2;
      while !reachedTip
        invariant events == old(events) + done
        invariant !reachedTip ==>
                    var rest := HyperRun(opts, gw, lastProcessedNoncesInternal, currentNonce, startLastProcessedNonce);
                    run == (rest.0, rest.1, done + rest.2, rest.3)
        invariant reachedTip ==> run.0 == Success(false) && lastProcessedNoncesInternal == run.1 && done == run.2
        decreases ShardDistance(lastProcessedNoncesInternal, METACHAIN, currentNonce), !reachedTip
      {
        ghost var step := HyperblockStep(opts, gw, lastProcessedNoncesInternal, currentNonce, startLastProcessedNonce);
        HyperblockStepProgress(opts, gw, lastProcessedNoncesInternal, currentNonce, startLastProcessedNonce);
        HyperRunUnfold(opts, gw, lastProcessedNoncesInternal, currentNonce, startLastProcessedNonce);
        var advanced;
        advanced, startLastProcessedNonce := ProcessHyperblock(opts, gw, currentNonce, startLastProcessedNonce);
        AppendAssoc(old(events), done, step.2);
        if advanced.Failure? {
          return Failure(advanced.error);
        }
        reachedTip := !advanced.value;
        if !reachedTip {
          ghost var rest := HyperRun(opts, gw, lastProcessedNoncesInternal, currentNonce, startLastProcessedNonce);
          AppendAssoc(done, step.2, rest.2);
        }
        done := done + step.2;
      }
      return Success(());
    }

    /** `startProcessByHyperblock`: the `isRunning` guard, then the `try` block, and `isRunning` cleared again. */
    method StartProcessByHyperblock(gw: Gateway, opts: Options) returns (outcome: Outcome)
      modifies this
      ensures old(isRunning) ==> outcome == AlreadyRunning && isRunning && events == old(events)
                                 && lastProcessedNoncesInternal == old(lastProcessedNoncesInternal) && shardIds == old(shardIds)
      ensures !old(isRunning) ==> !isRunning && outcome != AlreadyRunning
      ensures options == old(options) && crossShardDictionary == old(crossShardDictionary) && old(events) <= events
      ensures outcome == Finished ==>
                shardIds == [METACHAIN] && gw.status(METACHAIN).Success?
                && METACHAIN in lastProcessedNoncesInternal
                && !Decide(lastProcessedNoncesInternal[METACHAIN], gw.status(METACHAIN).value, opts.maxLookBehind).Fetch?
      ensures !old(isRunning) ==> shardIds == [METACHAIN]
      ensures !old(isRunning) && gw.status(METACHAIN).Failure? ==>
                outcome == Aborted(gw.status(METACHAIN).error)
                && lastProcessedNoncesInternal == old(lastProcessedNoncesInternal) && events == old(events)
      ensures !old(isRunning) && gw.status(METACHAIN).Success? ==>
                var run := HyperRun(opts, gw, old(lastProcessedNoncesInternal), gw.status(METACHAIN).value, 0);
                (outcome == Finished <==> run.0.Success?) && (run.0.Failure? ==> outcome == Aborted(run.0.error))
                && lastProcessedNoncesInternal == run.1 && events == old(events) + run.2
    {
      if isRunning {
        return AlreadyRunning;
      }
      isRunning := true;
      var r := ProcessHyperblocks(gw, opts);
      isRunning := false;
      outcome := if r.Failure? then Aborted(r.error) else Finished;
    }

    /** The `try` block of `startProcessByHyperblock`: the metachain as the only shard, its nonce snapshot and the catch-up loop. */
    method ProcessHyperblocks(gw: Gateway, opts: Options) returns (r: Result<(), Fault>)
      modifies this`shardIds, this`lastProcessedNoncesInternal, this`events
      ensures shardIds == [METACHAIN]
      ensures r.Success? ==>
                gw.status(METACHAIN).Success? && METACHAIN in lastProcessedNoncesInternal
                && !Decide(lastProcessedNoncesInternal[METACHAIN], gw.status(METACHAIN).value, opts.maxLookBehind).Fetch?
      ensures gw.status(METACHAIN).Failure? ==>
                r == Failure(gw.status(METACHAIN).error)
                && lastProcessedNoncesInternal == old(lastProcessedNoncesInternal) && events == old(events)
      ensures gw.status(METACHAIN).Success? ==>
                var run := HyperRun(opts, gw, old(lastProcessedNoncesInternal), gw.status(METACHAIN).value, 0);
                (r.Success? <==> run.0.Success?) && (run.0.Failure? ==> r == Failure(run.0.error))
                && lastProcessedNoncesInternal == run.1 && events == old(events) + run.2
    {
      shardIds := [METACHAIN];
      var currentNonces := GetCurrentNonces(gw);
      if currentNonces.Failure? {
        assert gw.status(METACHAIN) == Failure(currentNonces.error);
        return Failure(currentNonces.error);
      }
      assert METACHAIN in shardIds;
      var currentNonce := currentNonces.value[METACHAIN];
      assert gw.status(METACHAIN) == Success(currentNonce);
      r := CatchUpHyperblocks(opts, gw, currentNonce);
    }

    /** `start`: records the options and runs the mode they select. */
    method Start(gw: Gateway, opts: Options, now: int) returns (outcome: Outcome)
      requires Valid()
      modifies this
      ensures Valid() && options == opts
      ensures old(isRunning) ==> outcome == AlreadyRunning && isRunning && events == old(events)
                                 && lastProcessedNoncesInternal == old(lastProcessedNoncesInternal)
                                 && crossShardDictionary == old(crossShardDictionary) && shardIds == old(shardIds)
      ensures !old(isRunning) ==> !isRunning
      ensures opts.mode == Hyperblock ==> crossShardDictionary == old(crossShardDictionary)
      ensures !old(isRunning) && opts.mode == Shardblock && gw.shardCount.Failure? ==>
                outcome == Aborted(gw.shardCount.error) && events == old(events)
                && crossShardDictionary == PruneKeys(old(crossShardDictionary), old(crossShardDictionary).keys, now)
                && lastProcessedNoncesInternal == old(lastProcessedNoncesInternal) && shardIds == old(shardIds)
      ensures !old(isRunning) && opts.mode == Shardblock && gw.shardCount.Success?
              && !StatusesAvailable(gw, Shards(gw.shardCount.value)) ==>
                outcome.Aborted? && events == old(events)
                && crossShardDictionary == PruneKeys(old(crossShardDictionary), old(crossShardDictionary).keys, now)
                && lastProcessedNoncesInternal == old(lastProcessedNoncesInternal)
      ensures !old(isRunning) && opts.mode == Hyperblock && gw.status(METACHAIN).Failure? ==>
                outcome == Aborted(gw.status(METACHAIN).error)
                && lastProcessedNoncesInternal == old(lastProcessedNoncesInternal) && events == old(events)
      ensures old(events) <= events
      ensures outcome == Finished && opts.mode == Shardblock ==>
                gw.shardCount.Success? && shardIds == Shards(gw.shardCount.value)
                && forall s :: s in shardIds ==> gw.status(s).Success?
                                                 && AtRest(opts, gw, lastProcessedNoncesInternal, s, gw.status(s).value)
      ensures outcome == Finished && opts.mode == Hyperblock ==>
                shardIds == [METACHAIN] && gw.status(METACHAIN).Success?
                && METACHAIN in lastProcessedNoncesInternal
                && !Decide(lastProcessedNoncesInternal[METACHAIN], gw.status(METACHAIN).value, opts.maxLookBehind).Fetch?
      ensures !old(isRunning) && opts.mode == Shardblock && gw.shardCount.Success? && StatusesAvailable(gw, Shards(gw.shardCount.value)) ==>
                var ids := Shards(gw.shardCount.value);
                var run := Run(opts, gw, old(lastProcessedNoncesInternal),
                               PruneKeys(old(crossShardDictionary), old(crossShardDictionary).keys, now), ids, CurrentNonces(gw, ids), now, map[]);
                (outcome == Finished <==> run.outcome.Success?) && (run.outcome.Failure? ==> outcome == Aborted(run.outcome.error))
                && lastProcessedNoncesInternal == run.store && crossShardDictionary == run.dictionary
                && events == old(events) + run.emitted
      ensures !old(isRunning) && opts.mode == Hyperblock && gw.status(METACHAIN).Success? ==>
                var run := HyperRun(opts, gw, old(lastProcessedNoncesInternal), gw.status(METACHAIN).value, 0);
                (outcome == Finished <==> run.0.Success?) && (run.0.Failure? ==> outcome == Aborted(run.0.error))
                && lastProcessedNoncesInternal == run.1 && events == old(events) + run.2
    {
      options := opts;
      match opts.mode {
        case Hyperblock =>
          outcome := StartProcessByHyperblock(gw, opts);
        case Shardblock =>
          outcome := StartProcessByShardblock(gw, opts, now);
      }
    }
  }

  /** A destination with no group yet has no transactions in the prefix read so far. */
  lemma NoGroup(txs: seq<ShardTransaction>, d: int)
    requires d !in Destinations(txs)
    ensures GroupFor(txs, d) == []
  {
  }
}
