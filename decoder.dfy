/**
 * The block and hyperblock decoders (`getShardTransactions`,
 * `getHyperblockTransactions`, `selectMany`, `itemToShardTransaction`),
 * the shard list (`getShards`) and the grouping of a hyperblock's
 * transactions by destination shard.
 *
 * A gateway reply is the `data.data` JSON value; `None` stands for a reply
 * that is `undefined`/`null`.
 */
module Decoder {
  import opened Wrappers
  import opened Seqs
  import opened Transactions

  /** The shard id of the metachain. */
  const METACHAIN: int := 4294967295

  /** Why a run stops early: a failed gateway request, or dereferencing a missing hyperblock. */
  datatype Fault = GatewayError | TypeError

  /** One transaction item of the gateway's JSON. */
  datatype RawItem = RawItem(
    value: string,
    data: Option<string>,
    hash: string,
    sender: string,
    receiver: string,
    status: string,
    sourceShard: int,
    destinationShard: int,
    nonce: int,
    previousTransactionHash: Option<string>,
    originalTransactionHash: Option<string>,
    gasPrice: Option<int>,
    gasLimit: Option<int>,
    epoch: int)

  datatype RawMiniBlock = RawMiniBlock(transactions: Option<seq<RawItem>>)
  datatype RawBlock = RawBlock(hash: string, round: int, timestamp: int, miniBlocks: Option<seq<RawMiniBlock>>)
  datatype BlockEnvelope = BlockEnvelope(block: Option<RawBlock>)
  datatype RawHyperblock = RawHyperblock(hash: string, round: int, timestamp: int, transactions: Option<seq<RawItem>>)
  datatype HyperblockEnvelope = HyperblockEnvelope(hyperblock: Option<RawHyperblock>)

  /** A decoded block: its hash, round, timestamp and flat transaction list. */
  datatype Block = Block(blockHash: string, round: int, timestamp: int, transactions: seq<ShardTransaction>)

  /** `selectMany`: the concatenation of `f(x)` over the items, in order; it holds every selected element and nothing else. */
  function SelectMany<A, B(!new)>(items: seq<A>, f: A -> seq<B>): (r: seq<B>)
    ensures forall y :: y in r <==> exists i :: 0 <= i < |items| && y in f(items[i])
  {
    if items == [] then []
    else
      var init := items[..|items| - 1];
      var r := SelectMany(init, f) + f(items[|items| - 1]);
      assert forall y :: y in r <==> exists i :: 0 <= i < |items| && y in f(items[i]) by {
        forall y
          ensures y in r <==> exists i :: 0 <= i < |items| && y in f(items[i])
        {
          if y in SelectMany(init, f) {
            var i :| 0 <= i < |init| && y in f(init[i]);
            assert items[i] == init[i];
          }
          if exists i :: 0 <= i < |items| && y in f(items[i]) {
            var i :| 0 <= i < |items| && y in f(items[i]);
            if i < |init| {
              assert init[i] == items[i];
            }
          }
        }
      }
      r
  }

  lemma {:induction false} SelectManyAppend<A, B(!new)>(xs: seq<A>, ys: seq<A>, f: A -> seq<B>)
    ensures SelectMany(xs + ys, f) == SelectMany(xs, f) + SelectMany(ys, f)
  {
    if ys == [] {
      assert xs + ys == xs;
    } else {
      assert (xs + ys)[..|xs + ys| - 1] == xs + ys[..|ys| - 1];
      SelectManyAppend(xs, ys[..|ys| - 1], f);
    }
  }

  /** The items of a mini-block; a mini-block without `transactions` contributes none (`?? []`). */
  function MiniBlockTransactions(mb: RawMiniBlock): (items: seq<RawItem>)
    ensures mb.transactions.None? ==> items == []
    ensures mb.transactions.Some? ==> items == mb.transactions.value
  {
    mb.transactions.GetOr([])
  }

  /** `itemToShardTransaction`: a field-by-field copy that leaves `previousTransactionHash` unset. */
  function ItemToShardTransaction(item: RawItem): (tx: ShardTransaction)
    ensures tx.hash == item.hash && tx.data == item.data && tx.originalTransactionHash == item.originalTransactionHash
    ensures tx.sourceShard == item.sourceShard && tx.destinationShard == item.destinationShard
    ensures tx.previousTransactionHash == None
  {
    ShardTransaction(
      value := item.value,
      data := item.data,
      hash := item.hash,
      sender := item.sender,
      receiver := item.receiver,
      status := item.status,
      sourceShard := item.sourceShard,
      destinationShard := item.destinationShard,
      nonce := item.nonce,
      previousTransactionHash := None,
      originalTransactionHash := item.originalTransactionHash,
      gasPrice := item.gasPrice,
      gasLimit := item.gasLimit,
      epoch := item.epoch)
  }

  function Project(items: seq<RawItem>): (txs: seq<ShardTransaction>)
    ensures |txs| == |items|
    ensures forall i :: 0 <= i < |items| ==> txs[i] == ItemToShardTransaction(items[i])
  {
    seq(|items|, i requires 0 <= i < |items| => ItemToShardTransaction(items[i]))
  }

  /**
   * `getShardTransactions` after the gateway answered: absent when the reply or
   * its block is absent; a block without `miniBlocks` has no transactions.
   */
  function DecodeShardBlock(reply: Option<BlockEnvelope>): (r: Option<Block>)
    ensures r.None? <==> reply.None? || reply.value.block.None?
    ensures r.Some? ==>
              var raw := reply.value.block.value;
              r.value.blockHash == raw.hash && r.value.round == raw.round && r.value.timestamp == raw.timestamp
              && r.value.transactions == Project(SelectMany(raw.miniBlocks.GetOr([]), MiniBlockTransactions))
  {
    if reply.None? || reply.value.block.None? then None
    else
      var raw := reply.value.block.value;
      match raw.miniBlocks
      case None => Some(Block(raw.hash, raw.round, raw.timestamp, []))
      case Some(miniBlocks) =>
        Some(Block(raw.hash, raw.round, raw.timestamp, Project(SelectMany(miniBlocks, MiniBlockTransactions))))
  }

  /** Every item of every mini-block is among the decoded transactions, converted. */
  lemma DecodedBlockItems(raw: RawBlock, item: RawItem)
    requires raw.miniBlocks.Some?
    ensures var txs := DecodeShardBlock(Some(BlockEnvelope(Some(raw)))).value.transactions;
            (exists i :: 0 <= i < |raw.miniBlocks.value| && item in MiniBlockTransactions(raw.miniBlocks.value[i]))
            ==> ItemToShardTransaction(item) in txs
  {
    var items := SelectMany(raw.miniBlocks.value, MiniBlockTransactions);
    if item in items {
      var k :| 0 <= k < |items| && items[k] == item;
      assert Project(items)[k] == ItemToShardTransaction(item);
    }
  }

  /** Conversely, each transaction of a decoded block is the copy of an item of one of its mini-blocks. */
  lemma DecodedBlockOrigins(raw: RawBlock, tx: ShardTransaction)
    requires raw.miniBlocks.Some?
    ensures var txs := DecodeShardBlock(Some(BlockEnvelope(Some(raw)))).value.transactions;
            tx in txs ==>
              exists i, item :: 0 <= i < |raw.miniBlocks.value| && item in MiniBlockTransactions(raw.miniBlocks.value[i])
                                && tx == ItemToShardTransaction(item)
  {
    var items := SelectMany(raw.miniBlocks.value, MiniBlockTransactions);
    var txs := Project(items);
    if tx in txs {
      var k :| 0 <= k < |txs| && txs[k] == tx;
      var item := items[k];
      assert item in items;
      var i :| 0 <= i < |raw.miniBlocks.value| && item in MiniBlockTransactions(raw.miniBlocks.value[i]);
    }
  }

  /**
   * `getHyperblockTransactions` after the gateway answered. The source reads
   * `result.hyperblock.round` before testing `!result`, so a missing reply or
   * hyperblock is a `TypeError` and never the "not yet available" answer.
   */
  function DecodeHyperblock(reply: Option<HyperblockEnvelope>): (r: Result<Block, Fault>)
    ensures r.Failure? <==> reply.None? || reply.value.hyperblock.None?
    ensures r.Failure? ==> r.error == TypeError
    ensures r.Success? ==>
              var raw := reply.value.hyperblock.value;
              r.value.blockHash == raw.hash && r.value.round == raw.round && r.value.timestamp == raw.timestamp
              && r.value.transactions == Project(raw.transactions.GetOr([]))
  {
    if reply.None? || reply.value.hyperblock.None? then Failure(TypeError)
    else
      var raw := reply.value.hyperblock.value;
      match raw.transactions
      case None => Success(Block(raw.hash, raw.round, raw.timestamp, []))
      case Some(items) => Success(Block(raw.hash, raw.round, raw.timestamp, Project(items)))
  }

  /** `getShards`: the shard ids `0 .. count-1`, then the metachain. */
  function Shards(count: int): (ids: seq<int>)
    ensures |ids| == (if count > 0 then count else 0) + 1
    ensures forall i :: 0 <= i < |ids| - 1 ==> ids[i] == i
    ensures ids[|ids| - 1] == METACHAIN
  {
    var n := if count > 0 then count else 0;
    seq(n, i requires 0 <= i < n => i) + [METACHAIN]
  }

  /** The destination shards of `txs`, each once, in the order they first occur (the keys of the grouping `Map`). */
  function Destinations(txs: seq<ShardTransaction>): (ds: seq<int>)
    ensures Distinct(ds)
    ensures forall d :: d in ds <==> exists i :: 0 <= i < |txs| && txs[i].destinationShard == d
    ensures forall k :: 0 <= k < |ds| ==> exists i :: 0 <= i < |txs| && txs[i].destinationShard == ds[k]
  {
    if txs == [] then []
    else
      var init := Destinations(txs[..|txs| - 1]);
      var d := txs[|txs| - 1].destinationShard;
      if d in init then init else init + [d]
  }

  /** The position of the first transaction of `txs` bound for `d`. */
  function FirstIndex(txs: seq<ShardTransaction>, d: int): (k: nat)
    requires exists i :: 0 <= i < |txs| && txs[i].destinationShard == d
    ensures k < |txs| && txs[k].destinationShard == d
    ensures forall j :: 0 <= j < k ==> txs[j].destinationShard != d
  {
    if txs[0].destinationShard == d then 0
    else
      assert exists i :: 0 <= i < |txs[1..]| && txs[1..][i].destinationShard == d by {
        var i :| 0 <= i < |txs| && txs[i].destinationShard == d;
        assert txs[1..][i - 1] == txs[i];
      }
      1 + FirstIndex(txs[1..], d)
  }

  /** A destination already met before the last transaction is first met at the same place in the shorter block. */
  lemma FirstIndexPrefix(txs: seq<ShardTransaction>, init: seq<ShardTransaction>, d: int)
    requires txs != [] && init == txs[..|txs| - 1]
    requires exists i :: 0 <= i < |txs| - 1 && txs[i].destinationShard == d
    ensures exists i :: 0 <= i < |init| && init[i].destinationShard == d
    ensures FirstIndex(txs, d) == FirstIndex(init, d)
  {
    var i :| 0 <= i < |txs| - 1 && txs[i].destinationShard == d;
    assert init[i] == txs[i];
    var k := FirstIndex(init, d);
    assert txs[k] == init[k];
    forall j | 0 <= j < k
      ensures txs[j].destinationShard != d
    {
      assert txs[j] == init[j];
    }
  }

  /** A destination first met in the last transaction is first met there. */
  lemma FirstIndexLast(txs: seq<ShardTransaction>, init: seq<ShardTransaction>, d: int)
    requires txs != [] && init == txs[..|txs| - 1] && txs[|txs| - 1].destinationShard == d
    requires forall k :: 0 <= k < |init| ==> init[k].destinationShard != d
    ensures FirstIndex(txs, d) == |txs| - 1
  {
    forall k | 0 <= k < |txs| - 1
      ensures txs[k].destinationShard != d
    {
      assert init[k] == txs[k];
    }
  }

  /**
   * The destinations come in the order of their first transaction: the
   * insertion order in which the grouping `Map` hands back its keys.
   */
  lemma {:induction false} DestinationsInOrder(txs: seq<ShardTransaction>, i: int, j: int)
    requires 0 <= i < j < |Destinations(txs)|
    ensures FirstIndex(txs, Destinations(txs)[i]) < FirstIndex(txs, Destinations(txs)[j])
  {
    var ds := Destinations(txs);
    var init := txs[..|txs| - 1];
    var last := txs[|txs| - 1].destinationShard;
    var before := Destinations(init);
    assert ds == if last in before then before else before + [last];
    FirstIndexPrefix(txs, init, ds[i]);
    if j < |before| {
      DestinationsInOrder(init, i, j);
      FirstIndexPrefix(txs, init, ds[j]);
    } else {
      FirstIndexLast(txs, init, last);
    }
  }

  function HasDestination(d: int): ShardTransaction -> bool {
    (tx: ShardTransaction) => tx.destinationShard == d
  }

  /** The group of destination `d`: the transactions bound for `d`, in block order. */
  function GroupFor(txs: seq<ShardTransaction>, d: int): seq<ShardTransaction> {
    Filter(txs, HasDestination(d))
  }

  /** Every group the grouping produces is non-empty, so `notifyEmptyBlocks` cannot add a notification in hyperblock mode. */
  lemma GroupsNonEmpty(txs: seq<ShardTransaction>, d: int)
    requires d in Destinations(txs)
    ensures |GroupFor(txs, d)| > 0
  {
    var i :| 0 <= i < |txs| && txs[i].destinationShard == d;
    assert HasDestination(d)(txs[i]);
    assert txs[i] in GroupFor(txs, d);
  }

  /** The groups partition the block: each transaction is in its destination's group and in no other. */
  lemma GroupsPartition(txs: seq<ShardTransaction>, tx: ShardTransaction, d: int)
    requires tx in txs
    ensures tx.destinationShard in Destinations(txs)
    ensures tx in GroupFor(txs, d) <==> d == tx.destinationShard
  {
    var i :| 0 <= i < |txs| && txs[i] == tx;
    if d == tx.destinationShard {
      assert HasDestination(d)(txs[i]);
    }
  }
}
