/**
 * The cross-shard reconciler: the `crossShardDictionary` of pending
 * cross-shard transactions, the two counting passes and the completion sweep
 * of `getFinalizedCrossShardScrTransactions`, and the age-based pruning done
 * at the start of a shard-block run.
 *
 * The functions here follow the source's loops one element at a time (each
 * pass is a left fold over the batch, each sweep a left fold over a snapshot
 * of the keys); the lemmas state what the folds compute as a whole.
 */
module Reconciler {
  import opened Wrappers
  import opened Seqs
  import opened Transactions

  /** Entries created more than 600 seconds ago are pruned (times are in milliseconds). */
  const PRUNE_AFTER_MS: int := 600000

  /** A pending cross-shard transaction: the original transaction, its counter of open SCR legs and its creation time. */
  datatype CrossShardTransaction = CrossShardTransaction(transaction: ShardTransaction, counter: int, created: int)

  /**
   * The dictionary object keyed by original-transaction hash. `keys` is the
   * order of `Object.keys`: insertion order, an overwritten key keeping its place.
   */
  datatype Dictionary = Dictionary(keys: seq<string>, entries: map<string, CrossShardTransaction>) {
    ghost predicate Valid() {
      Distinct(keys) && forall k :: k in keys <==> k in entries
    }
  }

  function EmptyDictionary(): (d: Dictionary)
    ensures d.Valid() && d.entries == map[]
  {
    Dictionary([], map[])
  }

  /** `dictionary[k] = e`. */
  function Put(d: Dictionary, k: string, e: CrossShardTransaction): (r: Dictionary)
    requires d.Valid()
    ensures r.Valid()
    ensures r.entries == d.entries[k := e]
    ensures r.keys == if k in d.entries then d.keys else d.keys + [k]
  {
    if k in d.entries then Dictionary(d.keys, d.entries[k := e]) else Dictionary(d.keys + [k], d.entries[k := e])
  }

  function Other(k: string): string -> bool {
    x => x != k
  }

  /** `delete dictionary[k]`. */
  function Delete(d: Dictionary, k: string): (r: Dictionary)
    requires d.Valid()
    ensures r.Valid()
    ensures r.entries == d.entries - {k}
    ensures r.keys == Filter(d.keys, Other(k))
  {
    FilterDistinct(d.keys, Other(k));
    Dictionary(Filter(d.keys, Other(k)), d.entries - {k})
  }

  /** The original-transaction hash, when present and non-empty (truthy). */
  function OriginalHash(tx: ShardTransaction): Option<string> {
    if tx.originalTransactionHash.Some? && tx.originalTransactionHash.value != "" then tx.originalTransactionHash else None
  }

  /** An SCR leaving `shard` for another shard. */
  predicate IsOutgoing(tx: ShardTransaction, shard: int) {
    OriginalHash(tx).Some? && tx.sourceShard == shard && tx.destinationShard != shard
  }

  /** An SCR arriving at `shard` from another shard. */
  predicate IsIncoming(tx: ShardTransaction, shard: int) {
    OriginalHash(tx).Some? && tx.sourceShard != shard && tx.destinationShard == shard
  }

  predicate HasHash(txs: seq<ShardTransaction>, h: string) {
    exists i :: 0 <= i < |txs| && txs[i].hash == h
  }

  /** `transactions.find(x => x.hash === h)`: the first transaction with that hash. */
  function FindByHash(txs: seq<ShardTransaction>, h: string): (r: Option<ShardTransaction>)
    ensures r.Some? <==> HasHash(txs, h)
    ensures r.Some? ==> r.value.hash == h && r.value in txs
    ensures r.Some? ==> exists i :: 0 <= i < |txs| && txs[i] == r.value && forall j :: 0 <= j < i ==> txs[j].hash != h
  {
    if txs == [] then None
    else if txs[0].hash == h then Some(txs[0])
    else
      var r := FindByHash(txs[1..], h);
      assert HasHash(txs, h) ==> txs[0].hash == h || HasHash(txs[1..], h) by {
        if HasHash(txs, h) && txs[0].hash != h {
          var i :| 0 <= i < |txs| && txs[i].hash == h;
          assert txs[1..][i - 1].hash == h;
        }
      }
      r
  }

  /** Pass 1 on one transaction: an outgoing SCR opens (or finds) its original's entry and, unless it is `@ok`, counts one more leg. */
  function OutgoingStep(d: Dictionary, shard: int, batch: seq<ShardTransaction>, tx: ShardTransaction, now: int): (r: Dictionary)
    requires d.Valid()
    ensures r.Valid()
  {
    if !IsOutgoing(tx, shard) then d
    else
      var h := OriginalHash(tx).value;
      if h in d.entries then
        if IsOkMarker(tx) then d else Put(d, h, d.entries[h].(counter := d.entries[h].counter + 1))
      else
        match FindByHash(batch, h)
        case None => d
        case Some(original) =>
          var created := Put(d, h, CrossShardTransaction(original, 0, now));
          if IsOkMarker(tx) then created else Put(created, h, CrossShardTransaction(original, 1, now))
  }

  /** Pass 1 over `txs`, in order; `batch` is the whole block, searched for original transactions. */
  function OutgoingPass(d: Dictionary, shard: int, batch: seq<ShardTransaction>, txs: seq<ShardTransaction>, now: int): (r: Dictionary)
    requires d.Valid()
    ensures r.Valid()
  {
    if txs == [] then d
    else OutgoingStep(OutgoingPass(d, shard, batch, txs[..|txs| - 1], now), shard, batch, txs[|txs| - 1], now)
  }

  /** Pass 2 on one transaction: an incoming SCR whose original has an entry closes one leg, unless it is `@ok`. */
  function IncomingStep(d: Dictionary, shard: int, tx: ShardTransaction): (r: Dictionary)
    requires d.Valid()
    ensures r.Valid()
  {
    if !IsIncoming(tx, shard) then d
    else
      var h := OriginalHash(tx).value;
      if h !in d.entries || IsOkMarker(tx) then d
      else Put(d, h, d.entries[h].(counter := d.entries[h].counter - 1))
  }

  function IncomingPass(d: Dictionary, shard: int, txs: seq<ShardTransaction>): (r: Dictionary)
    requires d.Valid()
    ensures r.Valid()
  {
    if txs == [] then d
    else IncomingStep(IncomingPass(d, shard, txs[..|txs| - 1]), shard, txs[|txs| - 1])
  }

  /** Step 3 over a snapshot of the keys: a zero-counter entry is removed and, unless its hash is in the batch, returned. */
  function SweepKeys(d: Dictionary, batch: seq<ShardTransaction>, keys: seq<string>): (r: (Dictionary, seq<ShardTransaction>))
    requires d.Valid()
    ensures r.0.Valid()
  {
    if keys == [] then (d, [])
    else
      var prev := SweepKeys(d, batch, keys[..|keys| - 1]);
      var k := keys[|keys| - 1];
      if k in prev.0.entries && prev.0.entries[k].counter == 0 then
        (Delete(prev.0, k), if HasHash(batch, k) then prev.1 else prev.1 + [prev.0.entries[k].transaction])
      else prev
  }

  /** `getFinalizedCrossShardScrTransactions`: both passes, then the sweep over all keys; the new dictionary and the finalized transactions. */
  function Reconcile(d: Dictionary, shard: int, batch: seq<ShardTransaction>, now: int): (r: (Dictionary, seq<ShardTransaction>))
    requires d.Valid()
    ensures r.0.Valid()
  {
    var counted := IncomingPass(OutgoingPass(d, shard, batch, batch, now), shard, batch);
    SweepKeys(counted, batch, counted.keys)
  }

  /** The pruning loop over a snapshot of the keys: entries older than 600 seconds are deleted. */
  function PruneKeys(d: Dictionary, keys: seq<string>, now: int): (r: Dictionary)
    requires d.Valid()
    ensures r.Valid()
  {
    if keys == [] then d
    else
      var pruned := PruneKeys(d, keys[..|keys| - 1], now);
      var k := keys[|keys| - 1];
      if k in pruned.entries && now - pruned.entries[k].created > PRUNE_AFTER_MS then Delete(pruned, k) else pruned
  }

  // ---------------------------------------------------------------- counting

  /** The outgoing legs of `h` in `txs` that are not `@ok`. */
  function OutgoingLegs(shard: int, txs: seq<ShardTransaction>, h: string): nat {
    if txs == [] then 0
    else
      var tx := txs[|txs| - 1];
      OutgoingLegs(shard, txs[..|txs| - 1], h) + (if IsOutgoing(tx, shard) && OriginalHash(tx) == Some(h) && !IsOkMarker(tx) then 1 else 0)
  }

  /** The incoming legs of `h` in `txs` that are not `@ok`. */
  function IncomingLegs(shard: int, txs: seq<ShardTransaction>, h: string): nat {
    if txs == [] then 0
    else
      var tx := txs[|txs| - 1];
      IncomingLegs(shard, txs[..|txs| - 1], h) + (if IsIncoming(tx, shard) && OriginalHash(tx) == Some(h) && !IsOkMarker(tx) then 1 else 0)
  }

  /** Some outgoing leg of `h` (`@ok` or not) is in `txs`. */
  predicate HasOutgoingLeg(shard: int, txs: seq<ShardTransaction>, h: string) {
    exists i :: 0 <= i < |txs| && IsOutgoing(txs[i], shard) && OriginalHash(txs[i]) == Some(h)
  }

  /** The entry pass 1 starts from for `h`: the existing one, or a fresh one around the original found in the batch. */
  function StartEntry(d: Dictionary, batch: seq<ShardTransaction>, h: string, now: int): CrossShardTransaction
    requires h in d.entries || HasHash(batch, h)
  {
    if h in d.entries then d.entries[h] else CrossShardTransaction(FindByHash(batch, h).value, 0, now)
  }

  // ---------------------------------------------------------------- lemmas

  /** An `@ok` SCR changes no counter: pass 1 leaves every existing entry as it was (a new entry starts at 0), pass 2 changes nothing. */
  lemma OkMarkerNeutral(d: Dictionary, shard: int, batch: seq<ShardTransaction>, tx: ShardTransaction, now: int)
    requires d.Valid() && IsOkMarker(tx)
    ensures forall k :: k in d.entries ==> k in OutgoingStep(d, shard, batch, tx, now).entries
                                           && OutgoingStep(d, shard, batch, tx, now).entries[k] == d.entries[k]
    ensures forall k :: k in OutgoingStep(d, shard, batch, tx, now).entries && k !in d.entries ==>
                          OutgoingStep(d, shard, batch, tx, now).entries[k].counter == 0
    ensures IncomingStep(d, shard, tx) == d
  {
  }

  /**
   * What pass 1 does to the entry of `h`: it exists afterwards exactly when it
   * existed before, or an outgoing leg of `h` is in the batch together with
   * the original transaction; its counter grew by the number of non-`@ok`
   * outgoing legs of `h`, and nothing else in it changed.
   */
  lemma {:induction false} OutgoingPassEffect(d: Dictionary, shard: int, batch: seq<ShardTransaction>, txs: seq<ShardTransaction>, now: int, h: string)
    requires d.Valid()
    ensures var r := OutgoingPass(d, shard, batch, txs, now);
            (h in r.entries <==> h in d.entries || (HasOutgoingLeg(shard, txs, h) && HasHash(batch, h)))
            && (h in r.entries ==>
                  var start := StartEntry(d, batch, h, now);
                  r.entries[h] == start.(counter := start.counter + OutgoingLegs(shard, txs, h)))
  {
    if txs != [] {
      var init := txs[..|txs| - 1];
      var tx := txs[|txs| - 1];
      OutgoingPassEffect(d, shard, batch, init, now, h);
      OutgoingLegWitnessStep(shard, txs, h);
      var r0 := OutgoingPass(d, shard, batch, init, now);
      var r := OutgoingStep(r0, shard, batch, tx, now);
      if !(IsOutgoing(tx, shard) && OriginalHash(tx) == Some(h)) {
        assert h in r.entries <==> h in r0.entries;
        assert h in r.entries ==> r.entries[h] == r0.entries[h];
      } else if h in r0.entries {
        assert r.entries[h] == r0.entries[h].(counter := r0.entries[h].counter + (if IsOkMarker(tx) then 0 else 1));
      } else if HasHash(batch, h) {
        if OutgoingLegs(shard, init, h) > 0 {
          OutgoingLegsWitness(shard, init, h);
        }
        assert r.entries[h] == StartEntry(d, batch, h, now).(counter := if IsOkMarker(tx) then 0 else 1);
      }
    }
  }

  lemma OutgoingLegWitnessStep(shard: int, txs: seq<ShardTransaction>, h: string)
    requires txs != []
    ensures var init := txs[..|txs| - 1];
            var tx := txs[|txs| - 1];
            HasOutgoingLeg(shard, txs, h) <==> HasOutgoingLeg(shard, init, h) || (IsOutgoing(tx, shard) && OriginalHash(tx) == Some(h))
  {
    var init := txs[..|txs| - 1];
    var tx := txs[|txs| - 1];
    if HasOutgoingLeg(shard, txs, h) && !(IsOutgoing(tx, shard) && OriginalHash(tx) == Some(h)) {
      var i :| 0 <= i < |txs| && IsOutgoing(txs[i], shard) && OriginalHash(txs[i]) == Some(h);
      assert init[i] == txs[i];
    }
    if HasOutgoingLeg(shard, init, h) {
      var i :| 0 <= i < |init| && IsOutgoing(init[i], shard) && OriginalHash(init[i]) == Some(h);
      assert txs[i] == init[i];
    }
  }

  /** Pass 2 adds and removes no key; the counter of every entry fell by the number of non-`@ok` incoming legs of its hash. */
  lemma {:induction false} IncomingPassEffect(d: Dictionary, shard: int, txs: seq<ShardTransaction>, h: string)
    requires d.Valid()
    ensures IncomingPass(d, shard, txs).keys == d.keys
    ensures IncomingPass(d, shard, txs).entries.Keys == d.entries.Keys
    ensures h in d.entries ==>
              IncomingPass(d, shard, txs).entries[h] == d.entries[h].(counter := d.entries[h].counter - IncomingLegs(shard, txs, h))
  {
    if txs != [] {
      IncomingPassEffect(d, shard, txs[..|txs| - 1], h);
    }
  }

  function Finalizable(d: Dictionary, batch: seq<ShardTransaction>): string -> bool {
    k => k in d.entries && d.entries[k].counter == 0 && !HasHash(batch, k)
  }

  /** The wrapped transactions of the entries of `keys`, in order. */
  function TransactionsOf(d: Dictionary, keys: seq<string>): (txs: seq<ShardTransaction>)
    requires forall k :: k in keys ==> k in d.entries
    ensures |txs| == |keys|
  {
    seq(|keys|, i requires 0 <= i < |keys| => d.entries[keys[i]].transaction)
  }

  /**
   * The sweep over distinct keys of the dictionary removes exactly the swept
   * keys whose counter is 0, leaves every other entry unchanged, and returns
   * the transactions of the removed entries whose hash is not in the batch,
   * in key order.
   */
  lemma {:induction false} SweepKeysEffect(d: Dictionary, batch: seq<ShardTransaction>, keys: seq<string>)
    requires d.Valid() && Distinct(keys)
    requires forall k :: k in keys ==> k in d.entries
    ensures SweptAsSaid(d, batch, keys)
  {
    if keys != [] {
      var init := keys[..|keys| - 1];
      var k := keys[|keys| - 1];
      DistinctInit(keys);
      assert forall j :: j in init ==> j in keys;
      SweepKeysEffect(d, batch, init);
      assert keys == init + [k];
      SweepStepEntries(d, batch, keys, init, k);
      SweepStepOut(d, batch, keys, init, k);
    }
  }

  /** What the sweep over `keys` is claimed to do (see `SweepKeysEffect`). */
  ghost predicate SweptAsSaid(d: Dictionary, batch: seq<ShardTransaction>, keys: seq<string>)
    requires d.Valid()
    requires forall k :: k in keys ==> k in d.entries
  {
    var r := SweepKeys(d, batch, keys);
    (forall k :: k in r.0.entries <==> k in d.entries && (k in keys ==> d.entries[k].counter != 0))
    && (forall k :: k in r.0.entries ==> r.0.entries[k] == d.entries[k])
    && r.1 == TransactionsOf(d, Filter(keys, Finalizable(d, batch)))
  }

  lemma SweepStepEntries(d: Dictionary, batch: seq<ShardTransaction>, keys: seq<string>, init: seq<string>, k: string)
    requires d.Valid() && k in d.entries && k !in init && keys == init + [k]
    requires forall j :: j in init ==> j in d.entries
    requires SweptAsSaid(d, batch, init)
    ensures var r := SweepKeys(d, batch, keys);
            (forall j :: j in r.0.entries <==> j in d.entries && (j in keys ==> d.entries[j].counter != 0))
            && (forall j :: j in r.0.entries ==> r.0.entries[j] == d.entries[j])
  {
    assert keys[..|keys| - 1] == init;
  }

  lemma SweepStepOut(d: Dictionary, batch: seq<ShardTransaction>, keys: seq<string>, init: seq<string>, k: string)
    requires d.Valid() && k in d.entries && k !in init && keys == init + [k]
    requires forall j :: j in init ==> j in d.entries
    requires SweptAsSaid(d, batch, init)
    ensures SweepKeys(d, batch, keys).1 == TransactionsOf(d, Filter(keys, Finalizable(d, batch)))
  {
    assert keys[..|keys| - 1] == init && keys[|keys| - 1] == k;
    var prev := SweepKeys(d, batch, init);
    assert k in prev.0.entries && prev.0.entries[k] == d.entries[k];
    var fin := Filter(init, Finalizable(d, batch));
    FilterAppend(init, [k], Finalizable(d, batch));
    assert Filter([k], Finalizable(d, batch)) == if Finalizable(d, batch)(k) then [k] else [] by {
      assert [k][..0] == [];
    }
    if Finalizable(d, batch)(k) {
      TransactionsOfSnoc(d, fin, k);
    } else {
      assert fin + [] == fin;
    }
  }

  lemma TransactionsOfSnoc(d: Dictionary, keys: seq<string>, k: string)
    requires forall j :: j in keys ==> j in d.entries
    requires k in d.entries
    ensures TransactionsOf(d, keys + [k]) == TransactionsOf(d, keys) + [d.entries[k].transaction]
  {
  }

  /** After the sweep no entry has counter 0, the entries with a non-zero counter are untouched, and the finalized transactions are exactly those described. */
  lemma SweepEffect(d: Dictionary, batch: seq<ShardTransaction>)
    requires d.Valid()
    ensures var (r, out) := SweepKeys(d, batch, d.keys);
            (forall k :: k in r.entries <==> k in d.entries && d.entries[k].counter != 0)
            && (forall k :: k in r.entries ==> r.entries[k] == d.entries[k] && r.entries[k].counter != 0)
            && out == TransactionsOf(d, Filter(d.keys, Finalizable(d, batch)))
            && (forall t :: t in out <==> exists k :: k in d.entries && d.entries[k].counter == 0
                                                 && !HasHash(batch, k) && d.entries[k].transaction == t)
  {
    SweepKeysEffect(d, batch, d.keys);
    var (r, out) := SweepKeys(d, batch, d.keys);
    var fin := Filter(d.keys, Finalizable(d, batch));
    forall t
      ensures t in out <==> exists k :: k in d.entries && d.entries[k].counter == 0
                                      && !HasHash(batch, k) && d.entries[k].transaction == t
    {
      if t in out {
        var i :| 0 <= i < |out| && out[i] == t;
        assert fin[i] in fin;
      }
      if exists k :: k in d.entries && d.entries[k].counter == 0 && !HasHash(batch, k) && d.entries[k].transaction == t {
        var k :| k in d.entries && d.entries[k].counter == 0 && !HasHash(batch, k) && d.entries[k].transaction == t;
        assert Finalizable(d, batch)(k);
        var i :| 0 <= i < |d.keys| && d.keys[i] == k;
        assert k in fin;
        var j :| 0 <= j < |fin| && fin[j] == k;
        assert out[j] == t;
      }
    }
  }

  /**
   * One reconciliation as a whole, for one hash `h`: the entry survives exactly
   * when it is present after pass 1 and its counter, the start counter plus the
   * outgoing legs minus the incoming legs, is not 0; otherwise, unless `h` is a
   * hash in the batch, the original transaction is among the finalized ones.
   */
  lemma ReconcileEffect(d: Dictionary, shard: int, batch: seq<ShardTransaction>, now: int, h: string)
    requires d.Valid()
    ensures var (r, out) := Reconcile(d, shard, batch, now);
            var present := h in d.entries || (HasOutgoingLeg(shard, batch, h) && HasHash(batch, h));
            present ==>
              var start := StartEntry(d, batch, h, now);
              var counter := start.counter + OutgoingLegs(shard, batch, h) - IncomingLegs(shard, batch, h);
              (h in r.entries <==> counter != 0)
              && (h in r.entries ==> r.entries[h] == start.(counter := counter))
              && (counter == 0 && !HasHash(batch, h) ==> start.transaction in out)
  {
    var passed := OutgoingPass(d, shard, batch, batch, now);
    var counted := IncomingPass(passed, shard, batch);
    OutgoingPassEffect(d, shard, batch, batch, now, h);
    IncomingPassEffect(passed, shard, batch, h);
    SweepEffect(counted, batch);
  }

  /** Keys that were not in the dictionary and have no original transaction in the batch are never created. */
  lemma ReconcileNoStrayKeys(d: Dictionary, shard: int, batch: seq<ShardTransaction>, now: int, h: string)
    requires d.Valid() && h !in d.entries && !HasHash(batch, h)
    ensures h !in Reconcile(d, shard, batch, now).0.entries
    ensures h !in OutgoingPass(d, shard, batch, batch, now).entries
  {
    var passed := OutgoingPass(d, shard, batch, batch, now);
    OutgoingPassEffect(d, shard, batch, batch, now, h);
    IncomingPassEffect(passed, shard, batch, h);
    SweepEffect(IncomingPass(passed, shard, batch), batch);
  }

  /**
   * The round trip across two blocks: a block of shard `a` carrying the original
   * transaction and `n > 0` non-`@ok` SCRs bound elsewhere leaves the original
   * pending with counter `n`; a later block of shard `b` carrying `n` non-`@ok`
   * SCRs of it arriving at `b`, and no further outgoing legs, finalizes it then.
   */
  lemma CrossShardRoundTrip(d: Dictionary, a: int, first: seq<ShardTransaction>, b: int, second: seq<ShardTransaction>,
                            t1: int, t2: int, original: ShardTransaction)
    requires d.Valid() && original.hash !in d.entries
    requires FindByHash(first, original.hash) == Some(original)
    requires OutgoingLegs(a, first, original.hash) > 0 && IncomingLegs(a, first, original.hash) == 0
    requires OutgoingLegs(b, second, original.hash) == 0 && !HasHash(second, original.hash)
    requires IncomingLegs(b, second, original.hash) == OutgoingLegs(a, first, original.hash)
    ensures var (d1, out1) := Reconcile(d, a, first, t1);
            original.hash in d1.entries && d1.entries[original.hash].counter == OutgoingLegs(a, first, original.hash)
            && d1.entries[original.hash].transaction == original
            && var (d2, out2) := Reconcile(d1, b, second, t2);
               original.hash !in d2.entries && original in out2
  {
    var h := original.hash;
    assert HasOutgoingLeg(a, first, h) by { OutgoingLegsWitness(a, first, h); }
    ReconcileEffect(d, a, first, t1, h);
    var (d1, out1) := Reconcile(d, a, first, t1);
    ReconcileEffect(d1, b, second, t2, h);
  }

  lemma {:induction false} OutgoingLegsWitness(shard: int, txs: seq<ShardTransaction>, h: string)
    requires OutgoingLegs(shard, txs, h) > 0
    ensures HasOutgoingLeg(shard, txs, h)
  {
    var init := txs[..|txs| - 1];
    var tx := txs[|txs| - 1];
    if !(IsOutgoing(tx, shard) && OriginalHash(tx) == Some(h)) {
      OutgoingLegsWitness(shard, init, h);
      var i :| 0 <= i < |init| && IsOutgoing(init[i], shard) && OriginalHash(init[i]) == Some(h);
      assert txs[i] == init[i];
    }
  }

  /** Pruning one more key: the check of that key after pruning the ones before it. */
  lemma PruneKeysNext(d: Dictionary, keys: seq<string>, i: nat, now: int)
    requires d.Valid() && i < |keys|
    ensures var pruned := PruneKeys(d, keys[..i], now);
            PruneKeys(d, keys[..i + 1], now)
            == if keys[i] in pruned.entries && now - pruned.entries[keys[i]].created > PRUNE_AFTER_MS then Delete(pruned, keys[i]) else pruned
  {
    assert keys[..i + 1][..i] == keys[..i];
  }

  /** Pruning over distinct keys deletes exactly the swept entries older than 600 seconds, whatever their counter, and changes no other entry. */
  lemma {:induction false} PruneKeysEffect(d: Dictionary, keys: seq<string>, now: int)
    requires d.Valid()
    ensures var r := PruneKeys(d, keys, now);
            (forall k :: k in r.entries <==> k in d.entries && (k in keys ==> now - d.entries[k].created <= PRUNE_AFTER_MS))
            && (forall k :: k in r.entries ==> r.entries[k] == d.entries[k])
  {
    if keys != [] {
      PruneKeysEffect(d, keys[..|keys| - 1], now);
    }
  }

  /** Pruning all keys: what remains is exactly the entries at most 600 seconds old, unchanged. */
  lemma PruneEffect(d: Dictionary, now: int)
    requires d.Valid()
    ensures var r := PruneKeys(d, d.keys, now);
            (forall k :: k in r.entries <==> k in d.entries && now - d.entries[k].created <= PRUNE_AFTER_MS)
            && (forall k :: k in r.entries ==> r.entries[k] == d.entries[k])
  {
    PruneKeysEffect(d, d.keys, now);
  }
}
