# A Dafny model of the MultiversX transaction processor

This project models `TransactionProcessor`, the client-side component that
follows a MultiversX chain through a gateway. It walks every shard, block by
block, from the last nonce it processed up to the shard's current nonce. For
each block it hands the transactions to a consumer callback. Transactions
whose cross-shard smart-contract results (SCRs) are still on their way are
held back until every leg has come home.

The model has eight modules:

- `Wrappers`: `Option` and `Result`.
- `Seqs`: `Filter` and `Distinct` on sequences, with their lemmas.
- `Base64`: the decoder behind `base64Decode`, the padded encoder, and the
  proof that decoding undoes encoding. The success marker `@6f6b` is shown to
  be the decoding of `QDZmNmI=`.
- `Transactions`: `ShardTransaction` and the parsing of its `data` field into
  a function name and `@`-separated arguments.
- `Decoder`: the gateway's JSON shapes, `selectMany`, the block and
  hyperblock decoders, `itemToShardTransaction`, `getShards`, and the grouping
  of a hyperblock's transactions by destination shard.
- `Reconciler`: the cross-shard dictionary, its two counting passes, the
  completion sweep and the 600-second pruning. Each pass is a function that
  folds over the block; lemmas state what the fold computes as a whole.
- `Watermark`: the checks that turn a shard's last processed nonce and its
  current nonce into "skip" or "fetch the next block". These are the network
  reset threshold of 10000, the ahead-of-tip skip and the `maxLookBehind`
  clamp. The module also holds the distance measure that makes the loops
  terminate.
- `Processor`: the `TransactionProcessor` class. Its fields are the nonce
  store, the dictionary, `isRunning` and an `events` log. Its methods follow
  the source's loops. Each loop step is specified by a function (`ShardStep`,
  `FetchStep`, `HyperblockStep`, `HyperblockFetch`), a pass over the shards
  by `RoundStep`, and a whole run by `Run` (shard mode) or `HyperRun`
  (hyperblock mode). The methods are proved to leave exactly the state those
  functions describe. Lemmas about the functions give the loops their measure,
  their final state and the nonce each store write records (`RunWrites`,
  `HyperRunWrites`).

The gateway is a value, `Gateway`, whose answers are fixed for a run. A
`Failure` answer is a request that threw. The consumer callbacks and every
write to the nonce store are appended, in order, to `events`. The clock is a
single integer `now`, in milliseconds.

`start` records its options and passes them on to the mode it runs, and the
methods of a run take them as a parameter. As in the source, a shard-mode run
reads the finalized-results flag from the recorded options and everything else
from the options passed in (`RunOptions`).

## Model

| member | source | states |
|---|---|---|
| Base64.CharOf | lib/transaction.processor.js:283-285 | the alphabet character chosen for a 6-bit value decodes back to that value and is never the padding character |
| Base64.BytesOf | lib/transaction.processor.js:283-285 | every full group of four characters yields three bytes, and a trailing group of two or three yields one or two |
| Base64.Latin1 | lib/transaction.processor.js:283-285 | `toString('binary')` gives one character per byte, with the byte's value as its code |
| Base64.Sextets | lib/transaction.processor.js:283-285 | the 6-bit values of the characters up to the first `=`, characters outside both alphabets skipped, so never more values than characters |
| Base64.Decode | lib/transaction.processor.js:283-285 | `base64Decode` yields a binary string (every character code below 256) never longer than its input |
| Base64.DecodeEncode | lib/transaction.processor.js:283-285 | decoding the padded encoding of any byte string gives back exactly those bytes, in order |
| Base64.DecodeOfEncode | lib/transaction.processor.js:283-285 | the decoded text of an encoding is the Latin-1 text of the encoded bytes |
| Base64.MarkerEncoding | lib/transaction.processor.js:235-237 | the bytes of `@6f6b` encode to `QDZmNmI=` |
| Base64.OkMarkerText | lib/transaction.processor.js:235-237 | `QDZmNmI=` decodes to the success marker `@6f6b` the passes compare against |
| Transactions.DataDecoded | lib/transaction.processor.js:460-467 | decoded data exists exactly when `data` is a non-empty text, and is then a binary string no longer than `data` |
| Transactions.Split | lib/transaction.processor.js:472 | splitting on `@` gives at least one piece, and no piece contains `@` |
| Transactions.JoinSplit | lib/transaction.processor.js:472 | joining the pieces of a split with the separator gives back the original text |
| Transactions.SplitJoin | lib/transaction.processor.js:481 | splitting pieces joined by a separator they do not contain gives back the same pieces |
| Transactions.SplitPiece | lib/transaction.processor.js:472 | a text without the separator splits into itself alone |
| Transactions.SplitSeparated | lib/transaction.processor.js:481 | a piece, the separator and a rest split into the piece followed by the pieces of the rest |
| Transactions.DataFunctionName | lib/transaction.processor.js:468-476 | a function name exists exactly when the decoded data is a non-empty text, and it holds no `@` |
| Transactions.DataArgs | lib/transaction.processor.js:477-485 | arguments exist exactly when a function name does, and no argument holds `@` |
| Transactions.DataFunctionCall | lib/transaction.processor.js:460-485 | the function name and the arguments both exist exactly when the decoded data is a non-empty text; the name holds no `@`; name and arguments joined by `@` give the decoded data back |
| Transactions.EncodedCall | lib/transaction.processor.js:460-485 | a transaction whose data encodes `name@arg1@…@argN` yields exactly that name and those arguments |
| Transactions.OkMarkerData | lib/transaction.processor.js:235-237 | a transaction whose data is `QDZmNmI=` carries the success marker |
| Decoder.SelectManyAppend | lib/transaction.processor.js:286-292 | `selectMany` over a concatenation is the concatenation of the two results |
| Decoder.MiniBlockTransactions | lib/transaction.processor.js:306 | a mini-block without `transactions` contributes no items, and otherwise exactly its items |
| Decoder.SelectMany | lib/transaction.processor.js:286-292 | an element is in the result exactly when one of the items selects it |
| Decoder.ItemToShardTransaction | lib/transaction.processor.js:328-344 | the hash, data, original hash and both shard ids are copied from the item, and `previousTransactionHash` is left unset |
| Decoder.Project | lib/transaction.processor.js:306-307 | one shard transaction per item, in item order, each converted by `itemToShardTransaction` |
| Decoder.DecodeShardBlock | lib/transaction.processor.js:293-310 | the block is absent exactly when the reply or its `block` is absent; otherwise it carries the block's hash, round and timestamp and every mini-block's items in order, with no `miniBlocks` meaning no transactions |
| Decoder.DecodedBlockItems | lib/transaction.processor.js:302-308 | every item of every mini-block appears, converted, among the decoded transactions |
| Decoder.DecodedBlockOrigins | lib/transaction.processor.js:302-308 | each decoded transaction is the converted copy of an item of one of the mini-blocks |
| Decoder.DecodeHyperblock | lib/transaction.processor.js:311-327 | a missing reply or hyperblock is a `TypeError` and never "not available"; otherwise the hyperblock's hash, round, timestamp and converted transactions |
| Decoder.Shards | lib/transaction.processor.js:345-356 | the ids `0` to `count-1` in order, then the metachain id 4294967295 |
| Decoder.Destinations | lib/transaction.processor.js:187-194 | the keys of the grouping `Map`: each destination shard of the block exactly once, and nothing else |
| Decoder.FirstIndex | lib/transaction.processor.js:187-194 | the position of the first transaction bound for a shard: it is bound there and no earlier one is |
| Decoder.DestinationsInOrder | lib/transaction.processor.js:187-194 | the keys of the `Map` come in order of first occurrence: an earlier key first occurs before a later one |
| Decoder.GroupsNonEmpty | lib/transaction.processor.js:187-196 | every group the grouping makes is non-empty |
| Decoder.GroupsPartition | lib/transaction.processor.js:187-193 | each transaction is in the group of its destination shard and in no other |
| Reconciler.EmptyDictionary | lib/transaction.processor.js:23 | the dictionary starts with no entries |
| Reconciler.Put | lib/transaction.processor.js:227 | assigning a key sets that entry and keeps the dictionary well formed; a new key goes to the end of `Object.keys`, and an existing one keeps its place |
| Reconciler.Delete | lib/transaction.processor.js:278 | deleting a key removes that entry and keeps the dictionary well formed; `Object.keys` keeps the other keys in their order |
| Reconciler.FindByHash | lib/transaction.processor.js:224 | `find` returns a transaction of the batch with that hash exactly when the batch has one, and it is the first such transaction |
| Reconciler.OutgoingStep | lib/transaction.processor.js:219-246 | one pass-1 step keeps the dictionary well formed |
| Reconciler.OutgoingPass | lib/transaction.processor.js:219-246 | pass 1 keeps the dictionary well formed |
| Reconciler.IncomingStep | lib/transaction.processor.js:248-267 | one pass-2 step keeps the dictionary well formed |
| Reconciler.IncomingPass | lib/transaction.processor.js:248-267 | pass 2 keeps the dictionary well formed |
| Reconciler.SweepKeys | lib/transaction.processor.js:269-280 | the sweep keeps the dictionary well formed |
| Reconciler.Reconcile | lib/transaction.processor.js:216-282 | a reconciliation keeps the dictionary well formed |
| Reconciler.PruneKeys | lib/transaction.processor.js:44-52 | pruning keeps the dictionary well formed |
| Reconciler.OkMarkerNeutral | lib/transaction.processor.js:234-241 | an `@ok` SCR changes no counter: pass 1 leaves every existing entry as it was and a new entry starts at 0, and pass 2 changes nothing |
| Reconciler.OutgoingPassEffect | lib/transaction.processor.js:219-246 | after pass 1 an entry exists exactly when it existed before or an outgoing leg of it is in the batch together with its original; its counter grew by the number of non-`@ok` outgoing legs, and nothing else in it changed |
| Reconciler.IncomingPassEffect | lib/transaction.processor.js:248-267 | pass 2 adds and removes no key, keeps the key order, and lowers each counter by the number of non-`@ok` incoming legs of its hash |
| Reconciler.SweepKeysEffect | lib/transaction.processor.js:269-280 | a sweep over distinct keys removes exactly the swept keys whose counter is 0 and leaves every other entry unchanged; it returns, in key order, the removed transactions whose hash is not in the batch |
| Reconciler.SweepEffect | lib/transaction.processor.js:268-281 | after the sweep no counter is 0 and the other entries are untouched; a transaction is returned exactly when its entry had counter 0 and its hash is not in the batch |
| Reconciler.ReconcileEffect | lib/transaction.processor.js:216-282 | for each hash, the entry survives exactly when its start counter plus the outgoing legs minus the incoming legs is not 0; otherwise its original is finalized unless its hash is in the batch |
| Reconciler.ReconcileNoStrayKeys | lib/transaction.processor.js:219-233 | a hash with no entry and no original transaction in the batch never gets an entry |
| Reconciler.CrossShardRoundTrip | lib/transaction.processor.js:216-282 | an original with `n` outgoing SCRs in one block is pending with counter `n`; `n` incoming SCRs in a later block of the destination shard finalize it and return it |
| Reconciler.OutgoingLegsWitness | lib/transaction.processor.js:219-245 | a positive count of outgoing legs means an outgoing leg is in the batch |
| Reconciler.PruneKeysEffect | lib/transaction.processor.js:44-52 | pruning over a list of keys deletes exactly the listed entries older than 600 seconds, whatever their counter, and leaves every other entry unchanged |
| Reconciler.PruneEffect | lib/transaction.processor.js:44-52 | after pruning, the dictionary holds exactly the entries at most 600 seconds old, unchanged |
| Watermark.Decide | lib/transaction.processor.js:66-82 | skip exactly when the stored nonce equals the current one, or is ahead by at most 10000; otherwise fetch, from the current nonce after a network reset; a stored nonce behind the tip is kept when `maxLookBehind` is unset or not exceeded, and otherwise clamped to exactly `current - maxLookBehind` |
| Watermark.Resolve | lib/transaction.processor.js:389-398 | a missing stored nonce resolves to the one before the current nonce, and a stored one to itself |
| Watermark.FetchProgress | lib/transaction.processor.js:72-86 | storing the fetched nonce brings the shard strictly closer to rest |
| Watermark.InitProgress | lib/transaction.processor.js:392-394 | initialising a missing nonce brings the shard closer to rest |
| Watermark.RestIsSkipped | lib/transaction.processor.js:66-79 | a shard has distance 0 exactly when the loop skips it |
| Watermark.BlockStatistics | lib/transaction.processor.js:121-123 | the nonces processed in this run plus the nonces left equal the distance from the run's first nonce to the current nonce |
| Watermark.NoncesLeftBounds | lib/transaction.processor.js:80-82 | for a fetched block the nonces left are never negative, and never more than `maxLookBehind` when it is set |
| Processor.RunOptions | lib/transaction.processor.js:37-117 | a shard-mode run reads `maxLookBehind`, `includeCrossShardStartedTransactions` and `notifyEmptyBlocks` from the options passed in, and the finalized-results flag from the recorded options; when `start` passes the options it recorded, they are those options |
| Processor.StartNonces | lib/transaction.processor.js:83-85 | `startLastProcessedNonces` gains the shard with the decided nonce when its entry is missing or 0, and otherwise keeps it; other shards are untouched |
| Processor.BatchPartition | lib/transaction.processor.js:103-116 | each transaction of a block is exactly one of: dropped (bound elsewhere while started transactions are not wanted), pending (its hash is a dictionary key) or delivered |
| Processor.BlockEvents | lib/transaction.processor.js:117-132 | `onTransactionsReceived` fires exactly when something is delivered or empty blocks are wanted, with the delivered transactions; `onTransactionsPending` fires exactly when something is pending, with those; at most one of each, received before pending, and the store write last |
| Processor.ProcessedBlock | lib/transaction.processor.js:94-132 | keeps the dictionary well formed; without the finalized-results flag the dictionary is left alone; the store write of the block nonce is the last event |
| Processor.ShardStep | lib/transaction.processor.js:62-133 | keeps the dictionary well formed; `ShardStepProgress`, `ShardStepFetchesNext` and `ShardStepQuiet` state what a step does |
| Processor.FetchStep | lib/transaction.processor.js:86-132 | a processed block stores exactly the fetched nonce as its last event and no earlier one; a gateway fault or an absent block changes nothing; an absent block is the only successful skip |
| Processor.ShardStepProgress | lib/transaction.processor.js:62-133 | a step touches only its shard's stored nonce and never moves it away from rest; a processed block moves it strictly closer; a skip leaves the shard at rest |
| Processor.FetchStepProgress | lib/transaction.processor.js:86-132 | after a fetch the other shards are untouched; a processed block stores the nonce after the decided one; a skip leaves the shard at rest |
| Processor.ShardStepFetchesNext | lib/transaction.processor.js:64-132 | a processed block is the one after the resolved and clamped watermark, and its nonce is the last thing stored |
| Processor.ShardStepQuiet | lib/transaction.processor.js:64-91 | a step that processed no block leaves the dictionary alone, and its only event is the store write that initialises a missing nonce |
| Processor.ShardStepAtRest | lib/transaction.processor.js:64-91 | a step for a shard already at rest changes no state and emits nothing |
| Processor.AllAtRestExtend | lib/transaction.processor.js:62-133 | shards already at rest stay so while another shard is processed |
| Processor.TotalDistanceUpdate | lib/transaction.processor.js:60-134 | moving one shard no further from rest does not raise the total distance, and moving it closer lowers it |
| Processor.GroupsOf | lib/transaction.processor.js:187-193 | the grouping has a group for exactly the destination shards of the block |
| Processor.GroupEvents | lib/transaction.processor.js:194-206 | never more notifications than groups, each a `Received` for a shard of the list with that nonce and exactly that shard's group |
| Processor.GroupEventsInOrder | lib/transaction.processor.js:194-206 | the notifications come in the order of the `Map`'s keys |
| Processor.GroupEventsOnce | lib/transaction.processor.js:194-206 | over distinct keys, no two notifications are for the same shard: at most one per group |
| Processor.GroupEventsAll | lib/transaction.processor.js:194-206 | with no empty group, each group is notified once, in order, whatever `notifyEmptyBlocks` says |
| Processor.HyperblockNotifications | lib/transaction.processor.js:187-206 | a hyperblock notifies each destination shard once, in order of first occurrence, with exactly the transactions bound for it |
| Processor.HyperblockFetch | lib/transaction.processor.js:179-208 | a processed hyperblock notifies each destination shard once, in order of first occurrence, with its group and the block's round, timestamp, hash and statistics, and then stores the nonce after the decided one for the metachain as its last event; a fetch or decode fault changes nothing and emits nothing |
| Processor.HyperblockStepProgress | lib/transaction.processor.js:156-209 | a hyperblock step never moves the metachain away from rest and moves it closer when it processed a block; a skip means the metachain is at or ahead of the tip |
| Processor.ShardStepWrites | lib/transaction.processor.js:62-133 | the store writes of a shard step, replayed in order, give its store; the only writes are the initial one of a missing nonce and the nonce after the resolved and clamped watermark |
| Processor.HyperblockStepWrites | lib/transaction.processor.js:156-209 | the same for a hyperblock step, with the metachain as the only shard |
| Processor.StoreWritesAppend | lib/transaction.processor.js:60-134 | two event runs whose writes each follow the watermark from where the other left off still do so together |
| Processor.RoundStep | lib/transaction.processor.js:61-133 | one pass of the `for` loop over the shards keeps the dictionary well formed; `RoundStepProgress` and `RoundStepStopped` state what it does |
| Processor.RoundStepProgress | lib/transaction.processor.js:61-133 | a pass touches only its shards' stored nonces and never raises the total distance; a pass that processed a block lowered it; a pass reporting "tip reached" left every shard at rest |
| Processor.RoundStepAtRest | lib/transaction.processor.js:61-133 | a pass over shards all at rest reports "tip reached" and changes nothing, with no event |
| Processor.RoundStepStopped | lib/transaction.processor.js:53-138 | the first fault ends the pass: a pass whose prefix faulted is that prefix's pass |
| Processor.RoundStepWrites | lib/transaction.processor.js:61-133 | the events of a pass, replayed in order, give its store, and every write of a processed block is the nonce after the resolved and clamped watermark |
| Processor.Run | lib/transaction.processor.js:57-134 | the `do … while` loop ends; it never stops on "not at the tip" |
| Processor.RunAtRest | lib/transaction.processor.js:57-134 | a run that ends without a fault leaves every shard at rest |
| Processor.RunQuiet | lib/transaction.processor.js:57-134 | a run over shards all at rest changes nothing and emits nothing |
| Processor.RunWrites | lib/transaction.processor.js:57-134 | the events of a run, replayed in order, give its store, and each write of a processed block is the nonce after the resolved and clamped watermark of the store at that point |
| Processor.HyperRun | lib/transaction.processor.js:152-209 | the hyperblock `do … while` loop ends, and never stops on "not at the tip" |
| Processor.HyperRunAtRest | lib/transaction.processor.js:152-209 | a hyperblock run that ends without a fault leaves the metachain at or ahead of the tip |
| Processor.HyperRunQuiet | lib/transaction.processor.js:156-162 | a run for a metachain already at or ahead of the tip changes nothing and emits nothing |
| Processor.HyperRunWrites | lib/transaction.processor.js:152-209 | the events of a hyperblock run, replayed in order, give its store, and each write is the nonce after the resolved and clamped watermark |
| Processor.TransactionProcessor.constructor | lib/transaction.processor.js:15-24 | the processor starts with no shards, no stored nonces, an empty dictionary, default options and not running |
| Processor.TransactionProcessor.GetShards | lib/transaction.processor.js:345-356 | the shard list of `Shards`, or the gateway's fault |
| Processor.TransactionProcessor.GetCurrentNonces | lib/transaction.processor.js:379-388 | succeeds exactly when every shard's status can be read, and then maps exactly the shards to their current nonces; on failure the fault is some shard's fault |
| Processor.TransactionProcessor.GetLastProcessedNonce | lib/transaction.processor.js:399-407 | the in-memory stored nonce of the shard, if any |
| Processor.TransactionProcessor.SetLastProcessedNonce | lib/transaction.processor.js:408-417 | stores the nonce for that shard only and records the write |
| Processor.TransactionProcessor.GetLastProcessedNonceOrCurrent | lib/transaction.processor.js:389-398 | returns the resolved nonce; a missing nonce is stored as the one before the current nonce, and a present one is left alone |
| Processor.TransactionProcessor.OnTransactionsReceived | lib/transaction.processor.js:418-425 | records one `Received` notification with all seven arguments |
| Processor.TransactionProcessor.OnTransactionsPending | lib/transaction.processor.js:426-433 | records one `Pending` notification with the shard, the nonce and the transactions only |
| Processor.TransactionProcessor.PruneCrossShardDictionary | lib/transaction.processor.js:44-52 | the dictionary becomes the pruned one (see `PruneEffect`) |
| Processor.TransactionProcessor.GetFinalizedCrossShardScrTransactions | lib/transaction.processor.js:216-282 | the in-place passes leave the dictionary and return the transactions that `Reconcile` describes (see `ReconcileEffect`) |
| Processor.TransactionProcessor.CountOutgoing | lib/transaction.processor.js:218-246 | the in-place pass 1 computes `OutgoingPass` (see `OutgoingPassEffect`) |
| Processor.TransactionProcessor.CountIncoming | lib/transaction.processor.js:247-267 | the in-place pass 2 computes `IncomingPass` (see `IncomingPassEffect`) |
| Processor.TransactionProcessor.SweepFinalized | lib/transaction.processor.js:268-281 | the in-place sweep over a snapshot of the keys computes `SweepKeys` (see `SweepEffect`) |
| Processor.TransactionProcessor.PartitionBatch | lib/transaction.processor.js:95-116 | the finalized transactions come first and then the delivered ones, in block order; the pending ones are exactly the `Withholds` transactions (see `BatchPartition`) |
| Processor.TransactionProcessor.ProcessShard | lib/transaction.processor.js:62-133 | one iteration for a shard moves the store, the dictionary and the events as `ShardStep` says |
| Processor.TransactionProcessor.FetchShardBlock | lib/transaction.processor.js:86-132 | the fetch, decode and processing of one block, as `FetchStep` says |
| Processor.TransactionProcessor.ProcessBlock | lib/transaction.processor.js:94-132 | reconciliation when enabled, the partition, the notifications and the store write, as `ProcessedBlock` says |
| Processor.TransactionProcessor.NotifyBlock | lib/transaction.processor.js:117-132 | the callbacks of `BlockEvents`, then the store write for the block's shard |
| Processor.TransactionProcessor.CatchUpShards | lib/transaction.processor.js:57-134 | the loop leaves the store, the dictionary and the events exactly as `Run` says; on success every shard is at rest; if every shard was at rest already it changes nothing |
| Processor.TransactionProcessor.CatchUpRound | lib/transaction.processor.js:61-133 | one pass leaves the store, the dictionary, the events and the start nonces exactly as `RoundStep` says; it never raises the total distance; it reports "tip reached" only when every shard is at rest, and otherwise lowered the distance |
| Processor.TransactionProcessor.StartProcessByShardblock | lib/transaction.processor.js:37-140 | a second start while running changes nothing; otherwise `isRunning` is cleared on every path and the dictionary is pruned first; when the shard count cannot be read, nothing else happens; when every status can be read, the store, the dictionary and the events are those of `Run` over the shard list, and the outcome is its outcome; a finished run leaves every shard at rest |
| Processor.TransactionProcessor.ProcessShardblocks | lib/transaction.processor.js:53-135 | the `try` block: the shard count's fault changes nothing; otherwise the shard list is `Shards`, and with every status readable the run is `Run` from the current nonces with an empty start map |
| Processor.TransactionProcessor.GroupByDestination | lib/transaction.processor.js:187-193 | the destinations in order of first occurrence, and for each the transactions bound for it |
| Processor.TransactionProcessor.ProcessHyperblock | lib/transaction.processor.js:157-208 | one hyperblock iteration moves the store and the events as `HyperblockStep` says |
| Processor.TransactionProcessor.FetchHyperblock | lib/transaction.processor.js:179-208 | the fetch, decode, grouped notifications and store write of one hyperblock, as `HyperblockFetch` says |
| Processor.TransactionProcessor.NotifyGroups | lib/transaction.processor.js:194-206 | one notification per group, in key order |
| Processor.TransactionProcessor.CatchUpHyperblocks | lib/transaction.processor.js:152-209 | the loop leaves the store and the events exactly as `HyperRun` says, and its outcome is the run's; on success the metachain is at or ahead of the tip; a metachain already there is left unchanged, with no event |
| Processor.TransactionProcessor.StartProcessByHyperblock | lib/transaction.processor.js:141-215 | a second start while running changes nothing; otherwise the metachain is the only shard and `isRunning` is cleared on every path; an unreadable status aborts with its fault and changes nothing; otherwise the store and events are those of `HyperRun` from the metachain's current nonce, and a finished run leaves it at or ahead of the tip |
| Processor.TransactionProcessor.ProcessHyperblocks | lib/transaction.processor.js:149-210 | the `try` block: the metachain becomes the only shard; an unreadable status is the fault and changes nothing; otherwise the run is `HyperRun` from the current nonce |
| Processor.TransactionProcessor.Start | lib/transaction.processor.js:25-36 | records the options and runs the selected mode with them; a start while running changes nothing else; an unreadable shard count or status aborts with the store and events unchanged (shard mode: only the pruning has happened); otherwise the store and events are those of `Run` or of `HyperRun`, hyperblock mode never touches the dictionary, and a finished run leaves every shard of that mode at rest |

## Left out

- The HTTP gateway (axios, `gatewayGet`, `getCurrentNonce`) is not modelled. Its answers are the fields of `Gateway`, fixed for a run, and a request that throws is a `Failure`.
- `Promise.all` in `getCurrentNonces` and the `__awaiter` machinery are not modelled. The status requests are read in shard order, and the model has no concurrency, so two overlapping `start` calls cannot be expressed beyond the `isRunning` guard.
- The floating-point statistics fields (`secondsElapsed`, `noncesPerSecond`, `secondsLeft`) are left out, because they come from the clock and from float division. `Statistics` keeps only the two integer fields.
- `new Date()` is replaced by one integer `now` in milliseconds per run. The prune test "elapsed seconds > 600" is stated as "elapsed milliseconds > 600000", which is the same test for whole milliseconds.
- `logMessage` and `onMessageLogged` are left out, because they have no effect on state.
- The injected persistence callbacks `getLastProcessedNonce` and `setLastProcessedNonce` from the options are left out, because their behaviour is outside this code. Only the in-memory fallback, `lastProcessedNoncesInternal`, is modelled.
- The consumer callbacks are recorded as `events` rather than called. A callback that throws, and the error path it would open, is not modelled.
- The base64 decoder follows Node's lenient rules (both alphabets, other characters skipped, stop at the first `=`, a lone trailing character dropped). Other corner cases of `Buffer.from` are not modelled.
- `maxLookBehind` is a natural number, with 0 standing for "not set". Negative values are not modelled.
- JSON `null` and `undefined` are one case (`None`). A `null` `miniBlocks` or hyperblock `transactions`, which would throw in the source, is read as an empty list.
- `Object.keys` is modelled as insertion order. JavaScript puts integer-like keys first; transaction hashes are hexadecimal strings, so that ordering and prototype keys are not modelled.
- The memoising fields of `ShardTransaction` (`dataDecoded`, `dataFunctionName`, `dataArgs`) are computed anew from `data`. A cached falsy value is recomputed in the source, so the results agree.
- `example/crons/transaction.processor.service.ts` is not part of this model.
- Processor.HyperblockStep: has no contract of its own; `HyperblockStepProgress` and `ProcessHyperblock` state what it does.
- In hyperblock mode `notifyEmptyBlocks` has no effect, because every group is non-empty (`GroupsNonEmpty`). An empty hyperblock therefore notifies nothing. The code is followed here.
- A missing hyperblock is a `TypeError` that ends the run. The `transactionsResult === undefined` branch of the hyperblock loop cannot be reached, because the source dereferences `result.hyperblock` before it tests `!result`. The code is followed here.
