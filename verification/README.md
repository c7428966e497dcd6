# Relay settlement: verified models

A Dafny model of the parts of the Relay settlement repository where a wrong step would lose or
corrupt data, with proofs of what they guarantee over every input, interleaving or run.
`dafny verify dfyconfig.toml` checks the whole project.

## What is modelled

**Price ingester (`crates/stork-ingester`).** `Bytes`, `Payload` and `Ingest` follow one message from
its hexadecimal text to the feed cache: the big-endian payload with its 128-bit two's-complement values, the
verification order and its saturating freshness window, and the counting of what was ingested or
dropped. `Feeds` is the cache itself, said both as code and as "the first update at the greatest
source time". `Broadcast` is the live protocol: cache write and channel send are separate steps,
the channel keeps its last 1024 frames, and up to 32 connections subscribe, take a snapshot,
write it, drain, and resend a snapshot whenever they lagged. `FrameOrder` says when such a
connection shows prices out of order.

**Settlement indexer (`packages/indexer`).** `Lane` is the worklist that splits oversized ranges, the
checkpoint with its legacy fallback and overlap, and the backfill and polling loops over all lanes of
a process. `Touched` is the batch step that turns logs into reconcile calls. `Settlement` puts the transfer lane and the
failed-event retry job side by side over one database, lets any await throw and the process crash
between any two steps, and proves that no transfer below the checkpoint is ever lost. A balance read
is represented by the chain height it was made at. `BatchRun` shows that the batch code of `Touched` is
a run of that machine, and `RetryRun` that its retry job can finish its work from any state. `TtlCache` is the in-memory cache against a log of
everything ever set, whatever its clock shows.

**Hedera codecs (`packages/sdk`).** `Decimal`, `EntityId`, `Address` and `Transaction` cover canonical
entity ids, the HIP-15 checksum, the 20-byte address slot, timestamps, both transaction-id spellings
and both hash encodings. Each parser is characterised by an if-and-only-if over all strings.

**Tools and telemetry.** `BlockSearch` (block by timestamp, adaptive log scan, mint search),
`RoutedWithdrawal` (the two-phase manifest protocol) and `Throttle` (the lock-free error throttle).

## Where the code does less than its description

- `findBlockByTimestamp` is described as returning the smallest block at or after the target. It
  does so exactly if the target lies strictly between the first and the latest timestamp, or equals
  the latest timestamp and only the latest block has it (`BlockSearch.FindBlockByTimestamp`). The mint
  search built on it misses a block of its window exactly if the two latest blocks both carry the
  deposit's timestamp when it starts (`BlockSearch.FindMintByAmount`, and a missed mint in
  `BlockSearch.MintMissed`).
- A transfer below the checkpoint always had its balances stored, or found stored, as of a chain state
  that includes it, but the row can show an older amount *now*: the lane and the retry job both read
  balances first and come to the rows later, so the slower one can replace the newer amount
  (`Settlement.StoredBalanceCanPredateLog`). Coming to a row overtakes the other job's open call if
  that call holds an earlier read of the same token and address; the read is outdated if the amounts
  differ. A row shows the balance as of the latest height any call came to it with exactly if the last
  call to come did not hold an outdated read (`Settlement.ShowsNewestIff`); along a run no row is
  replaced by an amount read earlier exactly if no call comes with an outdated read
  (`Settlement.NeverFallsIff`).
- A subscriber can be shown a price older than one it was already shown: exactly a frame that was
  enqueued before its last snapshot was taken and for whose feed the snapshot held a later price
  (`FrameOrder.ReceivedOlderIff`; `FrameOrder.OlderShown` is such a run).
- Converting an entity-id object, as opposed to a parsed string, to a long-zero address round-trips
  exactly if its number is not negative and fits int64 (`Address.SlotRoundTripIff`).
- The in-memory cache answers a get as a log of all sets would exactly if the log has no unexpired
  answer or neither a set nor a get of the key ran at or after its expiry since the key was set
  (`TtlCache.Serve`). With a clock that goes back, that can fail (`TtlCache.ClockBackForgets`).
- Neither the batch size nor the manifest chunk size is checked: the batch loop ends exactly for
  positive batch sizes (`Lane.BatchesEndIff`), the chunk loop exactly for an empty
  configuration or a positive chunk (`RoutedWithdrawal.ChunksEndIff`).

## Assumptions

- Each `getLogs` answer is complete for its range, and a log is identified by its transaction and
  index. `insert` reports whether the row is new, a reconcile call stores the balances it read
  unless the row shows them already, `recordFailedEvent` adds the row, and the count sync is one statement over the event rows.
- A balance is read at the chain head of that moment and is a function of that block. `balanceOf` is called without a block number,
  so a provider node that lags behind the one that answered `getLogs` would break `Settled`.
- Others do not undo a registration of the new payload builder, and the tool keeps its builder.
- Feed ids are used as keys because every key carries the same provider id; the statement that a
  batch acts on each feed independently assumes that different assets have different feed ids.
- Unix times in milliseconds stay below 2^64 minus one minute.

## Model

| member | source | states |
|---|---|---|
| Feeds.FeedCache.Insert | crates/stork-ingester/src/cache.rs:141-194 | an update is accepted unless older than the cached one or different at the same time; accepted ones are cached and broadcast, all others counted as dropped |
| Feeds.FeedCache.Snapshot | crates/stork-ingester/src/cache.rs:117-127 | one frame per cached feed, ascending, with the cached payload and the time in milliseconds |
| Feeds.CacheHoldsWinner | crates/stork-ingester/src/cache.rs:141-180 | after any offers a feed's entry has the greatest offered time, the value first offered at that time, and the payload last offered with both |
| Feeds.CachedFeeds | crates/stork-ingester/src/cache.rs:141-180 | a feed is cached exactly if some update for it was offered |
| Feeds.EntryMonotone | crates/stork-ingester/src/cache.rs:143-180 | a cached feed stays cached, its time never goes back, and its value changes only with its time |
| Feeds.AcceptedInOrder | crates/stork-ingester/src/cache.rs:143-170 | accepted times of a feed never decrease and values accepted at one time are equal |
| Feeds.OrderIrrelevant | crates/stork-ingester/src/cache.rs:141-194 | conflict-free streams with the same updates leave the same times and values in any order |
| Broadcast.StepKeeps | crates/stork-ingester/src/server.rs:73-174 | every step of producer, connection or accept loop keeps "received, pending, unread and in-flight frames fold to the cache, or the cursor fell off the tail" |
| Broadcast.DrainedIsCurrent | crates/stork-ingester/src/server.rs:82-174 | after every interleaving, a drained subscriber was greeted first and its last frame for each feed is the cached one |
| Broadcast.OwnStepsUseWork | crates/stork-ingester/src/server.rs:124-174 | with the producer quiet, every step a connection takes uses up a finite amount of work, lag and resend included |
| Broadcast.NeverStuck | crates/stork-ingester/src/server.rs:124-174 | a connected subscriber that is not drained can always take a step |
| Broadcast.Drains | crates/stork-ingester/src/server.rs:82-174 | from every reachable state without a frame in flight, a connection's own steps drain it and show it the cache as it already was |
| Broadcast.SubscribersBounded | crates/stork-ingester/src/server.rs:39-69 | the connection counter is exact and at most 32 connections are served |
| Broadcast.ServedIff | crates/stork-ingester/src/server.rs:39-69 | after every interleaving a new connection is served exactly if fewer than 32 are, and one that is not leaves no trace |
| Broadcast.LeavesPlace | crates/stork-ingester/src/server.rs:39-69 | a connection that ends gives its place back and changes nothing else |
| Broadcast.CursorMoves | crates/stork-ingester/src/server.rs:124-161 | no step skips a frame that is among the last 1024; a connection whose next frame is not goes to the oldest that is and takes a snapshot |
| Broadcast.SubscribesAtTail | crates/stork-ingester/src/server.rs:82-83 | over every run, a connection reads no frame enqueued before it subscribed |
| FrameOrder.GreetedOnce | crates/stork-ingester/src/server.rs:85-161 | however often it lags, a subscriber is greeted once, with its first frame |
| FrameOrder.SnapshotNeverOlder | crates/stork-ingester/src/server.rs:82-100 | after every interleaving no price of a snapshot is older than one of its feed sent before |
| FrameOrder.ReceivedOlderIff | crates/stork-ingester/src/server.rs:82-174 | after every interleaving the next channel frame is older than a price of its feed sent before exactly if it was enqueued before the last snapshot and that snapshot showed a later price |
| FrameOrder.OlderShown | crates/stork-ingester/src/server.rs:82-174 | a run in which a subscriber is shown a price by its snapshot and then an earlier one |
| Bytes.MostSignificantFirst | crates/stork-ingester/src/payload.rs:62-68 | the first byte of a number weighs most |
| Bytes.NumberRoundTrip | crates/stork-ingester/src/payload.rs:62-68 | a number survives its big-endian encoding |
| Bytes.BytesRoundTrip | crates/stork-ingester/src/payload.rs:62-68 | bytes survive decoding to a number and back |
| Payload.FromBytes | crates/stork-ingester/src/payload.rs:45-91 | accepts exactly 75 + 18n bytes with n >= 1, reports which rule failed otherwise, reads every field from its place, and what it decodes re-encodes to the input |
| Payload.FromText | crates/stork-ingester/src/payload.rs:39-43 | exactly an even number of hexadecimal digits, with or without prefix, reaches the decoder, and an accepted payload writes back to the same digits in lower case |
| Payload.PrefixStripped | crates/stork-ingester/src/payload.rs:40 | one leading 0x is stripped and hexadecimal digits are left alone |
| Payload.SameTextIff | crates/stork-ingester/src/payload.rs:39-43 | two texts carry the same bytes exactly if they differ at most in case and prefix |
| Payload.SignedIs | crates/stork-ingester/src/payload.rs:74-81 | words with the top bit set are the negative numbers |
| Payload.SignedRoundTrip | crates/stork-ingester/src/payload.rs:74-81 | two's complement is a bijection between 128-bit words and the i128 range |
| Payload.EncodeInjective | crates/stork-ingester/src/payload.rs:62-90 | equal encodings have equal signature, taxonomy, timestamp and assets |
| Payload.EncodeThenDecode | crates/stork-ingester/src/payload.rs:45-91 | decoding inverts encoding for every signature, header and non-empty asset list |
| Ingest.Verify | crates/stork-ingester/src/verification.rs:29-74 | the four checks in order, the first repeated asset id, and a saturating freshness test that agrees with unbounded integers |
| Ingest.Worker.PublishBatch | crates/stork-ingester/src/ingester.rs:274-308 | offers every subscribed value in order; the count is the ingested and the broadcast increase |
| Ingest.Worker.CachePayload | crates/stork-ingester/src/ingester.rs:192-240 | a decodable hexadecimal message raises ingested plus dropped by the number of distinct subscribed assets it names, verified or not; published equals ingested and never exceeds the subscriptions; a verified one is published feed by feed |
| Ingest.PublishedIs | crates/stork-ingester/src/ingester.rs:274-308 | a feed the payload names ends with the payload's bytes, its own time and value and the delivery time, unless the cache has a later price or another value for that time |
| Ingest.CountUpdates | crates/stork-ingester/src/ingester.rs:282-306 | without repeats, the updates of a payload are as many as the distinct subscribed assets it names |
| Ingest.OffersIndependent | crates/stork-ingester/src/ingester.rs:282-306 | each named feed ends as a single offer of its own value would leave it |
| Ingest.OthersUntouched | crates/stork-ingester/src/ingester.rs:282-306 | feeds a batch does not name keep their entry |
| Lane.IndexerLane.SetCheckpoint | packages/indexer/src/indexer.ts:463-472 | the stored checkpoint becomes the larger of the parsed one and the end, and a missing or unusable one the end |
| Lane.IndexerLane.Try | packages/indexer/src/indexer.ts:481-536 | one range is fetched whole or, if a single block, by pages; only a completed one moves the checkpoint and counts as fetched |
| Lane.Split | packages/indexer/src/indexer.ts:504-520 | splitting a range keeps the queue contiguous and lowers its measure |
| Lane.IndexerLane.ProcessRange | packages/indexer/src/indexer.ts:474-539 | ends for any answers; completed ranges tile the range in order, all of it on return and a prefix at the first error, with the checkpoint at their end; it returns exactly if no attempt ended in an error |
| Lane.IndexerLane.NextStart | packages/indexer/src/indexer.ts:541-569 | own key before legacy key, empty as missing; fails exactly on a value that is no block number, else re-scans the overlap but not before the start block |
| Lane.IndexerLane.ProcessUntil | packages/indexer/src/indexer.ts:571-590 | the checkpoint never goes back, never passes the target and reaches it on success; the ranges completed by the scan follow each other from the start block or the overlap before the checkpoint, on success to the target, in batches of the configured size while all is answered; it succeeds exactly if the stored checkpoint is a block number or absent and no attempt ended in an error |
| Lane.IndexerLane.Poll | packages/indexer/src/indexer.ts:607-621 | the same for a reported head less the confirmations, never below zero |
| Lane.PollAll | packages/indexer/src/indexer.ts:592-621 | one pass over all lanes: those before the first that throws reach the confirmed block, that one met an error or an unusable checkpoint, and later ones are untouched |
| Lane.Watch | packages/indexer/src/indexer.ts:592-633 | over a whole lifetime every lane keeps its coverage invariant and is asked for confirmed blocks only; a backfill that throws ends it, any other brings every lane to the confirmed block, and the polls after it the last one unless some lane failed |
| Lane.AttemptsAdmitted | packages/indexer/src/indexer.ts:552-590 | every attempt a lane has made is one the settlement state machine admits: no gap above the checkpoint, and not past a confirmed block |
| Lane.BatchesEndIff | packages/indexer/src/indexer.ts:585-589 | the batch loop passes the latest block after some number of batches exactly if the batch size, whole or not, is positive |
| Settlement.InsertKeeps | packages/indexer/src/indexer.ts:271-342 | inserting, failing to insert and re-touching above the checkpoint keep every due log of the batch accounted for |
| Settlement.CallKeeps | packages/indexer/src/indexer.ts:348-380 | reads, visits to rows and failures of a reconcile call keep every touched address promised or fresh |
| Settlement.RecordKeeps | packages/indexer/src/indexer.ts:365-389 | recording the touched logs of a failed token keeps them accounted for |
| Settlement.SyncTokenKeeps | packages/indexer/src/indexer.ts:382-383 | a sync after all addresses are fresh settles every touched log of the token |
| Settlement.RetryStepKeeps | packages/indexer/src/jobs/failedEventRetry.ts:66-99 | a failed row is deleted only after its log was inserted, reconciled and counted |
| Settlement.CheckpointKeeps | packages/indexer/src/indexer.ts:463-501 | the checkpoint moves only past logs that are accounted for |
| Settlement.NothingLost | packages/indexer/src/indexer.ts:261-404 | after every run with errors and crashes anywhere, every transfer from the start block to the checkpoint is in failed_events or inserted, stored from a chain state including it, and counted |
| Settlement.CheckpointMonotone | packages/indexer/src/indexer.ts:463-472 | over every run the checkpoint never goes back nor passes the larger of its first value and the highest confirmed block |
| Settlement.BatchEnds | packages/indexer/src/indexer.ts:463-501 | however its steps interleave, a batch that nothing aborts leaves the lane idle only with the checkpoint at or past its end |
| Settlement.FromOutside | packages/indexer/src/indexer.ts:592-621 | the head never goes back, and a crash or an unhandled error ends a job and leaves the database alone |
| Settlement.ReadsFirst | packages/indexer/src/services/transferProcessor.ts:402-409 | a call comes to no row before it has made all its reads |
| Settlement.GroupsFromLeft | packages/indexer/src/indexer.ts:356-364 | a reconcile call is started exactly for addresses that are still to be reconciled |
| Settlement.SyncMayCount | packages/indexer/src/indexer.ts:382-389 | a sync that fails may have counted, and the logs are recorded all the same |
| Settlement.RowsOfHolders | packages/indexer/src/services/transferProcessor.ts:305-310 | after every run no row shows a zero balance or is for the zero address |
| Settlement.ShowsNewestIff | packages/indexer/src/services/transferProcessor.ts:402-420 | after every run a row shows the balance as of the latest height any call came to it with exactly if the last call to come did not hold an outdated read |
| Settlement.BalancesCurrent | packages/indexer/src/services/transferProcessor.ts:402-420 | so the row for a covered, not failed log shows the balance as of a chain state including it unless the last call to come held an outdated read |
| Settlement.NeverFallsIff | packages/indexer/src/services/transferProcessor.ts:402-420 | along every run no row is replaced by an amount read earlier than the one it shows exactly if no call comes to a row with an outdated read |
| Settlement.StepOvertakes | packages/indexer/src/services/transferProcessor.ts:402-420 | while no open call is overtaken, a step keeps it so exactly if it does not overtake the other job's call |
| Settlement.NeverOvertakesIff | packages/indexer/src/services/transferProcessor.ts:390-427 | along every run no open call is overtaken exactly if no visit to a row overtakes; then no row ever goes back |
| Settlement.StoredBalanceCanPredateLog | packages/indexer/src/services/transferProcessor.ts:402-420 | a run of lane and retry job after which the row of a settled log's address shows no balance that includes the log |
| Touched.LowerIs | packages/indexer/src/indexer.ts:248 | capital letters become small ones and other characters stay |
| Touched.TransferBatch.AddTouchedAddress | packages/indexer/src/indexer.ts:242-259 | the lower-cased address keeps the greatest timestamp it was touched with |
| Touched.TransferBatch.Collect | packages/indexer/src/indexer.ts:266-342 | the maps hold exactly the touched logs of each token in order and the latest timestamp of each mentioned address; failed inserts are recorded; with the checkpoint given, it throws exactly if a row cannot be |
| Touched.TransferBatch.GroupByTime | packages/indexer/src/indexer.ts:349-354 | every address with its timestamp is in exactly one group, one group per timestamp |
| Touched.TransferBatch.CallGroups | packages/indexer/src/indexer.ts:356-364 | one call per group, in order, up to and with the first that fails |
| Touched.TransferBatch.RecordFailed | packages/indexer/src/indexer.ts:367-369 | exactly the given logs are added to failed_events, unless a recordFailedEvent call throws |
| Touched.TransferBatch.ReconcileToken | packages/indexer/src/indexer.ts:344-400 | a token settles exactly if every call and the sync succeed; otherwise all its touched logs are recorded, or the batch throws, exactly if one cannot be |
| Touched.TransferBatch.ReconcileAll | packages/indexer/src/indexer.ts:344-403 | every touched token settles or is recorded unless the batch throws, and none interferes with another |
| Touched.TransferBatch.ProcessTransferLogs | packages/indexer/src/indexer.ts:261-404 | the batch throws exactly if the checkpoint cannot be read or a failed row cannot be recorded; otherwise each mentioned (token, address) is reconciled exactly once with its latest timestamp, or the token's touched logs are all in failed_events |
| BatchRun.InsertPass | packages/indexer/src/indexer.ts:271-342 | the first pass over a batch's logs is a run of the machine's lane with the same inserted, failed and touched logs |
| BatchRun.FailPass | packages/indexer/src/indexer.ts:365-389 | wherever reconciling a token fails, its touched logs are all recorded and its sync is tried all the same |
| BatchRun.TokenPass | packages/indexer/src/indexer.ts:344-400 | handling one token, whichever call or sync fails, is a run of the machine's lane with the same failed rows and stored count |
| BatchRun.BatchIsRun | packages/indexer/src/indexer.ts:261-404 | a batch that ends is a run of the lane from the fetched logs to where only the checkpoint is left to set |
| BatchRun.ProcessBeside | packages/indexer/src/indexer.ts:261-404 | the batch method, whatever the outside answers, throws or is a run of the lane from the start of the batch, with the same event, failed-event and token tables, to a checkpoint that is the larger of the old one and the batch's end |
| RetryRun.RetrySettles | packages/indexer/src/jobs/failedEventRetry.ts:66-83 | from every state that keeps the invariant, whatever the lane does, the retry job's own steps settle a failed transfer and delete its row |
| RetryRun.RetryClears | packages/indexer/src/jobs/failedEventRetry.ts:66-83 | a failed row that is no tracked transfer is deleted and nothing else changes |
| TtlCache.MemoryCacheBackend.Get | packages/indexer/src/cache.ts:19-31 | answers as the log of all sets does for a key that no operation visited at or after its expiry, and null otherwise |
| TtlCache.MemoryCacheBackend.Set | packages/indexer/src/cache.ts:33-46 | stores the entry, keeps every unexpired one, and lets no other expired one survive |
| TtlCache.Serve | packages/indexer/src/cache.ts:11-47 | for every run and any clock, a get is answered as by the log of the sets before it exactly if its key is still kept or the log has no unexpired answer |
| TtlCache.ForwardAnswered | packages/indexer/src/cache.ts:11-47 | with a clock that does not go back every get is answered as by the log |
| TtlCache.ClockBackForgets | packages/indexer/src/cache.ts:25-28 | a run with a clock that goes back in which an unexpired value is not found |
| EntityId.ComputeChecksum | packages/sdk/src/hedera-vm.ts:125-174 | the loops compute the checksum |
| EntityId.ExactInDoubles | packages/sdk/src/hedera-vm.ts:151-166 | every value the loops compute before a reduction stays below 2^53 |
| EntityId.DigitSums | packages/sdk/src/hedera-vm.ts:151-160 | the weighted sum and both parity sums |
| EntityId.HashLedger | packages/sdk/src/hedera-vm.ts:161-163 | the ledger hash |
| EntityId.LedgerHashOf | packages/sdk/src/hedera-vm.ts:13-18 | the ledger hash of each of the four networks |
| EntityId.WeightedIs | packages/sdk/src/hedera-vm.ts:151-155 | the weighted sum is the digits read in base 31, modulo 26^3 |
| EntityId.ParitySumIs | packages/sdk/src/hedera-vm.ts:156-159 | the parity sums are those of the even and of the odd digits, modulo 11 |
| EntityId.LedgerHashSum | packages/sdk/src/hedera-vm.ts:161-163 | the ledger hash is its bytes read in base 31, modulo 26^5 |
| EntityId.ChecksumIs | packages/sdk/src/hedera-vm.ts:133-173 | the five letters, read in base 26, as one closed formula over the digits and the ledger id |
| EntityId.ChecksumOf123 | packages/sdk/test/hedera-vm.test.ts:58-64 | the published checksums of 0.0.123 on the four networks |
| EntityId.ChecksumDetermines | packages/sdk/src/hedera-vm.ts:165-173 | checksums are equal exactly if the values before the final permutation are |
| EntityId.NetworksDiffer | packages/sdk/src/hedera-vm.ts:125-174 | for every id the checksums on two networks differ |
| EntityId.SameChecksumIff | packages/sdk/src/hedera-vm.ts:133-173 | two ids share a checksum exactly if length mod 5, both parity sums and the weighted sum agree |
| EntityId.SubstitutionCaught | packages/sdk/src/hedera-vm.ts:151-160 | changing one character of an id changes its checksum on every network |
| EntityId.TranspositionCaught | packages/sdk/src/hedera-vm.ts:151-160 | exchanging two unequal neighbours changes the checksum on every network |
| EntityId.MatchIff | packages/sdk/src/hedera-vm.ts:51-52 | the grammar has at most one reading of a string and the matcher finds it |
| EntityId.ParseIff | packages/sdk/src/hedera-vm.ts:76-112 | exactly the canonical spelling and the one with the given network's checksum are accepted |
| EntityId.WrongNetworkRejected | packages/sdk/src/hedera-vm.ts:97-109 | an id with one network's checksum parses on that network and on no other, nor without one |
| Address.WriteSlot | packages/sdk/src/hedera-vm.ts:241-255 | the byte loop writes twelve zero bytes and the low 64 bits, in two's complement |
| Address.ReadSlot | packages/sdk/src/hedera-vm.ts:274-277 | the byte loop reads the last eight bytes as a number |
| Address.SlotRoundTripIff | packages/sdk/src/hedera-vm.ts:234-289 | encoding and decoding an id gives it back exactly if its number is not negative and fits int64 |
| Address.SlotLoses | packages/sdk/src/hedera-vm.ts:234-289 | 2^63 and -1 do not decode, and 2^64 comes back as 0 |
| Address.GrammarsDisjoint | packages/sdk/src/hedera-vm.ts:304-347 | no string is accepted by two of the three address grammars |
| Address.DecodeIff | packages/sdk/src/hedera-vm.ts:385-392 | exactly the 20-byte slots that are no long-zero number beyond int64 decode |
| Address.EncodeDecode | packages/sdk/src/hedera-vm.ts:372-392 | encoding what a slot decodes to gives the slot back |
| Address.DecodeEncode | packages/sdk/src/hedera-vm.ts:372-392 | decoding what a text encodes to gives its canonical spelling |
| Address.SameSlotIff | packages/sdk/src/hedera-vm.ts:324-378 | two texts share a slot exactly if they name the same identity |
| Address.FormatCanonical | packages/sdk/src/hedera-vm.ts:324-358 | the formatted identity parses to itself, whatever the network |
| Address.AddressIff | packages/sdk/src/hedera-vm.ts:304-347 | a text names an identity exactly if it is one of three hexadecimal spellings of a slot that does, or a spelling of an entity id |
| Address.UsdcSlot | packages/sdk/src/hedera-vm.ts:226-233 | the documented long-zero address of 0.0.456858 |
| Transaction.TimestampIff | packages/sdk/src/hedera-vm.ts:409-441 | parsing accepts exactly what formatting writes |
| Transaction.NativeIff | packages/sdk/src/hedera-vm.ts:463-464 | the native grammar has at most one reading of a string and the matcher finds it |
| Transaction.MirrorIff | packages/sdk/src/hedera-vm.ts:469-470 | the same for the dashed grammar |
| Transaction.GrammarsDisjoint | packages/sdk/src/hedera-vm.ts:463-470 | no text matches both grammars |
| Transaction.ParseIdIff | packages/sdk/src/hedera-vm.ts:477-540 | a text parses to an id exactly if it is one of its native or dashed spellings |
| Transaction.NativeRoundTrip | packages/sdk/src/hedera-vm.ts:477-518 | parsing the formatted id gives it back, whatever the network |
| Transaction.MirrorRoundTrip | packages/sdk/src/hedera-vm.ts:549-562 | dashed text, flag and nonce together recover the id |
| Transaction.FormatIdIff | packages/sdk/src/hedera-vm.ts:508-540 | an id has a canonical form exactly if its nonce fits int32 and its nanoseconds a second |
| Transaction.CanonicalFlags | packages/sdk/src/hedera-vm.ts:508-518 | the canonical form has a nonce part exactly if the nonce is not zero, and the flag exactly if it is scheduled |
| Transaction.Examples | packages/sdk/src/hedera-vm.ts:508-562 | one id in its native and dashed forms |
| Transaction.SextetIs | packages/sdk/src/hedera-vm.ts:586-590 | the base64 alphabet of section 4 of RFC 4648 |
| Transaction.QuadIs | packages/sdk/src/hedera-vm.ts:586-590 | four sextets spell the 24 bits of three bytes, most significant first |
| Transaction.Base64Text | packages/sdk/src/hedera-vm.ts:586-590 | every base64 text of whole quads is the encoding of what it decodes to |
| Transaction.HashIff | packages/sdk/src/hedera-vm.ts:570-596 | a text is accepted for 48 bytes exactly if it is their hexadecimal, in any case and with or without prefix, or their base64 |
| Transaction.Base64RoundTrip | packages/sdk/src/hedera-vm.ts:586-590 | decoding base64 inverts section 4 of RFC 4648 |
| Transaction.HashSpellings | packages/sdk/src/hedera-vm.ts:570-596 | hex, prefixed hex and base64 of the same 48 bytes parse alike |
| Transaction.HashIsBytes | packages/sdk/src/hedera-vm.ts:580-596 | whatever is accepted stands for 48 bytes in lower-case hex |
| Transaction.NormalizeIdempotent | packages/sdk/src/hedera-vm.ts:630-647 | normalizing a normalized reference changes nothing, even for another network |
| Transaction.SameNormalFormIff | packages/sdk/src/hedera-vm.ts:630-636 | two texts name the same transaction exactly if they normalize alike |
| BlockSearch.FindBlockByTimestamp | packages/multisig-tools/scripts/generate-inc13-recovery-transfers.ts:209-228 | what the search returns, and exactly when that is the smallest block at or after the target |
| BlockSearch.SearchMissesTie | packages/multisig-tools/scripts/generate-inc13-recovery-transfers.ts:209-228 | a chain whose two latest blocks are at the target, for which the second is returned |
| BlockSearch.ScanAdaptive | packages/multisig-tools/scripts/generate-inc13-recovery-transfers.ts:232-264 | ends; on success the queried ranges, of at most 10000 blocks, tile the range and each mint is returned once; it fails only if a range is refused outright or one of at most 50 blocks is too large |
| BlockSearch.FindMintByAmount | packages/multisig-tools/scripts/generate-inc13-recovery-transfers.ts:271-330 | the exact-amount matches, expected ids first; every block of the window up to the later head is scanned exactly unless the two latest blocks carry the deposit's timestamp; when they are, every mint of the amount with an expected id is found, and every one at all if no expected id matches |
| BlockSearch.MintMissed | packages/multisig-tools/scripts/generate-inc13-recovery-transfers.ts:271-330 | a mint of the amount in the window, on such a chain, that is not found |
| RoutedWithdrawal.ChunkCalls | packages/multisig-tools/scripts/generate-configure-routed-withdrawal.ts:249-262 | for every positive chunk, fractional ones included, the calls are exactly the slices of that length, which concatenate to the aligned key and value lists; without a setting there is one call |
| RoutedWithdrawal.ChunksEndIff | packages/multisig-tools/scripts/generate-configure-routed-withdrawal.ts:249-251 | the chunk loop passes the end after some number of rounds exactly if there is nothing to cut or the chunk is positive |
| RoutedWithdrawal.Generate | packages/multisig-tools/scripts/generate-configure-routed-withdrawal.ts:169-265 | pending registrations alone, else exactly the missing configuration in chunks |
| RoutedWithdrawal.UnregisteredIff | packages/multisig-tools/scripts/generate-configure-routed-withdrawal.ts:197-222 | a registration is listed exactly for the targets whose chain does not have the new builder |
| RoutedWithdrawal.CarryPieces | packages/multisig-tools/scripts/generate-configure-routed-withdrawal.ts:249-262 | executing the chunks in order is assigning the whole lists |
| RoutedWithdrawal.CarriedOutThenNothingMissing | packages/multisig-tools/scripts/generate-configure-routed-withdrawal.ts:182-195 | once a configuration manifest is carried out, a further run finds nothing to set |
| RoutedWithdrawal.PerformedIs | packages/multisig-tools/scripts/generate-configure-routed-withdrawal.ts:213-262 | executing emitted calls sets exactly the configuration they carry and registers the new builder on exactly the chains they name |
| RoutedWithdrawal.ExecutedThenRegistered | packages/multisig-tools/scripts/generate-configure-routed-withdrawal.ts:334-344 | once a registration manifest is carried out, a further run finds no chain to register |
| RoutedWithdrawal.ExecutedThenConfigured | packages/multisig-tools/scripts/generate-configure-routed-withdrawal.ts:182-195 | once a configuration manifest is carried out in the protocol, a further run finds nothing to set |
| RoutedWithdrawal.QuietRunEmits | packages/multisig-tools/scripts/generate-configure-routed-withdrawal.ts:197-265 | a run of the interleaved protocol that nothing interferes with emits exactly the generated calls |
| RoutedWithdrawal.StepKeeps | packages/multisig-tools/scripts/generate-configure-routed-withdrawal.ts:197-247 | reading, emitting, executing and others' writes keep every gathered or emitted router key on a registered chain |
| RoutedWithdrawal.NoRouterBeforeBuilder | packages/multisig-tools/scripts/generate-configure-routed-withdrawal.ts:334-344 | in every run of generating, partial execution and generating again, no emitted call allows a router on a chain without the new builder |
| Throttle.ClaimsApart | crates/stork-ingester/src/telemetry.rs:180-194 | under every interleaving any two claims are as many minutes apart as claims lie between them |
| Throttle.NextLogMonotone | crates/stork-ingester/src/telemetry.rs:184-194 | the next log time never goes back and every claim moves it forward |
| Throttle.ClaimsIffUndisturbed | crates/stork-ingester/src/telemetry.rs:184-194 | whatever other threads do between a thread's load and its compare-exchange, it claims exactly if the minute was over and nobody claimed since the load |
| Throttle.ReportsAll | crates/stork-ingester/src/telemetry.rs:178-203 | an error counted once the minute is over, undisturbed, is reported at once with all before it and starts the next minute |
| Throttle.NothingLost | crates/stork-ingester/src/telemetry.rs:178-203 | every counted error is reported, still counted, or held by the thread about to report it |

## Left out

- Lane.IndexerLane.ProcessUntil: whole batch sizes of at least one; with one that is not positive the loop has no end to speak about (`Lane.BatchesEndIff`), and block ranges with fractional ends are not modelled.
- RoutedWithdrawal.ChunkCalls: negative chunk settings are excluded for the same reason (`RoutedWithdrawal.ChunksEndIff`); positions are exact numbers, without the rounding of a double.
- RoutedWithdrawal.Generate: excludes negative chunk settings likewise.
- Settlement: administrative replays and wallet refreshes also come to balance rows (packages/indexer/src/services/transferReplay.ts:472-484 and packages/indexer/src/services/transferProcessor.ts:224-268). Only the inserts of replays are modelled, so the statements about what rows show are for databases on which none of these runs.
- Settlement: the retry job's row loop, its limit of 200 and its retry counter are steps of the state machine or left out; no fairness, and so no eventual retry, is claimed. Role and oracle lanes and supply and holder columns are not modelled.
- Settlement: a log that first appears inside the overlap window after a complete answer for its block, followed by a crash, is outside the complete-answer assumption.
- BatchRun.ProcessBeside: a batch that throws half-way, and steps of other jobs between those of a batch, are covered by `Settlement` alone.
- Broadcast: sockets, write timeouts and shutdown are a connection that may close at any time; the client's side of the wire is not modelled.
- Ingest: the websocket loop with its back-off and the absence tracker; they decide when to reconnect or warn, not what is cached.
- The order of JavaScript and Rust map iteration where the statements do not depend on it.
- keccak, SHA-384, signatures and the other chains' address codecs: foreign code.
- Solidity contracts, Lit actions, user interface, HTTP servers, logging and metrics, other manifest generators.
