# Verified models of an image-search and storage back end

The project models, in Dafny, the parts of the repository where state and arithmetic are
hardest, and proves what they are for.

| files | what they model |
|---|---|
| `InvertedIndex.dfy`, `Searcher.dfy`, `CommonSearch.dfy`, `SearchProcess.dfy` | the inverted-index search: word-at-a-time merging of posting lists, ranking, and the sharded search that must give the result of a single node |
| `Bits.dfy`, `PopulationCount.dfy`, `HammingEmbedding.dfy` | the Hamming codes: packing signs into hexadecimal text, decoding into 64-bit words, counting differing bits |
| `IndexStore.dfy`, `ByteBuffer.dfy`, `LittleEndian.dfy` | the index file: byte layout, appended data and the hint table |
| `TokenlessService.dfy` | the event-driven RPC connection pool |
| `TcpConnect.dfy` | the sender of a TCP connection with partial writes |
| `ConsistHashSelector.dfy`, `RandomSelector.dfy` | the two service selectors |
| `QueryLogEvent.dfy` | the decoder of MySQL query events |
| `MemcachedServerMsg.dfy` | the line framer of the memcached server |
| `LogFormat.dfy` | the log-format compiler |
| `BeansdbClusters.dfy` | picture ids, cluster quotas and routing |
| `Wrappers.dfy`, `Sequences.dfy`, `Decimals.dfy` | an option type, facts about sequences, decimal text |

Code that updates state is a class, or a method with loops over arrays; its contract ties
the new state to functions of the old one, and the theorems are lemmas about these functions
or invariants that every method keeps. `dafny verify dfyconfig.toml` checks everything.

## Modelling decisions

- Handlers are atomic steps. Clocks, sockets, `Connect`, `SendMsg`, hash and checksum
  functions and the square root are parameters or free choices; `SetTimer` and `PostTask`
  succeed and timer and io ids are fresh and positive.
- `float` is `real`; a float in a file is its bit pattern. Integers are unbounded except where
  a width changes a result: 64-bit wrap-around in `count_one` and `HeString2Int`, the
  `size_t` threshold, `short` sizes in `DumpData`, the 32-bit deadline of a delayed call, the
  sign-extended name length and the 32-bit query length of a query event.
- Both merge loops read the entry under the cursor before they test for the end
  (`searcher.cc:115`, `:141-142`; `common_search.cc:635-640`). In the model a cursor at the end compares
  greater than every picture id.
- Posting lists are strictly ascending in the picture id and bucket ids start at 0. A shard
  that finds nothing answers with an error and contributes neither entries nor power.
- The pool model has one service. Events may be stale, with one restriction: no `OnClosed` with
  the current io of a connection arrives between its hand-off to a delayed call and the callback
  that uses it. `ClosingIsSafeUnlessPromised` shows that the invariant needs exactly this. All
  statements about runs are about runs of this kind. `timer_id_`, which the constructor leaves
  unset, starts at 0. The deadline of a delayed call passes through an `int`, as in the code.
- A list iterator is the index of its element. A ring node names the service that owns it.

## What the proofs found

Each is stated with its exact condition and with an input or a run that shows it.

- A query event with a database name of 128 to 255 bytes is decoded with wrong offsets, because
  its length passes through a signed `char`: `RecoversEvent`, `LongNameLost`, `LongNameEvent`.
- `MAX_SIZE_LOG_EVENT_STATUS` counts the invoker one byte short, so that an event with all
  documented status variables at their largest is refused: `LimitIsOneShort`, `LargestRefused`.
- `DumpData` writes what `GetSize` predicts exactly for items of at most 4095 codes: `DumpedWhole`,
  `TooManyCodes`, `CodesCutOff`.
- A picture id leads back to its cluster exactly for `picdetail`, `default` and kinds without
  clusters of their own: `RoutesBack`, `ThirdKindStrays`.
- The sharded search underestimates the query power exactly when a shard with weight finds
  nothing: `FoldPowIsQueryPow`, `LosesPower`. The cosine still never exceeds 1, and no picture is
  lost or reordered by it: `Process`.
- A message handed to a closed `TcpConn` is queued and never released; by its close a run has
  released all its messages iff it sends none after a close: `Run`, `LateSendsLost`,
  `LateMessageStays`.
- The expiry of a delayed call is decided by its deadline squeezed through a 32-bit `int`. With
  the epoch clock of `GetTickMs` one bit of the deadline decides, and the clock does not matter:
  `ExpiryIff`, `EpochExpiry`, `ReturnHonoursDeadline`, `AnsweredEarly`, `HandedOffLate`.
- A connection that finds the first of several delayed calls expired goes idle beside the others:
  `StrandedIff`, `StrandedInARun`.

## Model

| member | source | states |
|---|---|---|
| `PopulationCount.CountOneIsOnes` | image_search/bof_core/src/hamming_embedding_descriptor.cc:3-11 | the SWAR population count, with its 64-bit wrap-around, equals the number of one bits of every 64-bit word |
| `HammingEmbedding.HammingCoder` | image_search/bof_core/src/hamming_embedding_descriptor.cc:38-57 | the loop packs the sign vector into hexadecimal digits, four components each, dropping an incomplete group |
| `HammingEmbedding.HeString2Int` | image_search/bof_core/src/hamming_embedding_descriptor.cc:91-120 | the in-place loops decode every sixteen characters to one 64-bit word |
| `HammingEmbedding.OffValues` | image_search/bof_core/src/hamming_embedding_descriptor.cc:91-120 | the shifted table holds the powers of sixteen without overflow |
| `HammingEmbedding.WordOfSigns` | image_search/bof_core/src/hamming_embedding_descriptor.cc:38-57 | decoding the packed text of 64 signs gives the number whose base-16 digits are the sign groups, without wrap-around |
| `HammingEmbedding.PackedText` | image_search/bof_core/src/hamming_embedding_descriptor.cc:38-57 | digit k of the text is the upper-case digit whose four bits, highest first, are the signs 4k to 4k + 3 |
| `HammingEmbedding.WordsMeasureDifferences` | image_search/bof_core/src/hamming_embedding_descriptor.cc:61-83 | xor and `count_one` of two decoded words give the number of differing components |
| `HammingEmbedding.HeDistance` | image_search/bof_core/src/hamming_embedding_descriptor.cc:61-83 | counts exactly the index pairs within the threshold; -1 and an untouched counter if a side is empty |
| `HammingEmbedding.ThresholdUsed` | image_search/bof_core/src/hamming_embedding_descriptor.cc:61-83 | a threshold that is not negative is compared as it is; a negative one admits every pair |
| `HammingEmbedding.HeDistanceCountsClosePairs` | image_search/bof_core/src/hamming_embedding_descriptor.cc:61-83 | for all lists of 64-component vectors the pairs counted on the decoded texts are the pairs that differ in at most threshold components |
| `InvertedIndex.CombinedAssociates` | image_search/searchd/src/common_search.cc:621-654 | combining sorted results is associative |
| `InvertedIndex.CombinedCommutes` | image_search/searchd/src/common_search.cc:621-654 | combining sorted results is commutative |
| `InvertedIndex.MergedConcat` | image_search/bof_core/src/searcher.cc:30-49 | merging a concatenated query is combining the two merges, and the query powers add up |
| `InvertedIndex.MergedIsBruteForce` | image_search/bof_core/src/searcher.cc:30-188 | the merged list is strictly ascending, holds a picture iff some tested posting of it has non-zero weight, and then holds the sums over exactly the loaded words that pass the test |
| `InvertedIndex.MergedBounded` | image_search/bof_core/src/searcher.cc:104-167 | every merged entry satisfies sim² ≤ pow · query power |
| `InvertedIndex.CombinedBounded` | image_search/searchd/src/common_search.cc:642-647 | the bound survives combining two results when the powers are added |
| `InvertedIndex.QueryPowIsSum` | image_search/bof_core/src/searcher.cc:79-104 | the query power is the sum of the squared weights of exactly the words that load |
| `InvertedIndex.UnloadedWordHasNoPower` | image_search/bof_core/src/searcher.cc:79-104 | weights 3 and 4 with only the first word loading: power 9 |
| `Searching.Searcher.MergeBucketResult` | image_search/bof_core/src/searcher.cc:56-188 | the in-place two-cursor merge of one posting list equals combining with the word's own result and keeps order and bound; a word that loads adds the square of its weight to the power, one that does not adds nothing and gives -1 |
| `Searching.Searcher.MergePostings` | image_search/bof_core/src/searcher.cc:109-186 | the cursor loop over the posting list terminates and combines the list with the contributions of its postings |
| `Searching.Searcher.Matches` | image_search/bof_core/src/searcher.cc:119-128 | the test is that at least one pair of codes is within the threshold |
| `Searching.TestMeans` | image_search/bof_core/src/searcher.cc:119-128 | a posting passes iff one of its sign vectors differs from one of the query word's in at most threshold components |
| `Searching.Searcher.Merge` | image_search/bof_core/src/searcher.cc:30-49 | over all query words: the result, the return code, and the power, which is the sum of the squared weights of exactly the words that load |
| `Searching.CosineAtMostOne` | image_search/bof_core/src/searcher.cc:205-223 | the bound implies that the cosine is at most 1 |
| `Searching.RankedLines` | image_search/bof_core/src/searcher.cc:205-226 | for every list of kept cosines in any order: once per picture, every line is an entry's, every entry above a tenth of its root has its line |
| `Searching.Searcher.Rank` | image_search/bof_core/src/searcher.cc:199-228 | every line has an entry of its picture with similarity = cosine · root, where root² is the product of both powers; every entry above a tenth of its positive root has its line; once per picture, in descending order, each above 0.1 and at most 1 |
| `DistributedSearch.CommonSearch.DispatchData` | image_search/searchd/src/common_search.cc:403-447 | shards are non-empty, each within one range in ascending order; for ascending ranges exactly the longest covered prefix of the query is dispatched, every word once |
| `DistributedSearch.CommonSearch.MergeThreadsResult` | image_search/searchd/src/common_search.cc:621-654 | the in-place splice equals combining the two lists; -1 for an empty answer |
| `DistributedSearch.CommonSearch.ExecMerge` | image_search/searchd/src/common_search.cc:477-501 | one answer adds its list and its power, or nothing when the shard has no hit |
| `DistributedSearch.CommonSearch.ExecMerges` | image_search/searchd/src/common_search.cc:397-401 | for every completion order the folded list is the single-node merge of all dispatched words, and obeys the bound |
| `DistributedSearch.CommonSearch.Search` | image_search/searchd/src/common_search.cc:403-501 | the whole sharded search gives the single-node list over the dispatched words, which are the whole query when ascending ranges cover it; its power is the single-node power iff no shard is lost |
| `SearchProcess.Process` | image_search/searchd/src/common_search.cc:253-303 | from dispatch to ranked answer: -5 without a word or a shard; every cosine at most 1; every picture a single node keeps is kept with at least its cosine; the same order; the same answer if no shard is lost |
| `SearchProcess.CosineGrows` | image_search/bof_core/src/searcher.cc:205-223 | a smaller query power raises a positive cosine |
| `SearchProcess.SameOrder` | image_search/bof_core/src/searcher.cc:205-226 | the query power does not change the order of two entries |
| `SearchProcess.CosinesOutrank` | image_search/bof_core/src/searcher.cc:205-223 | against a smaller power every kept picture stays kept, with at least its cosine |
| `SearchProcess.LosesPower` | image_search/searchd/src/common_search.cc:475-479 | a dispatched shard that finds nothing: power 0 for a query of power 1 |
| `DistributedSearch.FoldPermutes` | image_search/searchd/src/common_search.cc:477-501 | list and power do not depend on the order of the answers |
| `DistributedSearch.ShardedIsSingleNode` | image_search/searchd/src/common_search.cc:621-654 | folding the shards of a query in any order gives exactly the list of one merge over the query |
| `DistributedSearch.FoldPowIsQueryPow` | image_search/searchd/src/common_search.cc:477-479 | the folded power is at most the query's and equals it iff no shard with weight is without a hit |
| `DistributedSearch.FoldBounded` | image_search/searchd/src/common_search.cc:477-501 | after every answer each entry obeys the bound against the power folded so far |
| `IndexStore.DumpedWhole` | image_search/bof_core/src/indexer_serializer.cc:73-100 | the dump is the whole layout and has the predicted size iff the item has at most 4095 codes |
| `IndexStore.TooManyCodes` | image_search/bof_core/src/indexer_serializer.cc:88-100 | an item of 4096 codes has no defined dump |
| `IndexStore.CodesCutOff` | image_search/bof_core/src/indexer_serializer.cc:73-100 | the dump of an item of 16384 codes is its head alone |
| `IndexStore.DumpedAll` | image_search/bof_core/src/indexer_serializer.cc:160-175 | the dumps of all items fill the predicted size, and are the layout, iff no item has more than 4095 codes |
| `IndexStore.ItemLayout` | image_search/bof_core/src/indexer_serializer.cc:88-100 | at which byte offset the id, weight, number of codes, each code and each angle of an item stand |
| `IndexStore.WordLayout` | image_search/bof_core/src/indexer_serializer.cc:160-175 | word id, number of items, and each item behind the ones before it |
| `LittleEndian.LowestFirst` | image_search/bof_core/src/indexer_serializer.cc:88-100 | byte i of a number is its digit of weight 256 to the power i |
| `IndexStore.DumpData` | image_search/bof_core/src/indexer_serializer.cc:88-100 | writes head and both arrays, cut to their `short` sizes, behind the cursor |
| `IndexStore.CalcWordIndexSize` | image_search/bof_core/src/indexer_serializer.cc:195-204 | for every index the predicted size is the number of bytes of the layout |
| `IndexStore.Serialize` | image_search/bof_core/src/indexer_serializer.cc:160-175 | for every index with defined dumps the buffer of the predicted size begins with the dumps; it is exactly the layout if every item is storable |
| `IndexStore.ReadsItem` | image_search/bof_core/src/indexer_serializer.cc:102-119 | bytes that hold an item read back as that item, cursor behind it |
| `IndexStore.ReadsWord` | image_search/bof_core/src/indexer_serializer.cc:177-193 | bytes that begin with a serialized index read back as that index |
| `IndexStore.Unserialize` | image_search/bof_core/src/indexer_serializer.cc:177-193 | the reading loop computes the recursive reading of any data, undefined where the original reads past the end |
| `IndexStore.ConvertB2W` | image_search/bof_core/src/indexer.cc:69-122 | every posting keeps picture and weight, its codes become the same words as on the query side, its angles the three-digit numbers |
| `IndexStore.AngleReads` | image_search/bof_core/src/indexer.cc:106-110 | the three decimal digits of any angle below 1000 convert to that angle, at every place |
| `IndexStore.AppendKeepsHints` | image_search/indexer/src/reducer_result.cc:170-182 | an append disturbs no earlier hint and makes its own right |
| `IndexStore.IndexStore.SetHint` | image_search/bof_core/src/index_hinter.cc:13-24 | overwrites the slot; -1 and no change beyond the table |
| `IndexStore.IndexStore.GetHint` | image_search/bof_core/src/index_hinter.cc:26-32 | the slot; -1 beyond the table |
| `IndexStore.IndexStore.WriteBucket` | image_search/indexer/src/reducer_result.cc:170-182 | appends the serialized index, storable or not, records its range, keeps every hint right |
| `IndexStore.IndexStore.LoadWord` | image_search/bof_core/src/indexer.cc:168-199 | after any sequence of writes returns the last index written for the word, if that is storable; -1 beyond the table, -2 if never written |
| `TokenlessRpc.TokenlessService.ConnQuery` | libsrc/blitz/src/tokenless_service.cc:20-117 | a call waits for the connection or goes out with a fresh timer; expiry gives -100, any other failure closes the connection and gives -1 |
| `TokenlessRpc.TokenlessService.OnOpened` | libsrc/blitz/src/tokenless_service.cc:125-153 | without a timer nothing happens; the waiting call is sent; a foreign io or a failed send resets and gives -1 |
| `TokenlessRpc.TokenlessService.OnClosed` | libsrc/blitz/src/tokenless_service.cc:154-167 | only the current io resets the connection |
| `TokenlessRpc.TokenlessService.ProcessMsg` | libsrc/blitz/src/tokenless_service.cc:168-228 | a matching message answers the call, any other fails it; who keeps and who closes the connection |
| `TokenlessRpc.TokenlessService.Reset` | libsrc/blitz/src/tokenless_service.cc:229-251 | the call fails, the connection is closed and returned |
| `TokenlessRpc.TokenlessService.OnTimer` | libsrc/blitz/src/tokenless_service.cc:268-284 | a stale timer is ignored, the current one resets |
| `TokenlessRpc.TokenlessService.Query` | libsrc/blitz/src/tokenless_service.cc:313-349 | tries a connection and returns it on failure; delays the call when none is left |
| `TokenlessRpc.TokenlessService.GetIdleConn` | libsrc/blitz/src/tokenless_service.cc:351-385 | the first idle connection or a new one, moved to the busy list; none iff the idle list is empty and 401 connections exist |
| `TokenlessRpc.TokenlessService.ReturnIdleConn` | libsrc/blitz/src/tokenless_service.cc:399-462 | idle when nothing is delayed; a delayed call whose squeezed deadline has passed is answered first; any other is handed off |
| `TokenlessRpc.TokenlessService.ExecDelayReqCallback` | libsrc/blitz/src/tokenless_service.cc:464-476 | the promised connection is tried; on failure the call is answered and the connection returned |
| `TokenlessRpc.TokenlessService.RealQuery` | libsrc/blitz/src/tokenless_service_pool.cc:184-237 | -1 without a message and -2 without a service, and nothing happens; else takes a reference and offers the call; a refused call releases it, posts its callback and gives -3 |
| `TokenlessRpc.TokenlessService.AsyncCallback` | libsrc/blitz/src/tokenless_service_pool.cc:173-183 | the callback is posted once and the reference released |
| `TokenlessRpc.TokenlessService.RunPosted` | libsrc/blitz/src/tokenless_service_pool.cc:164-167 | a posted failure callback runs once and is gone |
| `TokenlessRpc.TokenlessService.Callback` | libsrc/blitz/src/tokenless_service_pool.cc:310-343 | the callback runs and the reference is released |
| `TokenlessRpc.StepInv` | libsrc/blitz/src/tokenless_service.cc:20-284 | every handler, for stale events too, keeps the invariant of pool, calls and references, the close of a promised connection by its current io excepted |
| `TokenlessRpc.RunInv` | libsrc/blitz/src/tokenless_service.cc:20-476 | the invariant holds after every sequence of events |
| `TokenlessRpc.CalledBackExactlyOnce` | libsrc/blitz/src/tokenless_service_pool.cc:184-237 | in every run a call is called back at most once, and not yet exactly while it is carried, delayed, handed off or posted; its reference is held exactly while it is carried, delayed or handed off |
| `TokenlessRpc.EndsCall` | libsrc/blitz/src/tokenless_service.cc:125-284 | when its connection is closed, answered, timed out or fails to send, the callback runs then, with the right verdict, for the only time, and the reference is released then; the connection stays connected with its io iff it was answered without the close flag |
| `TokenlessRpc.RepliesMatchRequests` | libsrc/blitz/src/tokenless_service.cc:168-228 | a success callback carries a message received on an io over which that same call was sent, in every run |
| `TokenlessRpc.PoolConserved` | libsrc/blitz/src/tokenless_service.cc:351-448 | in every run each connection is on exactly one list, idle + busy = number of connections ≤ 401, idle ones carry no call, closed iff io id 0 |
| `TokenlessRpc.CallIsAccepted` | libsrc/blitz/src/tokenless_service.cc:313-385 | in every run a new call is pending iff it is in time and either no connection is left (it is delayed) or the one it gets lets it go out; otherwise exactly its failure callback is posted |
| `TokenlessRpc.CallInTime` | libsrc/blitz/src/tokenless_service_pool.cc:217-220 | in every run a call without a timeout is in time for 1000 ms and any other for its timeout: while the network serves it, it is accepted exactly so long |
| `TokenlessRpc.NetworkDecides` | libsrc/blitz/src/tokenless_service.cc:20-117 | in every run a call in time that gets a closed connection is pending iff the connect is in progress or both connect and send succeed; on an open connection iff the send succeeds |
| `TokenlessRpc.CallIsSent` | libsrc/blitz/src/tokenless_service.cc:83-86 | in every run a call in time that gets a kept connection, or one that connects at once, and whose send succeeds has been sent over its io |
| `TokenlessRpc.DelayedCallIsSent` | libsrc/blitz/src/tokenless_service.cc:464-476 | in every run the same of a delayed call when its promised connection is tried |
| `TokenlessRpc.DelayedCallFails` | libsrc/blitz/src/tokenless_service.cc:464-476 | in every run a delayed call that is late or cannot go out is answered with a failure at once |
| `TokenlessRpc.ReplySucceeds` | libsrc/blitz/src/tokenless_service.cc:168-228 | in every run a message on the io over which a call has just been sent is the next callback, a success of that call |
| `TokenlessRpc.FailedQueryCloses` | libsrc/blitz/src/tokenless_service.cc:20-117 | a query that fails in time sends nothing and leaves the connection closed; an expired one changes nothing |
| `TokenlessRpc.StaleIgnored` | libsrc/blitz/src/tokenless_service.cc:125-284 | in every run a timer, close or open that is not current changes nothing; a message without a call only drops the io |
| `TokenlessRpc.RunFresh` | libsrc/blitz/src/tokenless_service.cc:20-117 | in every run the ids of timers and ios in use are below the next ones, which only grow: an old timer never meets a later call |
| `TokenlessRpc.TakesInOrder` | libsrc/blitz/src/tokenless_service.cc:351-385 | the connection idle for longest is taken first, or the next new one |
| `TokenlessRpc.ReturnsInOrder` | libsrc/blitz/src/tokenless_service.cc:399-462 | delayed calls leave in the order of arrival, and connections become idle in the order of return |
| `TokenlessRpc.OpenSendsCall` | libsrc/blitz/src/tokenless_service.cc:125-144 | when its connection opens the waiting call goes out over that io, and nothing else changes |
| `TokenlessRpc.HistoryGrows` | libsrc/blitz/src/tokenless_service.cc:20-476 | no step retracts a callback or a sent request |
| `TokenlessRpc.ClosingIsSafeUnlessPromised` | libsrc/blitz/src/tokenless_service.cc:229-251 | a close keeps the invariant iff it is stale or the connection is not promised to a delayed call |
| `TokenlessRpc.SqueezedIsDeadline` | libsrc/blitz/src/tokenless_service.cc:334-336 | a deadline survives the 32-bit squeeze iff it is below 2³¹ or within 2³¹ of 2⁶⁴ |
| `TokenlessRpc.ExpiryIff` | libsrc/blitz/src/tokenless_service.cc:334-336 | the squeezed deadline has passed iff the real one has, iff the clock is outside the interval between the two |
| `TokenlessRpc.EpochExpiry` | libsrc/blitz/src/tokenless_service.cc:430-431 | for an epoch clock in milliseconds the call counts as expired iff bit 31 of its deadline is clear |
| `TokenlessRpc.ReturnHonoursDeadline` | libsrc/blitz/src/tokenless_service.cc:430-446 | a return answers the first delayed call iff its deadline has passed, exactly under that condition |
| `TokenlessRpc.AnsweredEarly` | libsrc/blitz/src/tokenless_service.cc:430-446 | a deadline that is failed a second early |
| `TokenlessRpc.HandedOffLate` | libsrc/blitz/src/tokenless_service.cc:430-458 | a deadline that is not seen a second late |
| `TokenlessRpc.ReturnStrands` | libsrc/blitz/src/tokenless_service.cc:399-447 | a return leaves delayed calls beside an idle connection iff the first of at least two is found expired |
| `TokenlessRpc.StrandedIff` | libsrc/blitz/src/tokenless_service.cc:399-476 | in every run an event strands delayed calls iff it returns a busy connection in that situation |
| `TokenlessRpc.StrandedInARun` | libsrc/blitz/src/tokenless_service.cc:399-447 | a run of 403 calls and a timeout that strands a call |
| `TcpConnect.WireIsPrefix` | libsrc/blitz/src/tcp_connect.cc:253-331 | in every state the bytes on the wire are a prefix of all messages in the order of sending |
| `TcpConnect.ReleasedIffSentOpen` | libsrc/blitz/src/tcp_connect.cc:337-381 | on a closed connection a message has been released iff it was sent while the connection was open; otherwise it is still queued |
| `TcpConnect.AllReleasedIffNoneLate` | libsrc/blitz/src/tcp_connect.cc:337-381 | a closed connection has released all its messages iff none was sent after the close |
| `TcpConnect.Run` | libsrc/blitz/src/tcp_connect.cc:208-381 | in every run of sends, writable events and closes: closed iff the run has a close, and then exactly the messages sent before the first close are released |
| `TcpConnect.LateSendsLost` | libsrc/blitz/src/tcp_connect.cc:253-273 | these are all messages of the run iff no send follows a close |
| `TcpConnect.LateMessageStays` | libsrc/blitz/src/tcp_connect.cc:253-273 | close, send, close again: the message is queued and not released |
| `TcpConnect.TcpConn.Send` | libsrc/blitz/src/network_util.cc:34-50 | 0 iff all was accepted; otherwise a part and the reason |
| `TcpConnect.TcpConn.SendBuffer` | libsrc/blitz/src/tcp_connect.cc:291-306 | a complete write leaves exactly one buffer less to write; an incomplete one leaves message, buffer and queue as they are |
| `TcpConnect.TcpConn.TrySend` | libsrc/blitz/src/tcp_connect.cc:274-331 | terminates; the wire only grows; everything is written and released unless the last write found the socket full, or failed, which gives -1 |
| `TcpConnect.TcpConn.SendMsg` | libsrc/blitz/src/tcp_connect.cc:253-273 | the message joins the end of the order and counts as accepted iff the connection is open; -1 iff it was written to at once and the write failed; a closed connection writes and releases nothing |
| `TcpConnect.TcpConn.OnWrite` | libsrc/blitz/src/tcp_connect.cc:208-245 | a pending connection becomes connected or stays pending with -1; a connected one writes on, -1 iff the write failed |
| `TcpConnect.TcpConn.CloseWithoutLock` | libsrc/blitz/src/tcp_connect.cc:337-359 | closing releases every message sent so far exactly once; closing again gives -1 and does nothing |
| `TcpConnect.TcpConn.RemoveSentFailMsg` | libsrc/blitz/src/tcp_connect.cc:361-381 | releases the current message and the queue in order |
| `ConsistHash.BinarySearch` | libsrc/blitz/include/blitz/service_selector.h:167-188 | finds an equal element, or the position between the smaller and the larger ones |
| `ConsistHash.LocatesIsFirstFrom` | libsrc/blitz/src/service_selector.cc:424-442 | on the ring, bisection and a linear scan give the same position |
| `ConsistHash.ClockwiseIsNearest` | libsrc/blitz/src/service_selector.cc:424-442 | the chosen node is the unique node at the smallest clockwise distance from the key |
| `ConsistHash.RingDetermined` | libsrc/blitz/src/service_selector.cc:339-415 | the ring depends on the live services only, not on the history |
| `ConsistHash.AddingMovesOntoNew` | libsrc/blitz/src/service_selector.cc:339-391 | for any virtual nodes of a new service every key keeps its node or moves onto the new service |
| `ConsistHash.RemovingMovesOnlyOwn` | libsrc/blitz/src/service_selector.cc:392-415 | when a service is removed only its own keys move |
| `ConsistHash.VirtualKeyReads` | libsrc/blitz/src/service_selector.cc:350-354 | the hashed text is the address behind its scheme, a mark, and digits that read back as the number |
| `ConsistHash.VirtualKeyText` | libsrc/blitz/src/service_selector.cc:350-354 | one such text |
| `ConsistHash.VirtualKeysDiffer` | libsrc/blitz/src/service_selector.cc:350-354 | different virtual nodes of a service hash different texts |
| `ConsistHash.ApartIsClashless` | libsrc/blitz/src/service_selector.cc:350-391 | on an empty ring no virtual node clashes when the hash tells the texts apart |
| `ConsistHash.AddFirst` | libsrc/blitz/src/service_selector.cc:339-391 | then the first service is added with 0 and gets exactly its number of virtual nodes |
| `ConsistHash.ConsistHashSelector.AddItem` | libsrc/blitz/src/service_selector.cc:339-391 | 0 iff no two hashes clash, and then all virtual nodes are placed; ring and map agree also after a partial insertion; keys move only onto the new service |
| `ConsistHash.ConsistHashSelector.RemoveItem` | libsrc/blitz/src/service_selector.cc:392-415 | removes exactly the service and its nodes, 1 if unknown; only its keys move |
| `ConsistHash.ConsistHashSelector.Select` | libsrc/blitz/src/service_selector.cc:424-442 | the first node clockwise at or after the key's hash; 1 iff the ring is empty |
| `RoundRobin.FairOverPeriod` | libsrc/blitz/src/service_selector.cc:247-278 | from any state, a period of selections chooses node i exactly wᵢ + 1 times if wᵢ > 0, once if not |
| `RoundRobin.TurnAdvances` | libsrc/blitz/src/service_selector.cc:249-262 | one selection moves one place on in the written-out round |
| `RoundRobin.TakenOutOk` | libsrc/blitz/src/service_selector.cc:296-325 | when a node leaves a list the others keep their order and the cursor its node, or the next one |
| `RoundRobin.ListsFollowMarks` | libsrc/blitz/src/service_selector.cc:247-278 | the available list is non-empty iff some mark is positive, and holds only such nodes |
| `RoundRobin.RandomSelector.AddItem` | libsrc/blitz/src/service_selector.cc:190-213 | a fresh id in front of the available list, the cursor staying on its node |
| `RoundRobin.RandomSelector.Select` | libsrc/blitz/src/service_selector.cc:247-278 | a node with mark ≤ 0 only if there is none with mark > 0; -1 iff there is no node |
| `RoundRobin.RandomSelector.UpdateMark` | libsrc/blitz/src/service_selector.cc:279-328 | the new mark is the old one plus the change, clamped; the node moves between the lists exactly when its sign changes; 1 and no change for an unknown id |
| `RoundRobin.RandomSelector.UpdateAllMark` | libsrc/blitz/src/service_selector.cc:329-336 | every mark changes once, to its clamped sum, whatever the order of the map |
| `QueryLogEvent.NextVar` | libsrc/mysqlbinlogreader/src/log_event.cc:890-995 | a variable that fits moves the cursor forward and never past the end |
| `QueryLogEvent.ReadVars` | libsrc/mysqlbinlogreader/src/log_event.cc:888-995 | the decoding loop terminates and reads what the recursive definition reads |
| `QueryLogEvent.ReadsBack` | libsrc/mysqlbinlogreader/src/log_event.cc:890-995 | each kind of variable reads back as written |
| `QueryLogEvent.ReadsBackAll` | libsrc/mysqlbinlogreader/src/log_event.cc:888-995 | any list of written variables is recovered up to and including the first invoker or unknown one |
| `QueryLogEvent.RecoversEach` | libsrc/mysqlbinlogreader/src/log_event.cc:888-995 | in growing code order with one catalog form the fields show every variable |
| `QueryLogEvent.Codes` | libsrc/mysqlbinlogreader/src/log_event_constants.h:209-237 | the code of each kind of variable |
| `QueryLogEvent.NothingAfterStop` | libsrc/mysqlbinlogreader/src/log_event.cc:975-994 | nothing written after an invoker or an unknown variable has any effect |
| `QueryLogEvent.AbsentFields` | libsrc/mysqlbinlogreader/src/log_event.cc:804-809 | for every list of variables: increment and offset are 1, flags, mode and charset none, catalog and time zone empty, unless a variable of that kind was written |
| `QueryLogEvent.AbsentLaterFields` | libsrc/mysqlbinlogreader/src/log_event.cc:804-809 | the same of the numbers, which are 0, and of user and host, which are empty |
| `QueryLogEvent.CopyPiece` | libsrc/mysqlbinlogreader/src/log_event.cc:774-782 | a non-empty string and its end byte are copied behind the cursor |
| `QueryLogEvent.Fill` | libsrc/mysqlbinlogreader/src/log_event.cc:997-1041 | all copies fit the single allocation and lie one after the other |
| `QueryLogEvent.Decode` | libsrc/mysqlbinlogreader/src/log_event.cc:800-1042 | the decoder computes the decoding function, failures included |
| `QueryLogEvent.DecodesEvent` | libsrc/mysqlbinlogreader/src/log_event.cc:831-1042 | a written event is accepted iff its variables are within the limit, and header, variables and data are recovered |
| `QueryLogEvent.DecodesDefaults` | libsrc/mysqlbinlogreader/src/log_event.cc:800-1042 | in every accepted event each field whose variable was not written has its default: 1, none, empty or 0 |
| `QueryLogEvent.DecodesOldEvent` | libsrc/mysqlbinlogreader/src/log_event.cc:866-879 | an event with the minimal header is accepted with all fields at their defaults but for the size, which is the one given |
| `QueryLogEvent.StringsFound` | libsrc/mysqlbinlogreader/src/log_event.cc:1004-1024 | catalog, time zone, user and host stand at their recorded places |
| `QueryLogEvent.StringsEnd` | libsrc/mysqlbinlogreader/src/log_event.cc:997-1041 | the byte behind each copied string ends it, the allocation ends with the data and a zero byte, and the places are in order |
| `QueryLogEvent.NameAndQueryFound` | libsrc/mysqlbinlogreader/src/log_event.cc:1035-1041 | name and query stand at their computed places iff the name is shorter than 128 bytes |
| `QueryLogEvent.RecoversEvent` | libsrc/mysqlbinlogreader/src/log_event.cc:831-1042 | an accepted event is recovered whole, name and query exactly for names shorter than 128 bytes |
| `QueryLogEvent.LongNameLost` | libsrc/mysqlbinlogreader/src/log_event.cc:838 | an accepted event with a name of 128 bytes or more loses both name and query |
| `QueryLogEvent.LongNameEvent` | libsrc/mysqlbinlogreader/src/log_event.cc:838 | there is such an event |
| `QueryLogEvent.LimitIsOneShort` | libsrc/mysqlbinlogreader/src/log_event_constants.h:158-168 | documented variables take at most 639 bytes, and the event is refused iff they take 639 |
| `QueryLogEvent.LargestRefused` | libsrc/mysqlbinlogreader/src/log_event_constants.h:158-168 | there is a documented event that is refused |
| `MemcachedServerMsg.ScanConcat` | libsrc/blitz/src/memcached_server_msg.cc:28-85 | framing does not depend on where the stream is cut |
| `MemcachedServerMsg.ScanCuts` | libsrc/blitz/src/memcached_server_msg.cc:28-85 | messages and pending bytes are the stream, and each message has exactly one newline, at its end |
| `MemcachedServerMsg.CutsDetermined` | libsrc/blitz/src/memcached_server_msg.cc:28-85 | there is only one such framing |
| `MemcachedServerMsg.ScanLines` | libsrc/blitz/src/memcached_server_msg.cc:49-59 | the scan loop frames the new bytes behind the pending ones |
| `MemcachedServerMsg.MemcachedServerMsgDecoder.GetBuffer` | libsrc/blitz/src/memcached_server_msg.cc:5-12 | grants the room that is left; -1 iff a run has reached the limit |
| `MemcachedServerMsg.MemcachedServerMsgDecoder.Feed` | libsrc/blitz/src/memcached_server_msg.cc:28-85 | over all feeds the delivered messages are those of the whole stream; an error iff an unterminated run has reached the limit |
| `LogFormat.SplitJoins` | libsrc/blitz2/src/logger.cc:90-96 | the parts are free of percent signs and join to the format |
| `LogFormat.OffsetIsField` | libsrc/blitz2/include/blitz2/logger.h:55-74 | a letter of the table has the offset of the pointer of its field in the record |
| `LogFormat.OffsetsDiffer` | libsrc/blitz2/src/logger.cc:46-57 | different letters print different fields |
| `LogFormat.MeaningExample` | libsrc/blitz2/src/logger.cc:106-126 | a format with a literal, a field, `%%`, an unknown letter and a trailing `%` |
| `LogFormat.EntriesMean` | libsrc/blitz2/src/logger.cc:106-126 | the entries of all parts render to the left-to-right expansion, for `%%`, a trailing `%` and unknown letters too |
| `LogFormat.AlternateAlternates` | libsrc/blitz2/src/logger.cc:128-157 | the table alternates literals and fields, ends with a literal, and has two entries per field and one more |
| `LogFormat.AlternateMeans` | libsrc/blitz2/src/logger.cc:128-157 | joining literals keeps the rendered text |
| `LogFormat.TableMeans` | libsrc/blitz2/src/logger.cc:90-177 | the compiled table fits its allocation and renders to the meaning of the format |
| `LogFormat.ParseFormat` | libsrc/blitz2/src/logger.cc:90-165 | both passes stay within their arrays and produce the table |
| `LogFormat.GetLogData` | libsrc/blitz2/src/logger.cc:194-230 | the line is the meaning of the format cut to 12286 characters, a newline and the end of the string |
| `BeansdbClusters.OwnsItsQuota` | common/src/beansdb_clusters.cc:297-305 | each flag owns exactly `scale` residues |
| `BeansdbClusters.OwnsItsBlock` | common/src/beansdb_clusters.cc:297-305 | the residues of a cluster follow those of the clusters of its kind added before it |
| `BeansdbClusters.PicIdParses` | common/src/beansdb_clusters.cc:231-255 | a generated id parses to the kind and the cluster it was made from |
| `BeansdbClusters.PicIdDetermines` | common/src/beansdb_clusters.cc:319-350 | an id determines digest, kind, extension, width, height and cluster, for digests of four characters or more and no dot in digest, kind or extension and no slash in the kind |
| `BeansdbClusters.PicIdTexts` | common/src/beansdb_clusters.cc:319-350 | the ids of one picture in a named and in the default cluster |
| `BeansdbClusters.RoutesBack` | common/src/beansdb_clusters.cc:259-284 | a generated id leads to the pool of the chosen flag iff the kind is `picdetail`, `default` or has no clusters |
| `BeansdbClusters.BeansdbClusters.AddCluster` | common/src/beansdb_clusters.cc:49-133 | quotas and pools stay in step; all clusters that were there keep their pools, and a known one its quota |
| `BeansdbClusters.ThirdKindStrays` | common/src/beansdb_clusters.cc:259-350 | after two `AddCluster` calls a new picture of a third kind goes to the default kind while its id leads elsewhere |
| `BeansdbClusters.BeansdbClusters.GenClusterLocate` | common/src/beansdb_clusters.cc:287-316 | the flag that owns the residue of the checksum; nothing iff the quotas sum to 0 |
| `BeansdbClusters.BeansdbClusters.GenerateOriginPicId` | common/src/beansdb_clusters.cc:319-350 | the id names kind, digest, size, the chosen cluster unless it is the default one, and the extension |

## Left out

- The numeric part of `HammingCoder` (projection of the descriptor), OpenCV, SIFT, JPEG, k-means, RANSAC and the angle histogram.
- Thrift, files, sockets, libevent and logging output: events, byte sequences or parameters here.
- Lock-level interleavings, `Uninit`, and the unlocked `query_pow_ +=`: every handler is one step.
- How `RealQuery` selects a service, and `UpdateMark` from a failed call: the pool model has one service and is told whether it was selected.
- ConnQuery: a call that would wait in `Connecting` or `Sending` cannot happen, since such a connection already carries a call.
- GetIdleConn: a service that has not been initialised, which has no connections to give.
- AddItem: of the ring, the failure of the map insertion (-2) cannot happen with fresh ids; ids do not wrap around.
- Select: of the ring, the list of failed nodes is always empty because mark updates are disabled there.
- UpdateMark: marks and changes are small enough not to overflow an `int`.
- `RandomSelector::RemoveItem`, which leaves a dangling map entry, and the older selectors.
- Decode: an event with both catalog forms, where the end byte of the second catalog would be copied from the byte after it; an event that ends before the header bytes that are read.
- Serialize: indexes of 2 GB and more, whose size overflows an `int`; items whose dump is undefined, because a `short` size is negative.
- WriteBucket: items whose dump is undefined, as for `Serialize`.
- LoadWord: what is read back for an index with an item of more than 4095 codes, which was written short.
- Unserialize: data that is not a serialized index is read as far as the original is defined.
- ConvertB2W: postings of more than 32767 codes, whose number does not fit a `short`; decodes codes with the loops of `HeString2Int`, which the original repeats.
- SetHint: negative bucket ids.
- Feed: the old buffer, which the original does not free when it moves pending bytes to a new one.
- AddCluster: parsing of the configuration and failures after the quota has been recorded.
- GenClusterLocate: quotas above 100, which overrun the allocation table and which its comment forbids.
- GetLogData: format strings and field values with embedded zero bytes.
- HTTP decoders, `line_msg.cc`, `fix_head_msg.cc`, `mysql_pool.cc`, `merger.cc` and `FdManager`: easier or faulty neighbours of what is modelled.
