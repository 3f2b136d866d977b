# ECIES session stream and `eth_feeHistory` handler, modelled in Dafny

This project models two parts of a Rust Ethereum node and proves properties of the models.

**The ECIES session stream** (`crates/net/ecies/src/stream.rs`). This is the message-ordering layer of the RLPx transport handshake.
- `connect` is the initiator. It builds a client codec, writes one `Auth`, reads one ingress value and accepts only `Ack`.
- `incoming` is the responder. It builds a server codec, reads one ingress value, accepts only `AuthReceive(id)`, and then writes one `Ack`.
- The established session is a stream of message payloads (`poll_next`) and a sink of payloads (`poll_ready`, `start_send`, `poll_flush`, `poll_close`).

The framed transport is a class `Transport`. It holds:
- a queue of already-decoded ingress results, where an empty queue means end of stream;
- a log of egress values accepted for writing;
- a fixed write outcome.

The cryptographic codec is not modelled. The outcome of building a codec is an input of the handshake.

**The fee-history RPC handler** (`crates/rpc/rpc/src/eth/api/fees.rs`, `EthApi::fee_history`). The model covers each step of the handler:
- It computes the block range from `block_count` and the newest block.
- It validates the reward percentiles.
- It scans `start_block..=end_block` in the fee-history cache, collecting hits into a sorted result map and recording the first and last missing block.
- It fetches the missing interval from the database and checks the lengths of the results.
- It inserts one item per fetched header into the result map and the cache.
- It records the oldest block's hash in both maps.
- It assembles the response from the sorted map.

The cache is a `map` field of the class `EthApi`, and the method `FeeHistory` updates it in place. Its contract ties the response and the new cache to the pure function `FeeHistorySpec` of the old cache and the inputs. The three loops of the handler are methods proved against specification functions:
- the percentile check (`ValidateRewardPercentiles`);
- the cache scan (`ScanCache`);
- the insertion of the fetched headers (`InsertFetched`).

The database is a `Provider` value whose four calls are functions of their arguments. Panics (`unwrap`, indexing) are a response of their own, `Response.Panic(site)`.

Files:
- `wrappers.dfy`: `Option` and `Result`.
- `ecies_types.dfy`, `ecies_stream.dfy`, `ecies_properties.dfy`: the session stream. The last file holds two-party properties over an ideal codec pair (`Deliver`: what one side writes, the other side reads, with `Auth` arriving as `AuthReceive` of the sender's id).
- `fee_types.dfy`, `fee_history.dfy`, `fee_properties.dfy`: the fee-history handler.

Where the code and its documented design disagree, the model follows the code:
- `poll_next` (`stream.rs:114-117`) turns every non-`Message` item into a new protocol error that carries the item. This includes errors from the decoder, which are therefore not forwarded unchanged.
- After that error the stream is not made terminal: the next poll reads the next value.
- The initiator's session keeps the `remote_id` the caller passed in (`stream.rs:67`); the `Ack` carries no identity. Whether a wrong expected id makes the handshake fail depends on the codec, which is not part of this model. The model therefore neither assumes nor proves it.

One consequence of the range the handler reads: it scans and fetches `start_block..=end_block` with `end_block = newest + 1` (`fees.rs:35`, `fees.rs:72`), one block past the newest block that `block_count` counts. Every lemma about a successful call therefore holds only when the cache or the database already holds block `newest + 1`. At the head of the chain that block does not exist yet, and a database that returns the headers it has makes the call fail with `InvalidBlockRange` (`ChainHeadRejected`). The model keeps this behaviour of the code.

## Model

| member | source | states |
|---|---|---|
| EciesStream.ConnectSpec | crates/net/ecies/src/stream.rs:49-71 | Codec setup failure gives the "invalid handshake" I/O error with nothing written or read. A failed `Auth` write returns the transport's I/O error, with nothing written or read. It writes at most one `Auth`, and reads at most one value, only after the `Auth`. It succeeds exactly when the first value is `Ok(Ack)`, and the session id is then the caller's `remote_id`. A read error is returned as is. Any other value, or end of stream, gives `InvalidHandshake{expected: Ack, msg}` carrying what was read. |
| EciesStream.IncomingSpec | crates/net/ecies/src/stream.rs:75-97 | Codec setup failure is returned with no I/O. It reads before it writes. It succeeds exactly when the first value is `Ok(AuthReceive(id))`; it has then written exactly one `Ack`, and the session id is `id`. Every failure writes nothing. A failed `Ack` write after a valid `AuthReceive` returns the transport's I/O error. Once the codec is built, `try_next` consumes exactly one value whenever there is one, whatever it holds. A read error is returned as is. Anything else gives `InvalidHandshake{expected: AuthReceive(0), msg}`. |
| EciesStream.ECIESStream.Connect | crates/net/ecies/src/stream.rs:49-71 | The transport's egress log gains exactly what `ConnectSpec` writes, and its ingress queue loses exactly what it consumes. The result is that outcome. On success it is a fresh session on this transport, built with a client codec for `remote_id`, and `RemoteId()` is the caller's id. |
| EciesStream.ECIESStream.Incoming | crates/net/ecies/src/stream.rs:75-97 | Same as `Connect`, tied to `IncomingSpec`. On success it builds a server codec and `RemoteId()` is the id from `AuthReceive`. |
| EciesStream.ECIESStream.RemoteId | crates/net/ecies/src/stream.rs:100-102 | Returns the session's `remote_id` field. The field is a constant of the session, so every call returns the id the handshake established (see `Connect` and `Incoming`). |
| EciesStream.Classify | crates/net/ecies/src/stream.rs:111-120 | End of stream is `None`, and only end of stream. `Ok(Message(b))` is `Ok(b)` with `b` unchanged, and only such items succeed. Every other item, including a decoder error, becomes a protocol error carrying that item. |
| EciesStream.ECIESStream.PollNext | crates/net/ecies/src/stream.rs:111-120 | Returns `Classify` of the head of the ingress queue and consumes exactly that value. It writes nothing, and the session invariant (only `Message` values after the handshake) is kept. |
| EciesStream.ECIESStream.PollReady | crates/net/ecies/src/stream.rs:129-131 | Returns the transport's write status; it has no `modifies`, so it writes no frame. |
| EciesStream.ECIESStream.StartSend | crates/net/ecies/src/stream.rs:133-138 | On success the egress log gains exactly `Message(item)`. On failure it is unchanged. The ingress queue is unchanged, and the invariant that only `Message` values follow the handshake is kept. |
| EciesStream.ECIESStream.PollFlush | crates/net/ecies/src/stream.rs:140-142 | Returns the transport's write status and writes no frame. |
| EciesStream.ECIESStream.PollClose | crates/net/ecies/src/stream.rs:144-146 | Returns the transport's write status and writes no frame. |
| EciesStream.ECIESStream.Send | crates/net/ecies/src/stream.rs:182 | `send` = ready, `start_send`, flush: on success exactly one `Message(item)` is appended. |
| EciesProperties.HandshakesAgree | crates/net/ecies/src/stream.rs:161-186 | With an ideal codec pair, a client and a server handshaking with each other both succeed. The client's session has the server's id and the server's has the client's. Each consumes exactly the one handshake value the other wrote, whatever follows it. |
| EciesProperties.MessagesRoundTrip | crates/net/ecies/src/stream.rs:161-186 | Payloads sent as `Message` frames are polled back by the peer's session byte-identical and in order. |
| EciesProperties.ClientSends | crates/net/ecies/src/stream.rs:175-182 | The client reads what the server wrote. It gets a session exactly when the server's first value is `Ack`, and the session's id is then the server's. After a `send` per payload its egress log is `[Auth]` followed by the payloads as `Message`s in submission order; without a session it is `[Auth]` alone. |
| EciesProperties.ServerReceives | crates/net/ecies/src/stream.rs:165-172 | Over what the client wrote, `incoming` writes exactly `[Ack]` and learns the client's id. Polling yields every payload, unchanged and in order. |
| EciesProperties.ExchangeMessages | crates/net/ecies/src/stream.rs:161-186 | Both halves together, the client reading the server's actual output: each side knows the other's id, the server wrote exactly `[Ack]`, the client's log is `[Auth]` + messages (what the server was given), and the server receives every payload. |
| EciesProperties.CanWriteAndRead | crates/net/ecies/src/stream.rs:161-186 | The repository's test: the server's first item is `Ok("hello")`. |
| FeeHistoryHandler.StartBlock | crates/rpc/rpc/src/eth/api/fees.rs:35-45 | The `block_count == 1` override gives the same start block as the general formula: `start_block == end_block - block_count`, and it is at most the newest block. |
| FeeHistoryProperties.ScannedRangeSize | crates/rpc/rpc/src/eth/api/fees.rs:72 | The scanned range `start_block..=end_block` holds exactly `block_count + 1` blocks. |
| FeeHistoryHandler.WindowError | crates/rpc/rpc/src/eth/api/fees.rs:53-61 | A window `[a, b]` passes exactly when `a < b` and `0 <= a <= 100`. The error is `b` when `a >= b` (checked first), and otherwise `a`. |
| FeeHistoryHandler.FirstInvalidPercentile | crates/rpc/rpc/src/eth/api/fees.rs:53-61 | `None` exactly when every window from `i` on passes. Otherwise it is the error of the first failing window, all earlier windows having passed. |
| FeeHistoryHandler.ValidateRewardPercentiles | crates/rpc/rpc/src/eth/api/fees.rs:53-61 | The `windows(2)` loop returns exactly the first failing window's error, or none. |
| FeeHistoryProperties.PercentilesAccepted | crates/rpc/rpc/src/eth/api/fees.rs:50-61 | A percentile list is accepted if and only if it is strictly increasing and every element but the last lies in [0, 100]. Lists of length 0 or 1 are always accepted. |
| FeeHistoryProperties.LastPercentileNotRangeChecked | crates/rpc/rpc/src/eth/api/fees.rs:51-61 | The last percentile is never range-checked: in an accepted list it may be replaced by any larger value, beyond 100 included. |
| FeeHistoryHandler.CachedIn | crates/rpc/rpc/src/eth/api/fees.rs:72-75 | The result map holds exactly the cached blocks of the range, each with its cache item unchanged. |
| FeeHistoryHandler.FirstNonCached | crates/rpc/rpc/src/eth/api/fees.rs:79 | The least block of the range missing from the cache; `None` exactly when all are cached. |
| FeeHistoryHandler.LastNonCached | crates/rpc/rpc/src/eth/api/fees.rs:81 | The greatest block of the range missing from the cache; `None` exactly when all are cached. |
| FeeHistoryHandler.ScanCache | crates/rpc/rpc/src/eth/api/fees.rs:68-83 | The scan loop yields the cached items of `start_block..=end_block` and the least and greatest missing block. Both are `None` together, and otherwise first <= last. |
| FeeHistoryHandler.PercentilesOf | crates/rpc/rpc/src/eth/api/fees.rs:48 | `unwrap_or_default`: no percentiles given means the empty list, otherwise the list given. |
| FeeHistoryHandler.ItemFor | crates/rpc/rpc/src/eth/api/fees.rs:108-149 | The item built from a header: no hash, reward `Some([])`, the header's base fee (0 for a header without one, before EIP-1559), and its gas used and gas limit as the ratio's operands. |
| FeeHistoryHandler.RewardHazard | crates/rpc/rpc/src/eth/api/fees.rs:116-126 | `FeeCapTooLow` exactly when some transaction has no effective gas price. Otherwise the `sorter[0]` panic exactly when the block has no transactions. No hazard exactly when the block has transactions and every one has a price. Either hazard stops the call with a population failure. |
| FeeHistoryHandler.FillFrom | crates/rpc/rpc/src/eth/api/fees.rs:107-156 | The per-header loop stops only with a population failure. When it completes, and which hazard stops it, is stated by `FillStopsAtFirstHazard`. |
| FeeHistoryProperties.FillStopsAtFirstHazard | crates/rpc/rpc/src/eth/api/fees.rs:107-156 | The loop runs to the end exactly when no block from `i` on has a reward hazard (a transaction without an effective gas price, or no transactions). Otherwise it stops with the hazard of the first such block, every earlier block having none. |
| FeeHistoryHandler.InsertFetched | crates/rpc/rpc/src/eth/api/fees.rs:107-156 | The loop over the fetched headers ends with the maps and the stop outcome `FillFrom` specifies. |
| FeeHistoryHandler.FetchMissing | crates/rpc/rpc/src/eth/api/fees.rs:90-105 | Fetching the missing interval stops only with a provider error, a length mismatch or a population failure. Which failure each case gives is stated by `FetchFailures`. |
| FeeHistoryProperties.FetchFailures | crates/rpc/rpc/src/eth/api/fees.rs:92-105 | An error from `headers_range` is returned as `ProviderFailure(e)`, and so is an error from `transactions_by_block_range` once the headers arrived. A header or transaction list of the wrong length gives `InvalidBlockRange`. In each case nothing is populated. |
| FeeHistoryHandler.Populated | crates/rpc/rpc/src/eth/api/fees.rs:87-157 | Population stops only with a population failure. When it completes is stated by `PopulatedCompletes`. |
| FeeHistoryProperties.PopulatedCompletes | crates/rpc/rpc/src/eth/api/fees.rs:87-157 | With no missing block, nothing is fetched and both maps stay as they were. Otherwise population completes exactly when both range queries succeed with one entry per missing block and no fetched block has a reward hazard. With both queries answered in full, a stop is the hazard of the first hazardous block. |
| FeeHistoryHandler.Populate | crates/rpc/rpc/src/eth/api/fees.rs:87-157 | The `if let` and its database calls end with the maps and stop outcome `Populated` specifies. |
| FeeHistoryProperties.LengthMismatchRejected | crates/rpc/rpc/src/eth/api/fees.rs:97-105 | If the database returns a header list or a transaction list whose length is not `last - first + 1`, the call fails with `InvalidBlockRange` and leaves the cache unchanged. |
| FeeHistoryProperties.ChainHeadRejected | crates/rpc/rpc/src/eth/api/fees.rs:72-100 | The scan runs to `end_block`, one past the newest block. When that block is not cached and the database returns only the headers up to the newest block, the call fails with `InvalidBlockRange`. |
| FeeHistoryProperties.FillLeavesOthersAlone | crates/rpc/rpc/src/eth/api/fees.rs:153-155 | A block that no fetched header is numbered with keeps its entry, or its absence, in both maps. |
| FeeHistoryProperties.FillKeepsAgreement | crates/rpc/rpc/src/eth/api/fees.rs:153-155 | Population writes the same item to the result map and the cache, so every result item stays equal to the cache's. |
| FeeHistoryProperties.FillInsertsHeader | crates/rpc/rpc/src/eth/api/fees.rs:107-155 | When the loop completes over headers numbered `first, first+1, ...`, each header's item is in both maps under its number. |
| FeeHistoryProperties.PopulatedShape | crates/rpc/rpc/src/eth/api/fees.rs:85-157 | Population leaves every block outside the fetched interval as it was in both maps and keeps the maps in agreement. When it completes, every fetched block holds the item built from its header. |
| FeeHistoryProperties.PopulatedCachesHeader | crates/rpc/rpc/src/eth/api/fees.rs:153-155 | When population completes, each fetched block's item in the cache is the one built from its header. |
| FeeHistoryProperties.PopulatedCoversRange | crates/rpc/rpc/src/eth/api/fees.rs:179-180 | When population completes, the result map holds exactly `start_block..=end_block` and agrees with the cache. This is the comment's claim that the map now contains the full range. |
| FeeHistoryHandler.Least | crates/rpc/rpc/src/eth/api/fees.rs:166-167 | The least key of a non-empty key set, the next key a `BTreeMap` iterator visits. |
| FeeHistoryHandler.AscendingKeys | crates/rpc/rpc/src/eth/api/fees.rs:166-173 | Iterating the sorted map visits each key once, in strictly ascending order. |
| FeeHistoryProperties.AscendingKeysComplete | crates/rpc/rpc/src/eth/api/fees.rs:166-173 | The iteration visits every key of the map. |
| FeeHistoryProperties.AscendingInterval | crates/rpc/rpc/src/eth/api/fees.rs:166-173 | A map whose keys are `lo..hi` is visited as `lo, lo+1, ...`, one per block. |
| FeeHistoryProperties.RewardsOfPending | crates/rpc/rpc/src/eth/api/fees.rs:172-173 | With every item's reward `Some([])`, the `filter_map` keeps one empty list per block. |
| FeeHistoryProperties.AssembledBaseFees | crates/rpc/rpc/src/eth/api/fees.rs:166-167 | `base_fee_per_gas` lists each block's base fee in ascending block order, one per block of the map. |
| FeeHistoryProperties.AssembledRatios | crates/rpc/rpc/src/eth/api/fees.rs:169-176 | `gas_used_ratio` lists the ratios in ascending block order, with the last one popped. |
| FeeHistoryProperties.AssembledRewards | crates/rpc/rpc/src/eth/api/fees.rs:172-177 | `reward` is `Some` of one empty list per block, with the last one popped. |
| FeeHistoryProperties.PopDropsLast | crates/rpc/rpc/src/eth/api/fees.rs:176-177 | `pop` on an empty vector leaves it empty. Otherwise it removes exactly the last element, keeping the others in order. |
| FeeHistoryProperties.RewardsOnePerBlock | crates/rpc/rpc/src/eth/api/fees.rs:172-173 | The `filter_map` keeps at most one reward list per block, and exactly one per block if and only if no block lacks its reward. |
| FeeHistoryProperties.AssembledShape | crates/rpc/rpc/src/eth/api/fees.rs:166-187 | The assembled response has `oldest_block` as given, one base fee per block of the map, one gas-used ratio fewer (none for an empty map), and `Some` reward lists, no more of them than ratios and as many when every block has its reward. |
| FeeHistoryHandler.Finish | crates/rpc/rpc/src/eth/api/fees.rs:159-164 | The response is `Ok` exactly when the database has a hash for `start_block` and that block is in both maps. A database error is returned as `ProviderFailure`. Otherwise the three `unwrap`s panic in source order: no hash, then the block missing from the result map, then the block missing from the cache. Every non-`Ok` outcome leaves the cache as it was. On `Ok`, `oldest_block` is `start_block` and the cache is the old one with that block's hash set. |
| FeeHistoryHandler.Complete | crates/rpc/rpc/src/eth/api/fees.rs:159-187 | Recording the oldest block's hash and assembling ends with the response and cache `Finish` specifies: the provider error, one of the three `unwrap` panics, or the assembled response. |
| FeeHistoryProperties.FinishLeavesOthersAlone | crates/rpc/rpc/src/eth/api/fees.rs:163-164 | After population, the cache changes at most at `start_block`. |
| FeeHistoryProperties.FinishRecordsHash | crates/rpc/rpc/src/eth/api/fees.rs:160-164 | On success the database returned a hash for `start_block`. The block is in the cache, and its entry is the old one with that hash set. |
| FeeHistoryProperties.FinishKeepsEntry | crates/rpc/rpc/src/eth/api/fees.rs:163-164 | On success every cached entry is kept; only the oldest block's hash may change. |
| FeeHistoryProperties.FinishCoversRange | crates/rpc/rpc/src/eth/api/fees.rs:159-187 | From a result map that holds exactly `start_block..hi` and agrees with the cache, the response covers that range with entries matching the cache. |
| FeeHistoryProperties.OkRunFinishes | crates/rpc/rpc/src/eth/api/fees.rs:28-158 | A successful call passed every early check: the range fits below the newest block and every percentile window passed. Population completed, and the outcome is that of the final stage. |
| FeeHistoryHandler.FeeHistorySpec | crates/rpc/rpc/src/eth/api/fees.rs:22-188 | `block_count == 0` gives the default (empty) history and leaves the cache unchanged. A provider error resolving the newest block is returned as `ProviderFailure`. An unknown newest block gives `UnknownBlockNumber`, and `end_block < block_count` gives `InvalidBlockRange`. Once the range is valid, the call gives `InvalidRewardPercentile` if and only if some percentile window fails, carrying the first failing window's value. None of these touch the cache. |
| FeeHistoryProperties.ResponseCoversRange | crates/rpc/rpc/src/eth/api/fees.rs:166-187 | A successful response covers the range: `oldest_block == start_block`, and there are `block_count + 1` base fees, one per block from `start_block` to `end_block` in ascending order. There are `block_count` gas-used ratios and `block_count` (empty) reward lists, the last element having been popped. Each entry equals the cache's entry for its block. |
| FeeHistoryProperties.CacheChangesOnlyAtFetchedOrOldest | crates/rpc/rpc/src/eth/api/fees.rs:151-164 | Whatever the outcome, the cache changes at most at the blocks fetched from the database and at `start_block`. |
| FeeHistoryProperties.OkCachesFetchedHeaders | crates/rpc/rpc/src/eth/api/fees.rs:107-155 | After success every fetched block is in the cache with the item built from its header. That item has the header's base fee (0 when absent, before EIP-1559), its gas used over gas limit, and no rewards. Only the oldest block carries a hash. |
| FeeHistoryProperties.OkRecordsOldestHash | crates/rpc/rpc/src/eth/api/fees.rs:160-164 | After success the oldest block's cache entry carries the hash the database returned. If the block was cached before, nothing else in its entry changed. |
| FeeHistoryHandler.FillKeepsRewardsPending | crates/rpc/rpc/src/eth/api/fees.rs:114-148 | Every item the loop inserts has reward `Some([])`, since `rewards` is always the empty vector. |
| FeeHistoryHandler.PopulatedKeepsRewardsPending | crates/rpc/rpc/src/eth/api/fees.rs:114-148 | Population keeps every reward in both maps equal to `Some([])`. |
| FeeHistoryHandler.EthApi.FeeHistory | crates/rpc/rpc/src/eth/api/fees.rs:22-188 | The handler: its response and the cache it leaves are exactly `FeeHistorySpec` of the old cache and the inputs. It keeps the invariant that every cached reward is `Some([])`. |
| FeeHistoryHandler.EthApi.ServeRange | crates/rpc/rpc/src/eth/api/fees.rs:64-187 | The part after validation (cache scan, population, hash and assembly) leaves the response and cache that `Serve` of the old cache gives, and keeps the same invariant. |

## Left out

- **Cryptography:** the ECIES codec (key agreement, authentication, framing, `ECIESCodec::new_client` / `new_server`) is not part of this model. Its construction outcome is an input. Its decoding is the ingress queue of already-decoded values, and its encoding is the egress log.
- **Async plumbing:** `Framed`, `Pin`, `Context`, `Poll` and `ready!`. Each poll is one step that returns the next value. A pending poll, backpressure and wake-ups are not modelled.
- **Side effects without behaviour:** `tracing` spans and `#[instrument]`, `HasRemoteAddr::remote_addr`, and the TCP listener of the test. The test is modelled over transports wired to each other by an ideal codec pair (`Deliver`), which is an assumption and not a proved property of the codec.
- **Concurrency:** concurrent use of a session's read and write halves, and the cache mutex (`fees.rs:63`).
- **Write failures:** a failing write is modelled as recording nothing, and every write of one transport has the same outcome (`writeFault`). Partial writes are not modelled.
- **Remote id binding:** whether the codec rejects a peer whose key is not the expected `remote_id` is not modelled (the codec is not part of this model).
- **Floating point:**
  - `gas_used_ratio` is kept as its operands `(gas_used, gas_limit)` rather than as an `f64` quotient.
  - Percentiles are exact reals with no NaN.
  - The threshold loop (`fees.rs:129-142`) is not modelled. Its computed reward is never used, because `rewards` stays empty. Its `sorter[tx_index]` index can go past the end when the unchecked last percentile exceeds 100 (`fees.rs:134`); that panic is not modelled.
- **Provider internals:** `block_number_for_id`, `headers_range`, `transactions_by_block_range`, `block_hash` and `effective_gas_price` are inputs. The range and cache lemmas assume that `headers_range(first..=last)` returns headers numbered `first, first+1, ...` (`HeadersNumbered`).
- **Integer width:** `U64`/`u64` arithmetic is unbounded here. The overflow of `previous_to_end_block + 1` at `u64::MAX` is not modelled, nor are the `usize` casts of the length checks.
- **Cache recency:** the LRU cache's recency order and eviction are not modelled. The cache is a plain map that only grows.
- **Response default:** `FeeHistory::default()` is modelled as empty vectors, oldest block 0 and reward `None`.
- **Transaction sorting:** the `sorter.sort()` order is not modelled; only whether a block has transactions, and whether each has an effective gas price, affects the outcome.
