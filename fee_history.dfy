/**
 * The `eth_feeHistory` handler: block range, reward-percentile validation, the split of
 * the range into cache hits and one interval fetched from the database, population of
 * the result map and the cache, and assembly of the response.
 *
 * The cache and the sorted result map are `map`s from block number to item; the
 * provider's answers are inputs. Each stage is a function, the loops the handler runs
 * are methods proved against them, and `EthApi.FeeHistory` runs the stages in order on
 * the cache it owns.
 */
module FeeHistoryHandler {
  import opened Wrappers
  import opened FeeTypes

  // ---------------------------------------------------------------------------
  // Block range

  /**
   * `start_block`: `end_block - block_count` with `end_block` one past the newest block,
   * except that a single block starts at the newest block itself. Both give the same
   * block.
   */
  function StartBlock(blockCount: nat, previousToEndBlock: BlockNumber): (start: BlockNumber)
    requires 1 <= blockCount <= previousToEndBlock + 1
    ensures start == previousToEndBlock + 1 - blockCount
    ensures start <= previousToEndBlock
  {
    if blockCount == 1 then previousToEndBlock else previousToEndBlock + 1 - blockCount
  }

  /**
   * The same bound as the comprehension in `Interval` states inline: the inline bound
   * lets Dafny see that the set is finite, and this call is the term that quantifiers
   * over the set's members trigger on.
   */
  predicate Within(b: nat, lo: nat, hi: nat)
  {
    lo <= b < hi
  }

  /** The blocks `lo` up to, but excluding, `hi`. */
  function Interval(lo: nat, hi: nat): set<BlockNumber>
  {
    set b: nat | lo <= b < hi && Within(b, lo, hi)
  }

  lemma {:induction false} IntervalSize(lo: nat, hi: nat)
    requires lo <= hi
    ensures |Interval(lo, hi)| == hi - lo
    decreases hi - lo
  {
    if lo == hi {
      assert Interval(lo, hi) == {};
    } else {
      IntervalSize(lo, hi - 1);
      assert Interval(lo, hi) == Interval(lo, hi - 1) + {hi - 1};
    }
  }

  // ---------------------------------------------------------------------------
  // Reward percentiles

  /** The error the window (`ps[i]`, `ps[i + 1]`) raises, if any. */
  function WindowError(ps: seq<real>, i: nat): (bad: Option<real>)
    requires i + 1 < |ps|
    ensures bad.None? <==> ps[i] < ps[i + 1] && 0.0 <= ps[i] <= 100.0
    ensures bad.Some? && ps[i] >= ps[i + 1] ==> bad.value == ps[i + 1]
    ensures bad.Some? && ps[i] < ps[i + 1] ==> bad.value == ps[i]
  {
    if ps[i] >= ps[i + 1] then Some(ps[i + 1])
    else if ps[i] < 0.0 || ps[i] > 100.0 then Some(ps[i])
    else None
  }

  /** The error of the first failing window from index `i` on, if any. */
  function FirstInvalidPercentile(ps: seq<real>, i: nat): (bad: Option<real>)
    decreases |ps| - i
    ensures bad.None? <==> forall j :: i <= j < |ps| - 1 ==> WindowError(ps, j).None?
    ensures bad.Some? ==> exists j :: i <= j < |ps| - 1 && bad == WindowError(ps, j)
                                      && forall k :: i <= k < j ==> WindowError(ps, k).None?
  {
    if i + 1 >= |ps| then None
    else if WindowError(ps, i).Some? then WindowError(ps, i)
    else FirstInvalidPercentile(ps, i + 1)
  }

  /** The `windows(2)` loop over the percentiles: the error it returns, if any. */
  method ValidateRewardPercentiles(ps: seq<real>) returns (bad: Option<real>)
    ensures bad == FirstInvalidPercentile(ps, 0)
  {
    var i := 0;
    while i + 1 < |ps|
      invariant FirstInvalidPercentile(ps, i) == FirstInvalidPercentile(ps, 0)
    {
      if ps[i] >= ps[i + 1] {
        return Some(ps[i + 1]);
      }
      if ps[i] < 0.0 || ps[i] > 100.0 {
        return Some(ps[i]);
      }
      i := i + 1;
    }
    return None;
  }

  // ---------------------------------------------------------------------------
  // Cache scan

  /** The cached items of the blocks `lo` up to, but excluding, `hi`. */
  function CachedIn(cache: FeeMap, lo: nat, hi: nat): (items: FeeMap)
    ensures forall b :: b in items <==> b in cache && lo <= b < hi
    ensures forall b :: b in items ==> items[b] == cache[b]
  {
    map b | b in cache && lo <= b < hi :: cache[b]
  }

  /** The least block of `lo` up to, but excluding, `hi` that is not cached. */
  function FirstNonCached(cache: FeeMap, lo: nat, hi: nat): (first: Option<BlockNumber>)
    decreases hi - lo
    ensures first.None? <==> forall b :: lo <= b < hi ==> b in cache
    ensures first.Some? ==> lo <= first.value < hi && first.value !in cache
    ensures first.Some? ==> forall b :: lo <= b < first.value ==> b in cache
  {
    if hi <= lo then None
    else if lo !in cache then Some(lo)
    else FirstNonCached(cache, lo + 1, hi)
  }

  /** The greatest block of `lo` up to, but excluding, `hi` that is not cached. */
  function LastNonCached(cache: FeeMap, lo: nat, hi: nat): (last: Option<BlockNumber>)
    decreases hi - lo
    ensures last.None? <==> forall b :: lo <= b < hi ==> b in cache
    ensures last.Some? ==> lo <= last.value < hi && last.value !in cache
    ensures last.Some? ==> forall b :: last.value < b < hi ==> b in cache
  {
    if hi <= lo then None
    else if hi - 1 !in cache then Some(hi - 1)
    else LastNonCached(cache, lo, hi - 1)
  }

  /**
   * The loop over `start_block..=end_block`: cached blocks are copied into the result
   * map, and the least and greatest missing blocks are recorded.
   */
  method ScanCache(cache: FeeMap, startBlock: BlockNumber, endBlock: BlockNumber)
    returns (items: FeeMap, firstNonCached: Option<BlockNumber>, lastNonCached: Option<BlockNumber>)
    ensures items == CachedIn(cache, startBlock, endBlock + 1)
    ensures firstNonCached == FirstNonCached(cache, startBlock, endBlock + 1)
    ensures lastNonCached == LastNonCached(cache, startBlock, endBlock + 1)
    ensures firstNonCached.None? <==> lastNonCached.None?
    ensures firstNonCached.Some? ==> firstNonCached.value <= lastNonCached.value
  {
    items := map[];
    firstNonCached, lastNonCached := None, None;
    var block := startBlock;
    while block <= endBlock
      invariant startBlock <= block
      invariant block <= endBlock + 1 || block == startBlock
      invariant items == CachedIn(cache, startBlock, block)
      invariant firstNonCached == FirstNonCached(cache, startBlock, block)
      invariant lastNonCached == LastNonCached(cache, startBlock, block)
    {
      if block in cache {
        items := items[block := cache[block]];
      } else {
        if firstNonCached.None? {
          firstNonCached := Some(block);
        }
        lastNonCached := Some(block);
      }
      block := block + 1;
    }
  }

  // ---------------------------------------------------------------------------
  // Population from the database

  /**
   * The item a fetched header yields: its base fee (zero before EIP-1559), its gas-used
   * ratio, no hash, and the (not yet computed) empty reward list.
   */
  function ItemFor(header: Header): (item: FeeHistoryCacheItem)
    ensures item.hash.None? && item.reward == Some([])
    ensures header.baseFeePerGas.Some? ==> item.baseFeePerGas == header.baseFeePerGas.value
    ensures header.baseFeePerGas.None? ==> item.baseFeePerGas == 0
    ensures item.gasUsedRatio.gasUsed == header.gasUsed && item.gasUsedRatio.gasLimit == header.gasLimit
  {
    FeeHistoryCacheItem(
      None,
      if header.baseFeePerGas.Some? then header.baseFeePerGas.value else 0,
      GasUsedRatio(header.gasUsed, header.gasLimit),
      Some([]))
  }

  /**
   * The failure points of the reward computation for one block: a transaction whose
   * effective gas price is undefined is an error, and a block without transactions
   * panics at `sorter[0]`.
   */
  function RewardHazard(transactions: seq<Transaction>): (hazard: Option<Response>)
    ensures hazard.Some? ==> PopulationFailure(hazard.value)
    ensures hazard == Some(Err(FeeCapTooLow)) <==> exists i :: 0 <= i < |transactions| && transactions[i].effectiveGasPrice.None?
    ensures hazard == Some(Panic(EmptyBlock)) <==> transactions == []
    ensures hazard.None? <==> transactions != [] && forall i :: 0 <= i < |transactions| ==> transactions[i].effectiveGasPrice.Some?
  {
    if exists i :: 0 <= i < |transactions| && transactions[i].effectiveGasPrice.None? then Some(Err(FeeCapTooLow))
    else if transactions == [] then Some(Panic(EmptyBlock))
    else None
  }

  /** The ways population of the result map and the cache can stop the handler. */
  predicate PopulationFailure(r: Response)
  {
    || r == Err(FeeCapTooLow)
    || r == Panic(EmptyBlock)
    || r == Err(InvalidBlockRange)
    || (r.Err? && r.error.ProviderFailure?)
  }

  /** The result map and the cache after populating them, and the failure that stopped it. */
  datatype Fill = Fill(items: FeeMap, cache: FeeMap, stop: Option<Response>)

  /** The loop over the fetched headers and their transactions, from index `i` on. */
  function FillFrom(headers: seq<Header>, transactions: seq<seq<Transaction>>, i: nat, items: FeeMap, cache: FeeMap): (fill: Fill)
    requires |headers| == |transactions| && i <= |headers|
    decreases |headers| - i
    ensures fill.stop.Some? ==> PopulationFailure(fill.stop.value)
  {
    if i == |headers| then Fill(items, cache, None)
    else if RewardHazard(transactions[i]).Some? then Fill(items, cache, RewardHazard(transactions[i]))
    else
      var item := ItemFor(headers[i]);
      FillFrom(headers, transactions, i + 1, items[headers[i].number := item], cache[headers[i].number := item])
  }

  /**
   * The loop over the fetched headers: each one's item goes into the result map and into
   * the cache under the header's number, until a block's reward computation fails.
   */
  method InsertFetched(headers: seq<Header>, transactions: seq<seq<Transaction>>, items: FeeMap, cache: FeeMap)
    returns (items': FeeMap, cache': FeeMap, stop: Option<Response>)
    requires |headers| == |transactions|
    ensures Fill(items', cache', stop) == FillFrom(headers, transactions, 0, items, cache)
  {
    items', cache' := items, cache;
    var i := 0;
    while i < |headers|
      invariant i <= |headers|
      invariant FillFrom(headers, transactions, i, items', cache') == FillFrom(headers, transactions, 0, items, cache)
    {
      var header := headers[i];
      var hazard := RewardHazard(transactions[i]);
      if hazard.Some? {
        return items', cache', hazard;
      }
      var item := ItemFor(header);
      items' := items'[header.number := item];
      cache' := cache'[header.number := item];
      i := i + 1;
    }
    stop := None;
  }

  /**
   * Fetch the blocks `first..=last` and populate the result map and the cache from them;
   * the database must return exactly one header and one transaction list per block.
   */
  function FetchMissing(provider: Provider, first: BlockNumber, last: BlockNumber, items: FeeMap, cache: FeeMap): (fill: Fill)
    ensures fill.stop.Some? ==> PopulationFailure(fill.stop.value)
  {
    match provider.headersRange(first, last)
    case Failure(e) => Fill(items, cache, Some(Err(ProviderFailure(e))))
    case Success(headers) =>
      match provider.transactionsByBlockRange(first, last)
      case Failure(e) => Fill(items, cache, Some(Err(ProviderFailure(e))))
      case Success(transactions) =>
        if |headers| != last as int - first + 1 || |transactions| != last as int - first + 1 then
          Fill(items, cache, Some(Err(InvalidBlockRange)))
        else
          FillFrom(headers, transactions, 0, items, cache)
  }

  /** The `if let` on the scan's result: fetch only when some block was missing. */
  function Populated(provider: Provider, firstNonCached: Option<BlockNumber>, lastNonCached: Option<BlockNumber>,
                     items: FeeMap, cache: FeeMap): (fill: Fill)
    ensures fill.stop.Some? ==> PopulationFailure(fill.stop.value)
  {
    if firstNonCached.Some? && lastNonCached.Some? then
      FetchMissing(provider, firstNonCached.value, lastNonCached.value, items, cache)
    else
      Fill(items, cache, None)
  }

  /** Lines that populate the result map and the cache from the database. */
  method Populate(provider: Provider, firstNonCached: Option<BlockNumber>, lastNonCached: Option<BlockNumber>,
                  items: FeeMap, cache: FeeMap)
    returns (items': FeeMap, cache': FeeMap, stop: Option<Response>)
    ensures Fill(items', cache', stop) == Populated(provider, firstNonCached, lastNonCached, items, cache)
  {
    items', cache', stop := items, cache, None;
    if firstNonCached.Some? && lastNonCached.Some? {
      var first, last := firstNonCached.value, lastNonCached.value;
      var headers := provider.headersRange(first, last);
      if headers.Failure? {
        return items, cache, Some(Err(ProviderFailure(headers.error)));
      }
      var transactions := provider.transactionsByBlockRange(first, last);
      if transactions.Failure? {
        return items, cache, Some(Err(ProviderFailure(transactions.error)));
      }
      if |headers.value| != last as int - first + 1 {
        return items, cache, Some(Err(InvalidBlockRange));
      }
      if |transactions.value| != last as int - first + 1 {
        return items, cache, Some(Err(InvalidBlockRange));
      }
      items', cache', stop := InsertFetched(headers.value, transactions.value, items, cache);
    }
  }

  // ---------------------------------------------------------------------------
  // Response assembly

  ghost predicate IsLeast(m: nat, s: set<nat>)
  {
    m in s && forall k :: k in s ==> m <= k
  }

  lemma {:induction false} LeastExists(s: set<nat>)
    requires s != {}
    ensures exists m :: IsLeast(m, s)
    decreases |s|
  {
    var x :| x in s;
    var rest := s - {x};
    if rest == {} {
      assert s == {x};
      assert IsLeast(x, s);
    } else {
      LeastExists(rest);
      var m :| IsLeast(m, rest);
      var least := if x < m then x else m;
      forall k | k in s
        ensures least <= k
      {
        if k != x {
          assert k in rest;
        }
      }
      assert IsLeast(least, s);
    }
  }

  /** The least element of a non-empty set of block numbers. */
  function Least(s: set<nat>): (m: nat)
    requires s != {}
    ensures m in s && forall k :: k in s ==> m <= k
  {
    LeastExists(s);
    var m :| m in s && forall k :: k in s ==> m <= k;
    m
  }

  /** The keys of a `BTreeMap` in the order its iterators visit them. */
  function AscendingKeys(keys: set<nat>): (ks: seq<nat>)
    ensures |ks| == |keys|
    ensures forall i :: 0 <= i < |ks| ==> ks[i] in keys
    ensures forall i, j :: 0 <= i < j < |ks| ==> ks[i] < ks[j]
    decreases |keys|
  {
    if keys == {} then []
    else
      var m := Least(keys);
      [m] + AscendingKeys(keys - {m})
  }

  /** `filter_map(|item| item.reward.clone())` over the items of `ks`, in order. */
  function Rewards(items: FeeMap, ks: seq<nat>): (rs: seq<seq<nat>>)
    requires forall i :: 0 <= i < |ks| ==> ks[i] in items
  {
    if ks == [] then []
    else
      var rest := Rewards(items, ks[1..]);
      if items[ks[0]].reward.Some? then [items[ks[0]].reward.value] + rest else rest
  }

  /** `Vec::pop` with its result discarded. */
  function Pop<T>(s: seq<T>): (r: seq<T>)
  {
    if s == [] then s else s[..|s| - 1]
  }

  /**
   * The response built from the result map: base fees, gas-used ratios and rewards in
   * ascending block order, the last ratio and the last reward list popped.
   */
  function Assemble(items: FeeMap, oldestBlock: BlockNumber): (h: FeeHistory)
  {
    var ks := AscendingKeys(items.Keys);
    FeeHistory(
      seq(|ks|, i requires 0 <= i < |ks| => items[ks[i]].baseFeePerGas),
      Pop(seq(|ks|, i requires 0 <= i < |ks| => items[ks[i]].gasUsedRatio)),
      oldestBlock,
      Some(Pop(Rewards(items, ks))))
  }

  /** How a call ends, and the cache it leaves. */
  datatype Run = Run(response: Response, cache: FeeMap)

  /**
   * After population: record the oldest block's hash in both maps and assemble the
   * response.
   */
  function Finish(provider: Provider, startBlock: BlockNumber, items: FeeMap, cache: FeeMap): (run: Run)
    // a response exactly when the hash is known and the block is in both maps
    ensures run.response.Ok? <==>
              provider.blockHash(startBlock).Success? && provider.blockHash(startBlock).value.Some?
              && startBlock in items && startBlock in cache
    ensures run.response.Err? ==>
              provider.blockHash(startBlock).Failure? && run.response.error == ProviderFailure(provider.blockHash(startBlock).error)
    // a database error is returned as it is
    ensures provider.blockHash(startBlock).Failure? ==>
              run.response == Err(ProviderFailure(provider.blockHash(startBlock).error))
    // otherwise the three `unwrap`s panic in source order
    ensures provider.blockHash(startBlock) == Success(None) ==> run.response == Panic(MissingOldestBlockHash)
    ensures provider.blockHash(startBlock).Success? && provider.blockHash(startBlock).value.Some? && startBlock !in items ==>
              run.response == Panic(OldestBlockNotInResult)
    ensures && provider.blockHash(startBlock).Success? && provider.blockHash(startBlock).value.Some?
            && startBlock in items && startBlock !in cache ==>
              run.response == Panic(OldestBlockNotInCache)
  {
    match provider.blockHash(startBlock)
    case Failure(e) => Run(Err(ProviderFailure(e)), cache)
    case Success(hash) =>
      if hash.None? then Run(Panic(MissingOldestBlockHash), cache)
      else if startBlock !in items then Run(Panic(OldestBlockNotInResult), cache)
      else if startBlock !in cache then Run(Panic(OldestBlockNotInCache), cache)
      else
        var items' := items[startBlock := items[startBlock].(hash := hash)];
        var cache' := cache[startBlock := cache[startBlock].(hash := hash)];
        Run(Ok(Assemble(items', startBlock)), cache')
  }

  /** The oldest block's hash goes into both maps, then the response is assembled. */
  method Complete(provider: Provider, startBlock: BlockNumber, items: FeeMap, cache: FeeMap)
    returns (response: Response, cache': FeeMap)
    ensures Run(response, cache') == Finish(provider, startBlock, items, cache)
  {
    cache' := cache;
    var oldestBlockHash := provider.blockHash(startBlock);
    if oldestBlockHash.Failure? {
      return Err(ProviderFailure(oldestBlockHash.error)), cache;
    }
    if oldestBlockHash.value.None? {
      return Panic(MissingOldestBlockHash), cache;
    }
    if startBlock !in items {
      return Panic(OldestBlockNotInResult), cache;
    }
    var items' := items[startBlock := items[startBlock].(hash := oldestBlockHash.value)];
    if startBlock !in cache {
      return Panic(OldestBlockNotInCache), cache;
    }
    cache' := cache[startBlock := cache[startBlock].(hash := oldestBlockHash.value)];
    response := Ok(Assemble(items', startBlock));
  }

  // ---------------------------------------------------------------------------
  // The handler

  /** The percentiles the handler checks: none given means none. */
  function PercentilesOf(rewardPercentiles: Option<seq<real>>): (ps: seq<real>)
    ensures rewardPercentiles.None? ==> ps == []
    ensures rewardPercentiles.Some? ==> ps == rewardPercentiles.value
  {
    if rewardPercentiles.Some? then rewardPercentiles.value else []
  }

  /** One call of `fee_history` on a cache: its response and the cache it leaves. */
  function FeeHistorySpec(cache: FeeMap, blockCount: nat, newestBlock: BlockId,
                          rewardPercentiles: Option<seq<real>>, provider: Provider): (run: Run)
    // no blocks asked for: the default response, and the cache is not touched
    ensures blockCount == 0 ==> run == Run(Ok(DefaultFeeHistory), cache)
    // an unknown newest block, or a range reaching below block zero, is an error
    ensures blockCount > 0 && provider.blockNumberForId(newestBlock) == Success(None) ==>
              run == Run(Err(UnknownBlockNumber), cache)
    ensures blockCount > 0 && provider.blockNumberForId(newestBlock).Success?
            && provider.blockNumberForId(newestBlock).value.Some?
            && provider.blockNumberForId(newestBlock).value.value + 1 < blockCount ==>
              run == Run(Err(InvalidBlockRange), cache)
    // a rejected percentile list is an error, and the cache is not touched
    ensures run.response.Err? && run.response.error.InvalidRewardPercentile? ==> run.cache == cache
    ensures run.response.Err? && run.response.error.InvalidRewardPercentile? ==>
              FirstInvalidPercentile(PercentilesOf(rewardPercentiles), 0) == Some(run.response.error.percentile)
    // ... and every request that reaches the check with a bad percentile is rejected
    ensures blockCount > 0 && provider.blockNumberForId(newestBlock).Success?
            && provider.blockNumberForId(newestBlock).value.Some?
            && blockCount <= provider.blockNumberForId(newestBlock).value.value + 1
            && FirstInvalidPercentile(PercentilesOf(rewardPercentiles), 0).Some? ==>
              run == Run(Err(InvalidRewardPercentile(FirstInvalidPercentile(PercentilesOf(rewardPercentiles), 0).value)), cache)
    // a provider failure resolving the newest block is returned, and the cache is not touched
    ensures blockCount > 0 && provider.blockNumberForId(newestBlock).Failure? ==>
              run == Run(Err(ProviderFailure(provider.blockNumberForId(newestBlock).error)), cache)
  {
    if blockCount == 0 then Run(Ok(DefaultFeeHistory), cache)
    else
      match provider.blockNumberForId(newestBlock)
      case Failure(e) => Run(Err(ProviderFailure(e)), cache)
      case Success(newest) =>
        if newest.None? then Run(Err(UnknownBlockNumber), cache)
        else if newest.value + 1 < blockCount then Run(Err(InvalidBlockRange), cache)
        else
          var startBlock, endBlock := StartBlock(blockCount, newest.value), newest.value + 1;
          var invalid := FirstInvalidPercentile(PercentilesOf(rewardPercentiles), 0);
          if invalid.Some? then Run(Err(InvalidRewardPercentile(invalid.value)), cache)
          else Serve(cache, startBlock, endBlock, provider)
  }

  /**
   * The blocks `startBlock` up to `endBlock` once the request is accepted: the cache
   * scan, population from the database, then `Finish`.
   */
  function Serve(cache: FeeMap, startBlock: BlockNumber, endBlock: BlockNumber, provider: Provider): Run
  {
    var items := CachedIn(cache, startBlock, endBlock + 1);
    var first := FirstNonCached(cache, startBlock, endBlock + 1);
    var last := LastNonCached(cache, startBlock, endBlock + 1);
    var filled := Populated(provider, first, last, items, cache);
    if filled.stop.Some? then Run(filled.stop.value, filled.cache)
    else Finish(provider, startBlock, filled.items, filled.cache)
  }

  /** Every item carries the empty reward list: rewards are not computed yet. */
  ghost predicate RewardsPending(m: FeeMap)
  {
    forall b :: b in m ==> m[b].reward == Some([])
  }

  lemma {:induction false} FillKeepsRewardsPending(headers: seq<Header>, transactions: seq<seq<Transaction>>, i: nat,
                                                   items: FeeMap, cache: FeeMap)
    requires |headers| == |transactions| && i <= |headers|
    requires RewardsPending(items) && RewardsPending(cache)
    ensures RewardsPending(FillFrom(headers, transactions, i, items, cache).items)
    ensures RewardsPending(FillFrom(headers, transactions, i, items, cache).cache)
    decreases |headers| - i
  {
    if i < |headers| && RewardHazard(transactions[i]).None? {
      var item := ItemFor(headers[i]);
      FillKeepsRewardsPending(headers, transactions, i + 1, items[headers[i].number := item], cache[headers[i].number := item]);
    }
  }

  lemma PopulatedKeepsRewardsPending(provider: Provider, firstNonCached: Option<BlockNumber>, lastNonCached: Option<BlockNumber>,
                                      items: FeeMap, cache: FeeMap)
    requires RewardsPending(items) && RewardsPending(cache)
    ensures RewardsPending(Populated(provider, firstNonCached, lastNonCached, items, cache).items)
    ensures RewardsPending(Populated(provider, firstNonCached, lastNonCached, items, cache).cache)
  {
    if firstNonCached.Some? && lastNonCached.Some? {
      var first, last := firstNonCached.value, lastNonCached.value;
      var headers, transactions := provider.headersRange(first, last), provider.transactionsByBlockRange(first, last);
      if headers.Success? && transactions.Success?
         && |headers.value| == last as int - first + 1 && |transactions.value| == last as int - first + 1 {
        FillKeepsRewardsPending(headers.value, transactions.value, 0, items, cache);
      }
    }
  }

  lemma FinishKeepsRewardsPending(provider: Provider, startBlock: BlockNumber, items: FeeMap, cache: FeeMap)
    requires RewardsPending(cache)
    ensures RewardsPending(Finish(provider, startBlock, items, cache).cache)
  {
  }

  /** The API object; only its fee-history cache is modelled. */
  class EthApi {
    var feeHistoryCache: FeeMap

    ghost predicate Valid()
      reads this
    {
      RewardsPending(feeHistoryCache)
    }

    constructor ()
      ensures Valid() && feeHistoryCache == map[]
    {
      feeHistoryCache := map[];
    }

    /** `fee_history`: the response for `blockCount` blocks up to `newestBlock`. */
    method FeeHistory(blockCount: nat, newestBlock: BlockId, rewardPercentiles: Option<seq<real>>, provider: Provider)
      returns (response: Response)
      requires Valid()
      modifies this
      ensures Valid()
      ensures Run(response, feeHistoryCache) ==
              FeeHistorySpec(old(feeHistoryCache), blockCount, newestBlock, rewardPercentiles, provider)
    {
      if blockCount == 0 {
        return Ok(DefaultFeeHistory);
      }
      var lookup := provider.blockNumberForId(newestBlock);
      if lookup.Failure? {
        return Err(ProviderFailure(lookup.error));
      }
      if lookup.value.None? {
        return Err(UnknownBlockNumber);
      }
      var previousToEndBlock := lookup.value.value;
      var endBlock := previousToEndBlock + 1;
      if endBlock < blockCount {
        return Err(InvalidBlockRange);
      }
      var startBlock := endBlock - blockCount;
      if blockCount == 1 {
        startBlock := previousToEndBlock;
      }
      assert startBlock == StartBlock(blockCount, previousToEndBlock);

      var percentiles := PercentilesOf(rewardPercentiles);
      var invalid := ValidateRewardPercentiles(percentiles);
      if invalid.Some? {
        return Err(InvalidRewardPercentile(invalid.value));
      }

      response := ServeRange(startBlock, endBlock, provider);
    }

    /** The accepted request: scan the cache, populate it from the database, finish. */
    method ServeRange(startBlock: BlockNumber, endBlock: BlockNumber, provider: Provider) returns (response: Response)
      requires Valid()
      modifies this
      ensures Valid()
      ensures Run(response, feeHistoryCache) == Serve(old(feeHistoryCache), startBlock, endBlock, provider)
    {
      var items, firstNonCached, lastNonCached := ScanCache(feeHistoryCache, startBlock, endBlock);
      ghost var scanned := feeHistoryCache;
      var stop;
      items, feeHistoryCache, stop := Populate(provider, firstNonCached, lastNonCached, items, feeHistoryCache);
      PopulatedKeepsRewardsPending(provider, firstNonCached, lastNonCached, CachedIn(scanned, startBlock, endBlock + 1), scanned);
      if stop.Some? {
        return stop.value;
      }
      ghost var populated := feeHistoryCache;
      response, feeHistoryCache := Complete(provider, startBlock, items, feeHistoryCache);
      FinishKeepsRewardsPending(provider, startBlock, items, populated);
    }
  }
}
