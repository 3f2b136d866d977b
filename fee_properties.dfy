/**
 * Properties of the fee-history handler that span several stages: which percentile lists
 * are accepted, the size of the scanned range, how population changes the result map
 * and the cache, and what the response holds when the handler succeeds.
 *
 * Several properties depend on the database returning, for `headers_range(first..=last)`,
 * the headers of exactly those blocks in ascending order; `HeadersNumbered` states that
 * assumption about the provider.
 */
module FeeHistoryProperties {
  import opened Wrappers
  import opened FeeTypes
  import opened FeeHistoryHandler

  // ---------------------------------------------------------------------------
  // Block range

  /**
   * The range `start_block..=end_block` that the handler scans holds `block_count + 1`
   * blocks: the requested ones and the block after the newest.
   */
  lemma ScannedRangeSize(blockCount: nat, previousToEndBlock: BlockNumber)
    requires 1 <= blockCount <= previousToEndBlock + 1
    ensures |Interval(StartBlock(blockCount, previousToEndBlock), previousToEndBlock + 2)| == blockCount + 1
  {
    IntervalSize(StartBlock(blockCount, previousToEndBlock), previousToEndBlock + 2);
  }

  // ---------------------------------------------------------------------------
  // Reward percentiles

  ghost predicate StrictlyIncreasing(ps: seq<real>)
  {
    forall i, j :: 0 <= i < j < |ps| ==> ps[i] < ps[j]
  }

  /** Every percentile but the last lies in [0, 100]. */
  ghost predicate InRangeBeforeLast(ps: seq<real>)
  {
    forall i :: 0 <= i < |ps| - 1 ==> 0.0 <= ps[i] <= 100.0
  }

  lemma {:induction false} ChainIncreasing(ps: seq<real>, i: nat, j: nat)
    requires forall k :: 0 <= k < |ps| - 1 ==> ps[k] < ps[k + 1]
    requires i < j < |ps|
    ensures ps[i] < ps[j]
    decreases j - i
  {
    if i + 1 < j {
      ChainIncreasing(ps, i + 1, j);
    }
  }

  /**
   * A percentile list is accepted exactly when it is strictly increasing and every
   * element but the last lies in [0, 100]; lists of length 0 or 1 are always accepted.
   */
  lemma PercentilesAccepted(ps: seq<real>)
    ensures FirstInvalidPercentile(ps, 0).None? <==> StrictlyIncreasing(ps) && InRangeBeforeLast(ps)
  {
    if FirstInvalidPercentile(ps, 0).None? {
      forall k | 0 <= k < |ps| - 1
        ensures ps[k] < ps[k + 1] && 0.0 <= ps[k] <= 100.0
      {
        assert WindowError(ps, k).None?;
      }
      forall i, j | 0 <= i < j < |ps|
        ensures ps[i] < ps[j]
      {
        ChainIncreasing(ps, i, j);
      }
    } else {
      var j :| 0 <= j < |ps| - 1 && FirstInvalidPercentile(ps, 0) == WindowError(ps, j)
               && forall k :: 0 <= k < j ==> WindowError(ps, k).None?;
      assert !(ps[j] < ps[j + 1] && 0.0 <= ps[j] <= 100.0);
    }
  }

  /**
   * The last percentile is never range-checked: in an accepted list it may be replaced
   * by any larger value, however far above 100.
   */
  lemma LastPercentileNotRangeChecked(ps: seq<real>, x: real)
    requires |ps| >= 1 && FirstInvalidPercentile(ps, 0).None?
    requires ps[|ps| - 1] < x
    ensures FirstInvalidPercentile(ps[..|ps| - 1] + [x], 0).None?
  {
    PercentilesAccepted(ps);
    var qs := ps[..|ps| - 1] + [x];
    forall i, j | 0 <= i < j < |qs|
      ensures qs[i] < qs[j]
    {
      if j < |qs| - 1 {
        assert qs[i] == ps[i] && qs[j] == ps[j];
      } else {
        assert qs[i] == ps[i] <= ps[|ps| - 1];
      }
    }
    PercentilesAccepted(qs);
  }

  // ---------------------------------------------------------------------------
  // Population

  /** `b` is in both maps with the same item, or in neither. */
  ghost predicate SameAt(m: FeeMap, m': FeeMap, b: BlockNumber)
  {
    (b in m <==> b in m') && (b in m ==> m[b] == m'[b])
  }

  /** Every item of the result map is also the cache's item for that block. */
  ghost predicate Agrees(items: FeeMap, cache: FeeMap)
  {
    forall b :: b in items ==> b in cache && cache[b] == items[b]
  }

  /** Blocks no fetched header is numbered with keep their entries in both maps. */
  lemma {:induction false} FillLeavesOthersAlone(headers: seq<Header>, transactions: seq<seq<Transaction>>, i: nat,
                                                 items: FeeMap, cache: FeeMap, b: BlockNumber)
    requires |headers| == |transactions| && i <= |headers|
    requires forall j :: i <= j < |headers| ==> headers[j].number != b
    ensures SameAt(FillFrom(headers, transactions, i, items, cache).items, items, b)
    ensures SameAt(FillFrom(headers, transactions, i, items, cache).cache, cache, b)
    decreases |headers| - i
  {
    if i < |headers| && RewardHazard(transactions[i]).None? {
      var item := ItemFor(headers[i]);
      FillLeavesOthersAlone(headers, transactions, i + 1, items[headers[i].number := item], cache[headers[i].number := item], b);
    }
  }

  /** Population writes the same item to the result map and to the cache. */
  lemma {:induction false} FillKeepsAgreement(headers: seq<Header>, transactions: seq<seq<Transaction>>, i: nat,
                                              items: FeeMap, cache: FeeMap)
    requires |headers| == |transactions| && i <= |headers|
    requires Agrees(items, cache)
    ensures Agrees(FillFrom(headers, transactions, i, items, cache).items, FillFrom(headers, transactions, i, items, cache).cache)
    decreases |headers| - i
  {
    if i < |headers| && RewardHazard(transactions[i]).None? {
      var item := ItemFor(headers[i]);
      FillKeepsAgreement(headers, transactions, i + 1, items[headers[i].number := item], cache[headers[i].number := item]);
    }
  }

  /**
   * When population runs to the end over headers numbered `first`, `first + 1`, ..., the
   * `j`-th header's item is in the result map and in the cache under its number.
   */
  lemma {:induction false} FillInsertsHeader(headers: seq<Header>, transactions: seq<seq<Transaction>>, i: nat,
                                             items: FeeMap, cache: FeeMap, first: BlockNumber, j: nat)
    requires |headers| == |transactions| && i <= j < |headers|
    requires forall k :: 0 <= k < |headers| ==> headers[k].number == first + k
    ensures var fill := FillFrom(headers, transactions, i, items, cache);
      fill.stop.None? ==>
        && first + j in fill.items && fill.items[first + j] == ItemFor(headers[j])
        && first + j in fill.cache && fill.cache[first + j] == ItemFor(headers[j])
    decreases |headers| - i
  {
    if RewardHazard(transactions[i]).None? {
      var item := ItemFor(headers[i]);
      var items', cache' := items[first + i := item], cache[first + i := item];
      if j == i {
        FillLeavesOthersAlone(headers, transactions, i + 1, items', cache', first + i);
      } else {
        FillInsertsHeader(headers, transactions, i + 1, items', cache', first, j);
      }
    }
  }

  /**
   * The header loop runs to the end exactly when no block from `i` on has a reward
   * hazard; otherwise it stops with the hazard of the first block that has one.
   */
  lemma {:induction false} FillStopsAtFirstHazard(headers: seq<Header>, transactions: seq<seq<Transaction>>, i: nat,
                                                  items: FeeMap, cache: FeeMap)
    requires |headers| == |transactions| && i <= |headers|
    ensures var fill := FillFrom(headers, transactions, i, items, cache);
      && (fill.stop.None? <==> forall j :: i <= j < |headers| ==> RewardHazard(transactions[j]).None?)
      && (fill.stop.Some? ==>
            exists j :: && i <= j < |headers| && fill.stop == RewardHazard(transactions[j])
                        && forall k :: i <= k < j ==> RewardHazard(transactions[k]).None?)
    decreases |headers| - i
  {
    if i < |headers| {
      if RewardHazard(transactions[i]).None? {
        var item := ItemFor(headers[i]);
        FillStopsAtFirstHazard(headers, transactions, i + 1, items[headers[i].number := item], cache[headers[i].number := item]);
      } else {
        assert FillFrom(headers, transactions, i, items, cache).stop == RewardHazard(transactions[i]);
      }
    }
  }

  /**
   * A database error on either range query is returned as it is, and nothing is
   * populated; so is a range of the wrong length, as `InvalidBlockRange`.
   */
  lemma FetchFailures(provider: Provider, first: BlockNumber, last: BlockNumber, items: FeeMap, cache: FeeMap)
    ensures var headers, transactions := provider.headersRange(first, last), provider.transactionsByBlockRange(first, last);
      var fill := FetchMissing(provider, first, last, items, cache);
      && (headers.Failure? ==> fill == Fill(items, cache, Some(Err(ProviderFailure(headers.error)))))
      && (headers.Success? && transactions.Failure? ==> fill == Fill(items, cache, Some(Err(ProviderFailure(transactions.error)))))
      && (headers.Success? && transactions.Success?
          && (|headers.value| != last as int - first + 1 || |transactions.value| != last as int - first + 1) ==>
            fill == Fill(items, cache, Some(Err(InvalidBlockRange))))
  {
  }

  /**
   * Population completes exactly when nothing is missing, or when both range queries
   * succeed with one entry per missing block and no fetched block has a reward hazard;
   * with both queries answered in full, a stop is the first hazardous block's hazard.
   */
  lemma PopulatedCompletes(provider: Provider, firstNonCached: Option<BlockNumber>, lastNonCached: Option<BlockNumber>,
                           items: FeeMap, cache: FeeMap)
    ensures var fill := Populated(provider, firstNonCached, lastNonCached, items, cache);
      && (!(firstNonCached.Some? && lastNonCached.Some?) ==> fill == Fill(items, cache, None))
      && (firstNonCached.Some? && lastNonCached.Some? ==>
            var first, last := firstNonCached.value, lastNonCached.value;
            var headers, transactions := provider.headersRange(first, last), provider.transactionsByBlockRange(first, last);
            var fetched := && headers.Success? && transactions.Success?
                           && |headers.value| == last as int - first + 1 && |transactions.value| == last as int - first + 1;
            && (fill.stop.None? <==>
                  fetched && forall j :: 0 <= j < |transactions.value| ==> RewardHazard(transactions.value[j]).None?)
            && (fetched && fill.stop.Some? ==>
                  exists j :: && 0 <= j < |transactions.value| && fill.stop == RewardHazard(transactions.value[j])
                              && forall k :: 0 <= k < j ==> RewardHazard(transactions.value[k]).None?))
  {
    if firstNonCached.Some? && lastNonCached.Some? {
      var first, last := firstNonCached.value, lastNonCached.value;
      var headers, transactions := provider.headersRange(first, last), provider.transactionsByBlockRange(first, last);
      if && headers.Success? && transactions.Success?
         && |headers.value| == last as int - first + 1 && |transactions.value| == last as int - first + 1 {
        FillStopsAtFirstHazard(headers.value, transactions.value, 0, items, cache);
      }
    }
  }

  /**
   * The provider's contract for `headers_range(first..=last)`: the headers it returns
   * are numbered `first`, `first + 1`, ... in order.
   */
  ghost predicate HeadersNumbered(provider: Provider)
  {
    forall first: BlockNumber, last: BlockNumber ::
      provider.headersRange(first, last).Success? ==>
        forall j :: 0 <= j < |provider.headersRange(first, last).value| ==>
          provider.headersRange(first, last).value[j].number == first + j
  }

  /** The blocks the handler fetches from the database. */
  ghost function FetchedBlocks(firstNonCached: Option<BlockNumber>, lastNonCached: Option<BlockNumber>): set<BlockNumber>
  {
    if firstNonCached.Some? && lastNonCached.Some? then Interval(firstNonCached.value, lastNonCached.value + 1)
    else {}
  }

  /**
   * Population leaves every block it does not fetch as it was in both maps, keeps the
   * result map in agreement with the cache, and, when it completes, puts every fetched
   * block's item into both maps.
   */
  lemma PopulatedShape(provider: Provider, firstNonCached: Option<BlockNumber>, lastNonCached: Option<BlockNumber>,
                       items: FeeMap, cache: FeeMap)
    requires HeadersNumbered(provider)
    ensures var fill := Populated(provider, firstNonCached, lastNonCached, items, cache);
      && (forall b :: b !in FetchedBlocks(firstNonCached, lastNonCached) ==> SameAt(fill.items, items, b) && SameAt(fill.cache, cache, b))
      && (Agrees(items, cache) ==> Agrees(fill.items, fill.cache))
      && (fill.stop.None? ==>
            forall b :: b in FetchedBlocks(firstNonCached, lastNonCached) ==>
              && b in fill.items && b in fill.cache
              && fill.items[b] == ItemFor(provider.headersRange(firstNonCached.value, lastNonCached.value).value[b - firstNonCached.value]))
  {
    var fill := Populated(provider, firstNonCached, lastNonCached, items, cache);
    if firstNonCached.Some? && lastNonCached.Some? {
      var first, last := firstNonCached.value, lastNonCached.value;
      var headers, transactions := provider.headersRange(first, last), provider.transactionsByBlockRange(first, last);
      if headers.Success? && transactions.Success?
         && |headers.value| == last as int - first + 1 && |transactions.value| == last as int - first + 1 {
        var hs, ts := headers.value, transactions.value;
        assert fill == FillFrom(hs, ts, 0, items, cache);
        forall b | b !in FetchedBlocks(firstNonCached, lastNonCached)
          ensures SameAt(fill.items, items, b) && SameAt(fill.cache, cache, b)
        {
          FillLeavesOthersAlone(hs, ts, 0, items, cache, b);
        }
        if Agrees(items, cache) {
          FillKeepsAgreement(hs, ts, 0, items, cache);
        }
        if fill.stop.None? {
          forall b | b in FetchedBlocks(firstNonCached, lastNonCached)
            ensures b in fill.items && b in fill.cache && fill.items[b] == ItemFor(hs[b - first])
          {
            assert Within(b, first, last + 1);
            FillInsertsHeader(hs, ts, 0, items, cache, first, b - first);
          }
        }
      }
    }
  }

  /**
   * The database must return exactly one header and one transaction list per missing
   * block; otherwise the call fails with `InvalidBlockRange` and leaves the cache as it
   * was.
   */
  lemma LengthMismatchRejected(cache: FeeMap, blockCount: nat, newestBlock: BlockId,
                               rewardPercentiles: Option<seq<real>>, provider: Provider, newest: BlockNumber,
                               first: BlockNumber, last: BlockNumber,
                               headers: seq<Header>, transactions: seq<seq<Transaction>>)
    requires 1 <= blockCount <= newest + 1 && provider.blockNumberForId(newestBlock) == Success(Some(newest))
    requires FirstInvalidPercentile(PercentilesOf(rewardPercentiles), 0).None?
    requires FirstNonCached(cache, StartBlock(blockCount, newest), newest + 2) == Some(first)
    requires LastNonCached(cache, StartBlock(blockCount, newest), newest + 2) == Some(last)
    requires provider.headersRange(first, last) == Success(headers)
    requires provider.transactionsByBlockRange(first, last) == Success(transactions)
    requires |headers| != last - first + 1 || |transactions| != last - first + 1
    ensures FeeHistorySpec(cache, blockCount, newestBlock, rewardPercentiles, provider) == Run(Err(InvalidBlockRange), cache)
  {
    ChecksPassed(cache, blockCount, newestBlock, rewardPercentiles, provider, newest);
  }

  /**
   * The scan runs one block past the newest one. At the head of the chain that block is
   * in neither the cache nor the database, so a database that returns the headers it has
   * (one short of the range) makes the call fail with an invalid block range.
   */
  lemma ChainHeadRejected(cache: FeeMap, blockCount: nat, newestBlock: BlockId,
                          rewardPercentiles: Option<seq<real>>, provider: Provider, newest: BlockNumber,
                          first: BlockNumber, headers: seq<Header>, transactions: seq<seq<Transaction>>)
    requires 1 <= blockCount <= newest + 1 && provider.blockNumberForId(newestBlock) == Success(Some(newest))
    requires FirstInvalidPercentile(PercentilesOf(rewardPercentiles), 0).None?
    requires newest + 1 !in cache
    requires FirstNonCached(cache, StartBlock(blockCount, newest), newest + 2) == Some(first)
    requires provider.headersRange(first, newest + 1) == Success(headers) && |headers| == newest + 1 - first
    requires provider.transactionsByBlockRange(first, newest + 1) == Success(transactions)
    ensures FeeHistorySpec(cache, blockCount, newestBlock, rewardPercentiles, provider) == Run(Err(InvalidBlockRange), cache)
  {
    assert LastNonCached(cache, StartBlock(blockCount, newest), newest + 2) == Some(newest + 1);
    LengthMismatchRejected(cache, blockCount, newestBlock, rewardPercentiles, provider, newest,
                           first, newest + 1, headers, transactions);
  }

  // ---------------------------------------------------------------------------
  // Assembly

  /** `n` empty reward lists. */
  function NoRewards(n: nat): (rs: seq<seq<nat>>)
    ensures |rs| == n && forall i :: 0 <= i < n ==> rs[i] == []
  {
    seq(n, _ => [])
  }

  lemma {:induction false} IncreasingLowerBound(ks: seq<nat>, lo: nat, i: nat)
    requires forall a, b :: 0 <= a < b < |ks| ==> ks[a] < ks[b]
    requires forall a :: 0 <= a < |ks| ==> lo <= ks[a]
    requires i < |ks|
    ensures lo + i <= ks[i]
  {
    if i > 0 {
      IncreasingLowerBound(ks, lo, i - 1);
    }
  }

  lemma {:induction false} IncreasingUpperBound(ks: seq<nat>, hi: nat, i: nat)
    requires forall a, b :: 0 <= a < b < |ks| ==> ks[a] < ks[b]
    requires forall a :: 0 <= a < |ks| ==> ks[a] < hi
    requires i < |ks|
    ensures ks[i] + |ks| - i <= hi
    decreases |ks| - i
  {
    if i + 1 < |ks| {
      IncreasingUpperBound(ks, hi, i + 1);
    }
  }

  /** Iterating a map visits every one of its keys. */
  lemma {:induction false} AscendingKeysComplete(keys: set<nat>)
    ensures forall k :: k in keys ==> k in AscendingKeys(keys)
    decreases |keys|
  {
    if keys != {} {
      var m := Least(keys);
      AscendingKeysComplete(keys - {m});
      assert AscendingKeys(keys) == [m] + AscendingKeys(keys - {m});
    }
  }

  /** Iterating a map whose keys are `lo..hi` visits `lo`, `lo + 1`, ... in turn. */
  lemma AscendingInterval(lo: nat, hi: nat)
    requires lo <= hi
    ensures var ks := AscendingKeys(Interval(lo, hi));
      |ks| == hi - lo && forall i :: 0 <= i < |ks| ==> ks[i] == lo + i
  {
    var ks := AscendingKeys(Interval(lo, hi));
    IntervalSize(lo, hi);
    forall i | 0 <= i < |ks|
      ensures ks[i] == lo + i
    {
      IncreasingLowerBound(ks, lo, i);
      IncreasingUpperBound(ks, hi, i);
    }
  }

  /** With every reward pending, `filter_map` keeps one empty list per block. */
  lemma {:induction false} RewardsOfPending(items: FeeMap, ks: seq<nat>)
    requires forall i :: 0 <= i < |ks| ==> ks[i] in items
    requires RewardsPending(items)
    ensures Rewards(items, ks) == NoRewards(|ks|)
  {
    if ks != [] {
      RewardsOfPending(items, ks[1..]);
      assert items[ks[0]].reward == Some([]);
    }
  }

  /** `Vec::pop`: the last element goes, the others stay in order; an empty vector stays empty. */
  lemma PopDropsLast<T>(s: seq<T>)
    ensures s == [] ==> Pop(s) == []
    ensures s != [] ==> |Pop(s)| == |s| - 1 && Pop(s) + [s[|s| - 1]] == s
  {
  }

  /** `filter_map` keeps at most one reward list per block, and one for each exactly when none is missing. */
  lemma {:induction false} RewardsOnePerBlock(items: FeeMap, ks: seq<nat>)
    requires forall i :: 0 <= i < |ks| ==> ks[i] in items
    ensures |Rewards(items, ks)| <= |ks|
    ensures |Rewards(items, ks)| == |ks| <==> forall i :: 0 <= i < |ks| ==> items[ks[i]].reward.Some?
  {
    if ks != [] {
      RewardsOnePerBlock(items, ks[1..]);
      if forall i :: 0 <= i < |ks| - 1 ==> items[ks[1..][i]].reward.Some? {
        if items[ks[0]].reward.Some? {
          forall i | 0 <= i < |ks|
            ensures items[ks[i]].reward.Some?
          {
            if i > 0 {
              assert ks[i] == ks[1..][i - 1];
            }
          }
        }
      } else {
        var j :| 0 <= j < |ks| - 1 && items[ks[1..][j]].reward.None?;
        assert items[ks[j + 1]].reward.None?;
      }
    }
  }

  /**
   * The response's shape: the oldest block it was given, one base fee per block, one
   * gas-used ratio for each block but the last, no more reward lists than ratios, and
   * as many when no block lacks its reward list.
   */
  lemma AssembledShape(items: FeeMap, oldestBlock: BlockNumber)
    ensures var h := Assemble(items, oldestBlock);
      && h.oldestBlock == oldestBlock
      && |h.baseFeePerGas| == |items|
      && |h.gasUsedRatio| == (if |items| == 0 then 0 else |items| - 1)
      && h.reward.Some? && |h.reward.value| <= |h.gasUsedRatio|
      && ((forall b :: b in items ==> items[b].reward.Some?) ==> |h.reward.value| == |h.gasUsedRatio|)
  {
    var ks := AscendingKeys(items.Keys);
    assert |ks| == |items|;
    RewardsOnePerBlock(items, ks);
    PopDropsLast(Rewards(items, ks));
    PopDropsLast(seq(|ks|, i requires 0 <= i < |ks| => items[ks[i]].gasUsedRatio));
  }

  /** The response lists every block's base fee, in ascending block order. */
  lemma AssembledBaseFees(items: FeeMap, lo: nat, hi: nat, oldestBlock: BlockNumber)
    requires lo <= hi && items.Keys == Interval(lo, hi)
    ensures var fees := Assemble(items, oldestBlock).baseFeePerGas;
      |fees| == hi - lo && forall i :: 0 <= i < hi - lo ==> fees[i] == items[lo + i].baseFeePerGas
  {
    AscendingInterval(lo, hi);
  }

  /** The response lists the gas-used ratio of every block but the last, in ascending block order. */
  lemma AssembledRatios(items: FeeMap, lo: nat, hi: nat, oldestBlock: BlockNumber)
    requires lo < hi && items.Keys == Interval(lo, hi)
    ensures var ratios := Assemble(items, oldestBlock).gasUsedRatio;
      |ratios| == hi - lo - 1 && forall i :: 0 <= i < hi - lo - 1 ==> ratios[i] == items[lo + i].gasUsedRatio
  {
    AscendingInterval(lo, hi);
    var ks := AscendingKeys(items.Keys);
    var all := seq(|ks|, i requires 0 <= i < |ks| => items[ks[i]].gasUsedRatio);
    assert Assemble(items, oldestBlock).gasUsedRatio == Pop(all) == all[..|ks| - 1];
  }

  /** With every reward pending, the response holds one empty reward list per block but the last. */
  lemma AssembledRewards(items: FeeMap, lo: nat, hi: nat, oldestBlock: BlockNumber)
    requires lo < hi && items.Keys == Interval(lo, hi) && RewardsPending(items)
    ensures Assemble(items, oldestBlock).reward == Some(NoRewards(hi - lo - 1))
  {
    AscendingInterval(lo, hi);
    var ks := AscendingKeys(items.Keys);
    RewardsOfPending(items, ks);
    assert Pop(NoRewards(|ks|)) == NoRewards(|ks| - 1);
  }

  // ---------------------------------------------------------------------------
  // The handler as a whole

  /**
   * When population completes, the result map holds exactly the scanned range: the
   * cached blocks from the scan and the fetched interval between the first and the last
   * missing block fill it without gaps. It agrees with the cache.
   */
  lemma PopulatedCoversRange(provider: Provider, cache: FeeMap, lo: nat, hi: nat)
    requires HeadersNumbered(provider)
    ensures var fill := Populated(provider, FirstNonCached(cache, lo, hi), LastNonCached(cache, lo, hi), CachedIn(cache, lo, hi), cache);
      fill.stop.None? ==> fill.items.Keys == Interval(lo, hi) && Agrees(fill.items, fill.cache)
  {
    var items := CachedIn(cache, lo, hi);
    var first, last := FirstNonCached(cache, lo, hi), LastNonCached(cache, lo, hi);
    var fill := Populated(provider, first, last, items, cache);
    PopulatedShape(provider, first, last, items, cache);
    if fill.stop.None? {
      forall b
        ensures b in fill.items <==> b in Interval(lo, hi)
      {
        if b !in FetchedBlocks(first, last) {
          assert SameAt(fill.items, items, b);
        }
      }
    }
  }

  /**
   * `run` answered successfully for the `count` blocks from `start`: `oldest_block` is
   * `start`, there is one base fee for each of the `count + 1` blocks from `start` (the
   * requested ones and the next), one gas-used ratio and one empty reward list for each
   * requested block, and each entry is the one the cache now holds for that block.
   */
  ghost predicate CoversRange(run: Run, start: BlockNumber, count: nat)
  {
    && run.response.Ok?
    && run.response.history.oldestBlock == start
    && |run.response.history.baseFeePerGas| == count + 1
    && |run.response.history.gasUsedRatio| == count
    && run.response.history.reward == Some(NoRewards(count))
    && (forall i :: 0 <= i <= count ==>
          start + i in run.cache && run.response.history.baseFeePerGas[i] == run.cache[start + i].baseFeePerGas)
    && (forall i :: 0 <= i < count ==>
          start + i in run.cache && run.response.history.gasUsedRatio[i] == run.cache[start + i].gasUsedRatio)
  }

  /**
   * Recording the oldest block's hash and assembling a result map that holds exactly
   * the blocks from `startBlock` up to `hi` covers that range.
   */
  lemma FinishCoversRange(provider: Provider, startBlock: BlockNumber, hi: nat, items: FeeMap, cache: FeeMap)
    requires startBlock < hi && items.Keys == Interval(startBlock, hi)
    requires RewardsPending(items) && Agrees(items, cache)
    requires Finish(provider, startBlock, items, cache).response.Ok?
    ensures CoversRange(Finish(provider, startBlock, items, cache), startBlock, hi - startBlock - 1)
  {
    var hash := provider.blockHash(startBlock).value;
    var items' := items[startBlock := items[startBlock].(hash := hash)];
    var cache' := cache[startBlock := cache[startBlock].(hash := hash)];
    assert Finish(provider, startBlock, items, cache) == Run(Ok(Assemble(items', startBlock)), cache');
    assert items'.Keys == Interval(startBlock, hi);
    assert Agrees(items', cache');
    AssembledBaseFees(items', startBlock, hi, startBlock);
    AssembledRatios(items', startBlock, hi, startBlock);
    AssembledRewards(items', startBlock, hi, startBlock);
  }

  /**
   * A call with a known newest block, a range inside the chain and accepted percentiles
   * is served from the start block up to the newest block.
   */
  lemma ChecksPassed(cache: FeeMap, blockCount: nat, newestBlock: BlockId, rewardPercentiles: Option<seq<real>>,
                     provider: Provider, newest: BlockNumber)
    requires 1 <= blockCount <= newest + 1 && provider.blockNumberForId(newestBlock) == Success(Some(newest))
    requires FirstInvalidPercentile(PercentilesOf(rewardPercentiles), 0).None?
    ensures FeeHistorySpec(cache, blockCount, newestBlock, rewardPercentiles, provider)
            == Serve(cache, StartBlock(blockCount, newest), newest + 1, provider)
  {
  }

  /** A successful call got past every early return and population, and ended in `Finish`. */
  lemma OkRunFinishes(cache: FeeMap, blockCount: nat, newestBlock: BlockId, rewardPercentiles: Option<seq<real>>,
                      provider: Provider, newest: BlockNumber)
    requires 1 <= blockCount && provider.blockNumberForId(newestBlock) == Success(Some(newest))
    requires FeeHistorySpec(cache, blockCount, newestBlock, rewardPercentiles, provider).response.Ok?
    ensures blockCount <= newest + 1
    ensures FirstInvalidPercentile(PercentilesOf(rewardPercentiles), 0).None?
    ensures var start, hi := StartBlock(blockCount, newest), newest + 2;
      var filled := Populated(provider, FirstNonCached(cache, start, hi), LastNonCached(cache, start, hi), CachedIn(cache, start, hi), cache);
      && filled.stop.None?
      && FeeHistorySpec(cache, blockCount, newestBlock, rewardPercentiles, provider) == Finish(provider, start, filled.items, filled.cache)
  {
    ChecksPassed(cache, blockCount, newestBlock, rewardPercentiles, provider, newest);
  }

  /**
   * A successful response covers the whole requested range, from the start block
   * `newest + 1 - block_count` on, with entries that match the cache.
   */
  lemma ResponseCoversRange(cache: FeeMap, blockCount: nat, newestBlock: BlockId, rewardPercentiles: Option<seq<real>>,
                            provider: Provider, newest: BlockNumber)
    requires HeadersNumbered(provider) && RewardsPending(cache)
    requires 1 <= blockCount && provider.blockNumberForId(newestBlock) == Success(Some(newest))
    requires FeeHistorySpec(cache, blockCount, newestBlock, rewardPercentiles, provider).response.Ok?
    ensures CoversRange(FeeHistorySpec(cache, blockCount, newestBlock, rewardPercentiles, provider), newest + 1 - blockCount, blockCount)
  {
    OkRunFinishes(cache, blockCount, newestBlock, rewardPercentiles, provider, newest);
    var start: BlockNumber, hi := newest + 1 - blockCount, newest + 2;
    assert StartBlock(blockCount, newest) == start && hi - start - 1 == blockCount;
    PopulatedFinishCovers(provider, cache, start, hi);
  }

  /** Completed population of `start..hi` followed by a successful `Finish` covers that range. */
  lemma PopulatedFinishCovers(provider: Provider, cache: FeeMap, start: BlockNumber, hi: nat)
    requires HeadersNumbered(provider) && RewardsPending(cache) && start < hi
    requires var filled := Populated(provider, FirstNonCached(cache, start, hi), LastNonCached(cache, start, hi), CachedIn(cache, start, hi), cache);
      filled.stop.None? && Finish(provider, start, filled.items, filled.cache).response.Ok?
    ensures var filled := Populated(provider, FirstNonCached(cache, start, hi), LastNonCached(cache, start, hi), CachedIn(cache, start, hi), cache);
      CoversRange(Finish(provider, start, filled.items, filled.cache), start, hi - start - 1)
  {
    var items := CachedIn(cache, start, hi);
    var first, last := FirstNonCached(cache, start, hi), LastNonCached(cache, start, hi);
    var filled := Populated(provider, first, last, items, cache);
    PopulatedCoversRange(provider, cache, start, hi);
    PopulatedKeepsRewardsPending(provider, first, last, items, cache);
    FinishCoversRange(provider, start, hi, filled.items, filled.cache);
  }

  /** `Finish` changes the cache at most at the oldest block. */
  lemma FinishLeavesOthersAlone(provider: Provider, startBlock: BlockNumber, items: FeeMap, cache: FeeMap, b: BlockNumber)
    requires b != startBlock
    ensures SameAt(Finish(provider, startBlock, items, cache).cache, cache, b)
  {
  }

  /** On success, `Finish` has set the oldest block's hash in the cache and changed nothing else in its entry. */
  lemma FinishRecordsHash(provider: Provider, startBlock: BlockNumber, items: FeeMap, cache: FeeMap)
    requires Finish(provider, startBlock, items, cache).response.Ok?
    ensures provider.blockHash(startBlock).Success? && provider.blockHash(startBlock).value.Some?
    ensures startBlock in cache && startBlock in Finish(provider, startBlock, items, cache).cache
    ensures Finish(provider, startBlock, items, cache).cache[startBlock] == cache[startBlock].(hash := provider.blockHash(startBlock).value)
  {
  }

  /**
   * Whatever the outcome, a call changes the cache at most at the blocks it fetched from
   * the database and at the oldest block, whose hash it records.
   */
  lemma CacheChangesOnlyAtFetchedOrOldest(cache: FeeMap, blockCount: nat, newestBlock: BlockId,
                                          rewardPercentiles: Option<seq<real>>, provider: Provider,
                                          newest: BlockNumber, b: BlockNumber)
    requires HeadersNumbered(provider)
    requires 1 <= blockCount <= newest + 1 && provider.blockNumberForId(newestBlock) == Success(Some(newest))
    requires b != StartBlock(blockCount, newest)
    requires b !in FetchedBlocks(FirstNonCached(cache, StartBlock(blockCount, newest), newest + 2),
                                 LastNonCached(cache, StartBlock(blockCount, newest), newest + 2))
    ensures SameAt(FeeHistorySpec(cache, blockCount, newestBlock, rewardPercentiles, provider).cache, cache, b)
  {
    var start, hi := StartBlock(blockCount, newest), newest + 2;
    var items := CachedIn(cache, start, hi);
    var first, last := FirstNonCached(cache, start, hi), LastNonCached(cache, start, hi);
    var filled := Populated(provider, first, last, items, cache);
    PopulatedShape(provider, first, last, items, cache);
    assert SameAt(filled.cache, cache, b);
    var run := FeeHistorySpec(cache, blockCount, newestBlock, rewardPercentiles, provider);
    if FirstInvalidPercentile(PercentilesOf(rewardPercentiles), 0).Some? {
      assert run.cache == cache;
    } else {
      ChecksPassed(cache, blockCount, newestBlock, rewardPercentiles, provider, newest);
      if filled.stop.Some? {
        assert run.cache == filled.cache;
      } else {
        assert run == Finish(provider, start, filled.items, filled.cache);
        FinishLeavesOthersAlone(provider, start, filled.items, filled.cache, b);
      }
    }
  }

  /**
   * `item` is the one built from `header`: the header's base fee (0 for a block before
   * EIP-1559, which has none), its gas used over its gas limit, and no rewards.
   */
  ghost predicate BuiltFrom(item: FeeHistoryCacheItem, header: Header)
  {
    && item.baseFeePerGas == (if header.baseFeePerGas.Some? then header.baseFeePerGas.value else 0)
    && item.gasUsedRatio == GasUsedRatio(header.gasUsed, header.gasLimit)
    && item.reward == Some([])
  }

  /** A completed population puts each fetched header's item into the cache under its number. */
  lemma PopulatedCachesHeader(provider: Provider, first: BlockNumber, last: BlockNumber, headers: seq<Header>,
                              items: FeeMap, cache: FeeMap, b: BlockNumber)
    requires HeadersNumbered(provider)
    requires provider.headersRange(first, last) == Success(headers) && |headers| == last - first + 1
    requires first <= b <= last
    ensures var fill := Populated(provider, Some(first), Some(last), items, cache);
      fill.stop.None? ==> b in fill.cache && fill.cache[b] == ItemFor(headers[b - first])
  {
    var fill := Populated(provider, Some(first), Some(last), items, cache);
    if fill.stop.None? {
      var ts := provider.transactionsByBlockRange(first, last).value;
      assert fill == FillFrom(headers, ts, 0, items, cache);
      FillInsertsHeader(headers, ts, 0, items, cache, first, b - first);
    }
  }

  /** On success, `Finish` keeps every cache entry but the oldest block's hash. */
  lemma FinishKeepsEntry(provider: Provider, startBlock: BlockNumber, items: FeeMap, cache: FeeMap, b: BlockNumber)
    requires Finish(provider, startBlock, items, cache).response.Ok?
    requires b in cache
    ensures b in Finish(provider, startBlock, items, cache).cache
    ensures Finish(provider, startBlock, items, cache).cache[b].(hash := cache[b].hash) == cache[b]
    ensures b != startBlock ==> Finish(provider, startBlock, items, cache).cache[b] == cache[b]
  {
  }

  /**
   * After a successful call, every block fetched from the database is in the cache with
   * the item built from its header. Only the oldest block's entry carries a hash.
   */
  lemma OkCachesFetchedHeaders(cache: FeeMap, blockCount: nat, newestBlock: BlockId,
                               rewardPercentiles: Option<seq<real>>, provider: Provider, newest: BlockNumber,
                               first: BlockNumber, last: BlockNumber, headers: seq<Header>, b: BlockNumber)
    requires HeadersNumbered(provider)
    requires 1 <= blockCount <= newest + 1 && provider.blockNumberForId(newestBlock) == Success(Some(newest))
    requires FeeHistorySpec(cache, blockCount, newestBlock, rewardPercentiles, provider).response.Ok?
    requires FirstNonCached(cache, StartBlock(blockCount, newest), newest + 2) == Some(first)
    requires LastNonCached(cache, StartBlock(blockCount, newest), newest + 2) == Some(last)
    requires provider.headersRange(first, last) == Success(headers) && |headers| == last - first + 1
    requires first <= b <= last
    ensures var run := FeeHistorySpec(cache, blockCount, newestBlock, rewardPercentiles, provider);
      && b in run.cache
      && BuiltFrom(run.cache[b], headers[b - first])
      && (b != newest + 1 - blockCount ==> run.cache[b].hash.None?)
  {
    OkRunFinishes(cache, blockCount, newestBlock, rewardPercentiles, provider, newest);
    var start, hi := StartBlock(blockCount, newest), newest + 2;
    var items := CachedIn(cache, start, hi);
    var filled := Populated(provider, Some(first), Some(last), items, cache);
    PopulatedCachesHeader(provider, first, last, headers, items, cache, b);
    FinishKeepsEntry(provider, start, filled.items, filled.cache, b);
  }

  /**
   * After a successful call the oldest block's cache entry carries the hash the database
   * returned for it; if that block was cached before, nothing else in its entry changed.
   */
  lemma OkRecordsOldestHash(cache: FeeMap, blockCount: nat, newestBlock: BlockId,
                            rewardPercentiles: Option<seq<real>>, provider: Provider, newest: BlockNumber)
    requires HeadersNumbered(provider)
    requires 1 <= blockCount <= newest + 1 && provider.blockNumberForId(newestBlock) == Success(Some(newest))
    requires FeeHistorySpec(cache, blockCount, newestBlock, rewardPercentiles, provider).response.Ok?
    ensures var run := FeeHistorySpec(cache, blockCount, newestBlock, rewardPercentiles, provider);
      var start := newest + 1 - blockCount;
      && provider.blockHash(start).Success? && provider.blockHash(start).value.Some?
      && start in run.cache && run.cache[start].hash == provider.blockHash(start).value
      && (start in cache ==> run.cache[start] == cache[start].(hash := provider.blockHash(start).value))
  {
    OkRunFinishes(cache, blockCount, newestBlock, rewardPercentiles, provider, newest);
    var start, hi := StartBlock(blockCount, newest), newest + 2;
    var items := CachedIn(cache, start, hi);
    var first, last := FirstNonCached(cache, start, hi), LastNonCached(cache, start, hi);
    var filled := Populated(provider, first, last, items, cache);
    var run := FeeHistorySpec(cache, blockCount, newestBlock, rewardPercentiles, provider);
    assert run == Finish(provider, start, filled.items, filled.cache);
    FinishRecordsHash(provider, start, filled.items, filled.cache);
    assert start in run.cache && run.cache[start] == filled.cache[start].(hash := provider.blockHash(start).value);
    if start in cache {
      PopulatedShape(provider, first, last, items, cache);
      assert start !in FetchedBlocks(first, last);
      assert filled.cache[start] == cache[start];
    }
  }
}
