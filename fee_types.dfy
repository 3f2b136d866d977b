/**
 * Values of the `eth_feeHistory` handler: blocks and headers as the provider returns
 * them, cache items, the response, the handler's errors, and the provider itself.
 */
module FeeTypes {
  import opened Wrappers

  type BlockNumber = nat

  /** A block identifier (number, tag or hash); only the provider resolves it. */
  datatype BlockId = BlockId(raw: nat)

  datatype BlockHash = BlockHash(value: nat)

  /**
   * `gas_used as f64 / gas_limit as f64`, kept unevaluated: floating point is not part
   * of this model, so the ratio is carried as its two operands.
   */
  datatype GasUsedRatio = GasUsedRatio(gasUsed: nat, gasLimit: nat)

  /** The header fields the handler reads; `baseFeePerGas` is absent before EIP-1559. */
  datatype Header = Header(number: BlockNumber, baseFeePerGas: Option<nat>, gasUsed: nat, gasLimit: nat)

  /**
   * A transaction, seen only through `effective_gas_price` for its block's base fee
   * (None when the fee cap is below the base fee); that computation is not part of this
   * model.
   */
  datatype Transaction = Transaction(effectiveGasPrice: Option<nat>)

  /** `FeeHistoryCacheItem`. */
  datatype FeeHistoryCacheItem = FeeHistoryCacheItem(
    hash: Option<BlockHash>,
    baseFeePerGas: nat,
    gasUsedRatio: GasUsedRatio,
    reward: Option<seq<nat>>)

  /** `FeeHistory`, the response. */
  datatype FeeHistory = FeeHistory(
    baseFeePerGas: seq<nat>,
    gasUsedRatio: seq<GasUsedRatio>,
    oldestBlock: nat,
    reward: Option<seq<seq<nat>>>)

  /** `FeeHistory::default()`. */
  const DefaultFeeHistory: FeeHistory := FeeHistory([], [], 0, None)

  /** An error the provider (database) reports; its causes are not modelled. */
  datatype ProviderError = ProviderError(code: nat)

  /** The `EthApiError`s the handler returns. */
  datatype EthApiError =
    | UnknownBlockNumber
    | InvalidBlockRange
    | InvalidRewardPercentile(percentile: real)
    | FeeCapTooLow
    | ProviderFailure(cause: ProviderError)

  /** The places where the handler panics instead of returning. */
  datatype PanicSite =
    | EmptyBlock              // `sorter[0]` on a block without transactions
    | MissingOldestBlockHash  // `block_hash(start_block)?.unwrap()` on None
    | OldestBlockNotInResult  // `fee_history_cache_items.get_mut(&start_block).unwrap()`
    | OldestBlockNotInCache   // `fee_history_cache.get_mut(&start_block).unwrap()`

  /** How one call of the handler ends. */
  datatype Response = Ok(history: FeeHistory) | Err(error: EthApiError) | Panic(site: PanicSite)

  /** The provider's answers, as functions of their arguments (ranges are inclusive). */
  datatype Provider = Provider(
    blockNumberForId: BlockId -> Result<Option<BlockNumber>, ProviderError>,
    headersRange: (BlockNumber, BlockNumber) -> Result<seq<Header>, ProviderError>,
    transactionsByBlockRange: (BlockNumber, BlockNumber) -> Result<seq<seq<Transaction>>, ProviderError>,
    blockHash: BlockNumber -> Result<Option<BlockHash>, ProviderError>)

  /** The fee-history cache and the sorted result map: block number to item. */
  type FeeMap = map<BlockNumber, FeeHistoryCacheItem>
}
