/**
 * The chain client adapter. Submitting a transfer and fetching a receipt are
 * foreign calls; they appear here as oracles. The mapping from a receipt to a
 * transaction status and the start-up check on the relayer key are modelled.
 */
module Blockchain {
  import opened Wrappers
  import opened Domain

  /** The receipt status the chain reports for a successful transaction. */
  const SuccessStatus: string := "success"

  /**
   * What fetching a receipt yields: a receipt carrying its status, or an
   * exception (no receipt yet, or the query itself failed).
   */
  datatype ReceiptLookup = Receipt(status: string) | LookupError

  /** Submitting a transfer of `amount` to `to`: the new hash, or None when the call raised. */
  type SendOracle = (string, string) -> Option<string>

  /** Fetching the receipt of a hash at the moment of asking. */
  type ReceiptOracle = string -> ReceiptLookup

  /** The receipt-to-status mapping of `getTransactionStatus`; it never raises. */
  function ReceiptToStatus(q: ReceiptLookup): (s: TxStatus)
    ensures s == Confirmed <==> q.Receipt? && q.status == SuccessStatus
    ensures s == Failed <==> q.Receipt? && q.status != SuccessStatus
    ensures s == Pending <==> q.LookupError?
  {
    match q
    case Receipt(status) => if status == SuccessStatus then Confirmed else Failed
    case LookupError => Pending
  }

  /** Why the service refuses to start. */
  datatype StartupError = MissingRelayerKey | InvalidRelayerKey

  /** A constructed service: the RPC endpoint and the relayer account's address. */
  datatype BlockchainService = BlockchainService(rpcUrl: Option<string>, relayerAddress: string)

  /**
   * Construction. `relayerKey` is the configured private key (None when unset);
   * `toAccount` derives an address from a key, None when the key is rejected.
   * An unset or empty key is falsy and aborts start-up before any derivation.
   */
  function NewBlockchainService(rpcUrl: Option<string>, relayerKey: Option<string>,
                                toAccount: string -> Option<string>): (r: Result<BlockchainService, StartupError>)
    ensures r == Failure(MissingRelayerKey) <==> relayerKey.None? || relayerKey.value == ""
    ensures r.Success? <==> relayerKey.Some? && relayerKey.value != "" && toAccount(relayerKey.value).Some?
    ensures r.Success? ==> GetRelayerAddress(r.value) == toAccount(relayerKey.value).value
  {
    if relayerKey.None? || relayerKey.value == "" then Failure(MissingRelayerKey)
    else match toAccount(relayerKey.value)
      case None => Failure(InvalidRelayerKey)
      case Some(address) => Success(BlockchainService(rpcUrl, address))
  }

  /** The relayer's address, fixed at construction. */
  function GetRelayerAddress(svc: BlockchainService): string {
    svc.relayerAddress
  }
}
