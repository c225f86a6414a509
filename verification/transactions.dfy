/**
 * The transaction lifecycle: submitting a transfer after an ordered series of
 * checks, and answering status inquiries by lazily reconciling a pending
 * record with the chain. Every operation returns the store afterwards and the
 * calls it made to the chain.
 */
module Transactions {
  import opened Wrappers
  import opened Domain
  import opened Blockchain

  /** The configured default for the per-transaction cap, in chain-native units. */
  const DefaultMaxAmount: string := "0.1"

  /**
   * The service's collaborators and settings. `isAddress` is the chain
   * library's address check and `parseAmount` is the language's `parseFloat`
   * (None for NaN); both are foreign. `maxSetting` is the configured cap, None when unset.
   */
  datatype Config = Config(isAddress: string -> bool, parseAmount: string -> Option<real>, maxSetting: Option<string>)

  /** The cap read at construction: the parsed setting, or the parsed default. None is NaN. */
  function MaxAmount(cfg: Config): Option<real> {
    cfg.parseAmount(if cfg.maxSetting.Some? then cfg.maxSetting.value else DefaultMaxAmount)
  }

  /** A parsed amount that is neither NaN nor at most zero. */
  predicate IsPositive(amount: Option<real>) {
    amount.Some? && amount.value > 0.0
  }

  /** Not above the cap. A comparison with NaN is false, so a NaN cap admits everything. */
  predicate WithinCap(amount: real, cap: Option<real>) {
    !(cap.Some? && amount > cap.value)
  }

  /** All four checks of a submission pass. */
  predicate Admissible(cfg: Config, users: UserStore, userId: string, to: string, amount: string) {
    && userId in users
    && cfg.isAddress(to)
    && IsPositive(cfg.parseAmount(amount))
    && WithinCap(cfg.parseAmount(amount).value, MaxAmount(cfg))
  }

  /** An answer, the transaction store afterwards and the chain calls made. */
  datatype Reply<+T> = Reply(result: Result<T, Error>, txs: TxStore, calls: seq<ChainCall>)

  predicate IsLimitError(r: Result<string, Error>) {
    r.Failure? && r.error.BadRequest? && r.error.reason.ExceedsLimit?
  }

  /**
   * `executeTransaction`. The checks run in the order user, destination,
   * positive amount, cap; the first failing one decides the error and none is
   * preceded by a chain call. Then one submission, then one pending record
   * under the returned hash.
   */
  function ExecuteTransaction(cfg: Config, users: UserStore, txs: TxStore,
                              userId: string, to: string, amount: string, send: SendOracle): (r: Reply<string>)
    ensures r.result == Failure(NotFound(User)) <==> userId !in users
    ensures r.result == Failure(BadRequest(InvalidDestination)) <==>
      userId in users && !cfg.isAddress(to)
    ensures r.result == Failure(BadRequest(NonPositiveAmount)) <==>
      userId in users && cfg.isAddress(to) && !IsPositive(cfg.parseAmount(amount))
    ensures IsLimitError(r.result) <==>
      && userId in users && cfg.isAddress(to) && IsPositive(cfg.parseAmount(amount))
      && !WithinCap(cfg.parseAmount(amount).value, MaxAmount(cfg))
    ensures IsLimitError(r.result) ==> MaxAmount(cfg) == Some(r.result.error.reason.limit)
    ensures !Admissible(cfg, users, userId, to, amount) ==> r.calls == [] && r.txs == txs
    ensures Admissible(cfg, users, userId, to, amount) ==> r.calls == [SendTransaction(to, amount)]
    ensures r.result == Failure(Upstream) <==>
      Admissible(cfg, users, userId, to, amount) && send(to, amount).None?
    ensures r.result == Failure(Persistence) <==>
      Admissible(cfg, users, userId, to, amount) && send(to, amount).Some? && send(to, amount).value in txs
    ensures r.result.Success? <==>
      Admissible(cfg, users, userId, to, amount) && send(to, amount).Some? && send(to, amount).value !in txs
    ensures r.result.Success? ==>
      && r.result.value == send(to, amount).value
      && r.txs == txs[r.result.value := TxRecord(userId, to, amount, Pending)]
    ensures r.result.Failure? ==> r.txs == txs
    ensures Evolves(txs, r.txs)
  {
    if userId !in users then Reply(Failure(NotFound(User)), txs, [])
    else if !cfg.isAddress(to) then Reply(Failure(BadRequest(InvalidDestination)), txs, [])
    else
      var amountNum := cfg.parseAmount(amount);
      if !IsPositive(amountNum) then Reply(Failure(BadRequest(NonPositiveAmount)), txs, [])
      else if !WithinCap(amountNum.value, MaxAmount(cfg)) then
        Reply(Failure(BadRequest(ExceedsLimit(MaxAmount(cfg).value))), txs, [])
      else
        var calls := [SendTransaction(to, amount)];
        match send(to, amount)
        case None => Reply(Failure(Upstream), txs, calls)
        case Some(hash) =>
          if hash in txs then Reply(Failure(Persistence), txs, calls)
          else Reply(Success(hash), txs[hash := TxRecord(userId, to, amount, Pending)], calls)
  }

  /**
   * `getTransactionStatus`. A terminal record is answered from the store; a
   * pending one asks the chain once and stores the outcome only when it is
   * terminal.
   */
  function GetTransactionStatus(txs: TxStore, hash: string, lookup: ReceiptOracle): (r: Reply<TxStatus>)
    ensures r.result.Failure? <==> hash !in txs
    ensures r.result.Failure? ==> r.result.error == NotFound(Transaction) && r.txs == txs && r.calls == []
    ensures hash in txs && txs[hash].status.IsTerminal() ==>
      r.result == Success(txs[hash].status) && r.txs == txs && r.calls == []
    ensures hash in txs && txs[hash].status == Pending ==>
      r.calls == [GetReceipt(hash)] && r.result == Success(ReceiptToStatus(lookup(hash)))
    ensures r.txs == txs || (
      && hash in txs && txs[hash].status == Pending
      && r.result.Success? && r.result.value.IsTerminal()
      && r.txs == txs[hash := txs[hash].(status := r.result.value)])
    ensures r.result.Success? ==> hash in r.txs && r.txs[hash].status == r.result.value
    ensures Evolves(txs, r.txs)
  {
    if hash !in txs then Reply(Failure(NotFound(Transaction)), txs, [])
    else
      var record := txs[hash];
      if record.status == Pending then
        var status := ReceiptToStatus(lookup(hash));
        if status != Pending then Reply(Success(status), txs[hash := record.(status := status)], [GetReceipt(hash)])
        else Reply(Success(record.status), txs, [GetReceipt(hash)])
      else Reply(Success(record.status), txs, [])
  }

  /**
   * Once an inquiry has answered a terminal status, asking again returns the
   * same status without a chain call, whatever the chain would now say.
   */
  lemma SecondInquiryAfterTerminal(txs: TxStore, hash: string, first: ReceiptOracle, second: ReceiptOracle)
    requires GetTransactionStatus(txs, hash, first).result.Success?
    requires GetTransactionStatus(txs, hash, first).result.value.IsTerminal()
    ensures GetTransactionStatus(GetTransactionStatus(txs, hash, first).txs, hash, second).result
         == GetTransactionStatus(txs, hash, first).result
    ensures GetTransactionStatus(GetTransactionStatus(txs, hash, first).txs, hash, second).calls == []
  {
  }

  /** A cap setting that parses to NaN never rejects an amount. */
  lemma NaNCapAdmitsAnyAmount(cfg: Config, users: UserStore, txs: TxStore,
                              userId: string, to: string, amount: string, send: SendOracle)
    requires MaxAmount(cfg).None?
    ensures !IsLimitError(ExecuteTransaction(cfg, users, txs, userId, to, amount, send).result)
  {
  }
}
