/**
 * The entities shared by the services: the three-state transaction status,
 * transaction records, the two stores, the error taxonomy and the log of
 * calls made to the chain.
 */
module Domain {

  /** The `TransactionStatus` union: 'pending' | 'confirmed' | 'failed'. */
  datatype TxStatus = Pending | Confirmed | Failed {

    /** Confirmed and failed are terminal: nothing moves a record out of them. */
    predicate IsTerminal() {
      !Pending?
    }
  }

  /** The only evolution a stored status may undergo: stay put, or leave pending. */
  predicate MayBecome(before: TxStatus, after: TxStatus) {
    before == after || before == Pending
  }

  /** A stored transaction; its key in the store is the chain-assigned hash. */
  datatype TxRecord = TxRecord(userId: string, to: string, amount: string, status: TxStatus)

  /** Transactions keyed by hash. */
  type TxStore = map<string, TxRecord>

  /** Wallet addresses keyed by user id. */
  type UserStore = map<string, string>

  /** What a not-found error refers to. */
  datatype Entity = User | Transaction

  /** A violated constraint of the execute request body. */
  datatype Violation = EmptyUserId | EmptyTo | MalformedTo | EmptyAmount

  /** Why a request was answered with 400 Bad Request. */
  datatype BadRequestReason =
    | InvalidBody(violations: set<Violation>)
    | InvalidDestination
    | NonPositiveAmount
    | ExceedsLimit(limit: real)

  /** The exceptions the services raise. */
  datatype Error =
    | NotFound(entity: Entity)
    | BadRequest(reason: BadRequestReason)
    | Conflict
    | Upstream     // the chain client's submission raised
    | Persistence  // the store refused to insert a record under an existing hash

  /** A call made to the chain, as seen by a spy on the chain client. */
  datatype ChainCall = SendTransaction(to: string, amount: string) | GetReceipt(hash: string)

  /**
   * `after` is a legal successor of `before`: no record disappears, the transfer
   * a record describes never changes, and every status evolves by MayBecome.
   */
  ghost predicate Evolves(before: TxStore, after: TxStore) {
    forall h :: h in before ==>
      && h in after
      && after[h].userId == before[h].userId
      && after[h].to == before[h].to
      && after[h].amount == before[h].amount
      && MayBecome(before[h].status, after[h].status)
  }

  /** No user disappears and no wallet address is overwritten. */
  ghost predicate Extends(before: UserStore, after: UserStore) {
    forall u :: u in before ==> u in after && after[u] == before[u]
  }

  lemma EvolvesTransitive(a: TxStore, b: TxStore, c: TxStore)
    requires Evolves(a, b) && Evolves(b, c)
    ensures Evolves(a, c)
  {
  }

  lemma ExtendsTransitive(a: UserStore, b: UserStore, c: UserStore)
    requires Extends(a, b) && Extends(b, c)
    ensures Extends(a, c)
  {
  }
}
