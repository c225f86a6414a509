/**
 * The system as a whole: the user registry and the transaction store behind
 * the three endpoints (register, execute, status). Requests are handled one at
 * a time; each carries the chain's answers at the moment it is served.
 */
module Lifecycle {
  import opened Wrappers
  import opened Domain
  import opened Blockchain
  import ExecuteDto
  import Users
  import Transactions

  datatype System = System(users: UserStore, txs: TxStore)

  /** An inbound request, with the foreign answers (new wallet address, chain oracles) it will meet. */
  datatype Request =
    | CreateUserRequest(userId: string, generated: string)
    | ExecuteRequest(userId: string, to: string, amount: string, send: SendOracle)
    | StatusRequest(hash: string, lookup: ReceiptOracle)

  datatype Answer = Wallet(address: string) | Hash(hash: string) | Status(status: TxStatus)

  datatype Outcome = Outcome(answer: Result<Answer, Error>, sys: System, calls: seq<ChainCall>)

  /** Every stored transaction refers to a registered user. */
  ghost predicate RefsResolve(sys: System) {
    forall h :: h in sys.txs ==> sys.txs[h].userId in sys.users
  }

  /** The chain call a request may make: a submission for execute, a receipt fetch for status. */
  predicate CallOf(req: Request, c: ChainCall) {
    match req
    case CreateUserRequest(_, _) => false
    case ExecuteRequest(_, to, amount, _) => c == SendTransaction(to, amount)
    case StatusRequest(hash, _) => c == GetReceipt(hash)
  }

  /**
   * Serves one request. The execute body is validated before the service
   * sees it; a request that fails changes nothing; a pending record leaves
   * pending only through an inquiry about its own hash.
   */
  function Handle(cfg: Transactions.Config, sys: System, req: Request): (o: Outcome)
    ensures Extends(sys.users, o.sys.users)
    ensures Evolves(sys.txs, o.sys.txs)
    ensures RefsResolve(sys) ==> RefsResolve(o.sys)
    ensures o.answer.Failure? ==> o.sys == sys
    ensures |o.calls| <= 1 && forall c :: c in o.calls ==> CallOf(req, c)
    ensures req.ExecuteRequest? && ExecuteDto.Violations(req.userId, req.to, req.amount) != {} ==>
      o.answer == Failure(BadRequest(InvalidBody(ExecuteDto.Violations(req.userId, req.to, req.amount)))) && o.calls == []
    ensures forall h :: h in sys.txs && sys.txs[h].status != o.sys.txs[h].status ==>
      req.StatusRequest? && req.hash == h
    ensures req.CreateUserRequest? ==>
      var r := Users.CreateUser(sys.users, req.userId, req.generated);
      && o.sys == System(r.users, sys.txs) && o.calls == []
      && (r.result.Success? ==> o.answer == Success(Wallet(r.result.value)))
      && (r.result.Failure? ==> o.answer == Failure(r.result.error))
    ensures req.ExecuteRequest? && ExecuteDto.Violations(req.userId, req.to, req.amount) == {} ==>
      var r := Transactions.ExecuteTransaction(cfg, sys.users, sys.txs, req.userId, req.to, req.amount, req.send);
      && o.sys == System(sys.users, r.txs) && o.calls == r.calls
      && (r.result.Success? ==> o.answer == Success(Hash(r.result.value)))
      && (r.result.Failure? ==> o.answer == Failure(r.result.error))
    ensures req.StatusRequest? ==>
      var r := Transactions.GetTransactionStatus(sys.txs, req.hash, req.lookup);
      && o.sys == System(sys.users, r.txs) && o.calls == r.calls
      && (r.result.Success? ==> o.answer == Success(Status(r.result.value)))
      && (r.result.Failure? ==> o.answer == Failure(r.result.error))
  {
    match req
    case CreateUserRequest(userId, generated) =>
      var r := Users.CreateUser(sys.users, userId, generated);
      var answer := if r.result.Success? then Success(Wallet(r.result.value)) else Failure(r.result.error);
      Outcome(answer, System(r.users, sys.txs), [])
    case ExecuteRequest(userId, to, amount, send) =>
      var violations := ExecuteDto.Violations(userId, to, amount);
      if violations != {} then Outcome(Failure(BadRequest(InvalidBody(violations))), sys, [])
      else
        var r := Transactions.ExecuteTransaction(cfg, sys.users, sys.txs, userId, to, amount, send);
        var answer := if r.result.Success? then Success(Hash(r.result.value)) else Failure(r.result.error);
        Outcome(answer, System(sys.users, r.txs), r.calls)
    case StatusRequest(hash, lookup) =>
      var r := Transactions.GetTransactionStatus(sys.txs, hash, lookup);
      var answer := if r.result.Success? then Success(Status(r.result.value)) else Failure(r.result.error);
      Outcome(answer, System(sys.users, r.txs), r.calls)
  }

  /** The state after a run and the chain calls it made, in order. */
  datatype Trace = Trace(sys: System, calls: seq<ChainCall>)

  /** Serves `reqs` one after another. */
  function Run(cfg: Transactions.Config, sys: System, reqs: seq<Request>): Trace
    decreases |reqs|
  {
    if |reqs| == 0 then Trace(sys, [])
    else
      var o := Handle(cfg, sys, reqs[0]);
      var t := Run(cfg, o.sys, reqs[1..]);
      Trace(t.sys, o.calls + t.calls)
  }

  /** Over any run, no user or record disappears, no wallet is overwritten and no status regresses. */
  lemma {:induction false} RunEvolves(cfg: Transactions.Config, sys: System, reqs: seq<Request>)
    ensures Extends(sys.users, Run(cfg, sys, reqs).sys.users)
    ensures Evolves(sys.txs, Run(cfg, sys, reqs).sys.txs)
    decreases |reqs|
  {
    if |reqs| > 0 {
      var o := Handle(cfg, sys, reqs[0]);
      RunEvolves(cfg, o.sys, reqs[1..]);
      var t := Run(cfg, o.sys, reqs[1..]);
      ExtendsTransitive(sys.users, o.sys.users, t.sys.users);
      EvolvesTransitive(sys.txs, o.sys.txs, t.sys.txs);
    }
  }

  /** Every transaction of every reachable state belongs to a registered user. */
  lemma {:induction false} RunKeepsRefs(cfg: Transactions.Config, sys: System, reqs: seq<Request>)
    requires RefsResolve(sys)
    ensures RefsResolve(Run(cfg, sys, reqs).sys)
    decreases |reqs|
  {
    if |reqs| > 0 {
      RunKeepsRefs(cfg, Handle(cfg, sys, reqs[0]).sys, reqs[1..]);
    }
  }

  /**
   * A terminal record is frozen: whatever requests follow, it keeps its exact
   * contents and the chain is never again asked for its receipt.
   */
  lemma {:induction false} TerminalIsFrozen(cfg: Transactions.Config, sys: System, reqs: seq<Request>, h: string)
    requires h in sys.txs && sys.txs[h].status.IsTerminal()
    ensures h in Run(cfg, sys, reqs).sys.txs && Run(cfg, sys, reqs).sys.txs[h] == sys.txs[h]
    ensures GetReceipt(h) !in Run(cfg, sys, reqs).calls
    decreases |reqs|
  {
    if |reqs| > 0 {
      var o := Handle(cfg, sys, reqs[0]);
      assert o.sys.txs[h] == sys.txs[h];
      assert GetReceipt(h) !in o.calls;
      TerminalIsFrozen(cfg, o.sys, reqs[1..], h);
    }
  }

  /** The destination of the SDK's usage example, as written there: 39 hex digits. */
  const ExampleDestination: string := "0x742d35Cc6634C0532925a3b844Bc9e7595f0bEb"

  /**
   * The same destination completed to the forty hex digits an address has, in
   * lower case so that no checksum applies to it.
   */
  const FullDestination: string := "0x742d35cc6634c0532925a3b844bc9e7595f0beb0"

  /** The usage example's execute request never reaches the service: the body check rejects its destination. */
  lemma ExampleRequestRejected(cfg: Transactions.Config, sys: System, send: SendOracle)
    ensures var o := Handle(cfg, sys, ExecuteRequest("user123", ExampleDestination, "0.01", send));
      && o.answer == Failure(BadRequest(InvalidBody({MalformedTo})))
      && o.calls == [] && o.sys == sys
  {
    assert |ExampleDestination| == 41;
    assert ExecuteDto.Violations("user123", ExampleDestination, "0.01") == {MalformedTo};
  }

  lemma FullDestinationMatches()
    ensures ExecuteDto.MatchesAddressPattern(FullDestination)
  {
    assert forall j :: 2 <= j < |FullDestination| ==> ExecuteDto.IsHexDigit(FullDestination[j]);
  }

  /**
   * The worked scenario with the completed destination: a registered user
   * submits 0.01 under the default cap, the chain returns a hash, and the
   * first inquiry that sees a successful receipt answers confirmed and stores
   * it; a second inquiry answers the same without asking the chain.
   */
  lemma ConfirmedScenario(cfg: Transactions.Config, send: SendOracle, lookup: ReceiptOracle, later: ReceiptOracle)
    requires cfg.maxSetting.None? && cfg.parseAmount("0.1") == Some(0.1) && cfg.parseAmount("0.01") == Some(0.01)
    requires cfg.isAddress(FullDestination)
    requires send(FullDestination, "0.01") == Some("0xdeadbeef")
    requires lookup("0xdeadbeef") == Receipt(SuccessStatus)
    ensures var reqs := [
        CreateUserRequest("user123", "0xAAA"),
        ExecuteRequest("user123", FullDestination, "0.01", send),
        StatusRequest("0xdeadbeef", lookup)];
      var t := Run(cfg, System(map[], map[]), reqs);
      && t.sys.txs == map["0xdeadbeef" := TxRecord("user123", FullDestination, "0.01", Confirmed)]
      && t.calls == [SendTransaction(FullDestination, "0.01"), GetReceipt("0xdeadbeef")]
      && Handle(cfg, t.sys, StatusRequest("0xdeadbeef", later)) == Outcome(Success(Status(Confirmed)), t.sys, [])
  {
    FullDestinationMatches();
    var reqs := [
        CreateUserRequest("user123", "0xAAA"),
        ExecuteRequest("user123", FullDestination, "0.01", send),
        StatusRequest("0xdeadbeef", lookup)];
    var o1 := Handle(cfg, System(map[], map[]), reqs[0]);
    assert o1.sys == System(map["user123" := "0xAAA"], map[]) && o1.calls == [];
    assert ExecuteDto.Violations("user123", FullDestination, "0.01") == {};
    var o2 := Handle(cfg, o1.sys, reqs[1]);
    var pending := TxRecord("user123", FullDestination, "0.01", Pending);
    assert o2.sys.txs == map["0xdeadbeef" := pending];
    assert o2.calls == [SendTransaction(FullDestination, "0.01")];
    var o3 := Handle(cfg, o2.sys, reqs[2]);
    assert o3.sys.txs == map["0xdeadbeef" := pending.(status := Confirmed)];
    assert o3.calls == [GetReceipt("0xdeadbeef")];
    assert reqs[1..][1..][1..] == [];
    assert Run(cfg, o3.sys, []) == Trace(o3.sys, []);
    assert Run(cfg, o2.sys, reqs[1..][1..]) == Trace(o3.sys, o3.calls);
    assert Run(cfg, o1.sys, reqs[1..]) == Trace(o3.sys, o2.calls + o3.calls);
  }
}
