# Transaction relay lifecycle — a Dafny model

This project models the core of a custodial transaction relay. A caller registers a user, who gets a managed wallet. The caller then asks the relay to send value transfers through one shared relayer account on the chain. Each transfer is recorded under its chain-assigned hash with a status. That status is reconciled with the chain lazily, when someone asks for it.

The model is functional. The two stores are immutable maps:
- the user registry maps a user id to a wallet address;
- the transaction store maps a hash to a record of user, destination, amount and status.

Every operation returns its answer, the store afterwards and the log of chain calls it made. That log plays the part of a spy on the chain client.

Foreign collaborators become parameters:
- submitting a transfer is a `SendOracle` (a hash, or `None` when the call raised);
- fetching a receipt is a `ReceiptOracle`;
- the chain library's `isAddress` check and the language's `parseFloat` are functions in `Transactions.Config`;
- a freshly generated wallet address arrives as a plain value.

Files:
- `wrappers.dfy`: `Option` and `Result`.
- `domain.dfy`: the status state machine, records, stores, the error taxonomy, the chain-call log, and the relations `Evolves` (records never disappear or change their transfer, and statuses only leave `Pending`) and `Extends` (users never disappear and wallets are never overwritten).
- `blockchain.dfy`: receipt-to-status mapping, start-up key check, relayer address.
- `execute_dto.dfy`: the execute request body checks and the `0x` + 40 hex digit pattern.
- `users.dfy`: create-if-absent registration.
- `transactions.dfy`: `executeTransaction` and `getTransactionStatus`.
- `lifecycle.dfy`: request dispatch for the three endpoints, runs of many requests, and the worked scenario.

Error modelling choices:
- An over-cap amount raises `BadRequest` with the cap in its message (transactions.service.ts:43-46), modelled as `BadRequest(ExceedsLimit(cap))`.
- A destination that `isAddress` rejects raises `BadRequest` (transactions.service.ts:34-36), modelled as `BadRequest(InvalidDestination)`.
- An amount that parses to NaN or to a value at most zero raises `BadRequest` (transactions.service.ts:38-41), modelled as `BadRequest(NonPositiveAmount)`.
- A submission that raises (transactions.service.ts:51) is modelled as `Upstream`; no record is created.
- A duplicate hash is modelled as `Persistence`. A map store can only refuse an insert whose hash is already stored, as a unique key does. The store is unchanged, but the chain call has been made.

The cap is parsed from the setting, or from the default `"0.1"`, with the same parser as amounts. `None` stands for NaN. Any comparison with NaN is false, so a setting that parses to NaN disables the cap (`Transactions.NaNCapAdmitsAnyAmount`).

## Model

| member | source | states |
|---|---|---|
| `Blockchain.ReceiptToStatus` | backend/src/blockchain/blockchain.service.ts:50-62 | a receipt with status `success` gives confirmed; any other receipt gives failed; a failed lookup gives pending; exactly one of the three in every case |
| `Blockchain.NewBlockchainService` | backend/src/blockchain/blockchain.service.ts:14-22 | start-up fails with a missing-key error exactly when the relayer key is unset or empty; it succeeds exactly when the key is present and accepted; the relayer address it fixes is the one derived from the key and is what `GetRelayerAddress` returns |
| `ExecuteDto.HexFrom` | backend/src/transactions/dto/execute-transaction.dto.ts:10 | the recursive scan is true exactly when every character from the given position to the end is in `[0-9a-fA-F]` |
| `ExecuteDto.MatchesAddressPattern` | backend/src/transactions/dto/execute-transaction.dto.ts:10 | the matcher accepts exactly the strings of length 42 that start with a literal `0x` and continue with only hex digits |
| `ExecuteDto.Violations` | backend/src/transactions/dto/execute-transaction.dto.ts:3-16 | each of the empty user id, empty destination, malformed destination and empty amount violations is reported exactly when its condition holds; a body passes exactly when all fields are non-empty and the destination has the address shape |
| `ExecuteDto.HexCaseInsensitive` | backend/src/transactions/dto/execute-transaction.dto.ts:10 | toggling the case of any one character after the prefix never changes acceptance |
| `ExecuteDto.WholeHexCaseInsensitive` | backend/src/transactions/dto/execute-transaction.dto.ts:10 | toggling the case of the whole part after the prefix never changes acceptance |
| `ExecuteDto.UpperCasePrefixRejected` | backend/src/transactions/dto/execute-transaction.dto.ts:10 | the prefix is case-sensitive: `0X…` is never accepted |
| `ExecuteDto.EmptyDestinationDoublyRejected` | backend/src/transactions/dto/execute-transaction.dto.ts:8-11 | an empty destination is reported both as empty and as malformed |
| `Users.CreateUser` | backend/src/users/users.service.ts:12-37 | Conflict exactly when the id is registered, and then the registry is unchanged; on success the registry gains exactly that id, bound to the generated address that is returned, and every other entry is unchanged |
| `Users.RegisterAllKeepsWallets` | backend/src/users/users.service.ts:15-32 | over any sequence of registrations no registered wallet is ever overwritten, and the registry holds exactly the initial ids plus every id requested |
| `Transactions.ExecuteTransaction` | backend/src/transactions/transactions.service.ts:18-66 | the checks run in the order user, destination, positive amount, cap, and each error occurs exactly when its check is the first to fail; the cap error carries the configured cap; a failed check makes no chain call and leaves the store alone; otherwise exactly one submission of `(to, amount)` is made; Upstream happens exactly when the checks pass and the submission raises, and then no record is created; Persistence happens exactly when the checks pass and the submission returns a hash already stored, and then the store is unchanged; success happens exactly when the submission returns a hash not yet stored, and then the store gains exactly one pending record with the request's user, destination and amount under that hash, which is returned |
| `Transactions.GetTransactionStatus` | backend/src/transactions/transactions.service.ts:68-90 | NotFound exactly when the hash is absent, with no chain call and no write; a terminal record is answered as stored with no chain call and no write; a pending record makes exactly one receipt fetch for that hash and answers the mapped outcome; the only possible write sets that hash's status to a terminal outcome; after any successful inquiry the stored status equals the answer; every record evolves legally |
| `Transactions.SecondInquiryAfterTerminal` | backend/src/transactions/transactions.service.ts:77-89 | after an inquiry answered a terminal status, a second inquiry answers the same status with no chain call, whatever the chain would now report |
| `Transactions.NaNCapAdmitsAnyAmount` | backend/src/transactions/transactions.service.ts:18-47 | when the cap setting parses to NaN, no amount is ever rejected for exceeding the cap |
| `Lifecycle.Handle` | backend/src/transactions/transactions.controller.ts:10-19 | each request is answered by the service it is routed to: a registration by `CreateUser` (the registration route is assumed, since its controller is not part of this model), a clean execute body by `ExecuteTransaction`, a status request by `GetTransactionStatus`, with that service's answer, store and chain calls; in every case, serving a request never drops a user or overwrites a wallet; it never drops a record, changes a recorded transfer or regresses a status; it keeps every record's user registered; a failed request changes nothing; it makes at most one chain call, of the request's own kind; a body with violations is rejected with those violations before any chain call; a record's status changes only on an inquiry about its own hash |
| `Lifecycle.RunEvolves` | backend/src/transactions/transactions.service.ts:51-89 | across any sequence of requests, users and records are never removed, wallets and recorded transfers never change, and statuses only leave pending |
| `Lifecycle.RunKeepsRefs` | backend/src/transactions/transactions.service.ts:26-61 | across any sequence of requests, every stored transaction refers to a registered user |
| `Lifecycle.TerminalIsFrozen` | backend/src/transactions/transactions.service.ts:77-89 | once a record is confirmed or failed, no later sequence of requests changes it or fetches its receipt again |
| `Lifecycle.ExampleRequestRejected` | sdk/examples/usage.ts:17-21 | the usage example's execute request, with its 39-digit destination, is rejected by the body check as malformed, with no chain call and no state change |
| `Lifecycle.ConfirmedScenario` | sdk/examples/usage.ts:10-39 | register, submit 0.01 under the default cap, then inquire while the receipt reports success: the store ends with one confirmed record, the chain saw one submission and one receipt fetch, and a further inquiry answers confirmed without a chain call |

## Findings

| source | as written | input that shows it | evidently intended | confidence | as-written member | corrected member |
|---|---|---|---|---|---|---|
| sdk/examples/usage.ts:19 | the example destination `0x742d35Cc6634C0532925a3b844Bc9e7595f0bEb` has 39 hex digits | that string, whose length is 41 rather than 42 | a 40-hex-digit address that the body check accepts and `isAddress` also accepts, written in lower case so that no checksum applies | high; not executed | `Lifecycle.ExampleRequestRejected` | `Lifecycle.ConfirmedScenario` |

## Left out

- Database I/O: the stores are in-memory maps. Store errors other than a duplicate hash are not modelled.
- Logging calls are not modelled.
- Chain calls: submission (including `parseEther` of the amount, whose failure shows up as a raising submission), receipt fetching, key generation and `privateKeyToAccount` are oracles. The RPC endpoint is carried but plays no role.
- `isAddress` of the chain library: an uninterpreted predicate. It may be stricter than the body pattern, for example on checksums.
- Float semantics: `parseFloat` is an uninterpreted parse into `Option<real>`, with `None` for NaN. Infinities and rounding are not modelled.
- Concurrency: requests are served one at a time. Races between concurrent inquiries on one hash, and the non-atomic read-then-update, are not modelled.
- Request validation wiring: the model assumes the execute body is validated before the service runs, as a global validation pipe does. The application bootstrap file is not part of this model. The string-type checks are implied by Dafny's types.
- The create-user body: its validation file is not part of this model, so `CreateUser` accepts any id.
- The registration route: its controller is not part of this model. `Lifecycle.Handle` assumes it hands the body's user id straight to `createUser`.
- Throttling (5 requests per 60 s on execute), module wiring and routing beyond the dispatch in `Lifecycle.Handle` are not modelled.
- The SDK's HTTP client and its error reformatting are not modelled. Its polling loop appears only as repeated inquiries in a run.
- `Blockchain.GetRelayerAddress` has no contract of its own. Its promise, that it returns the address fixed at construction, is stated on `Blockchain.NewBlockchainService`.
