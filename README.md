# libre-investment ledger sync and API decisions, in Dafny

This project models the back end of a tokenised-fund investment service. It covers the
ledger-sync side and the API decision logic.

The ledger-sync side has four parts:
- **The log indexer.** It decodes the fund contract's `Investment`, `Redemption` and
  `MetricsUpdated` logs. It stores each event at most once per lower-cased transaction hash,
  marks the matching transaction `Success`, and caches fund metrics in Redis. A block cursor
  in Redis says where the next scan starts.
- **The transaction monitor.** It sweeps the `Pending` transactions and asks each row's chain
  for a receipt.
- **The RPC layer.** This is the error classifier `withRpcErrorHandler`, the retry loop
  `submitTransaction` and the chain-id switch `getRpcProvider`.
- **The read-through cache** `withRedisCache`.

The API side covers:
- the Sign-In with Ethereum nonce store;
- the bearer-token middleware;
- the CORS origin policy;
- the error-to-HTTP-status handler;
- the Zod request schemas;
- the builder of unsigned invest and redeem transactions.

State is modelled in three forms:
- The transactional store (Prisma) is a `Database` class holding maps keyed by transaction
  hash (`ledger.dfy`).
- Redis is a `RedisStore` class over a map from key to value with an optional expiry instant
  (`keyvalue.dfy`). Time is a parameter, in milliseconds.
- Everything outside reaches the model as parameters: chain reads, ABI decoding and
  encoding, JWT and SIWE verification, nonce generation and JSON.

The imperative operations are Dafny methods with `modifies` clauses. Each method is proved
equal to a pure specification function, for example `Processor.StepLog`, `Processor.Cycle`,
`Monitor.Sweep`, `Contract.SubmitSpec`, `Cache.CacheStep` and `AuthService.Login`. The
properties are proved as lemmas about those functions.

Modules follow the source files:

| module | source |
|---|---|
| `Parser` | src/indexer/parser.ts |
| `Processor` | src/indexer/processor.ts |
| `Ledger` | the Prisma tables |
| `Monitor` | src/monitor/index.ts |
| `Errors` | src/utils/errors.ts and src/utils/apiErrors.ts |
| `Contract` | src/utils/contract.ts |
| `Provider` | src/utils/provider.ts |
| `KeyValue`, `Cache` | Redis and src/utils/cache.ts |
| `AuthService` | src/api/auth/auth.service.ts |
| `AuthMiddleware` | src/api/middlewares/auth.ts |
| `CorsOrigin` | src/api/middlewares/corsOrigin.ts |
| `ErrorHandler` | src/api/middlewares/errorHandler.ts |
| `Validation`, `AuthSchema`, `InvestmentSchema` | src/api/middlewares/validate.ts and the two schema files |
| `InvestmentService` | src/api/investment/investment.service.ts |

`ApiResponses` joins the API modules to the error handler. `Text` holds lower-casing,
`includes`, and decimal printing and parsing. `Wrappers` holds `Option` and `Result`.

Behaviours of the code that a reader might not expect, kept as written:
- **A payment event sets `Success` whatever the row's status.** The indexer updates the
  transaction to `Success` even when the monitor has already marked it `Failed`
  (`Processor.FreshPaymentRecorded`).
- **The receipt-fetch status is not `Failed`.** The monitor's catch branch writes the literal
  `FAILED`. That is neither `Failed` nor `Pending`, so the row leaves the pending sweep
  without being marked failed (`Monitor.AdvanceOutcomes`).
- **The cursor can move backwards.** It is set to the head just read, even when that head is
  below the previous cursor. Only the hand-over from one cycle to the next is guaranteed
  (`Processor.NextCycleResumes`).
- **The receipt check is inverted.** In `submitTransaction`, status 1 is reported as a failed
  transaction (`Contract.ReceiptCheckInverted`).
- **Classification happens after the retry loop.** `submitTransaction` decides whether to
  retry on the raw error. The classifier then relabels whatever the loop throws. So an
  aggregated retry error whose last message looks like a revert surfaces as a `ContractError`
  (`Contract.ExhaustedSurfacesClassified`).

## Model

| member | source | states |
|---|---|---|
| Parser.ParseLogs | src/indexer/parser.ts:42-112 | A parsed event only comes from a log whose first topic is one of the three event topics. |
| Parser.TopicsDistinct | src/indexer/parser.ts:4-13 | The three event topics (keccak-256 of the signatures) are pairwise distinct, so at most one branch fires. |
| Parser.KindFollowsTopic | src/indexer/parser.ts:48-105 | The kind of a parsed event is decided by `topics[0]` alone: Investment, Redemption or MetricsUpdated topic. |
| Parser.UnknownTopicIgnored | src/indexer/parser.ts:107 | No first topic, or any other first topic, gives `null`. |
| Parser.InvestmentFields | src/indexer/parser.ts:48-66 | An Investment log gives the checksummed investor from `topics[1]` and the words in the order usdAmount, sharesIssued, sharePrice as decimal text; a decoding failure gives `null`. |
| Parser.RedemptionFields | src/indexer/parser.ts:69-87 | A Redemption log reads the words in the order shares, usdAmount, sharePrice; a decoding failure gives `null`. |
| Parser.MetricsFields | src/indexer/parser.ts:90-104 | A MetricsUpdated log gives totalAssetValue, sharesSupply, sharePrice and reads no indexed topic: the address decoder does not matter. |
| Parser.MissingInvestorTopicIgnored | src/indexer/parser.ts:49-111 | An Investment or Redemption log without `topics[1]` throws inside the `try` and gives `null`. |
| Processor.StepLog | src/indexer/processor.ts:8-133 | `processLog` reports `NotParsed` exactly when `parseLogs` gives `null`, and it never creates or deletes a transaction row. |
| Processor.ProcessLog | src/indexer/processor.ts:8-133 | The store and Redis after `processLog` are those of `StepLog`; the method returns an outcome and never an error. |
| Processor.UnparsedLogIgnored | src/indexer/processor.ts:10-11 | A log `parseLogs` rejects changes nothing. |
| Processor.StoredEventSkipped | src/indexer/processor.ts:23-103 | An event whose lower-cased hash is already stored for its kind changes nothing, whatever later call would fail. |
| Processor.StepRecords | src/indexer/processor.ts:38-117 | When the lookup and the create succeed, the event is stored under its lower-cased hash. |
| Processor.FreshPaymentRecorded | src/indexer/processor.ts:18-86 | A fresh Investment/Redemption with no fault stores one event row under the lower-cased hash, with the lower-cased fund address and chain id; the transaction becomes `Success` with `amount = usdAmount` whatever its status was; nothing else changes. |
| Processor.OrphanPaymentEventStored | src/indexer/processor.ts:30-132 | With no transaction row, the update throws but the independent create still stores the event; the failure is caught. |
| Processor.FreshMetricsCached | src/indexer/processor.ts:92-127 | A fresh MetricsUpdated stores one event and sets `metrics-{fund}-84532` with no expiry to the JSON of the three figures and `updatedAt`. No transaction, no other event table and no other Redis key changes. |
| Processor.StepKeepsEvents | src/indexer/processor.ts:8-133 | `processLog` never removes or rewrites a stored event row. |
| Processor.ApplyLogs | src/indexer/processor.ts:155-157 | A batch of logs never creates or deletes a transaction row. |
| Processor.ApplyKeepsEvents | src/indexer/processor.ts:155-157 | Event rows only accumulate over a batch. |
| Processor.BatchRecordsEvents | src/indexer/processor.ts:155-157 | After a batch whose lookups and creates succeed, every fund event of the batch is stored. |
| Processor.RecordedLogsChangeNothing | src/indexer/processor.ts:22-103 | Logs whose events are all stored change nothing, whatever fails. |
| Processor.ReplayChangesNothing | src/indexer/processor.ts:22-157 | Rescanning the same logs after a successful batch, at any later time and with any failures, leaves the state exactly as it was (idempotence under replay). |
| Processor.RepeatedLogStoredOnce | src/indexer/processor.ts:22-52 | The same log delivered any number of times in a batch has the effect of its first delivery: one event per (kind, hash). |
| Processor.Cycle | src/indexer/processor.ts:135-160 | A cycle never creates or deletes a transaction row; a successful one leaves the cursor at the head it scanned to, with no expiry. |
| Processor.ProcessTransactions | src/indexer/processor.ts:135-160 | The state and result after one cycle are those of `Cycle`. |
| Processor.CycleScansFromCursor | src/indexer/processor.ts:138-159 | A successful cycle scans from the stored cursor, or from head − 5000 when there is none, to the head read next; it applies the batch and then sets the cursor to that head with no expiry. |
| Processor.FailedCycleKeepsState | src/indexer/processor.ts:138-159 | A cycle that rejects, for example when `getLogs` fails, leaves store and cursor unchanged. |
| Processor.NextCycleResumes | src/indexer/processor.ts:138-159 | The next successful cycle starts at the block the previous one scanned to, so that block is scanned twice. |
| Ledger.Tables.WithEvent | src/indexer/processor.ts:38-117 | Creating an event adds exactly that row to its kind's table and touches no other table. |
| Ledger.Database.FindEvent | src/indexer/processor.ts:23-100 | `findUnique` reports whether the hash is in the kind's table, or throws on a fault. |
| Ledger.Database.CreateEvent | src/indexer/processor.ts:38-117 | `create` adds the row unless it faults or the unique hash exists. |
| Ledger.Database.UpdateTransaction | src/indexer/processor.ts:31-37 | `update` applies the data to the row with that hash and throws when there is none; event tables are unchanged. |
| Monitor.PendingRows | src/monitor/index.ts:6-10 | The batch holds only `Pending` rows, each the stored row of its hash, and every listed `Pending` row is in it. |
| Monitor.Sweep | src/monitor/index.ts:15-56 | The sweep keeps the set of rows; when it runs to the end, every batch row was on a supported chain and still stored. |
| Monitor.MonitorTransactions | src/monitor/index.ts:5-57 | The rows after the sweep, and the error that ends it early, are those of `Sweep` over the pending snapshot; event tables are unchanged. |
| Monitor.Advance | src/monitor/index.ts:21-54 | The monitor never writes `amount`; only a missing receipt writes `retryCount` and only it can keep a row `Pending`; `Success` is written exactly for a mined receipt of status 1. |
| Monitor.AdvanceOutcomes | src/monitor/index.ts:21-54 | No receipt: retryCount + 1, and `Failed` iff the new count ≥ 10, else `Pending`. Status 1: `Success`; any other status: `Failed`, retryCount unchanged. Fetch error: the literal `FAILED`, which is neither `Failed` nor `Pending`, retryCount unchanged. Hash, amount and chain id never change. |
| Monitor.GivenUpAfterTenMisses | src/monitor/index.ts:24-25 | A pending row missing its receipt stays `Pending` while its count is below ten and is `Failed` at the tenth miss. |
| Monitor.SweepSplits | src/monitor/index.ts:15-56 | The sweep over `a + b` is the sweep over `a`, then, unless that ended early, the sweep over `b`. |
| Monitor.UnsupportedChainEndsSweep | src/monitor/index.ts:15-18 | A row on an unsupported chain ends the sweep with the `getRpcProvider` error; later rows are not visited. |
| Monitor.UntouchedOutsideBatch | src/monitor/index.ts:27-52 | A row whose hash is not in the batch keeps its contents. |
| Monitor.NonPendingRowsUntouched | src/monitor/index.ts:6-10 | A row that was not `Pending` when the sweep started is left as it was. |
| Monitor.PendingRowsListed | src/monitor/index.ts:6-10 | In a store keyed by hash, every row of the batch has a hash from the listing. |
| Monitor.PendingRowsDistinct | src/monitor/index.ts:6-10 | With each row listed once, the batch rows have distinct hashes. |
| Monitor.SweepUpdatesEachRow | src/monitor/index.ts:15-56 | A sweep that runs to the end gives each batch row exactly the update its receipt calls for. |
| Monitor.EachPendingRowUpdatedOnce | src/monitor/index.ts:6-56 | In a sweep that runs to the end, each pending row gets one update, computed from the row as read and its chain's receipt. |
| Errors.Classify | src/utils/errors.ts:65-105 | A contract signal gives `ContractError("Contract execution error")` with {reason, code, message}. Failing that, a transport signal gives `RPCError("RPC communication error")` with {code, message}. Anything else is rethrown unchanged. |
| Errors.WithRpcErrorHandler | src/utils/errors.ts:59-107 | A result passes through unchanged; a thrown error is replaced by its classification. |
| Errors.UpperCasePatternsNeverMatch | src/utils/errors.ts:66-96 | On the lower-cased message, "ETIMEDOUT", "serverError" and "NETWORK_ERROR" never match; the transport branch equals the one without them. |
| Errors.InertRaised | src/utils/errors.ts:69-102 | A fresh error with no code and no reason, whose message has none of the letters g, f, v and l in either case, is rethrown unchanged: lower-casing cannot create a pattern. |
| Errors.ContractErrorInert | src/utils/errors.ts:76-80 | A raised `ContractError` is not reclassified. |
| Errors.RpcErrorInert | src/utils/errors.ts:98-101 | A raised `RPCError` is not reclassified. |
| Errors.ClassifyIdempotent | src/utils/errors.ts:59-106 | Classifying twice is classifying once. |
| Contract.IsRetryableError | src/utils/contract.ts:74-87 | An error with neither a code nor a message is never retried. |
| Contract.RetryableIgnoresCase | src/utils/contract.ts:74-87 | `isRetryableError` reads the message lower-cased, so the case of the message does not matter. |
| Contract.SubmitSpec | src/utils/contract.ts:89-131 | `sendTransaction` is called at least once exactly when `maxRetries` is positive, and a result is only ever returned after a send. |
| Contract.SubmitTransaction | src/utils/contract.ts:89-131 | The loop's outcome, its number of sends and its delays are those of `SubmitSpec`. |
| Contract.AttemptsAndBackoff | src/utils/contract.ts:96-123 | Between 1 and `maxRetries` sends; the delay after failed attempt `a` is `1000*(a+1)` ms, with none after the last. |
| Contract.DefaultRetries | src/utils/contract.ts:93-123 | With the default `maxRetries = 3`: one to three sends, and three failed attempts wait 1000 ms and then 2000 ms. |
| Contract.StopsAtNonRetryable | src/utils/contract.ts:113-116 | The first non-retryable error is thrown, with no further attempt. |
| Contract.ReceiptCheckInverted | src/utils/contract.ts:101-112 | As written, status 1 gives `success: false` "Transaction Failed" and any other status `success: true`. |
| Contract.ExhaustsRetries | src/utils/contract.ts:117-129 | After `maxRetries` retryable failures, it throws an `RPCError` naming `maxRetries` and the last message, carrying the last error's {stack, code}. |
| Contract.ExhaustedSurfacesClassified | src/utils/contract.ts:89-129 | What surfaces after exhausted retries is an `RPCError` or a `ContractError`. |
| Contract.RevertSurfacesAsContractError | src/utils/contract.ts:89-116 | A non-retryable "execution reverted" surfaces as a `ContractError`. |
| Provider.GetRpcProvider | src/utils/provider.ts:12-21 | 84532 gives the Base Sepolia handle, 80002 the Polygon Amoy handle; every other chain id gives `APIError("unsupported chainId …")`. |
| Provider.HandleDeterminesChain | src/utils/provider.ts:5-21 | A handle belongs to one chain id, and the two handles differ. |
| Provider.UnsupportedMessageNamesChain | src/utils/provider.ts:18-19 | Different unsupported chain ids give different errors. |
| KeyValue.PutForever | src/utils/cache.ts:25-27 | A SET without EX reads back at every later instant. |
| KeyValue.PutWithExpiry | src/utils/cache.ts:28-32 | A SET with `EX ttl` reads back strictly before `ttl` seconds have passed, never after. |
| KeyValue.OtherKeysUnaffected | src/utils/cache.ts:24-32 | SET and DEL of one key leave every other key as it reads. |
| KeyValue.RedisStore.Get | src/utils/cache.ts:19 | GET returns the live value of the key, if any. |
| KeyValue.RedisStore.Set | src/utils/cache.ts:25-32 | SET replaces the key's entry with the value and the expiry EX gives. |
| KeyValue.RedisStore.Del | src/api/auth/auth.service.ts:30 | DEL removes the key. |
| Cache.CacheStep | src/utils/cache.ts:8-35 | `fn` is called at most once; only the options key is ever written; a hit or a throwing `fn` leaves the keyspace unchanged. |
| Cache.WithRedisCache | src/utils/cache.ts:8-35 | The outcome, the number of `fn` calls and the keyspace afterwards are those of `CacheStep`. |
| Cache.HitSkipsFn | src/utils/cache.ts:19-22 | A hit returns the parsed stored text, does not call `fn` and writes nothing. |
| Cache.MissRunsFnOnce | src/utils/cache.ts:14-33 | A miss calls `fn` once on the arguments before the options. Its result is stored with no expiry for ttl 0 and with `EX ttl` otherwise. If `fn` throws, nothing is stored. |
| Cache.ReadThroughConsistent | src/utils/cache.ts:19-33 | After a miss stored `v`, a later call with the same key before expiry returns `v` without calling `fn`. |
| AuthService.GetNonce | src/api/auth/auth.service.ts:7-19 | The nonce is stored under `nonce:{address}` with a 300-second expiry, overwriting any earlier one, and returned. |
| AuthService.CheckNonce | src/api/auth/auth.service.ts:21-32 | The answer is true exactly when the offered nonce is non-empty and is the live stored one; afterwards no usable nonce is left for the address. |
| AuthService.VerifyNonce | src/api/auth/auth.service.ts:21-32 | The keyspace and the answer are those of `CheckNonce`. |
| AuthService.Login | src/api/auth/auth.service.ts:34-53 | A success is the verified message's own {address, chainId}; the nonce store is untouched unless SIWE verified; every rejection other than a SIWE throw is a utils/apiErrors `AuthenticationError`. |
| AuthService.VerifySignature | src/api/auth/auth.service.ts:34-53 | The keyspace and outcome are those of `Login`. |
| AuthService.IssuedNonceAcceptedUntilExpiry | src/api/auth/auth.service.ts:7-31 | A just-issued, non-empty nonce is accepted iff offered within 300 s; any other nonce is refused. |
| AuthService.ReissueInvalidatesPrevious | src/api/auth/auth.service.ts:12-16 | Issuing again makes the previous nonce of the address invalid. |
| AuthService.CheckConsumesNonce | src/api/auth/auth.service.ts:26-30 | An absent or empty nonce leaves the keyspace unchanged. A present one is deleted whether or not it matches. No other key changes. |
| AuthService.NonceSingleUse | src/api/auth/auth.service.ts:26-31 | After a check finds the nonce, a second check of that address fails and changes nothing. |
| AuthService.SignatureCheckedBeforeNonce | src/api/auth/auth.service.ts:39-44 | A failed SIWE verification throws `AuthenticationError` with the SIWE error type, or "Error verifying signature", before the nonce store is read. |
| AuthService.LoginSucceedsOnce | src/api/auth/auth.service.ts:45-52 | A login succeeds iff the SIWE nonce is the one stored for its address, and it returns that {address, chainId}. Replaying the same message fails with "Invalid nonce". |
| AuthMiddleware.IndexOf | src/api/middlewares/auth.ts:23 | The first position of the separator. |
| AuthMiddleware.Split | src/api/middlewares/auth.ts:23 | `split` gives at least one piece and no piece contains the separator. |
| AuthMiddleware.BearerToken | src/api/middlewares/auth.ts:22-27 | An extracted token is non-empty and has no space. |
| AuthMiddleware.SplitAtFirst | src/api/middlewares/auth.ts:23 | Splitting at the first separator gives the piece before it and the split of the rest. |
| AuthMiddleware.TokenIsSecondField | src/api/middlewares/auth.ts:22-23 | The token is the second space-separated field; the scheme word is not checked. |
| AuthMiddleware.NoSpaceNoToken | src/api/middlewares/auth.ts:23-27 | A header without a space has no token. |
| AuthMiddleware.EmptySecondFieldNoToken | src/api/middlewares/auth.ts:23-27 | An empty second field gives no token. |
| AuthMiddleware.Authenticate | src/api/middlewares/auth.ts:17-39 | `next` is called at most once, exactly when a token is present and verifies; `req.user` changes only then; a request that throws nothing has called `next`. |
| AuthMiddleware.AuthenticateToken | src/api/middlewares/auth.ts:17-39 | `req.user`, the `next` calls and what is thrown are those of `Authenticate`. |
| AuthMiddleware.Outcomes | src/api/middlewares/auth.ts:22-38 | The request passes iff a token is present and verifies; then `req.user` is the decoded payload and `next` is called once. Otherwise `req.user` is untouched. Every rejection is a utils/errors `AuthenticationError`, "No token provided" when there is no token. |
| AuthMiddleware.DownstreamThrowReadsAsInvalidToken | src/api/middlewares/auth.ts:29-38 | A throw from `next()` becomes "Invalid token", with `req.user` already set. |
| CorsOrigin.CheckOrigin | src/api/middlewares/corsOrigin.ts:3-16 | Allowed iff the origin is missing, empty or exactly a whitelist entry; otherwise the error "Origin: … is Not allowed by CORS". |
| CorsOrigin.RejectionNamesOrigin | src/api/middlewares/corsOrigin.ts:14 | The rejection message determines the origin. |
| CorsOrigin.RejectionMentionsCors | src/api/middlewares/corsOrigin.ts:14 | The rejection message contains "CORS". |
| CorsOrigin.MatchIsExact | src/api/middlewares/corsOrigin.ts:11 | A trailing slash, a different case or a different port is refused. |
| ErrorHandler.HandleError | src/api/middlewares/errorHandler.ts:5-52 | The status is one of 400, 401, 403, 404 and 500; a client error echoes `err.message`; a 500 is "Internal Server Error" with a fixed message. |
| ErrorHandler.StatusDecision | src/api/middlewares/errorHandler.ts:5-52 | 400, 401 and 404 hold exactly for the utils/apiErrors `ValidationError`, `AuthenticationError` and `NotFoundError`. 403 holds exactly for any other error whose message contains "CORS". Everything else is 500 with a fixed message that does not echo `err.message`. Exactly one response. |
| ErrorHandler.UtilsErrorsNotRecognised | src/api/middlewares/errorHandler.ts:3-38 | Same-named classes from utils/errors fall through to 500 whenever their message does not contain "CORS". |
| ApiResponses.CorsRejectionForbidden | src/api/middlewares/errorHandler.ts:40-46 | A refused origin is answered 403 "Forbidden" with the refusal text. |
| ApiResponses.TokenRejectionIsInternalError | src/api/middlewares/errorHandler.ts:48-51 | The token middleware's rejections are answered 500, not 401. |
| ApiResponses.LoginRejectionUnauthorized | src/api/middlewares/errorHandler.ts:24-30 | SIWE and nonce failures are answered 401 with their message. |
| ApiResponses.ValidationFailureBadRequest | src/api/middlewares/errorHandler.ts:16-22 | A body with issues is answered 400 "Validation failed". |
| ApiResponses.UnsupportedChainIsInternalError | src/api/middlewares/errorHandler.ts:48-51 | An unsupported chain id is answered 500. |
| ApiResponses.MissingFundIsInternalError | src/api/middlewares/errorHandler.ts:48-51 | A missing fund whose address does not contain "CORS" is answered 500; the fixed text around the address cannot complete the word. |
| ApiResponses.MissingCorsFundIsForbidden | src/api/middlewares/errorHandler.ts:40-46 | A missing fund whose address contains "CORS" is answered 403, because the handler keys on message text. |
| Validation.Validate | src/api/middlewares/validate.ts:5-25 | A request passes iff there are no issues; otherwise a utils/apiErrors `ValidationError` carries the issues. |
| AuthSchema.NonceRequestIssues | src/api/auth/auth.schema.ts:3-9 | No issue iff the address matches the pattern; otherwise one issue, "Invalid Ethereum address" at `body.address`. |
| AuthSchema.LoginIssues | src/api/auth/auth.schema.ts:11-16 | No issue iff message and signature are non-empty; there is one issue per empty field, with its own text and path. |
| AuthSchema.AddressShape | src/api/auth/auth.schema.ts:3 | An address is valid iff it has length 42 and is "0x" followed by 40 hex digits. |
| AuthSchema.UpperPrefixRejected | src/api/auth/auth.schema.ts:3 | "0X…" is refused. |
| AuthSchema.HexDigitsOfEitherCase | src/api/auth/auth.schema.ts:3 | Hex digits of either case are accepted. |
| InvestmentSchema.InvestIssues | src/api/investment/investment.schema.ts:3-8 | No issue iff `fund` is non-empty and `usdAmount` > 0; each failing field reports its own message. |
| InvestmentSchema.RedeemIssues | src/api/investment/investment.schema.ts:10-15 | No issue iff `fund` is non-empty and `share` > 0; the body uses `share`. |
| InvestmentSchema.ZeroRejected | src/api/investment/investment.schema.ts:6-13 | An amount of 0 is refused in both schemas. |
| InvestmentService.GetInvestTransaction | src/api/investment/investment.service.ts:11-24 | A missing (fund, chainId) throws `APIError` naming both. Otherwise the result is {from: investor, to: stored fund address, data: invest encoding of (investor, amount), value: "0x0"}, or the encoder's error. |
| InvestmentService.GetRedeemTransaction | src/api/investment/investment.service.ts:25-38 | The same, with the redeem encoding of (investor, shares). |
| InvestmentService.FundNotFoundNamesBoth | src/api/investment/investment.service.ts:16-30 | The not-found message determines both the fund and the chain id. |
| InvestmentService.SameEnvelope | src/api/investment/investment.service.ts:18-37 | Invest and redeem for the same lookup differ only in `data`. |
| Text.ParseDecimal | src/indexer/processor.ts:148 | A block number parses iff the text is non-empty and all digits. |
| Text.DecimalRoundTrip | src/indexer/processor.ts:148-159 | The decimal text of a number denotes that number. |
| Text.ParseNatToString | src/indexer/processor.ts:148-159 | The stored cursor text parses back to the block number. |

## Left out

- Ledger.TxRow: the declared type of the `status` column is not shown by any source file, so
  the model accepts any text there.
- Concurrency. `Promise.all` runs the writes of one log, and the logs of one batch, in the
  order written. Each write lands unless it throws. Interleavings of concurrent cycles or
  requests are not modelled.
- Timers. `setInterval` and the `setTimeout` backoff are out; the retry loop records its
  delays as a list.
- Logging, every `console.log` and `logger` call.
- Random nonce generation. The nonce is an input.
- JWT signing and verification. `generateToken` is not modelled, and `jwt.verify` is an
  input.
- SIWE message parsing and verification. They are an input with three outcomes.
- ethers internals:
  - address checksumming, `hexZeroPad`, ABI decoding and the `createInvestTransactionData` /
    `createRedeemTransactionData` encoders are inputs that may fail;
  - the topic constants are stated as their keccak-256 values, not computed.
- `setInterval` wiring around the monitor and the indexer.
- Chain I/O. `getBlockNumber`, `getLogs`, `getTransactionReceipt` and `sendTransaction`/`wait`
  are inputs.
- The multicall readers `getBalanceOf` and `getFundMetrics` in src/utils/contract.ts are not
  part of this model.
- The Express, Zod and cors libraries, the rate limiter, the controllers, the routes, the
  health check and the configuration loading.
- Zod type errors are out: request fields are taken as already having their declared types.
- JSON. In the cache, the encoder and decoder are inputs. The indexer's metrics value is
  written out as text.
- Store and Redis faults are modelled only in `processLog`, where catching every failure is
  the point. Elsewhere calls succeed. Both exceptions are noted on their own lines below.
- Processor.Cycle: a cursor that is present but not plain decimal digits makes
  `Number(fromBlock)` give `NaN`. The model assumes that ethers then rejects the `getLogs`
  call, and ends the cycle with an invalid-block error without calling `getLogs`. This is an
  assumption about the library, not something the program decides. JavaScript's `Number()`
  acceptance of forms such as " 12" or "1e3" is not modelled either.
- Monitor.MonitorTransactions: an update that throws for a reason other than a missing row is
  not modelled. A missing row is modelled, and it ends the sweep.
- Monitor.Sweep: the stored chain id is taken as an integer. The `Number(tx.chainId)`
  conversion of the source is not modelled, nor are non-integer or `NaN` results of it.
- Monitor.PendingRows: the order of `findMany` is an input. The sweep's guarantees assume each
  row is listed once.
- Contract.SubmitTransaction: the thrown error's class for `maxRetries <= 0` is modelled as
  the `TypeError` of reading `undefined.message`. Its exact text is JavaScript-engine
  specific.
- Text.Lower: lower-casing is ASCII only.
- AuthService.GetNonce: the TTL is the constant 300 s. In the cache, a negative or fractional
  `ttl` is not modelled (`ttl` is a `nat`).
- Errors.Error: numeric JSON-RPC error codes are kept as decimal text, which never equals a
  named code. Stack traces of freshly raised errors are absent.
- InvestmentService.GetInvestTransaction: amounts are reals, so JavaScript's `NaN` and
  infinities are not modelled; chain ids are integers.
