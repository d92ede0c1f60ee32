/** The error classes of src/utils/errors.ts and src/utils/apiErrors.ts as one closed tagged
    union, and the RPC failure classifier `withRpcErrorHandler`. */
module Errors {
  import opened Wrappers
  import opened Text

  /** The file that declares a class. Both files declare `ValidationError`,
      `AuthenticationError`, `NotFoundError` and `RedisError`; `instanceof` tells the
      two declarations apart. */
  datatype Origin = UtilsErrors | ApiErrors

  datatype ErrorClass =
    | PlainError                       // `Error` itself and every library error (ethers, Prisma, ...)
    | ValidationError(origin: Origin)
    | APIError                         // src/utils/errors.ts only
    | ContractError                    // src/utils/errors.ts only
    | RPCError                         // src/utils/errors.ts only
    | AuthenticationError(origin: Origin)
    | NotFoundError(origin: Origin)
    | RedisError(origin: Origin)

  /** One entry of a `ValidationError`'s details. */
  datatype Issue = Issue(path: string, message: string)

  /** The structured `details` payload some classes carry. */
  datatype Details =
    | NoDetails
    | Issues(issues: seq<Issue>)
    | ContractDetails(reason: Option<string>, code: Option<string>, message: Option<string>)
    | TransportDetails(code: Option<string>, message: Option<string>)
    | RetryDetails(stack: Option<string>, code: Option<string>)

  /** A thrown value with the properties the source inspects. `code` holds ethers' string
      codes; a numeric JSON-RPC code is kept as its decimal text, which never equals one of
      the named codes. */
  datatype Error = Error(
    cls: ErrorClass,
    message: Option<string>,
    code: Option<string>,
    reason: Option<string>,
    stack: Option<string>,
    details: Details)

  /** `new Cls(message, details)`: a fresh error has no `code` and no `reason`. */
  function Raise(cls: ErrorClass, message: string, details: Details): Error
  {
    Error(cls, Some(message), None, None, None, details)
  }

  /** JavaScript truthiness of an optional string property. */
  predicate Truthy(v: Option<string>)
  {
    v.Some? && v.value != ""
  }

  /** `error.message?.toLowerCase() || ""` */
  function LoweredMessage(e: Error): string
  {
    if e.message.Some? then Lower(e.message.value) else ""
  }

  /** The EVM/contract branch of the classifier. */
  predicate SignalsContractFailure(e: Error)
  {
    var m := LoweredMessage(e);
    || Contains(m, "execution reverted")
    || Contains(m, "invalid opcode")
    || Contains(m, "gas required exceeds allowance")
    || e.code == Some("CALL_EXCEPTION")
    || Truthy(e.reason)
  }

  /** The transport/network branch of the classifier, with every pattern the source lists. */
  predicate SignalsTransportFailure(e: Error)
  {
    var m := LoweredMessage(e);
    || e.code == Some("NETWORK_ERROR")
    || e.code == Some("SERVER_ERROR")
    || e.code == Some("ETIMEDOUT")
    || e.code == Some("ECONNRESET")
    || e.code == Some("ENOTFOUND")
    || Contains(m, "service unavailable")
    || Contains(m, "connection closed")
    || Contains(m, "could not detect network")
    || Contains(m, "failed to fetch")
    || Contains(m, "ETIMEDOUT")
    || Contains(m, "serverError")
    || Contains(m, "NETWORK_ERROR")
  }

  /** The transport branch with the three message patterns that contain upper-case letters
      dropped: the patterns that can actually match a lower-cased message. */
  predicate SignalsTransportFailureEffective(e: Error)
  {
    var m := LoweredMessage(e);
    || e.code == Some("NETWORK_ERROR")
    || e.code == Some("SERVER_ERROR")
    || e.code == Some("ETIMEDOUT")
    || e.code == Some("ECONNRESET")
    || e.code == Some("ENOTFOUND")
    || Contains(m, "service unavailable")
    || Contains(m, "connection closed")
    || Contains(m, "could not detect network")
    || Contains(m, "failed to fetch")
  }

  const ContractErrorMessage := "Contract execution error"
  const RpcErrorMessage := "RPC communication error"

  /** The catch block of `withRpcErrorHandler`: what is thrown in place of `e`. */
  function Classify(e: Error): (r: Error)
    ensures SignalsContractFailure(e) ==>
      r == Raise(ContractError, ContractErrorMessage, ContractDetails(e.reason, e.code, e.message))
    ensures !SignalsContractFailure(e) && SignalsTransportFailure(e) ==>
      r == Raise(RPCError, RpcErrorMessage, TransportDetails(e.code, e.message))
    ensures !SignalsContractFailure(e) && !SignalsTransportFailure(e) ==> r == e
  {
    if SignalsContractFailure(e) then
      Raise(ContractError, ContractErrorMessage, ContractDetails(e.reason, e.code, e.message))
    else if SignalsTransportFailure(e) then
      Raise(RPCError, RpcErrorMessage, TransportDetails(e.code, e.message))
    else
      e
  }

  /** `withRpcErrorHandler(fn)` applied to the outcome of `fn`: a result passes through
      unchanged, a thrown error is replaced by its classification. */
  function WithRpcErrorHandler<T>(outcome: Result<T, Error>): (r: Result<T, Error>)
    ensures outcome.Ok? ==> r == outcome
    ensures outcome.Err? ==> r.Err? && r.error == Classify(outcome.error)
  {
    match outcome
    case Ok(v) => Ok(v)
    case Err(e) => Err(Classify(e))
  }

  /** The message is lower-cased before it is searched, so "ETIMEDOUT", "serverError" and
      "NETWORK_ERROR" never match it: the transport branch behaves exactly as if those three
      patterns were absent. */
  lemma UpperCasePatternsNeverMatch(e: Error)
    ensures !Contains(LoweredMessage(e), "ETIMEDOUT")
    ensures !Contains(LoweredMessage(e), "serverError")
    ensures !Contains(LoweredMessage(e), "NETWORK_ERROR")
    ensures SignalsTransportFailure(e) <==> SignalsTransportFailureEffective(e)
  {
    var m := if e.message.Some? then e.message.value else "";
    assert LoweredMessage(e) == Lower(m);
    UpperPatternNeverInLowered(m, "ETIMEDOUT", 0);
    UpperPatternNeverInLowered(m, "serverError", 6);
    UpperPatternNeverInLowered(m, "NETWORK_ERROR", 0);
  }

  /** A character that can start none of the classifier's patterns after lower-casing:
      not g, f, v or l in either case. */
  predicate InertChar(c: char)
  {
    c != 'g' && c != 'G' && c != 'f' && c != 'F' && c != 'v' && c != 'V' && c != 'l' && c != 'L'
  }

  /** A freshly raised error whose message has only inert characters, so that its
      lower-cased form contains none of the classifier's patterns, and which has no code and
      no reason, is rethrown unchanged. */
  lemma InertRaised(cls: ErrorClass, message: string, details: Details)
    requires forall i :: 0 <= i < |message| ==> InertChar(message[i])
    ensures Classify(Raise(cls, message, details)) == Raise(cls, message, details)
  {
    var e := Raise(cls, message, details);
    InertLowered(message);
    ContractPatternsAbsent(Lower(message));
    TransportPatternsAbsent(Lower(message));
    UpperCasePatternsNeverMatch(e);
  }

  /** Lower-casing keeps a text inert. */
  lemma InertLowered(s: string)
    requires forall i :: 0 <= i < |s| ==> InertChar(s[i])
    ensures 'g' !in Lower(s) && 'f' !in Lower(s) && 'v' !in Lower(s) && 'l' !in Lower(s)
  {
    assert forall i :: 0 <= i < |s| ==> InertChar(Lower(s)[i]);
  }

  lemma ContractPatternsAbsent(m: string)
    requires 'g' !in m && 'v' !in m
    ensures !Contains(m, "execution reverted") && !Contains(m, "invalid opcode")
    ensures !Contains(m, "gas required exceeds allowance")
  {
    MissingCharRulesOut(m, "execution reverted", 'v');
    MissingCharRulesOut(m, "invalid opcode", 'v');
    MissingCharRulesOut(m, "gas required exceeds allowance", 'g');
  }

  lemma TransportPatternsAbsent(m: string)
    requires 'f' !in m && 'v' !in m && 'l' !in m
    ensures !Contains(m, "service unavailable") && !Contains(m, "connection closed")
    ensures !Contains(m, "could not detect network") && !Contains(m, "failed to fetch")
  {
    MissingCharRulesOut(m, "service unavailable", 'v');
    MissingCharRulesOut(m, "connection closed", 'l');
    MissingCharRulesOut(m, "could not detect network", 'l');
    MissingCharRulesOut(m, "failed to fetch", 'f');
  }

  lemma ContractErrorInert(d: Details)
    ensures Classify(Raise(ContractError, ContractErrorMessage, d)) == Raise(ContractError, ContractErrorMessage, d)
  {
    InertRaised(ContractError, ContractErrorMessage, d);
  }

  lemma RpcErrorInert(d: Details)
    ensures Classify(Raise(RPCError, RpcErrorMessage, d)) == Raise(RPCError, RpcErrorMessage, d)
  {
    InertRaised(RPCError, RpcErrorMessage, d);
  }

  /** The errors the classifier raises are left alone by a second classification, so
      wrapping an already wrapped function cannot turn a `ContractError` or an `RPCError`
      it raised into something else. */
  lemma ClassifyIdempotent(e: Error)
    ensures Classify(Classify(e)) == Classify(e)
  {
    if SignalsContractFailure(e) {
      ContractErrorInert(ContractDetails(e.reason, e.code, e.message));
    } else if SignalsTransportFailure(e) {
      RpcErrorInert(TransportDetails(e.code, e.message));
    }
  }
}
