/** How the errors the API's collaborators raise come out of the error handler: which
    status each failure of the CORS policy, the token middleware, the login, the request
    validation, the chain lookup and the fund lookup is answered with. */
module ApiResponses {
  import opened Wrappers
  import opened Text
  import opened Errors
  import opened KeyValue
  import opened Provider
  import opened ErrorHandler
  import opened CorsOrigin
  import opened AuthMiddleware
  import opened AuthService
  import opened Validation
  import opened InvestmentService

  /** A refused origin is answered 403 Forbidden with the refusal text. */
  lemma CorsRejectionForbidden(origin: Option<string>)
    requires CheckOrigin(origin).Err?
    ensures HandleError(CheckOrigin(origin).error) ==
      Response(403, "Forbidden", Some(RejectionMessage(origin.value)))
  {
    RejectionMentionsCors(origin.value);
  }

  lemma TokenMessagesWithoutCors()
    ensures !Contains(NoTokenMessage, "CORS") && !Contains(InvalidTokenMessage, "CORS")
  {
    var noToken := NoTokenMessage;
    var invalid := InvalidTokenMessage;
    assert 'C' !in noToken && 'C' !in invalid;
    MissingCharRulesOut(noToken, "CORS", 'C');
    MissingCharRulesOut(invalid, "CORS", 'C');
  }

  /** The token middleware's rejections are of the unrecognised `AuthenticationError`, so
      a missing or invalid token is answered 500, not 401. */
  lemma TokenRejectionIsInternalError(header: Option<string>, user: Option<Claims>, verify: string -> Option<Claims>, nextThrows: bool)
    requires Authenticate(header, user, verify, nextThrows).thrown.Some?
    ensures HandleError(Authenticate(header, user, verify, nextThrows).thrown.value) ==
      Response(500, "Internal Server Error", Some("An unexpected error occurred"))
  {
    var e := Authenticate(header, user, verify, nextThrows).thrown.value;
    TokenMessagesWithoutCors();
    UtilsErrorsNotRecognised(e);
  }

  /** A failed SIWE check and a bad nonce are answered 401 with their message. */
  lemma LoginRejectionUnauthorized(m: Store, siwe: SiweOutcome, now: int)
    requires !siwe.SiweThrew? && Login(m, siwe, now).1.Err?
    ensures var e := Login(m, siwe, now).1.error;
      HandleError(e) == Response(401, "Authentication Error", e.message)
  {
  }

  /** A body with issues is answered 400 with "Validation failed". */
  lemma ValidationFailureBadRequest(issues: seq<Issue>)
    requires issues != []
    ensures HandleError(Validate(issues).error) == Response(400, "Validation Error", Some("Validation failed"))
  {
  }

  /** An unsupported chain id is answered 500. */
  lemma UnsupportedChainIsInternalError(chainId: int)
    requires GetRpcProvider(chainId).Err?
    ensures HandleError(GetRpcProvider(chainId).error).status == 500
  {
    var m := "unsupported chainId ";
    assert 'C' !in m;
    assert 'C' !in IntToString(chainId);
    MissingCharRulesOut(m + IntToString(chainId), "CORS", 'C');
  }

  /** The fixed parts of the not-found text around the fund: no capital C before it and
      no capital S after it. */
  lemma FundMessageFrame(chainId: int)
    ensures 'C' !in "FundToken with address "
    ensures 'S' !in " and chain " + IntToString(chainId) + " not found"
  {
    assert 'S' !in " and chain " && 'S' !in " not found";
    assert 'S' !in IntToString(chainId);
  }

  /** A fund that is not listed is answered 500 unless its address contains "CORS". */
  lemma MissingFundIsInternalError(fund: string, chainId: int)
    requires !Contains(fund, "CORS")
    ensures HandleError(FundNotFound(fund, chainId)).status == 500
  {
    var p := "FundToken with address ";
    var q := " and chain " + IntToString(chainId) + " not found";
    assert FundNotFoundMessage(fund, chainId) == p + fund + q;
    FundMessageFrame(chainId);
    if Contains(p + fund + q, "CORS") {
      OccurrenceInside(p, fund, q, "CORS");
    }
  }

  /** The handler keys on the message text: a fund address containing "CORS" turns the
      not-found error into a 403. */
  lemma MissingCorsFundIsForbidden(fund: string, chainId: int)
    requires Contains(fund, "CORS")
    ensures HandleError(FundNotFound(fund, chainId)).status == 403
  {
    var p := "FundToken with address ";
    var mid := " and chain ";
    var tail := " not found";
    var q := mid + IntToString(chainId) + tail;
    assert p + fund + q == p + fund + mid + IntToString(chainId) + tail;
    ContainsWithin(p, fund, q, "CORS");
  }
}
