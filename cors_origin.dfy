/** src/api/middlewares/corsOrigin.ts: the `origin` callback of the API's CORS policy. */
module CorsOrigin {
  import opened Wrappers
  import opened Text
  import opened Errors

  const Whitelist: seq<string> := ["http://localhost:3000", "https://libre-frontend.app", "https://www.libre-frontend.app"]

  function RejectionMessage(origin: string): string
  {
    "Origin: " + origin + " is Not allowed by CORS"
  }

  /** The callback's answer for the request's `Origin` header (absent: `None`): allowed, or
      the error it is called back with. */
  function CheckOrigin(origin: Option<string>): (r: Result<bool, Error>)
    ensures r.Ok? <==> origin.None? || origin.value == "" || origin.value in Whitelist
    ensures r.Ok? ==> r.value
    ensures r.Err? ==> r.error == Raise(PlainError, RejectionMessage(origin.value), NoDetails)
  {
    if origin.None? || origin.value == "" || origin.value in Whitelist then Ok(true)
    else Err(Raise(PlainError, RejectionMessage(origin.value), NoDetails))
  }

  /** The rejection names the origin: two origins are told apart by their messages. */
  lemma RejectionNamesOrigin(a: string, b: string)
    requires RejectionMessage(a) == RejectionMessage(b)
    ensures a == b
  {
    PrefixSuffixCancel("Origin: ", a, b, " is Not allowed by CORS");
  }

  /** The rejection message mentions "CORS", which is what the error handler keys on. */
  lemma RejectionMentionsCors(origin: string)
    ensures Contains(RejectionMessage(origin), "CORS")
  {
    assert RejectionMessage(origin) == "Origin: " + origin + " is Not allowed by " + "CORS";
    ContainsInfix("Origin: " + origin + " is Not allowed by ", "CORS", "");
    assert "Origin: " + origin + " is Not allowed by " + "CORS" + "" == RejectionMessage(origin);
  }

  /** For example, matching is exact: no case folding and no trailing-slash normalisation
      (the general fact is `CheckOrigin`'s own contract). */
  lemma MatchIsExact()
    ensures CheckOrigin(Some("https://libre-frontend.app")).Ok?
    ensures CheckOrigin(Some("https://libre-frontend.app/")).Err?
    ensures CheckOrigin(Some("HTTP://localhost:3000")).Err?
    ensures CheckOrigin(Some("http://localhost:3001")).Err?
  {
  }
}
