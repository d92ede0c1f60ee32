/** The request-body checks of src/api/auth/auth.schema.ts and
    src/api/investment/investment.schema.ts, each giving the issues Zod reports (field
    order, path joined with "."), and the `validate` middleware that turns issues into a
    `ValidationError`. Bodies are taken as already of the declared field types. */
module Validation {
  import opened Wrappers
  import opened Errors

  /** `validate(schema)`: nothing to report lets the request through; otherwise a
      `ValidationError` of src/utils/apiErrors.ts carries the issues. */
  function Validate(issues: seq<Issue>): (r: Result<(), Error>)
    ensures r.Ok? <==> issues == []
    ensures r.Err? ==> r.error.cls == ValidationError(ApiErrors) && r.error.details == Issues(issues)
  {
    if issues == [] then Ok(()) else Err(Raise(ValidationError(ApiErrors), "Validation failed", Issues(issues)))
  }
}

module AuthSchema {
  import opened Text
  import opened Errors

  /** `/^0x[a-fA-F0-9]{40}$/` */
  predicate IsEthereumAddress(s: string)
  {
    |s| == 42 && s[0] == '0' && s[1] == 'x' && forall i :: 2 <= i < |s| ==> IsHexDigit(s[i])
  }

  const InvalidAddressMessage: string := "Invalid Ethereum address"

  /** `getNonceSchema` */
  function NonceRequestIssues(address: string): (issues: seq<Issue>)
    ensures issues == [] <==> IsEthereumAddress(address)
    ensures issues != [] ==> issues == [Issue("body.address", InvalidAddressMessage)]
  {
    if IsEthereumAddress(address) then [] else [Issue("body.address", InvalidAddressMessage)]
  }

  /** `loginSchema`: both fields are checked, message first. */
  function LoginIssues(message: string, signature: string): (issues: seq<Issue>)
    ensures issues == [] <==> message != "" && signature != ""
    ensures Issue("body.message", "Message is required") in issues <==> message == ""
    ensures Issue("body.signature", "Signature is required") in issues <==> signature == ""
    ensures |issues| == (if message == "" then 1 else 0) + (if signature == "" then 1 else 0)
  {
    (if message == "" then [Issue("body.message", "Message is required")] else []) +
    (if signature == "" then [Issue("body.signature", "Signature is required")] else [])
  }

  /** The address pattern is exactly "0x" followed by forty hexadecimal digits of either
      case, in both directions. */
  lemma AddressShape(s: string)
    ensures IsEthereumAddress(s) <==>
      |s| == 42 && s[..2] == "0x" && forall i :: 0 <= i < 40 ==> IsHexDigit(s[2..][i])
  {
    if |s| == 42 && s[..2] == "0x" {
      assert s[0] == s[..2][0] && s[1] == s[..2][1];
      assert forall i :: 0 <= i < 40 ==> s[2..][i] == s[i + 2];
    }
  }

  /** The prefix is case-sensitive: "0X" is refused, whatever follows. */
  lemma UpperPrefixRejected(h: string)
    ensures !IsEthereumAddress("0X" + h)
  {
    assert ("0X" + h)[1] == 'X';
  }

  /** Forty hexadecimal digits of any mix of cases after "0x" are accepted. */
  lemma HexDigitsOfEitherCase(h: string)
    requires |h| == 40 && forall i :: 0 <= i < 40 ==> IsHexDigit(h[i])
    ensures IsEthereumAddress("0x" + h)
  {
    assert forall i :: 2 <= i < 42 ==> ("0x" + h)[i] == h[i - 2];
  }
}

module InvestmentSchema {
  import opened Errors

  /** `getInvestTransactionSchema`: fund first, then the strictly positive USD amount. */
  function InvestIssues(fund: string, usdAmount: real): (issues: seq<Issue>)
    ensures issues == [] <==> fund != "" && usdAmount > 0.0
    ensures Issue("body.fund", "fund is required") in issues <==> fund == ""
    ensures Issue("body.usdAmount", "usdAmount cannot be less than zero") in issues <==> usdAmount <= 0.0
  {
    (if fund == "" then [Issue("body.fund", "fund is required")] else []) +
    (if usdAmount > 0.0 then [] else [Issue("body.usdAmount", "usdAmount cannot be less than zero")])
  }

  /** `getRedeemTransactionSchema`: fund first, then the strictly positive share count. */
  function RedeemIssues(fund: string, share: real): (issues: seq<Issue>)
    ensures issues == [] <==> fund != "" && share > 0.0
    ensures Issue("body.fund", "fund is required") in issues <==> fund == ""
    ensures Issue("body.share", "share cannot be less than zero") in issues <==> share <= 0.0
  {
    (if fund == "" then [Issue("body.fund", "fund is required")] else []) +
    (if share > 0.0 then [] else [Issue("body.share", "share cannot be less than zero")])
  }

  /** For example, zero is refused although the message speaks of "less than zero" (the
      general fact is the contracts of `InvestIssues` and `RedeemIssues`). */
  lemma ZeroRejected(fund: string)
    ensures InvestIssues(fund, 0.0) != [] && RedeemIssues(fund, 0.0) != []
  {
  }
}
