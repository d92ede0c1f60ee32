/** src/api/middlewares/auth.ts: `authenticateToken`, which takes the token from the
    `Authorization` header, lets `jwt.verify` decode it and hands the request on. */
module AuthMiddleware {
  import opened Wrappers
  import opened Errors

  /** The first position of `c` in `s`. */
  function IndexOf(s: string, c: char): (i: nat)
    requires c in s
    ensures i < |s| && s[i] == c && c !in s[..i]
    decreases |s|
  {
    if s[0] == c then 0
    else
      var i := 1 + IndexOf(s[1..], c);
      assert s[..i] == [s[0]] + s[1..][..i - 1];
      i
  }

  /** `s.split(sep)` for a one-character separator: the pieces between occurrences, empty
      ones included. */
  function Split(s: string, sep: char): (pieces: seq<string>)
    ensures |pieces| >= 1
    ensures forall k :: 0 <= k < |pieces| ==> sep !in pieces[k]
    decreases |s|
  {
    if sep !in s then [s]
    else
      var i := IndexOf(s, sep);
      [s[..i]] + Split(s[i + 1..], sep)
  }

  /** `authHeader && authHeader.split(" ")[1]`, falsy values (no header, no second piece,
      an empty second piece) as `None`. */
  function BearerToken(header: Option<string>): (token: Option<string>)
    ensures token.Some? ==> token.value != "" && ' ' !in token.value
  {
    if header.None? || header.value == "" then None
    else
      var pieces := Split(header.value, ' ');
      if |pieces| < 2 || pieces[1] == "" then None else Some(pieces[1])
  }

  /** The decoded JWT payload `{ address, chainId }`. */
  datatype Claims = Claims(address: string, chainId: int)

  const NoTokenMessage: string := "No token provided"
  const InvalidTokenMessage: string := "Invalid token"

  /** `req.user` afterwards, the number of `next()` calls, and the error thrown, if any.
      `verify` answers `jwt.verify`; `nextThrows` says whether `next()` throws. */
  datatype Outcome = Outcome(user: Option<Claims>, nextCalls: nat, thrown: Option<Error>)

  function Authenticate(header: Option<string>, user: Option<Claims>, verify: string -> Option<Claims>, nextThrows: bool): (r: Outcome)
    ensures r.nextCalls <= 1
    ensures r.nextCalls == 1 <==> BearerToken(header).Some? && verify(BearerToken(header).value).Some?
    ensures r.user != user ==> r.nextCalls == 1
    ensures r.thrown.None? ==> r.nextCalls == 1
  {
    match BearerToken(header)
    case None => Outcome(user, 0, Some(Raise(AuthenticationError(UtilsErrors), NoTokenMessage, NoDetails)))
    case Some(token) =>
      match verify(token)
      case None => Outcome(user, 0, Some(Raise(AuthenticationError(UtilsErrors), InvalidTokenMessage, NoDetails)))
      case Some(claims) =>
        Outcome(Some(claims), 1, if nextThrows then Some(Raise(AuthenticationError(UtilsErrors), InvalidTokenMessage, NoDetails)) else None)
  }

  /** The parts of an Express request the middleware reads and writes. */
  class Request {
    const authorization: Option<string>
    var user: Option<Claims>

    constructor(authorization: Option<string>)
      ensures this.authorization == authorization && user.None?
    {
      this.authorization := authorization;
      user := None;
    }
  }

  /** `authenticateToken(req, res, next)` */
  method AuthenticateToken(req: Request, verify: string -> Option<Claims>, nextThrows: bool)
    returns (nextCalls: nat, thrown: Option<Error>)
    modifies req
    ensures Outcome(req.user, nextCalls, thrown) == Authenticate(req.authorization, old(req.user), verify, nextThrows)
  {
    var token := BearerToken(req.authorization);
    if token.None? {
      return 0, Some(Raise(AuthenticationError(UtilsErrors), NoTokenMessage, NoDetails));
    }
    var decoded := verify(token.value);
    if decoded.None? {
      return 0, Some(Raise(AuthenticationError(UtilsErrors), InvalidTokenMessage, NoDetails));
    }
    req.user := decoded;
    nextCalls := 1;
    thrown := if nextThrows then Some(Raise(AuthenticationError(UtilsErrors), InvalidTokenMessage, NoDetails)) else None;
  }

  /** Splitting at the first separator gives the piece before it and the split of the rest. */
  lemma SplitAtFirst(a: string, b: string, sep: char)
    requires sep !in a
    ensures Split(a + [sep] + b, sep) == [a] + Split(b, sep)
  {
    var s := a + [sep] + b;
    assert s[|a|] == sep;
    assert forall k :: 0 <= k < |a| ==> s[k] == a[k];
    var i := IndexOf(s, sep);
    assert s[..i] == a;
    assert s[i + 1..] == b;
  }

  /** A non-empty second piece is the token. */
  lemma TokenFromPieces(header: string, token: string)
    requires |Split(header, ' ')| >= 2 && Split(header, ' ')[1] == token && token != ""
    ensures BearerToken(Some(header)) == Some(token)
  {
  }

  /** A header of two fields carries the second. */
  lemma TokenAfterScheme(scheme: string, token: string)
    requires ' ' !in scheme && ' ' !in token && token != ""
    ensures BearerToken(Some(scheme + " " + token)) == Some(token)
  {
    var h := scheme + [' '] + token;
    SplitAtFirst(scheme, token, ' ');
    assert Split(token, ' ') == [token];
    assert scheme + " " + token == h;
    TokenFromPieces(h, token);
  }

  /** A header of more fields carries the second. */
  lemma TokenBeforeRest(scheme: string, token: string, rest: string)
    requires ' ' !in scheme && ' ' !in token && token != ""
    ensures BearerToken(Some(scheme + " " + token + " " + rest)) == Some(token)
  {
    var t := token + [' '] + rest;
    SplitAtFirst(token, rest, ' ');
    var h := scheme + [' '] + t;
    SplitAtFirst(scheme, t, ' ');
    assert Split(h, ' ')[1] == Split(t, ' ')[0] == token;
    assert scheme + " " + token + " " + rest == h;
    TokenFromPieces(h, token);
  }

  /** The token is the second space-separated field, whatever the first field says (the
      scheme word is not checked) and whatever follows a further space. */
  lemma TokenIsSecondField(scheme: string, token: string, rest: string)
    requires ' ' !in scheme && ' ' !in token && token != ""
    ensures BearerToken(Some(scheme + " " + token)) == Some(token)
    ensures BearerToken(Some(scheme + " " + token + " " + rest)) == Some(token)
  {
    TokenAfterScheme(scheme, token);
    TokenBeforeRest(scheme, token, rest);
  }

  /** A header with no space carries no token. */
  lemma NoSpaceNoToken(header: string)
    requires ' ' !in header
    ensures BearerToken(Some(header)) == None
  {
    assert Split(header, ' ') == [header];
  }

  /** A header whose first field is followed by two spaces has an empty second field and
      so carries no token. */
  lemma EmptySecondFieldNoToken(scheme: string, rest: string)
    requires ' ' !in scheme
    ensures BearerToken(Some(scheme + [' ', ' '] + rest)) == None
  {
    var empty: string := [];
    var tail := empty + [' '] + rest;
    var header := scheme + [' ', ' '] + rest;
    assert header == scheme + [' '] + tail;
    SplitAtFirst(scheme, tail, ' ');
    SplitAtFirst(empty, rest, ' ');
    assert Split(header, ' ')[1] == empty;
  }

  /** The request passes exactly when a token is present and verifies; it then carries the
      decoded claims and `next` runs once. Every rejection is an `AuthenticationError` of
      src/utils/errors.ts, and `req.user` is left alone unless the token verified. */
  lemma Outcomes(header: Option<string>, user: Option<Claims>, verify: string -> Option<Claims>, nextThrows: bool)
    ensures var o := Authenticate(header, user, verify, nextThrows);
      && (o.thrown.None? <==> BearerToken(header).Some? && verify(BearerToken(header).value).Some? && !nextThrows)
      && (o.nextCalls == 1 <==> BearerToken(header).Some? && verify(BearerToken(header).value).Some?)
      && (o.nextCalls == 1 ==> o.user == verify(BearerToken(header).value))
      && (o.nextCalls == 0 ==> o.user == user)
      && (o.thrown.Some? ==> o.thrown.value.cls == AuthenticationError(UtilsErrors))
      && (BearerToken(header).None? ==> o.thrown == Some(Raise(AuthenticationError(UtilsErrors), NoTokenMessage, NoDetails)))
  {
  }

  /** A throw from `next()` is reported as an invalid token although the token verified,
      and the request keeps the claims already set on it. */
  lemma DownstreamThrowReadsAsInvalidToken(header: Option<string>, user: Option<Claims>, verify: string -> Option<Claims>)
    requires BearerToken(header).Some? && verify(BearerToken(header).value).Some?
    ensures Authenticate(header, user, verify, true) ==
      Outcome(verify(BearerToken(header).value), 1, Some(Raise(AuthenticationError(UtilsErrors), InvalidTokenMessage, NoDetails)))
  {
  }
}
