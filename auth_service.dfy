/** src/api/auth/auth.service.ts: the Sign-In with Ethereum nonce store. A nonce is issued
    per address, lives 300 seconds and is consumed by the first verification attempt that
    reaches it. Nonce generation and SIWE message verification are inputs. */
module AuthService {
  import opened Wrappers
  import opened Errors
  import opened KeyValue

  /** `NONCE_EXPIRY`, in seconds. */
  const NonceExpirySeconds: nat := 300

  function NonceKey(address: string): string
  {
    "nonce:" + address
  }

  /** What `new SiweMessage(message).verify({ signature })` gives: the verified fields, a
      response with `success: false` and the type of its error (if any), or a rejection. */
  datatype SiweOutcome =
    | SiweVerified(address: string, nonce: string, chainId: int)
    | SiweFailed(errorType: Option<string>)
    | SiweThrew(error: Error)

  /** The `{ address, chainId }` a successful login yields. */
  datatype Session = Session(address: string, chainId: int)

  /** `verifyNonce(address, nonce)`: the keyspace afterwards and the answer. */
  function CheckNonce(m: Store, address: string, nonce: string, now: int): (r: (Store, bool))
    ensures r.1 <==> nonce != "" && Lookup(m, NonceKey(address), now) == Some(nonce)
    ensures Lookup(r.0, NonceKey(address), now).None? || Lookup(r.0, NonceKey(address), now) == Some("")
  {
    var stored := Lookup(m, NonceKey(address), now);
    if stored.None? || stored.value == "" then (m, false)
    else (Remove(m, NonceKey(address)), stored.value == nonce)
  }

  const VerifyFailedMessage: string := "Error verifying signature"
  const InvalidNonceMessage: string := "Invalid nonce"

  /** `verifySignature(message, signature)` once SIWE has answered `siwe`. */
  function Login(m: Store, siwe: SiweOutcome, now: int): (r: (Store, Result<Session, Error>))
    ensures r.1.Ok? ==> siwe.SiweVerified? && r.1.value == Session(siwe.address, siwe.chainId)
    ensures !siwe.SiweVerified? ==> r.0 == m
    ensures r.1.Err? && !siwe.SiweThrew? ==> r.1.error.cls == AuthenticationError(ApiErrors)
  {
    match siwe
    case SiweThrew(e) => (m, Err(e))
    case SiweFailed(errorType) =>
      var text := if errorType.Some? && errorType.value != "" then errorType.value else VerifyFailedMessage;
      (m, Err(Raise(AuthenticationError(ApiErrors), text, NoDetails)))
    case SiweVerified(address, nonce, chainId) =>
      var (m', valid) := CheckNonce(m, address, nonce, now);
      if valid then (m', Ok(Session(address, chainId)))
      else (m', Err(Raise(AuthenticationError(ApiErrors), InvalidNonceMessage, NoDetails)))
  }

  /** `getNonce(address)`, `nonce` being what `generateNonce()` returned. */
  method GetNonce(kv: RedisStore, address: string, nonce: string, now: int) returns (issued: string)
    modifies kv
    ensures issued == nonce
    ensures kv.entries == Put(old(kv.entries), NonceKey(address), nonce, Some(NonceExpirySeconds), now)
  {
    kv.Set(NonceKey(address), nonce, Some(NonceExpirySeconds), now);
    issued := nonce;
  }

  /** `verifyNonce(address, nonce)` */
  method VerifyNonce(kv: RedisStore, address: string, nonce: string, now: int) returns (valid: bool)
    modifies kv
    ensures (kv.entries, valid) == CheckNonce(old(kv.entries), address, nonce, now)
  {
    var stored := kv.Get(NonceKey(address), now);
    if stored.None? || stored.value == "" {
      return false;
    }
    kv.Del(NonceKey(address));
    valid := stored.value == nonce;
  }

  /** `verifySignature(message, signature)`, `siwe` answering the SIWE verification. */
  method VerifySignature(kv: RedisStore, siwe: SiweOutcome, now: int) returns (r: Result<Session, Error>)
    modifies kv
    ensures (kv.entries, r) == Login(old(kv.entries), siwe, now)
  {
    match siwe
    case SiweThrew(e) =>
      return Err(e);
    case SiweFailed(errorType) =>
      var text := if errorType.Some? && errorType.value != "" then errorType.value else VerifyFailedMessage;
      return Err(Raise(AuthenticationError(ApiErrors), text, NoDetails));
    case SiweVerified(address, nonce, chainId) =>
      var valid := VerifyNonce(kv, address, nonce, now);
      if !valid {
        return Err(Raise(AuthenticationError(ApiErrors), InvalidNonceMessage, NoDetails));
      }
      r := Ok(Session(address, chainId));
  }

  /** A nonce just issued is accepted strictly within 300 seconds, and never after; any
      other nonce is refused. An empty nonce is never accepted. */
  lemma IssuedNonceAcceptedUntilExpiry(m: Store, address: string, issued: string, offered: string, now: int, later: int)
    ensures CheckNonce(Put(m, NonceKey(address), issued, Some(NonceExpirySeconds), now), address, offered, later).1 <==>
      issued != "" && offered == issued && later < now + 1000 * NonceExpirySeconds
  {
  }

  /** Issuing again replaces the previous nonce of the address. */
  lemma ReissueInvalidatesPrevious(m: Store, address: string, first: string, second: string, now: int, later: int)
    requires first != second
    ensures CheckNonce(Put(m, NonceKey(address), second, Some(NonceExpirySeconds), now), address, first, later).1 == false
  {
  }

  /** A nonce that was present is deleted by the check, whether it matched or not, and no
      other key changes; an absent or empty one leaves the keyspace as it was. */
  lemma CheckConsumesNonce(m: Store, address: string, nonce: string, now: int)
    ensures var (m', _) := CheckNonce(m, address, nonce, now);
      var stored := Lookup(m, NonceKey(address), now);
      && (stored.None? || stored == Some("") ==> m' == m)
      && (stored.Some? && stored != Some("") ==> forall t :: Lookup(m', NonceKey(address), t).None?)
      && forall k, t :: k != NonceKey(address) ==> Lookup(m', k, t) == Lookup(m, k, t)
  {
  }

  /** Single use: after any check that finds the nonce, a second check of the same address
      fails, whatever nonce it offers and whenever it comes. */
  lemma NonceSingleUse(m: Store, address: string, first: string, second: string, now: int, later: int)
    requires Lookup(m, NonceKey(address), now).Some? && Lookup(m, NonceKey(address), now) != Some("")
    ensures var (m', _) := CheckNonce(m, address, first, now);
      CheckNonce(m', address, second, later) == (m', false)
  {
  }

  /** A SIWE check that fails or throws rejects before the nonce store is read: the
      keyspace is unchanged, and a failure is an `AuthenticationError` naming the SIWE
      error type, or the fixed text when there is none. */
  lemma SignatureCheckedBeforeNonce(m: Store, siwe: SiweOutcome, now: int)
    requires !siwe.SiweVerified?
    ensures Login(m, siwe, now).0 == m && Login(m, siwe, now).1.Err?
    ensures siwe.SiweFailed? ==>
      && Login(m, siwe, now).1.error.cls == AuthenticationError(ApiErrors)
      && Login(m, siwe, now).1.error.message ==
           Some(if siwe.errorType.Some? && siwe.errorType.value != "" then siwe.errorType.value else VerifyFailedMessage)
  {
  }

  /** A login succeeds exactly when SIWE verifies and the nonce it names is the one stored
      for its address, and then yields that address and chain. A second login replaying
      the same signed message fails with "Invalid nonce". */
  lemma LoginSucceedsOnce(m: Store, address: string, nonce: string, chainId: int, now: int, later: int)
    ensures var siwe := SiweVerified(address, nonce, chainId);
      var (m', r) := Login(m, siwe, now);
      && (r.Ok? <==> nonce != "" && Lookup(m, NonceKey(address), now) == Some(nonce))
      && (r.Ok? ==> r.value == Session(address, chainId))
      && (r.Ok? ==>
            Login(m', siwe, later) == (m', Err(Raise(AuthenticationError(ApiErrors), InvalidNonceMessage, NoDetails))))
  {
  }
}
