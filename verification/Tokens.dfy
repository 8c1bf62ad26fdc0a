/**
 Session tokens and the interceptor that asks for them. A signature is ideal: a token is valid only if
 the server issued it.
 */
module Tokens {
  import opened Wire
  import opened Accounts

  const SECOND: nat := 1_000_000_000  // in nanoseconds, the resolution of the clock
  const DAY: nat := 24 * 60 * 60 * SECOND

  datatype Claims = Claims(user: Id, admin: bool)

  /** The expiry is a whole number of seconds. */
  datatype Token = Token(claims: Claims, exp: nat)

  /** `IssueJWT` at a time. */
  function IssueJWT(user: Id, admin: bool, now: nat): Token {
    Token(Claims(user, admin), (now + DAY) / SECOND)
  }

  /** `ValidateJWT`: one of the tokens issued, and not expired. */
  predicate Valid(token: Token, issued: set<Token>, now: nat) {
    token in issued && now < token.exp * SECOND
  }

  /** A token expires at most a day after it was issued, and less than a second before that. */
  lemma ExpiryWindow(user: Id, admin: bool, now: nat)
    ensures now + DAY - SECOND < IssueJWT(user, admin, now).exp * SECOND <= now + DAY
  {
  }

  // ---------------------------------------------------------------- requests

  /** What follows `Bearer ` in the header: some string the server may or may not have issued. */
  datatype Credential = Forged | Genuine(token: Token)

  datatype Header = NoMetadata | NoAuthorization | NotBearer | Bearer(credential: Credential)

  datatype Rpc =
    | LoginWithGoogle
    | UpdateProfile
    | GetCurrentUser
    | ListUsers
    | Echo
    | HealthCheck
    | HealthWatch
    | Reflection
    | ReflectionAlpha

  datatype Code = InvalidArgument | Unauthenticated | PermissionDenied | NotFound | AlreadyExists | Internal

  datatype Result<T> = Ok(value: T) | Err(code: Code)

  const PUBLIC_RPCS: set<Rpc> := {LoginWithGoogle, Echo, HealthCheck, HealthWatch, Reflection, ReflectionAlpha}
  const ADMIN_RPCS: set<Rpc> := {ListUsers}

  function ExtractClaims(header: Header, issued: set<Token>, now: nat): Result<Claims> {
    match header
    case NoMetadata => Err(Unauthenticated)
    case NoAuthorization => Err(Unauthenticated)
    case NotBearer => Err(Unauthenticated)
    case Bearer(Forged) => Err(Unauthenticated)
    case Bearer(Genuine(token)) => if Valid(token, issued, now) then Ok(token.claims) else Err(Unauthenticated)
  }

  /** `UnaryAuthInterceptor`: whether the handler runs, and with which claims. Public RPCs run without. */
  function Intercept(rpc: Rpc, header: Header, issued: set<Token>, now: nat): Result<Option<Claims>> {
    if rpc in PUBLIC_RPCS then Ok(None)
    else
      match ExtractClaims(header, issued, now)
      case Err(code) => Err(code)
      case Ok(claims) =>
        if rpc in ADMIN_RPCS && !claims.admin then Err(PermissionDenied) else Ok(Some(claims))
  }

  /** A handler that is not public runs exactly for a live token of the server, and `ListUsers` only if
      that token says admin; a live token without that gets the other answer. */
  lemma HandlerRuns(rpc: Rpc, header: Header, issued: set<Token>, now: nat)
    ensures var r, live := Intercept(rpc, header, issued, now),
          header.Bearer? && header.credential.Genuine? && Valid(header.credential.token, issued, now);
      && (rpc in PUBLIC_RPCS ==> r == Ok(None))
      && (rpc !in PUBLIC_RPCS && !live ==> r == Err(Unauthenticated))
      && (rpc !in PUBLIC_RPCS && live ==>
            r == if rpc == ListUsers && !header.credential.token.claims.admin then Err(PermissionDenied)
                 else Ok(Some(header.credential.token.claims)))
  {
  }

  /** How long a token issued at `t0` is accepted: as long as the clock's second is before the second a day
      after `t0`. That is at every time up to a day less a second later, and at none from a day later on. */
  lemma AcceptedUntil(user: Id, admin: bool, t0: nat, issued: set<Token>, now: nat)
    requires IssueJWT(user, admin, t0) in issued
    ensures var header, c := Bearer(Genuine(IssueJWT(user, admin, t0))), Claims(user, admin);
      var live := now / 1_000_000_000 < (t0 + 86_400_000_000_000) / 1_000_000_000;
      && Intercept(GetCurrentUser, header, issued, now) == (if live then Ok(Some(c)) else Err(Unauthenticated))
      && Intercept(UpdateProfile, header, issued, now) == (if live then Ok(Some(c)) else Err(Unauthenticated))
      && Intercept(ListUsers, header, issued, now)
         == (if !live then Err(Unauthenticated) else if admin then Ok(Some(c)) else Err(PermissionDenied))
      && (now <= t0 + 86_400_000_000_000 - 1_000_000_000 ==> live)
      && (t0 + 86_400_000_000_000 <= now ==> !live)
  {
    var exp := (t0 + 86_400_000_000_000) / 1_000_000_000;
    Seconds(now, exp);
    assert IssueJWT(user, admin, t0).exp == exp;
  }

  lemma Seconds(now: nat, exp: nat)
    ensures now < exp * 1_000_000_000 <==> now / 1_000_000_000 < exp
  {
  }

  /** A token the server has not issued is not accepted at all, nor is anything but a token. */
  lemma NotAccepted(header: Header, issued: set<Token>, now: nat)
    requires header.Bearer? && header.credential.Genuine? ==> header.credential.token !in issued
    ensures Intercept(GetCurrentUser, header, issued, now) == Err(Unauthenticated)
    ensures Intercept(UpdateProfile, header, issued, now) == Err(Unauthenticated)
    ensures Intercept(ListUsers, header, issued, now) == Err(Unauthenticated)
  {
  }

  /** The other RPCs run without a token, and with any. */
  lemma PublicRpcsRun(header: Header, issued: set<Token>, now: nat)
    ensures Intercept(LoginWithGoogle, header, issued, now) == Ok(None)
    ensures Intercept(Echo, header, issued, now) == Ok(None)
    ensures Intercept(HealthCheck, header, issued, now) == Ok(None)
    ensures Intercept(HealthWatch, header, issued, now) == Ok(None)
    ensures Intercept(Reflection, header, issued, now) == Ok(None)
    ensures Intercept(ReflectionAlpha, header, issued, now) == Ok(None)
  {
  }
}
