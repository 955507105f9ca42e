/**
 * The access guard in front of protected handlers (`AccessControl.process`):
 * decode the bearer token with the access key, refuse an expired one, and
 * resolve its subject to a stored user. Every refusal is the same 401.
 */
module Dependencies {
  import opened Wrappers
  import opened Uuids
  import opened Schemas
  import opened Config
  import opened Security
  import opened UserGateway

  const UNAUTHORIZED := HttpError(401, "Invalid credentials")

  /**
   * `AccessControl.process`. It reads only the token, the clock and the user
   * rows: the blacklist is not consulted and nothing is changed.
   */
  function Authenticate(codec: Codec, s: Settings, users: seq<User>, token: string, now: int): (r: Result<User, HttpError>)
    ensures r.Failure? ==> r.error == UNAUTHORIZED
    ensures r.Success? <==>
      var d := DecodeToken(codec, s, ACCESS, token);
      d.Some? && now <= d.value.exp && FindById(users, d.value.sub).Some?
    ensures r.Success? ==>
      var d := DecodeToken(codec, s, ACCESS, token);
      r.value in users && r.value.id == d.value.sub && FindById(users, d.value.sub) == Some(r.value)
  {
    match DecodeToken(codec, s, ACCESS, token)
    case None => Failure(UNAUTHORIZED)
    case Some(payload) =>
      if payload.exp < now then Failure(UNAUTHORIZED)
      else
        match FindById(users, payload.sub)
        case None => Failure(UNAUTHORIZED)
        case Some(user) => Success(user)
  }

  /**
   * An access token issued for a stored user is accepted, as that user, from
   * the instant of issue up to and including its expiry instant, and refused
   * from the next second on.
   */
  lemma IssuedAccessTokenAccepted(codec: Codec, s: Settings, users: seq<User>, u: User, issuedAt: int, now: int)
    requires CodecSound(codec, s)
    requires FindById(users, u.id) == Some(u)
    requires s.accessTokenExpireMinutes != 0
    ensures var token := GenerateAuthTokens(codec, s, u.id, issuedAt).accessToken;
      Authenticate(codec, s, users, token, now)
        == if now <= issuedAt + s.accessTokenExpireMinutes * 60 then Success(u) else Failure(UNAUTHORIZED)
  {
    IssuedPairDecodes(codec, s, u.id, issuedAt);
  }

  /** A refresh token is never accepted as an access token. */
  lemma RefreshTokenRefused(codec: Codec, s: Settings, users: seq<User>, subject: Uuid, issuedAt: int, now: int)
    requires CodecSound(codec, s)
    ensures Authenticate(codec, s, users, GenerateAuthTokens(codec, s, subject, issuedAt).refreshToken, now)
         == Failure(UNAUTHORIZED)
  {
    IssuedPairDecodes(codec, s, subject, issuedAt);
  }

  /** A valid token whose user is gone is refused exactly like a forged one. */
  lemma MissingUserRefused(codec: Codec, s: Settings, users: seq<User>, subject: Uuid, issuedAt: int, now: int)
    requires CodecSound(codec, s)
    requires FindById(users, subject).None?
    ensures Authenticate(codec, s, users, GenerateAuthTokens(codec, s, subject, issuedAt).accessToken, now)
         == Failure(UNAUTHORIZED)
  {
    IssuedPairDecodes(codec, s, subject, issuedAt);
  }
}
