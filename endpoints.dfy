/**
 * The decisions of the auth endpoints: login, register, logout and the
 * current-user view, over the user table, the blacklist and the clock.
 */
module Endpoints {
  import opened Wrappers
  import opened Uuids
  import opened Json
  import opened Schemas
  import opened Config
  import opened Security
  import opened UserGateway
  import opened Dependencies

  const INVALID_CREDENTIALS := HttpError(400, "Invalid credentials")
  const USERNAME_TAKEN := HttpError(409, "User with entered username exists in database")
  const INTERNAL_ERROR := HttpError(500, "Internal server error")
  const LOGGED_OUT: map<string, string> := map["detail" := "Logged out."]

  /**
   * `login`: an unknown user name and a wrong password give the same 400;
   * otherwise the token pair for the stored user's identifier.
   */
  function Login(users: seq<User>, hasher: Hasher, codec: Codec, s: Settings,
                 req: UserLoginRequest, now: int): (r: Result<AuthTokens, HttpError>)
    ensures r.Failure? ==> r.error == INVALID_CREDENTIALS
    ensures r.Success? <==>
      var found := FindByUsername(users, req.username);
      found.Some? && VerifyPassword(hasher, req.password, found.value.password)
    ensures r.Success? ==>
      r.value == GenerateAuthTokens(codec, s, FindByUsername(users, req.username).value.id, now)
  {
    match FindByUsername(users, req.username)
    case None => Failure(INVALID_CREDENTIALS)
    case Some(user) =>
      if !VerifyPassword(hasher, req.password, user.password) then Failure(INVALID_CREDENTIALS)
      else Success(GenerateAuthTokens(codec, s, user.id, now))
  }

  /** The registration fields with the password replaced by its hash, as they are stored. */
  function HashedFields(req: UserCreateRequest, hasher: Hasher, salt: nat): (f: UserCreateFields)
    ensures f.username == req.username && f.email == req.email
    ensures HasherSound(hasher) ==> VerifyPassword(hasher, req.password, f.password)
  {
    req.(password := GetPasswordHash(hasher, req.password, salt))
  }

  /**
   * `register`: a taken user name is a 409 and changes nothing; otherwise the
   * user is created with the hash of the password, and a failed insert is a
   * 500 with no tokens. `salt` is the randomness of the hash and `newId` the
   * identifier the database assigns.
   */
  method Register(db: UserDirectory, hasher: Hasher, salt: nat, codec: Codec, s: Settings,
                  req: UserCreateRequest, newId: Uuid, now: int) returns (r: Result<AuthTokens, HttpError>)
    requires db.Valid()
    modifies db
    ensures db.Valid()
    ensures FindByUsername(old(db.rows), req.username).Some? ==>
      r == Failure(USERNAME_TAKEN) && db.rows == old(db.rows)
    ensures FindByUsername(old(db.rows), req.username).None? && FindById(old(db.rows), newId).Some? ==>
      r == Failure(INTERNAL_ERROR) && db.rows == old(db.rows)
    ensures FindByUsername(old(db.rows), req.username).None? && FindById(old(db.rows), newId).None? ==>
      && db.rows == old(db.rows) + [NewUser(HashedFields(req, hasher, salt), newId)]
      && r == Success(GenerateAuthTokens(codec, s, newId, now))
  {
    if FindByUsername(db.rows, req.username).Some? {
      return Failure(USERNAME_TAKEN);
    }
    var registerData := HashedFields(req, hasher, salt);
    var user := db.Create(registerData, newId);
    if user.None? {
      return Failure(INTERNAL_ERROR);
    }
    return Success(GenerateAuthTokens(codec, s, user.value.id, now));
  }

  /** Whether logout revokes: the token decodes with the refresh key and expires strictly after `now`. */
  predicate RevokesOnLogout(codec: Codec, s: Settings, refreshToken: string, now: int)
  {
    var d := DecodeToken(codec, s, REFRESH, refreshToken);
    d.Some? && d.value.exp > now
  }

  /**
   * `logout`: always the same acknowledgement; the raw token is blacklisted
   * only when it decodes as a refresh token that has not expired.
   */
  method Logout(blacklist: RefreshBlacklist, codec: Codec, s: Settings,
                req: RefreshTokenRequest, now: int) returns (r: Result<map<string, string>, HttpError>)
    modifies blacklist
    ensures r == Success(LOGGED_OUT)
    ensures blacklist.members ==
      if RevokesOnLogout(codec, s, req.refreshToken, now) then old(blacklist.members) + {req.refreshToken}
      else old(blacklist.members)
  {
    var tokenData := DecodeToken(codec, s, REFRESH, req.refreshToken);
    if tokenData.Some? && tokenData.value.exp > now {
      // The result is ignored; only a raised error would propagate.
      var revoked := blacklist.CheckAndRevoke(req.refreshToken);
      match revoked {
        case Failure(e) => return Failure(e);
        case Success(_) =>
      }
    }
    return Success(LOGGED_OUT);
  }

  /** Logging out twice with one token: both calls are acknowledged and the second changes nothing. */
  method LogoutTwice(blacklist: RefreshBlacklist, codec: Codec, s: Settings,
                     req: RefreshTokenRequest, now: int) returns (first: Result<map<string, string>, HttpError>,
                                                                  second: Result<map<string, string>, HttpError>)
    modifies blacklist
    ensures first == Success(LOGGED_OUT) && second == Success(LOGGED_OUT)
    ensures blacklist.members ==
      if RevokesOnLogout(codec, s, req.refreshToken, now) then old(blacklist.members) + {req.refreshToken}
      else old(blacklist.members)
  {
    first := Logout(blacklist, codec, s, req, now);
    second := Logout(blacklist, codec, s, req, now);
  }

  /** `get_me`: the current user's response body, without the password. */
  function GetMe(codec: Codec, s: Settings, users: seq<User>, token: string, now: int): (r: Result<JsonObject, HttpError>)
    ensures r.Success? ==> "password" !in r.value
    ensures r.Success? <==> Authenticate(codec, s, users, token, now).Success?
    ensures r.Success? ==> r.value == SerializeUser(Authenticate(codec, s, users, token, now).value)
  {
    match Authenticate(codec, s, users, token, now)
    case Failure(e) => Failure(e)
    case Success(user) => Success(SerializeUser(user))
  }

  /** Logging out with a refresh token just issued at `issuedAt` blacklists it while it is unexpired. */
  lemma LogoutRevokesIssuedToken(codec: Codec, s: Settings, subject: Uuid, issuedAt: int, now: int)
    requires CodecSound(codec, s)
    requires s.refreshTokenExpireMinutes != 0
    ensures RevokesOnLogout(codec, s, GenerateAuthTokens(codec, s, subject, issuedAt).refreshToken, now)
        <==> now < issuedAt + s.refreshTokenExpireMinutes * 60
  {
    IssuedPairDecodes(codec, s, subject, issuedAt);
  }

  /** Logout never revokes an access token: it does not decode with the refresh key. */
  lemma LogoutIgnoresAccessToken(codec: Codec, s: Settings, subject: Uuid, issuedAt: int, now: int)
    requires CodecSound(codec, s)
    ensures !RevokesOnLogout(codec, s, GenerateAuthTokens(codec, s, subject, issuedAt).accessToken, now)
  {
    IssuedPairDecodes(codec, s, subject, issuedAt);
  }

  /**
   * After registering, logging in with the same user name gives the pair for
   * the new identifier exactly when the password agrees with the registered one
   * in its first 72 UTF-8 bytes (the same password, or any other sharing them),
   * and is refused otherwise.
   */
  lemma LoginAfterRegister(rows: seq<User>, hasher: Hasher, salt: nat, codec: Codec, s: Settings,
                           req: UserCreateRequest, newId: Uuid, password: string, now: int)
    requires HasherSound(hasher)
    requires FindByUsername(rows, req.username).None?
    ensures var stored := rows + [NewUser(HashedFields(req, hasher, salt), newId)];
      Login(stored, hasher, codec, s, UserLoginRequest(req.username, password), now)
        == if BcryptSecret(password) == BcryptSecret(req.password) then Success(GenerateAuthTokens(codec, s, newId, now))
           else Failure(INVALID_CREDENTIALS)
  {
    var u := NewUser(HashedFields(req, hasher, salt), newId);
    FindByUsernameAppend(rows, u, req.username);
  }

  /**
   * The access token returned by a registration authenticates as the new
   * user until it expires.
   */
  lemma RegisteredUserAuthenticates(rows: seq<User>, hasher: Hasher, salt: nat, codec: Codec, s: Settings,
                                    req: UserCreateRequest, newId: Uuid, issuedAt: int, now: int)
    requires CodecSound(codec, s)
    requires FindById(rows, newId).None?
    requires s.accessTokenExpireMinutes != 0
    requires now <= issuedAt + s.accessTokenExpireMinutes * 60
    ensures var u := NewUser(HashedFields(req, hasher, salt), newId);
      Authenticate(codec, s, rows + [u], GenerateAuthTokens(codec, s, newId, issuedAt).accessToken, now)
        == Success(u)
  {
    var u := NewUser(HashedFields(req, hasher, salt), newId);
    FindByIdAppend(rows, u, newId);
    IssuedAccessTokenAccepted(codec, s, rows + [u], u, issuedAt, now);
  }
}
