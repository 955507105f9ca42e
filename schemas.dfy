/**
 * The request, response and token-payload schemas of the auth module, with
 * the field constraints pydantic enforces on them.
 */
module Schemas {
  import opened Wrappers
  import opened Uuids
  import opened Json

  /** A stored user (the `User` schema with its audit fields); `password` holds the hash. */
  datatype User = User(
    id: Uuid,
    createdAt: Option<string>,
    updatedAt: Option<string>,
    username: Option<string>,
    email: Option<string>,
    password: string)

  /** The registration form's fields, before or after validation. */
  datatype UserCreateFields = UserCreateFields(username: string, email: string, password: string)

  /** The length bounds of the registration form. */
  predicate ValidUserCreate(f: UserCreateFields)
  {
    && 3 <= |f.username| <= 30
    && 4 <= |f.email|
    && 8 <= |f.password|
  }

  /** A registration form that passed validation. */
  type UserCreateRequest = f: UserCreateFields | ValidUserCreate(f)
    witness UserCreateFields("abc", "a@b.c", "password")

  /**
   * Building the registration schema from submitted text: `None` is the
   * validation error that the web layer turns into a 422 response.
   */
  function ValidateUserCreate(username: string, email: string, password: string): (r: Option<UserCreateRequest>)
    ensures r.Some? <==> (3 <= |username| <= 30 && 4 <= |email| && 8 <= |password|)
    ensures r.Some? ==> r.value == UserCreateFields(username, email, password)
  {
    var f := UserCreateFields(username, email, password);
    if ValidUserCreate(f) then Some(f) else None
  }

  datatype UserLoginRequest = UserLoginRequest(username: string, password: string)

  datatype RefreshTokenRequest = RefreshTokenRequest(refreshToken: string)

  /** The pair of tokens returned by login and register. */
  datatype AuthTokens = AuthTokens(accessToken: string, refreshToken: string, tokenType: string)

  /** A validated token payload: an expiry timestamp and the subject's UUID. */
  datatype TokenPayload = TokenPayload(exp: int, sub: Uuid)

  /**
   * `TokenPayloadSchema(**payload)`: `exp` must be a number and `sub` UUID
   * text; other keys are ignored. `None` is pydantic's validation error.
   */
  function ValidateTokenPayload(body: JsonObject): (r: Option<TokenPayload>)
    ensures r.Some? <==>
      && "exp" in body && body["exp"].JNumber?
      && "sub" in body && body["sub"].JString? && ParseUuid(body["sub"].s).Some?
    ensures r.Some? ==> r == Some(TokenPayload(body["exp"].n, ParseUuid(body["sub"].s).value))
    ensures "exp" in body && body["exp"] == JNull ==> r == None
  {
    if "exp" in body && "sub" in body then
      match (body["exp"], body["sub"])
      case (JNumber(exp), JString(text)) =>
        (match ParseUuid(text)
         case Some(sub) => Some(TokenPayload(exp, sub))
         case None => None)
      case _ => None
    else None
  }

  /** The payload a token carries for `sub` with expiry `exp` parses back to the same claims. */
  lemma PayloadRoundTrip(exp: int, sub: Uuid)
    ensures ValidateTokenPayload(map["exp" := JNumber(exp), "sub" := JString(UuidToString(sub))])
            == Some(TokenPayload(exp, sub))
  {
    UuidRoundTrip(sub);
  }

  function OptionalText(v: Option<string>): JsonValue
  {
    match v
    case Some(s) => JString(s)
    case None => JNull
  }

  /** The `User` response body: every field except the excluded password. */
  function SerializeUser(u: User): (r: JsonObject)
    ensures r.Keys == {"id", "created_at", "updated_at", "username", "email"}
    ensures "password" !in r
    ensures r["id"] == JString(UuidToString(u.id))
    ensures r["username"] == (if u.username.Some? then JString(u.username.value) else JNull)
  {
    map[
      "id" := JString(UuidToString(u.id)),
      "created_at" := OptionalText(u.createdAt),
      "updated_at" := OptionalText(u.updatedAt),
      "username" := OptionalText(u.username),
      "email" := OptionalText(u.email)]
  }

  /** The token-pair response body: exactly its three fields. */
  function SerializeAuthTokens(t: AuthTokens): (r: JsonObject)
    ensures r.Keys == {"access_token", "refresh_token", "token_type"}
    ensures r["access_token"] == JString(t.accessToken) && r["refresh_token"] == JString(t.refreshToken)
  {
    map[
      "access_token" := JString(t.accessToken),
      "refresh_token" := JString(t.refreshToken),
      "token_type" := JString(t.tokenType)]
  }
}
