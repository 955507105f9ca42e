# simpleo authentication core in Dafny

A model of the authentication and session layer of the simpleo web backend,
plus the string validators of its settings class. This covers:

- issuing access/refresh token pairs;
- decoding tokens, where every codec or schema failure collapses to one "no";
- the access guard that resolves a bearer token to a stored user;
- the login, register, logout and current-user endpoints;
- the refresh-token blacklist;
- the CORS, EdgeDB and Redis settings validators.

Modules follow the source files:

| module | file | models |
|---|---|---|
| `Wrappers` | wrappers.dfy | `None` returns and raised HTTP errors (`Option`, `Result`, `HttpError`) |
| `Text` | text.dfy | the Python `str` operations the validators use: `split`, `strip`, `startswith`, `str(int)` |
| `Uuids` | uuids.dfy | `str(uuid)` and the UUID parsing of the payload schema |
| `Json` | json.dfy | JSON values of token payloads and response bodies |
| `Schemas` | schemas.dfy | simpleo/auth/schemas.py |
| `Config` | config.dfy | simpleo/core/config.py |
| `Security` | security.dfy | simpleo/auth/security.py |
| `UserGateway` | user_gateway.dfy | the parts of simpleo/auth/table_data_gateways/user.py the endpoints use |
| `Dependencies` | dependencies.dfy | simpleo/auth/dependencies.py |
| `Endpoints` | endpoints.dfy | simpleo/auth/endpoints.py |

## Abstractions

- **Codec.** The PASETO codec is a `Codec` value: a `seal` function and an
  `open` function. `open` yields the JSON object or one of the errors
  `decode_token` catches.
- **Codec guarantee.** `Security.CodecSound` states what the library
  guarantees for the configured key pairs. A token opens with its own class's
  verification key and gives back what was sealed. It never opens with the
  other class's key. Lemmas take this predicate as a hypothesis; it is never
  proved. It can hold only when the two classes have different key
  material: with a shared signing key or a shared verification key it is
  false (`SharedSigningKeyUnsound`, `SharedVerificationKeyUnsound`). Under
  such a configuration the lemmas that assume it say nothing. Nothing in the
  source checks the keys differ, and with one verification key a refresh
  token decodes as an access token (`SharedVerificationKeyConflates`).
- **Hasher.** bcrypt is a `Hasher` value: a salted `hash` and a `verify`.
  bcrypt reads only the first 72 bytes of the UTF-8 encoded password, and
  passlib by default drops the rest without an error. `Security.HasherSound`
  states exactly that: a hash verifies a password exactly when their first 72
  UTF-8 bytes agree (`BcryptSecret`). Two passwords that share those bytes
  verify against each other's hash (`LongPasswordSharesSecret`).
- **Time.** Time is whole seconds, passed in as `now`.
- **Blacklist.** The Redis set is the class `Security.RefreshBlacklist`, with
  a `set<string>` field. Its methods `IsMember` and `Add` stand for the two
  commands the source sends.
- **User table.** The table is the class `UserGateway.UserDirectory`, with its
  rows in query order. The identifier a new row gets from the database is a
  parameter.

## Where the code and the design description differ

The model follows the code in each case.

- **Blacklist add.** The design describes an atomic add-if-absent. The code
  makes two round trips: `SISMEMBER`, then `SADD` (security.py:52-55). Run
  one call at a time, the 503 error for an `SADD` that adds nothing cannot
  happen. `CheckAndRevoke` keeps that branch and its contract shows it is
  never taken.
- **No revocation check.** The design wants refresh tokens checked against
  the blacklist before they are trusted. No code does this, and logout
  ignores the answer of the revocation call (endpoints.py:62). The model adds
  no such check.
- **Missing expiry.** The design says `exp` is always present. A lifetime
  setting of 0 is false in Python, so such a token is issued with a null
  `exp`. The payload schema refuses that token, so it never decodes
  (`CreatedTokenDecodes`, `IssuedPairDecodes`).
- **Expiry comparisons.** The guard refuses only when `exp < now`, so the
  expiry second itself is still accepted. Logout revokes only when
  `exp > now`.

## Model

| member | source | states |
|---|---|---|
| `Text.Split` | simpleo/core/config.py:97 | `str.split(",")` gives at least one piece, and no piece contains the separator |
| `Text.SplitCount` | simpleo/core/config.py:97 | there is one piece more than there are separators |
| `Text.SplitJoin` | simpleo/core/config.py:97 | joining the pieces with the separator gives back the text |
| `Text.Strip` | simpleo/core/config.py:97 | `strip()` keeps one contiguous middle part; all it removes is white space; what it keeps starts and ends with non-space |
| `Text.IntToDecimal` | simpleo/core/config.py:122-125 | `str(int)` is digits with an optional leading minus sign |
| `Text.IntToDecimalRoundTrip` | simpleo/core/config.py:122-125 | the decimal rendering of a port or database number gives back the number |
| `Uuids.UuidToString` | simpleo/auth/security.py:107 | `str(subject)` of a UUID is 36 characters long |
| `Uuids.ParseUuid` | simpleo/auth/schemas.py:61 | text parses exactly when it is 32 hexadecimal digits, bare or hyphenated 8-4-4-4-12, in either case; the UUID is the value of those digits in order |
| `Uuids.UuidRoundTrip` | simpleo/auth/security.py:107 | the subject text put in a payload parses back to the same UUID |
| `Uuids.UuidToStringInjective` | simpleo/auth/security.py:107 | different subjects give different `sub` texts |
| `Schemas.ValidateUserCreate` | simpleo/auth/schemas.py:30-37 | a registration passes exactly when the user name has 3 to 30 characters, the email at least 4 and the password at least 8 |
| `Schemas.ValidateTokenPayload` | simpleo/auth/schemas.py:56-61 | a payload passes exactly when `exp` is a number and `sub` is UUID text; a null `exp` fails; extra keys are ignored |
| `Schemas.PayloadRoundTrip` | simpleo/auth/schemas.py:56-61 | the `{exp, sub}` object of a new token validates back to the same expiry and subject |
| `Schemas.SerializeUser` | simpleo/auth/schemas.py:20-27 | the user body has id, audit fields, user name and email, and no password |
| `Schemas.SerializeAuthTokens` | simpleo/auth/schemas.py:40-46 | the token-pair body has exactly `access_token`, `refresh_token` and `token_type` |
| `Config.DefaultSettings` | simpleo/core/config.py:81-82 | the default lifetimes are 60 minutes (access) and 1440 minutes (refresh) |
| `Config.AssembleCorsOrigins` | simpleo/core/config.py:88-100 | text not starting with "[" becomes its comma-separated pieces, each stripped; a list, or text starting with "[", is returned unchanged; any other value is a `ValueError` |
| `Config.CorsOriginsCount` | simpleo/core/config.py:96-97 | origin text yields one origin more than it has commas |
| `Config.CorsOriginsTrimmed` | simpleo/core/config.py:97 | no origin cut from text contains a comma or has white space at either end |
| `Config.AssembleEdgedbConnection` | simpleo/core/config.py:111-125 | an explicit `DB_HTTP_URI` text is kept; otherwise an `edgedb://` URI is built from user, password, host and port, where `None` is rendered "None" |
| `Config.EdgedbUriDeterminesComponents` | simpleo/core/config.py:122-125 | if the user and host contain no ':' and the password no '@', the URI determines every rendered component (`None` and the text "None" render alike) |
| `Config.EdgedbUriAmbiguous` | simpleo/core/config.py:122-125 | the components are not escaped: a password containing '@' can make two different configurations give the same URI |
| `Config.AssembleRedisConnection` | simpleo/core/config.py:132-145 | an explicit `REDIS_HTTP_URI` text is kept; otherwise a `redis://host:port/db` URI is built |
| `Config.RedisUriDeterminesComponents` | simpleo/core/config.py:143-145 | if the host contains no ':', the Redis URI determines host, port and database |
| `Security.RefreshBlacklist.IsMember` | simpleo/auth/security.py:52 | `SISMEMBER` answers membership of the token |
| `Security.RefreshBlacklist.Add` | simpleo/auth/security.py:55 | `SADD` inserts the token and reports 1 if it was new, 0 if not |
| `Security.RefreshBlacklist.CheckAndRevoke` | simpleo/auth/security.py:45-61 | a token already present gives `true` and the set is unchanged; an absent token is added, nothing else changes, and the answer is `false`; the 503 branch is never taken |
| `Security.RevokeTwice` | simpleo/auth/security.py:45-61 | revoking twice: the first call reports whether the token was present, the second reports `true`, and the token has been added once |
| `Security.DecodeToken` | simpleo/auth/security.py:64-81 | the token is opened with the requested class's verification key; any caught codec error or schema failure gives `None`; otherwise the validated payload |
| `Security.ResolveExpiry` | simpleo/auth/security.py:95-103 | a non-zero explicit lifetime wins; then a non-zero default in minutes; otherwise no expiry; a zero lifetime falls through |
| `Security.TokenBody` | simpleo/auth/security.py:105-108 | the payload has exactly the keys `exp` and `sub`; `sub` is the subject's text; `exp` is null when there is no expiry |
| `Security.CreatedTokenDecodes` | simpleo/auth/security.py:84-109 | a created token decodes with its own class's key to its subject and resolved expiry; one created with no expiry never decodes |
| `Security.CrossClassRejected` | simpleo/auth/security.py:71-94 | a token signed with one class's key never decodes with the other class's key |
| `Security.GenerateAuthTokens` | simpleo/auth/security.py:112-124 | a pair is an ACCESS token with the access lifetime, a REFRESH token with the refresh lifetime, and the type "bearer" |
| `Security.IssuedPairDecodes` | simpleo/auth/security.py:112-124 | each token of a pair decodes with its own class's key to the subject and `now` plus its lifetime, and not with the other class's key; a zero lifetime gives a token that never decodes |
| `Security.DefaultLifetimes` | simpleo/core/config.py:81-82 | with the default settings, access tokens expire after 3600 s and refresh tokens after 86400 s |
| `Security.SharedSigningKeyUnsound` | simpleo/auth/security.py:71-94 | if both classes share one signing key, no codec can give the codec guarantee |
| `Security.SharedVerificationKeyUnsound` | simpleo/auth/security.py:71-94 | if both classes share one verification key, no codec can give the codec guarantee |
| `Security.SharedVerificationKeyConflates` | simpleo/auth/security.py:71-73 | with one verification key for both classes, every token decodes the same as access and as refresh |
| `Text.Utf8Char` | simpleo/auth/security.py:127-143 | one character encodes to one to four bytes; an ASCII character encodes to its own code |
| `Text.Utf8Append` | simpleo/auth/security.py:127-143 | the encoding of a concatenation is the concatenation of the encodings |
| `Text.Utf8Ascii` | simpleo/auth/security.py:127-143 | an ASCII password encodes to its code points, one byte per character |
| `Security.BcryptSecret` | simpleo/auth/security.py:127-143 | what bcrypt hashes is at most 72 bytes, a prefix of the UTF-8 encoding, and all of it when the encoding is shorter |
| `Security.LongPasswordSharesSecret` | simpleo/auth/security.py:127-143 | a password of 72 or more bytes has the same bcrypt secret whatever is appended to it |
| `Security.ShortAsciiSecretsDistinct` | simpleo/auth/security.py:127-143 | distinct ASCII passwords of at most 72 characters have distinct bcrypt secrets |
| `UserGateway.FindByUsername` | simpleo/auth/table_data_gateways/user.py:37-48 | the user returned is a stored row with that user name; `None` means no row has it |
| `UserGateway.FindById` | simpleo/auth/table_data_gateways/user.py:63-73 | the lookup scoped to an identifier returns a stored row with that identifier; `None` means no row has it |
| `UserGateway.FindByUsernameAppend` | simpleo/auth/table_data_gateways/user.py:37-48 | an appended row is found by user name exactly when no earlier row has that name |
| `UserGateway.FindByIdAppend` | simpleo/auth/table_data_gateways/user.py:63-73 | an appended row is found by identifier exactly when no earlier row has that identifier |
| `UserGateway.UserDirectory.Create` | simpleo/auth/table_data_gateways/user.py:75-97 | an insert that would break the identifier or user-name constraint gives `None` and changes nothing; otherwise exactly the new row is appended; the constraints keep holding |
| `Dependencies.Authenticate` | simpleo/auth/dependencies.py:31-49 | acceptance holds exactly when the token decodes with the ACCESS key, `now <= exp`, and a user with identifier `sub` exists; that user is the result; every refusal is the same 401 "Invalid credentials" |
| `Dependencies.IssuedAccessTokenAccepted` | simpleo/auth/dependencies.py:36-49 | an issued access token is accepted as its user up to and including its expiry second, and refused after it |
| `Dependencies.RefreshTokenRefused` | simpleo/auth/dependencies.py:36-41 | a refresh token is never accepted by the guard |
| `Dependencies.MissingUserRefused` | simpleo/auth/dependencies.py:43-47 | a valid token for a missing user gets the same 401 as a bad token |
| `Endpoints.Login` | simpleo/auth/endpoints.py:24-34 | an unknown user and a wrong password give the same 400; success holds exactly when the user is found and the password verifies, and gives the pair for that user's identifier |
| `Endpoints.HashedFields` | simpleo/auth/endpoints.py:50 | what is stored keeps the user name and email, and its password field is a hash that verifies the submitted password |
| `Endpoints.Register` | simpleo/auth/endpoints.py:37-55 | a taken user name gives 409 and no change; a failed insert gives 500 and no tokens; otherwise the user is stored with the hashed password and the pair for the new identifier is returned |
| `Endpoints.Logout` | simpleo/auth/endpoints.py:58-63 | always returns `{"detail": "Logged out."}`; the raw token is added to the blacklist exactly when it decodes with the REFRESH key and `exp > now`; otherwise the blacklist is unchanged |
| `Endpoints.LogoutTwice` | simpleo/auth/endpoints.py:58-63 | two logouts with one token are both acknowledged, and the second changes nothing |
| `Endpoints.GetMe` | simpleo/auth/endpoints.py:66-74 | the current-user body is the guard's user serialized without its password; a guard refusal is returned as is |
| `Endpoints.LogoutRevokesIssuedToken` | simpleo/auth/endpoints.py:60-62 | logout blacklists an issued refresh token exactly while `now` is strictly before its expiry |
| `Endpoints.LogoutIgnoresAccessToken` | simpleo/auth/endpoints.py:60-62 | logout never blacklists an access token |
| `Endpoints.LoginAfterRegister` | simpleo/auth/endpoints.py:31-55 | after a registration, login with the same user name gives the pair for the new identifier exactly when the password's first 72 UTF-8 bytes are those of the registered one; otherwise it is refused |
| `Endpoints.RegisteredUserAuthenticates` | simpleo/auth/endpoints.py:50-55 | the access token a registration returns is accepted as the new user until its expiry |

Four members model source functions but carry no contract of their own, so
they have no row:
- `Security.CreateToken` models `create_token` (security.py:84-109). Its
  meaning is stated by `CreatedTokenDecodes`, `CrossClassRejected`,
  `TokenBody` and `ResolveExpiry`.
- `Security.TokenType` models `TokenTypeEnum` (security.py:37-42). The class
  picks its keys (`SigningKey`, `VerificationKey`) and its lifetime
  (`DefaultTtlMinutes`).
- `Security.VerifyPassword` and `Security.GetPasswordHash` model
  security.py:127-143. They are thin wrappers over the abstract `Hasher`, and
  `HasherSound` states what they promise.

## Left out

- PASETO v4.public signing and verification (pyseto) and the derivation of key objects from configured strings (config.py:37-79). The codec is an abstract value. Its round trip and cross-class rejection are the hypothesis `CodecSound`, not theorems.
- bcrypt hashing through passlib (security.py:127-143). It is the abstract `Hasher`, and the salt is a parameter. Not modelled:
  - what passlib does with a malformed stored hash;
  - the error it raises for a password containing a NUL character;
  - the error newer bcrypt releases raise, instead of truncating, for passwords longer than 72 bytes.
- The Redis and EdgeDB clients and the EdgeQL queries; the database schema is not part of this model.
  - The exclusive constraints are taken to be on identifier and user name.
  - The `auth::current_user` global is taken to select the row whose identifier is the scoping identifier.
  - A new row gets no audit timestamps.
  - `get_all` and `get_by_id` are not used by the core and are not modelled.
- Lone surrogates. A Python `str` may hold them, and encoding such a password to UTF-8 raises. A Dafny `char` is a Unicode scalar value, so the model has no such strings.
- Floating-point timestamps. `datetime.now().timestamp()` and `timedelta` are whole seconds. JSON numbers are integers.
- `Security.ResolveExpiry`, `Security.GenerateAuthTokens`: datetime range overflow is not modelled. In the source, `datetime.now() + delta` raises `OverflowError` once the result leaves the years 1 to 9999 (security.py:99, 101-103). `timedelta(minutes=...)` also raises once the lifetime passes 999999999 days (security.py:118-119). Nothing catches either error, so login and register answer 500 and issue no tokens. The model issues a token with `exp` at `now` plus the lifetime for every integer.
- Local time. `create_token` adds the lifetime to a naive local `datetime.now()` and only then calls `.timestamp()` (security.py:99-106). Across a daylight-saving change, a token's `exp` is an hour away from `now` plus the lifetime. The model always takes `exp` to be `now` plus the lifetime.
- Both tokens of a pair are issued at one instant `now`. The source reads the clock once per token.
- Concurrency and async. The check-then-add of the blacklist is two round trips, and racing logouts are not modelled.
- `Schemas.ValidateTokenPayload`: pydantic's lax coercions into `exp` (numeric strings and similar) are not modelled. Only a JSON number is accepted.
- `Uuids.ParseUuid`: the braced and URN forms of UUID text that pydantic also accepts are not modelled.
- Exceptions that `decode_token` does not catch propagate in the source. For example, a `TypeError` from valid JSON that is not an object. The model's codec always opens to an object or a caught error, so these cases do not arise.
- The in-place assignment `register_data.password = ...` (endpoints.py:50) is a functional update (`HashedFields`). The updated object is what `create` receives (endpoints.py:52), and nothing reads the plaintext password afterwards.
- Registration length bounds are a subset type (`UserCreateRequest`) that `Register` takes, as FastAPI validates the form before the handler runs. The 422 response itself is not modelled.
- `Config.AssembleCorsOrigins`: text starting with "[" is passed on unchanged. What pydantic does with the returned value is not modelled. Neither is the JSON decoding the settings source applies to environment values before the validator runs, nor the `AnyHttpUrl` validation of each origin.
- Settings loading from the environment (`Settings()`, config.py:150), and the fields the core does not read:
  - `SERVER_NAME`, `SERVER_HOST`, `TIMEZONE`, `PROJECT_NAME`, `DB_TLS_FILE_PATH`;
  - `API_V1_STR`, which the auth core reads only for the token URL.
  The validators take the other fields' values as parameters. Defaults are validated too: the default `BACKEND_CORS_ORIGINS` list reaches the validator as a list and is returned unchanged (`AssembleCorsOrigins` of a `CorsList`), and the default `None` URIs are assembled.
- `Config.AssembleEdgedbConnection`, `Config.AssembleRedisConnection`: only text or `None` is modelled as the explicit URI value; other Python types are not.
- The news endpoints, schemas and gateway; FastAPI routing, the OAuth2 bearer extraction, the CORS middleware and the shutdown hook; and `make_pydantic_model`.
