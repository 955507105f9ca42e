/**
 * Token issuance and decoding, password hashing, and the refresh-token
 * blacklist. The PASETO codec and bcrypt are foreign code: each is a pair of
 * functions handed in as a value, and what the libraries guarantee about them
 * is written down as a predicate that lemmas take as a hypothesis.
 */
module Security {
  import opened Wrappers
  import opened Text
  import opened Uuids
  import opened Json
  import opened Schemas
  import opened Config

  /** The two classes of token; the class picks the key pair and the default lifetime. */
  datatype TokenType = ACCESS | REFRESH

  // ---------------------------------------------------------------------------
  // Keys, codec and hasher
  // ---------------------------------------------------------------------------

  /** A PASETO v4.public key, built from configured key material. */
  datatype PasetoKey = PasetoKey(material: string)

  /** `PRIVATE_SECRET_<class>_KEY`: the signing half of the class's key pair. */
  function SigningKey(s: Settings, t: TokenType): PasetoKey
  {
    match t
    case ACCESS => PasetoKey(s.secretAccessKey)
    case REFRESH => PasetoKey(s.secretRefreshKey)
  }

  /** `PRIVATE_PUBLIC_<class>_KEY`: the verification half of the class's key pair. */
  function VerificationKey(s: Settings, t: TokenType): PasetoKey
  {
    match t
    case ACCESS => PasetoKey(s.publicAccessKey)
    case REFRESH => PasetoKey(s.publicRefreshKey)
  }

  /** `<class>_TOKEN_EXPIRE_MINUTES`: the class's default lifetime. */
  function DefaultTtlMinutes(s: Settings, t: TokenType): int
  {
    match t
    case ACCESS => s.accessTokenExpireMinutes
    case REFRESH => s.refreshTokenExpireMinutes
  }

  /**
   * What opening a token can give: the JSON object it carries, or one of the
   * errors `decode_token` catches (the library's decryption and signature
   * errors, a base64 `binascii.Error`, and the `ValueError`s of a malformed
   * token, bad UTF-8 or bad JSON).
   */
  datatype OpenResult =
    | Opened(body: JsonObject)
    | DecryptError
    | VerifyError
    | EncodingError
    | MalformedError

  /** The token codec: `pyseto.encode` of a JSON object and `pyseto.decode` followed by `json.loads`. */
  datatype Codec = Codec(seal: (PasetoKey, JsonObject) -> string, open: (PasetoKey, string) -> OpenResult)

  /**
   * What the PASETO library guarantees for the configured key pairs: a token
   * opens with the verification key of the class that signed it, giving back
   * the sealed object, and never opens with the other class's key.
   */
  ghost predicate CodecSound(c: Codec, s: Settings)
  {
    && (forall t: TokenType, body: JsonObject ::
          c.open(VerificationKey(s, t), c.seal(SigningKey(s, t), body)) == Opened(body))
    && (forall t: TokenType, u: TokenType, body: JsonObject ::
          t != u ==> !c.open(VerificationKey(s, u), c.seal(SigningKey(s, t), body)).Opened?)
  }

  /** The password hasher: a salted `hash` and `verify`; the salt is the randomness bcrypt draws. */
  datatype Hasher = Hasher(hash: (string, nat) -> string, verify: (string, string) -> bool)

  /** bcrypt reads at most this many bytes of the password. */
  const BCRYPT_MAX_BYTES := 72

  /** The part of a password bcrypt hashes: its first 72 UTF-8 bytes, the rest silently dropped. */
  function BcryptSecret(password: string): (r: seq<Byte>)
    ensures |r| <= BCRYPT_MAX_BYTES
    ensures |r| <= |Utf8(password)| && r == Utf8(password)[..|r|]
    ensures |r| < BCRYPT_MAX_BYTES ==> r == Utf8(password)
  {
    var bytes := Utf8(password);
    if |bytes| <= BCRYPT_MAX_BYTES then bytes else bytes[..BCRYPT_MAX_BYTES]
  }

  /**
   * What bcrypt with passlib's default truncation guarantees: a hash verifies
   * exactly the passwords whose first 72 UTF-8 bytes are those of the hashed one.
   */
  ghost predicate HasherSound(h: Hasher)
  {
    forall p: string, q: string, salt: nat {:trigger h.verify(q, h.hash(p, salt))} :: h.verify(q, h.hash(p, salt)) <==> BcryptSecret(q) == BcryptSecret(p)
  }

  /** A password that already fills 72 bytes verifies whatever is appended to it. */
  lemma LongPasswordSharesSecret(p: string, extra: string)
    requires |Utf8(p)| >= BCRYPT_MAX_BYTES
    ensures BcryptSecret(p + extra) == BcryptSecret(p)
  {
    Utf8Append(p, extra);
    assert Utf8(p + extra)[..BCRYPT_MAX_BYTES] == Utf8(p)[..BCRYPT_MAX_BYTES];
  }

  /** Distinct ASCII passwords of at most 72 characters keep distinct bcrypt secrets. */
  lemma ShortAsciiSecretsDistinct(p: string, q: string)
    requires IsAscii(p) && IsAscii(q)
    requires |p| <= BCRYPT_MAX_BYTES && |q| <= BCRYPT_MAX_BYTES
    requires p != q
    ensures BcryptSecret(p) != BcryptSecret(q)
  {
    Utf8Ascii(p);
    Utf8Ascii(q);
    if |p| == |q| {
      var i :| 0 <= i < |p| && p[i] != q[i];
      assert Utf8(p)[i] != Utf8(q)[i];
    }
  }

  /** `verify_password` */
  function VerifyPassword(h: Hasher, plainPassword: string, hashedPassword: string): bool
  {
    h.verify(plainPassword, hashedPassword)
  }

  /** `get_password_hash` */
  function GetPasswordHash(h: Hasher, password: string, salt: nat): string
  {
    h.hash(password, salt)
  }

  // ---------------------------------------------------------------------------
  // The refresh-token blacklist
  // ---------------------------------------------------------------------------

  const SERVICE_UNAVAILABLE := HttpError(503, "Something went wrong. Try again later.")

  /** The cache set `refresh-token-blacklist` and the two commands the core sends it. */
  class RefreshBlacklist {
    var members: set<string>

    constructor (members: set<string>)
      ensures this.members == members
    {
      this.members := members;
    }

    /** `SISMEMBER refresh-token-blacklist token` */
    method IsMember(token: string) returns (found: bool)
      ensures found <==> token in members
    {
      found := token in members;
    }

    /** `SADD refresh-token-blacklist token`: the number of members newly added. */
    method Add(token: string) returns (added: nat)
      modifies this
      ensures members == old(members) + {token}
      ensures added == if token in old(members) then 0 else 1
    {
      added := if token in members then 0 else 1;
      members := members + {token};
    }

    /**
     * `check_and_revoke_refresh_token`: `true` when the token was already
     * revoked; otherwise it is added and the answer is `false`. The 503
     * failure for an add that reports nothing new is kept, and cannot happen
     * when one call runs at a time.
     */
    method CheckAndRevoke(token: string) returns (r: Result<bool, HttpError>)
      modifies this
      ensures token in old(members) ==> r == Success(true) && members == old(members)
      ensures token !in old(members) ==> r == Success(false) && members == old(members) + {token}
    {
      var inBlacklist := IsMember(token);
      if inBlacklist {
        return Success(true);
      }
      var addingStatus := Add(token);
      if addingStatus == 0 {
        return Failure(SERVICE_UNAVAILABLE);
      }
      return Success(false);
    }
  }

  /** Revoking the same token twice: the second call reports it revoked and changes nothing. */
  method RevokeTwice(blacklist: RefreshBlacklist, token: string) returns (first: Result<bool, HttpError>, second: Result<bool, HttpError>)
    modifies blacklist
    ensures first == Success(token in old(blacklist.members))
    ensures second == Success(true)
    ensures blacklist.members == old(blacklist.members) + {token}
  {
    first := blacklist.CheckAndRevoke(token);
    second := blacklist.CheckAndRevoke(token);
  }

  // ---------------------------------------------------------------------------
  // Decoding and issuing tokens
  // ---------------------------------------------------------------------------

  /**
   * `decode_token`: every failure to open the token with the class's
   * verification key, and every payload that fails the schema, collapses to
   * `None`; otherwise the validated payload.
   */
  function DecodeToken(codec: Codec, s: Settings, t: TokenType, token: string): (r: Option<TokenPayload>)
    ensures var outcome := codec.open(VerificationKey(s, t), token);
      && (!outcome.Opened? ==> r == None)
      && (outcome.Opened? ==> r == ValidateTokenPayload(outcome.body))
  {
    match codec.open(VerificationKey(s, t), token)
    case Opened(body) => ValidateTokenPayload(body)
    case _ => None
  }

  /**
   * The expiry of a new token: a non-zero explicit lifetime wins, then a
   * non-zero default lifetime in minutes; otherwise there is none. Python
   * treats a zero `timedelta` and the integer 0 as false.
   */
  function ResolveExpiry(now: int, expiresDelta: Option<int>, defaultMinutes: int): (r: Option<int>)
    ensures expiresDelta.Some? && expiresDelta.value != 0 ==> r == Some(now + expiresDelta.value)
    ensures (expiresDelta.None? || expiresDelta.value == 0) && defaultMinutes != 0 ==> r == Some(now + defaultMinutes * 60)
    ensures (expiresDelta.None? || expiresDelta.value == 0) && defaultMinutes == 0 ==> r == None
  {
    if expiresDelta.Some? && expiresDelta.value != 0 then Some(now + expiresDelta.value)
    else if defaultMinutes != 0 then Some(now + defaultMinutes * 60)
    else None
  }

  /** The payload of a new token: exactly `exp` (a timestamp or null) and `sub` (the subject's text). */
  function TokenBody(exp: Option<int>, subject: Uuid): (r: JsonObject)
    ensures r.Keys == {"exp", "sub"}
    ensures r["sub"] == JString(UuidToString(subject))
    ensures r["exp"] == (if exp.Some? then JNumber(exp.value) else JNull)
  {
    map["exp" := (if exp.Some? then JNumber(exp.value) else JNull), "sub" := JString(UuidToString(subject))]
  }

  /**
   * `create_token`: seal the payload with the class's signing key. The
   * clock is the parameter `now`; `expiresDelta` is in seconds.
   */
  function CreateToken(codec: Codec, s: Settings, t: TokenType, subject: Uuid,
                       expiresDelta: Option<int>, now: int): string
  {
    codec.seal(SigningKey(s, t), TokenBody(ResolveExpiry(now, expiresDelta, DefaultTtlMinutes(s, t)), subject))
  }

  /**
   * A token decodes, with the key of the class that created it, to its
   * subject and resolved expiry; a token created without any expiry never
   * decodes, since the payload schema refuses a null `exp`.
   */
  lemma CreatedTokenDecodes(codec: Codec, s: Settings, t: TokenType, subject: Uuid,
                            expiresDelta: Option<int>, now: int)
    requires CodecSound(codec, s)
    ensures var exp := ResolveExpiry(now, expiresDelta, DefaultTtlMinutes(s, t));
      DecodeToken(codec, s, t, CreateToken(codec, s, t, subject, expiresDelta, now))
        == if exp.Some? then Some(TokenPayload(exp.value, subject)) else None
  {
    var exp := ResolveExpiry(now, expiresDelta, DefaultTtlMinutes(s, t));
    var body := TokenBody(exp, subject);
    assert codec.open(VerificationKey(s, t), codec.seal(SigningKey(s, t), body)) == Opened(body);
    if exp.Some? {
      assert body == map["exp" := JNumber(exp.value), "sub" := JString(UuidToString(subject))];
      PayloadRoundTrip(exp.value, subject);
    }
  }

  /** A token of one class never decodes with the other class's key. */
  lemma CrossClassRejected(codec: Codec, s: Settings, t: TokenType, u: TokenType, subject: Uuid,
                           expiresDelta: Option<int>, now: int)
    requires CodecSound(codec, s)
    requires t != u
    ensures DecodeToken(codec, s, u, CreateToken(codec, s, t, subject, expiresDelta, now)) == None
  {
    var body := TokenBody(ResolveExpiry(now, expiresDelta, DefaultTtlMinutes(s, t)), subject);
    assert !codec.open(VerificationKey(s, u), codec.seal(SigningKey(s, t), body)).Opened?;
  }

  /**
   * `generate_auth_tokens`: an access token with the access lifetime, a
   * refresh token with the refresh lifetime, and the type "bearer".
   */
  function GenerateAuthTokens(codec: Codec, s: Settings, subject: Uuid, now: int): (r: AuthTokens)
    ensures r.tokenType == "bearer"
    ensures r.accessToken == CreateToken(codec, s, ACCESS, subject, Some(s.accessTokenExpireMinutes * 60), now)
    ensures r.refreshToken == CreateToken(codec, s, REFRESH, subject, Some(s.refreshTokenExpireMinutes * 60), now)
  {
    AuthTokens(
      CreateToken(codec, s, ACCESS, subject, Some(s.accessTokenExpireMinutes * 60), now),
      CreateToken(codec, s, REFRESH, subject, Some(s.refreshTokenExpireMinutes * 60), now),
      "bearer")
  }

  /** The expiry a token of class `t` issued in a pair at `now` carries: none if its lifetime is zero. */
  function PairExpiry(s: Settings, t: TokenType, now: int): Option<int>
  {
    if DefaultTtlMinutes(s, t) == 0 then None else Some(now + DefaultTtlMinutes(s, t) * 60)
  }

  /**
   * Each token of an issued pair decodes with its own class's key to the
   * subject and `now` plus the class lifetime, and with the other class's key
   * not at all. A zero lifetime gives a token that never decodes.
   */
  lemma IssuedPairDecodes(codec: Codec, s: Settings, subject: Uuid, now: int)
    requires CodecSound(codec, s)
    ensures var tokens := GenerateAuthTokens(codec, s, subject, now);
      && DecodeToken(codec, s, ACCESS, tokens.accessToken)
           == (if PairExpiry(s, ACCESS, now).Some? then Some(TokenPayload(PairExpiry(s, ACCESS, now).value, subject)) else None)
      && DecodeToken(codec, s, REFRESH, tokens.refreshToken)
           == (if PairExpiry(s, REFRESH, now).Some? then Some(TokenPayload(PairExpiry(s, REFRESH, now).value, subject)) else None)
      && DecodeToken(codec, s, REFRESH, tokens.accessToken) == None
      && DecodeToken(codec, s, ACCESS, tokens.refreshToken) == None
  {
    var a := Some(s.accessTokenExpireMinutes * 60);
    var b := Some(s.refreshTokenExpireMinutes * 60);
    CreatedTokenDecodes(codec, s, ACCESS, subject, a, now);
    CreatedTokenDecodes(codec, s, REFRESH, subject, b, now);
    CrossClassRejected(codec, s, ACCESS, REFRESH, subject, a, now);
    CrossClassRejected(codec, s, REFRESH, ACCESS, subject, b, now);
  }

  /** With the declared defaults, access tokens live one hour and refresh tokens one day. */
  lemma DefaultLifetimes(secretAccessKey: string, publicAccessKey: string,
                         secretRefreshKey: string, publicRefreshKey: string, now: int)
    ensures var s := DefaultSettings(secretAccessKey, publicAccessKey, secretRefreshKey, publicRefreshKey);
      PairExpiry(s, ACCESS, now) == Some(now + 3600) && PairExpiry(s, REFRESH, now) == Some(now + 86400)
  {
  }

  /**
   * The codec guarantee needs distinct key material for the two classes:
   * with a shared signing key or a shared verification key it cannot hold.
   */
  lemma SharedSigningKeyUnsound(c: Codec, s: Settings)
    requires s.secretAccessKey == s.secretRefreshKey
    ensures !CodecSound(c, s)
  {
    var body: JsonObject := map[];
    assert SigningKey(s, ACCESS) == SigningKey(s, REFRESH);
    assert CodecSound(c, s) ==> c.open(VerificationKey(s, REFRESH), c.seal(SigningKey(s, REFRESH), body)) == Opened(body);
    assert CodecSound(c, s) ==> !c.open(VerificationKey(s, REFRESH), c.seal(SigningKey(s, ACCESS), body)).Opened?;
  }

  lemma SharedVerificationKeyUnsound(c: Codec, s: Settings)
    requires s.publicAccessKey == s.publicRefreshKey
    ensures !CodecSound(c, s)
  {
    var body: JsonObject := map[];
    assert VerificationKey(s, ACCESS) == VerificationKey(s, REFRESH);
    assert CodecSound(c, s) ==> c.open(VerificationKey(s, ACCESS), c.seal(SigningKey(s, ACCESS), body)) == Opened(body);
    assert CodecSound(c, s) ==> !c.open(VerificationKey(s, REFRESH), c.seal(SigningKey(s, ACCESS), body)).Opened?;
  }

  /**
   * Nothing in the source checks the key material: with one verification key
   * for both classes, every token decodes alike as access and as refresh.
   */
  lemma SharedVerificationKeyConflates(c: Codec, s: Settings, token: string)
    requires s.publicAccessKey == s.publicRefreshKey
    ensures DecodeToken(c, s, ACCESS, token) == DecodeToken(c, s, REFRESH, token)
  {
    assert VerificationKey(s, ACCESS) == VerificationKey(s, REFRESH);
  }
}
