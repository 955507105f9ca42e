/**
 * The settings class: the defaults it declares and its three "before"
 * validators, which parse the CORS origin list and assemble the database
 * and cache connection URIs from the other fields.
 */
module Config {
  import opened Wrappers
  import opened Text

  const ACCESS_TOKEN_EXPIRE_MINUTES: int := 60
  const REFRESH_TOKEN_EXPIRE_MINUTES: int := 60 * 24
  const DB_PORT: int := 5656

  /**
   * The fields of the settings the auth core reads: the key material of the
   * two token classes and their default lifetimes in minutes.
   */
  datatype Settings = Settings(
    secretAccessKey: string,
    publicAccessKey: string,
    secretRefreshKey: string,
    publicRefreshKey: string,
    accessTokenExpireMinutes: int,
    refreshTokenExpireMinutes: int)

  /** Settings whose lifetimes are the declared defaults. */
  function DefaultSettings(secretAccessKey: string, publicAccessKey: string,
                           secretRefreshKey: string, publicRefreshKey: string): (s: Settings)
    ensures s.accessTokenExpireMinutes == 60 && s.refreshTokenExpireMinutes == 1440
    ensures s.secretAccessKey == secretAccessKey && s.publicAccessKey == publicAccessKey
    ensures s.secretRefreshKey == secretRefreshKey && s.publicRefreshKey == publicRefreshKey
  {
    Settings(secretAccessKey, publicAccessKey, secretRefreshKey, publicRefreshKey,
             ACCESS_TOKEN_EXPIRE_MINUTES, REFRESH_TOKEN_EXPIRE_MINUTES)
  }

  // ---------------------------------------------------------------------------
  // BACKEND_CORS_ORIGINS
  // ---------------------------------------------------------------------------

  /** What the CORS validator may be handed: text, a list, or any other value. */
  datatype CorsInput = CorsText(text: string) | CorsList(items: seq<string>) | CorsOther

  /** `[piece.strip() for piece in text.split(",")]` */
  function StrippedPieces(text: string): (r: seq<string>)
  {
    var pieces := Split(text, ',');
    seq(|pieces|, k requires 0 <= k < |pieces| => Strip(pieces[k]))
  }

  /**
   * `assemble_cors_origins`: text that does not start with "[" becomes the
   * list of its comma-separated pieces, stripped; a list, or text that does
   * start with "[", is passed on unchanged; anything else is a `ValueError`
   * carrying the value (`Failure`).
   */
  function AssembleCorsOrigins(value: CorsInput): (r: Result<CorsInput, CorsInput>)
    ensures value.CorsText? && !StartsWith(value.text, "[") ==>
      && r.Success? && r.value.CorsList?
      && |r.value.items| == |Split(value.text, ',')|
      && forall k :: 0 <= k < |r.value.items| ==> r.value.items[k] == Strip(Split(value.text, ',')[k])
    ensures value.CorsList? || (value.CorsText? && StartsWith(value.text, "[")) ==> r == Success(value)
    ensures value.CorsOther? <==> r.Failure?
    ensures r.Failure? ==> r.error == value
  {
    match value
    case CorsText(text) =>
      if !StartsWith(text, "[") then Success(CorsList(StrippedPieces(text))) else Success(value)
    case CorsList(_) => Success(value)
    case CorsOther => Failure(value)
  }

  /** A comma-separated origin text gives one origin more than it has commas. */
  lemma CorsOriginsCount(text: string)
    requires !StartsWith(text, "[")
    ensures AssembleCorsOrigins(CorsText(text)).Success?
    ensures |AssembleCorsOrigins(CorsText(text)).value.items| == multiset(text)[','] + 1
  {
    SplitCount(text, ',');
  }

  /** No origin produced from text has white space at either end, and none contains a comma. */
  lemma CorsOriginsTrimmed(text: string, k: int)
    requires !StartsWith(text, "[")
    requires 0 <= k < |AssembleCorsOrigins(CorsText(text)).value.items|
    ensures var o := AssembleCorsOrigins(CorsText(text)).value.items[k];
      && ',' !in o
      && (o != [] ==> !IsSpace(o[0]) && !IsSpace(o[|o| - 1]))
  {
    var piece := Split(text, ',')[k];
    var i := SpaceRunEnd(piece, 0);
    var o := Strip(piece);
    forall j | 0 <= j < |o| ensures o[j] != ',' {
      assert o[j] == piece[i + j];
    }
  }

  // ---------------------------------------------------------------------------
  // DB_HTTP_URI and REDIS_HTTP_URI
  // ---------------------------------------------------------------------------

  /** A Python value interpolated into an f-string: `None` renders as "None". */
  function PyStr(v: Option<string>): string
  {
    match v
    case Some(s) => s
    case None => "None"
  }

  /**
   * `assemble_edgedb_connection`: an explicit URI text is kept; otherwise the
   * URI is built from user, password, host and port.
   */
  function AssembleEdgedbConnection(value: Option<string>, dbUsername: Option<string>,
                                    dbPassword: Option<string>, dbHost: string, dbPort: int): (r: string)
    ensures value.Some? ==> r == value.value
    ensures value.None? ==> StartsWith(r, "edgedb://")
  {
    match value
    case Some(uri) => uri
    case None =>
      "edgedb://" + (PyStr(dbUsername) + (":" + (PyStr(dbPassword) + ("@" + (dbHost + (":" + IntToDecimal(dbPort)))))))
  }

  /**
   * `assemble_redis_connection`: an explicit URI text is kept; otherwise the
   * URI is built from host, port and database number.
   */
  function AssembleRedisConnection(value: Option<string>, redisHost: string,
                                   redisPort: int, redisDb: int): (r: string)
    ensures value.Some? ==> r == value.value
    ensures value.None? ==> StartsWith(r, "redis://")
  {
    match value
    case Some(uri) => uri
    case None => "redis://" + (redisHost + (":" + (IntToDecimal(redisPort) + ("/" + IntToDecimal(redisDb)))))
  }

  /** Position of the first `c` in `s`, or `|s|` when there is none. */
  function IndexOf(s: string, c: char): (r: nat)
    ensures r <= |s|
  {
    if |s| == 0 || s[0] == c then 0 else 1 + IndexOf(s[1..], c)
  }

  lemma {:induction false} IndexOfFirst(a: string, b: string, c: char)
    requires c !in a
    ensures IndexOf(a + ([c] + b), c) == |a|
  {
    if |a| > 0 {
      assert (a + ([c] + b))[1..] == a[1..] + ([c] + b);
      IndexOfFirst(a[1..], b, c);
    }
  }

  /** Text cut at the first occurrence of a character that the left part lacks splits one way only. */
  lemma CutAtFirst(a1: string, b1: string, a2: string, b2: string, c: char)
    requires c !in a1 && c !in a2
    requires a1 + ([c] + b1) == a2 + ([c] + b2)
    ensures a1 == a2 && b1 == b2
  {
    var s := a1 + ([c] + b1);
    IndexOfFirst(a1, b1, c);
    IndexOfFirst(a2, b2, c);
    assert a1 == s[..|a1|] && a2 == s[..|a2|];
    assert b1 == s[|a1| + 1..] && b2 == s[|a2| + 1..];
  }

  lemma DecimalInjective(m: int, n: int)
    requires IntToDecimal(m) == IntToDecimal(n)
    ensures m == n
  {
    IntToDecimalRoundTrip(m);
    IntToDecimalRoundTrip(n);
  }

  lemma DecimalHasNo(n: int, c: char)
    requires c == ':' || c == '/' || c == '@'
    ensures c !in IntToDecimal(n)
  {
    var d := IntToDecimal(n);
    assert forall j :: 0 <= j < |d| ==> d[j] != c;
  }

  /**
   * When the user name and host hold no ':' and the password no '@', the
   * assembled EdgeDB URI determines every rendered component.
   */
  lemma EdgedbUriDeterminesComponents(u1: Option<string>, p1: Option<string>, h1: string, port1: int,
                                      u2: Option<string>, p2: Option<string>, h2: string, port2: int)
    requires ':' !in PyStr(u1) && ':' !in PyStr(u2) && '@' !in PyStr(p1) && '@' !in PyStr(p2)
    requires ':' !in h1 && ':' !in h2
    requires AssembleEdgedbConnection(None, u1, p1, h1, port1) == AssembleEdgedbConnection(None, u2, p2, h2, port2)
    ensures PyStr(u1) == PyStr(u2) && PyStr(p1) == PyStr(p2) && h1 == h2 && port1 == port2
  {
    var v1 := h1 + (":" + IntToDecimal(port1));
    var v2 := h2 + (":" + IntToDecimal(port2));
    var t1 := PyStr(p1) + ("@" + v1);
    var t2 := PyStr(p2) + ("@" + v2);
    var r1 := AssembleEdgedbConnection(None, u1, p1, h1, port1);
    var r2 := AssembleEdgedbConnection(None, u2, p2, h2, port2);
    assert r1[9..] == PyStr(u1) + (":" + t1);
    assert r2[9..] == PyStr(u2) + (":" + t2);
    CutAtFirst(PyStr(u1), t1, PyStr(u2), t2, ':');
    CutAtFirst(PyStr(p1), v1, PyStr(p2), v2, '@');
    CutAtFirst(h1, IntToDecimal(port1), h2, IntToDecimal(port2), ':');
    DecimalInjective(port1, port2);
  }

  /**
   * The components are interpolated without escaping: a password holding
   * "@" can make two different configurations assemble the same URI.
   */
  lemma EdgedbUriAmbiguous()
    ensures AssembleEdgedbConnection(None, Some("u"), Some("p@h:1"), "db", DB_PORT)
         == AssembleEdgedbConnection(None, Some("u"), Some("p"), "h:1@db", DB_PORT)
  {
  }

  /** When the host holds no ':', the assembled Redis URI determines host, port and database. */
  lemma RedisUriDeterminesComponents(h1: string, port1: int, db1: int, h2: string, port2: int, db2: int)
    requires ':' !in h1 && ':' !in h2
    requires AssembleRedisConnection(None, h1, port1, db1) == AssembleRedisConnection(None, h2, port2, db2)
    ensures h1 == h2 && port1 == port2 && db1 == db2
  {
    var t1 := IntToDecimal(port1) + ("/" + IntToDecimal(db1));
    var t2 := IntToDecimal(port2) + ("/" + IntToDecimal(db2));
    var r1 := AssembleRedisConnection(None, h1, port1, db1);
    var r2 := AssembleRedisConnection(None, h2, port2, db2);
    assert r1[8..] == h1 + (":" + t1);
    assert r2[8..] == h2 + (":" + t2);
    CutAtFirst(h1, t1, h2, t2, ':');
    DecimalHasNo(port1, '/');
    DecimalHasNo(port2, '/');
    CutAtFirst(IntToDecimal(port1), IntToDecimal(db1), IntToDecimal(port2), IntToDecimal(db2), '/');
    DecimalInjective(port1, port2);
    DecimalInjective(db1, db2);
  }
}
