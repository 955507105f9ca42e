/**
 * Identifiers of users: 128-bit UUIDs, their `str()` rendering and the
 * parsing that the token payload schema applies to the `sub` claim.
 */
module Uuids {
  import opened Wrappers

  type Nibble = x: int | 0 <= x < 16

  /** A UUID as its 32 hexadecimal digits, most significant first. */
  type Uuid = s: seq<Nibble> | |s| == 32 witness seq(32, i => 0)

  function HexDigit(n: Nibble): char
  {
    "0123456789abcdef"[n]
  }

  predicate IsHexChar(c: char)
  {
    ('0' <= c <= '9') || ('a' <= c <= 'f') || ('A' <= c <= 'F')
  }

  function HexValue(c: char): Nibble
    requires IsHexChar(c)
  {
    if '0' <= c <= '9' then (c as int) - ('0' as int)
    else if 'a' <= c <= 'f' then (c as int) - ('a' as int) + 10
    else (c as int) - ('A' as int) + 10
  }

  lemma HexDigitValue(n: Nibble)
    ensures IsHexChar(HexDigit(n)) && HexValue(HexDigit(n)) == n
  {
    var digits := "0123456789abcdef";
    assert digits[n] == HexDigit(n);
    if n < 10 {
      assert digits[n] as int == '0' as int + n;
    } else {
      assert digits[n] as int == 'a' as int + n - 10;
    }
  }

  /** Lower-case hexadecimal text of a digit sequence. */
  function Hex(ns: seq<Nibble>): (r: string)
    ensures |r| == |ns|
  {
    seq(|ns|, i requires 0 <= i < |ns| => HexDigit(ns[i]))
  }

  /** Digits of a hexadecimal text in either case; `None` if any character is not a digit. */
  function ParseHex(s: string): (r: Option<seq<Nibble>>)
    ensures r.Some? <==> forall i :: 0 <= i < |s| ==> IsHexChar(s[i])
    ensures r.Some? ==> |r.value| == |s|
  {
    if forall i :: 0 <= i < |s| ==> IsHexChar(s[i])
    then Some(seq(|s|, i requires 0 <= i < |s| => HexValue(s[i])))
    else None
  }

  /** `str(uuid)`: the canonical 8-4-4-4-12 lower-case hyphenated form. */
  function UuidToString(u: Uuid): (r: string)
    ensures |r| == 36
  {
    Hex(u[..8]) + "-" + Hex(u[8..12]) + "-" + Hex(u[12..16]) + "-" + Hex(u[16..20]) + "-" + Hex(u[20..])
  }

  predicate IsHyphenated(s: string)
  {
    |s| == 36 && s[8] == '-' && s[13] == '-' && s[18] == '-' && s[23] == '-'
  }

  /** The 32 digits of a hyphenated form, hyphens removed. */
  function Unhyphenate(s: string): (r: string)
    requires IsHyphenated(s)
    ensures |r| == 32
  {
    s[..8] + s[9..13] + s[14..18] + s[19..23] + s[24..]
  }

  /**
   * UUID text as the payload schema accepts it: 32 hexadecimal digits, bare
   * or hyphenated 8-4-4-4-12, in either case.
   */
  function ParseUuid(s: string): (r: Option<Uuid>)
    ensures r.Some? ==> |s| == 32 || IsHyphenated(s)
    ensures var d := if IsHyphenated(s) then Unhyphenate(s) else s;
      r.Some? <==> |d| == 32 && forall i :: 0 <= i < 32 ==> IsHexChar(d[i])
    ensures var d := if IsHyphenated(s) then Unhyphenate(s) else s;
      r.Some? ==> forall i :: 0 <= i < 32 ==> IsHexChar(d[i]) && r.value[i] == HexValue(d[i])
  {
    var digits := if IsHyphenated(s) then Unhyphenate(s) else s;
    if |digits| != 32 then None
    else match ParseHex(digits)
      case None => None
      case Some(ns) => Some(ns)
  }

  /** Parsing what `str()` renders gives back the same UUID. */
  lemma UuidRoundTrip(u: Uuid)
    ensures ParseUuid(UuidToString(u)) == Some(u)
  {
    var s := UuidToString(u);
    assert IsHyphenated(s);
    var d := Unhyphenate(s);
    forall i | 0 <= i < 32 ensures d[i] == HexDigit(u[i]) {
      if i < 8 { assert d[i] == s[i] == Hex(u[..8])[i]; }
      else if i < 12 { assert d[i] == s[i + 1] == Hex(u[8..12])[i - 8]; }
      else if i < 16 { assert d[i] == s[i + 2] == Hex(u[12..16])[i - 12]; }
      else if i < 20 { assert d[i] == s[i + 3] == Hex(u[16..20])[i - 16]; }
      else { assert d[i] == s[i + 4] == Hex(u[20..])[i - 20]; }
    }
    forall i | 0 <= i < 32 ensures IsHexChar(d[i]) && HexValue(d[i]) == u[i] {
      HexDigitValue(u[i]);
    }
    assert ParseHex(d).value == u;
  }

  /** Different UUIDs render differently, so `str()` identifies the user. */
  lemma UuidToStringInjective(u: Uuid, v: Uuid)
    requires UuidToString(u) == UuidToString(v)
    ensures u == v
  {
    UuidRoundTrip(u);
    UuidRoundTrip(v);
  }
}
