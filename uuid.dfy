// Identifiers (the `uuid` crate's `Uuid`): 128 bits, kept as 32 hex
// nibbles. `to_string` gives the lower-case hyphenated form and `parse_str`
// accepts the simple, hyphenated, braced and URN forms in either case.

module Uuids {
  import opened Base

  type Nibble = x: int | 0 <= x < 16

  type Uuid = s: seq<Nibble> | |s| == 32 witness seq(32, i => 0)

  function HexDigit(n: Nibble): char {
    "0123456789abcdef"[n]
  }

  /** The value of one hex digit, upper or lower case. */
  function HexValue(c: char): (r: Option<Nibble>)
    ensures r.Some? <==> ('0' <= c <= '9' || 'a' <= c <= 'f' || 'A' <= c <= 'F')
  {
    if '0' <= c <= '9' then Some(c as int - '0' as int)
    else if 'a' <= c <= 'f' then Some(c as int - 'a' as int + 10)
    else if 'A' <= c <= 'F' then Some(c as int - 'A' as int + 10)
    else None
  }

  lemma HexValueOfDigit(n: Nibble)
    ensures HexValue(HexDigit(n)) == Some(n)
  {
  }

  function Hex(s: seq<Nibble>): (r: string)
    ensures |r| == |s|
  {
    seq(|s|, i requires 0 <= i < |s| => HexDigit(s[i]))
  }

  function ParseHex(s: string): (r: Option<seq<Nibble>>)
    ensures r.Some? ==> |r.value| == |s|
  {
    if forall i :: 0 <= i < |s| ==> HexValue(s[i]).Some? then
      Some(seq(|s|, i requires 0 <= i < |s| => HexValue(s[i]).value))
    else None
  }

  lemma ParseHexOfHex(s: seq<Nibble>)
    ensures ParseHex(Hex(s)) == Some(s)
  {
    var h := Hex(s);
    forall i | 0 <= i < |s|
      ensures HexValue(h[i]) == Some(s[i])
    {
      HexValueOfDigit(s[i]);
    }
    var back := seq(|h|, i requires 0 <= i < |h| => HexValue(h[i]).value);
    assert back == s;
  }

  /** Groups of 8-4-4-4-12 digits separated by hyphens. */
  function Hyphenate(h: string): (r: string)
    requires |h| == 32
    ensures |r| == 36
  {
    h[..8] + "-" + h[8..12] + "-" + h[12..16] + "-" + h[16..20] + "-" + h[20..]
  }

  predicate HyphensInPlace(s: string)
    requires |s| == 36
  {
    s[8] == '-' && s[13] == '-' && s[18] == '-' && s[23] == '-'
  }

  function Dehyphenate(s: string): (r: string)
    requires |s| == 36
    ensures |r| == 32
  {
    s[..8] + s[9..13] + s[14..18] + s[19..23] + s[24..]
  }

  lemma DehyphenateHyphenate(h: string)
    requires |h| == 32
    ensures HyphensInPlace(Hyphenate(h))
    ensures Dehyphenate(Hyphenate(h)) == h
  {
    var s := Hyphenate(h);
    assert s[..8] == h[..8];
    assert s[9..13] == h[8..12];
    assert s[14..18] == h[12..16];
    assert s[19..23] == h[16..20];
    assert s[24..] == h[20..];
    assert h == h[..8] + h[8..12] + h[12..16] + h[16..20] + h[20..];
  }

  /** `Uuid::to_string`: lower-case hyphenated form. */
  function ToString(u: Uuid): (r: string)
    ensures |r| == 36
  {
    Hyphenate(Hex(u))
  }

  function ParseHyphenated(s: string): Option<Uuid>
    requires |s| == 36
  {
    if HyphensInPlace(s) then
      match ParseHex(Dehyphenate(s))
      case None => None
      case Some(n) => Some(n)
    else None
  }

  /** `Uuid::parse_str`. */
  function ParseUuid(s: string): (r: Option<Uuid>)
    ensures r.Some? ==> |s| in {32, 36, 38, 45}
  {
    if |s| == 32 then
      match ParseHex(s)
      case None => None
      case Some(n) => Some(n)
    else if |s| == 36 then ParseHyphenated(s)
    else if |s| == 38 && s[0] == '{' && s[37] == '}' then ParseHyphenated(s[1..37])
    else if |s| == 45 && s[..9] == "urn:uuid:" then ParseHyphenated(s[9..])
    else None
  }

  /** Parsing the string form gives the identifier back. */
  lemma ParseToString(u: Uuid)
    ensures ParseUuid(ToString(u)) == Some(u)
  {
    DehyphenateHyphenate(Hex(u));
    ParseHexOfHex(u);
  }

  /** Distinct identifiers have distinct string forms. */
  lemma ToStringInjective(u: Uuid, w: Uuid)
    requires ToString(u) == ToString(w)
    ensures u == w
  {
    ParseToString(u);
    ParseToString(w);
  }

  /** The string form never holds an upper-case letter. */
  lemma ToStringLowerCase(u: Uuid)
    ensures forall i :: 0 <= i < |ToString(u)| ==> !('A' <= ToString(u)[i] <= 'Z')
  {
    var h := Hex(u);
    assert forall i :: 0 <= i < 32 ==> !('A' <= h[i] <= 'Z');
  }

  /** The simple (unhyphenated) form parses too. */
  lemma ParseSimple(u: Uuid)
    ensures ParseUuid(Hex(u)) == Some(u)
  {
    ParseHexOfHex(u);
  }
}
