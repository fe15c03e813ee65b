/**
 * Input validators of the backend: `required`, `minLength`, `macAddress` and
 * `voucherCode`. The two patterns are fixed-length regular expressions, so they
 * are modelled as sequences of one-character atoms matched position by position.
 */
module Validator {
  import opened Php

  /** One position of a fixed-length pattern. */
  datatype Atom =
    | UpperAlnum            // [A-Z0-9]
    | HexDigit              // [0-9A-Fa-f]
    | ColonOrDash           // [:-]
    | Literal(c: char)      // the character itself

  predicate IsUpperAlnum(c: char) {
    'A' <= c <= 'Z' || '0' <= c <= '9'
  }

  predicate IsHexDigit(c: char) {
    '0' <= c <= '9' || 'A' <= c <= 'F' || 'a' <= c <= 'f'
  }

  predicate AtomMatches(a: Atom, c: char) {
    match a
    case UpperAlnum => IsUpperAlnum(c)
    case HexDigit => IsHexDigit(c)
    case ColonOrDash => c == ':' || c == '-'
    case Literal(l) => c == l
  }

  function Repeat(a: Atom, n: nat): (p: seq<Atom>)
    ensures |p| == n && forall i :: 0 <= i < n ==> p[i] == a
  {
    if n == 0 then [] else [a] + Repeat(a, n - 1)
  }

  /** `[A-Z0-9]{4}-[A-Z0-9]{4}-[A-Z0-9]{4}` */
  function VoucherPattern(): seq<Atom> {
    Repeat(UpperAlnum, 4) + [Literal('-')] + Repeat(UpperAlnum, 4) + [Literal('-')] + Repeat(UpperAlnum, 4)
  }

  /**
   * `([0-9A-Fa-f]{2}[:-]) {5} ([0-9A-Fa-f]{2})` read the way PCRE reads it: the
   * spaces are literal, ` {5}` repeats one space five times and the next space
   * is one more, so the group is followed by six spaces.
   */
  function MacPattern(): seq<Atom> {
    Repeat(HexDigit, 2) + [ColonOrDash] + Repeat(Literal(' '), 5) + [Literal(' ')] + Repeat(HexDigit, 2)
  }

  /** The whole of `s` matches the fixed-length pattern `p`, one atom per character. */
  predicate Matches(p: seq<Atom>, s: string) {
    |p| == |s| && forall i :: 0 <= i < |s| ==> AtomMatches(p[i], s[i])
  }

  /**
   * `preg_match('/^p$/', s)`: without the D modifier, PCRE's `$` also matches
   * just before a newline that ends the subject.
   */
  predicate PcreAnchored(p: seq<Atom>, s: string) {
    Matches(p, s) || (|s| == |p| + 1 && s[|p|] == '\n' && Matches(p, s[..|p|]))
  }

  /** `Validator::required`: `!empty($value)`. */
  function Required(value: Json): (ok: bool)
    ensures value == JNull ==> !ok
    ensures value.JBool? ==> ok == value.b
    ensures value.JInt? ==> (ok <==> value.i != 0)
    ensures value.JStr? ==> (ok <==> value.s != "" && value.s != "0")
    ensures value.JList? ==> (ok <==> |value.items| > 0)
    ensures value.JObject? ==> (ok <==> |value.fields| > 0)
    ensures value.JStdClass? ==> ok
  {
    !Empty(value)
  }

  /** `Validator::minLength`: `strlen($value) >= $length`, one character per byte. */
  function MinLength(value: string, length: int): bool {
    |value| >= length
  }

  /** `Validator::macAddress`, with the pattern exactly as written. */
  function MacAddress(mac: string): bool {
    PcreAnchored(MacPattern(), mac)
  }

  /** `Validator::voucherCode`. */
  function VoucherCode(code: string): bool {
    PcreAnchored(VoucherPattern(), code)
  }

  /** The display form `XXXX-XXXX-XXXX` over `[A-Z0-9]`. */
  predicate CodeShape(s: string) {
    |s| == 14 && forall i :: 0 <= i < 14 ==> if i == 4 || i == 9 then s[i] == '-' else IsUpperAlnum(s[i])
  }

  /** Two hex digits, `:` or `-`, six spaces, two hex digits. */
  predicate MacShapeAsWritten(s: string) {
    |s| == 11 && IsHexDigit(s[0]) && IsHexDigit(s[1]) && (s[2] == ':' || s[2] == '-')
    && (forall i :: 3 <= i < 9 ==> s[i] == ' ') && IsHexDigit(s[9]) && IsHexDigit(s[10])
  }

  lemma VoucherPatternAt()
    ensures |VoucherPattern()| == 14
    ensures forall i :: 0 <= i < 14 ==> VoucherPattern()[i] == if i == 4 || i == 9 then Literal('-') else UpperAlnum
  {
    var p := VoucherPattern();
    var q := Repeat(UpperAlnum, 4);
    assert p == q + [Literal('-')] + q + [Literal('-')] + q;
    forall i | 0 <= i < 14
      ensures p[i] == if i == 4 || i == 9 then Literal('-') else UpperAlnum
    {
      if i < 4 { assert p[i] == q[i]; }
      else if 4 < i < 9 { assert p[i] == q[i - 5]; }
      else if 9 < i { assert p[i] == q[i - 10]; }
    }
  }

  lemma VoucherMatchesShape(s: string)
    ensures Matches(VoucherPattern(), s) <==> CodeShape(s)
  {
    VoucherPatternAt();
  }

  /** The voucher-code validator accepts exactly the display form, optionally followed by one newline. */
  lemma VoucherCodeAccepts(code: string)
    ensures VoucherCode(code) <==> CodeShape(code) || (|code| == 15 && code[14] == '\n' && CodeShape(code[..14]))
  {
    VoucherPatternAt();
    VoucherMatchesShape(code);
    if |code| >= 14 {
      VoucherMatchesShape(code[..14]);
    }
  }

  lemma MacPatternAt()
    ensures |MacPattern()| == 11
    ensures forall i :: 0 <= i < 11 ==> MacPattern()[i] == if i < 2 || i >= 9 then HexDigit else if i == 2 then ColonOrDash else Literal(' ')
  {
  }

  lemma MacMatchesShape(s: string)
    ensures Matches(MacPattern(), s) <==> MacShapeAsWritten(s)
  {
    MacPatternAt();
  }

  /** The MAC validator, as written, accepts exactly an 11-character string with six spaces in the middle. */
  lemma MacAddressAccepts(mac: string)
    ensures MacAddress(mac) <==> MacShapeAsWritten(mac) || (|mac| == 12 && mac[11] == '\n' && MacShapeAsWritten(mac[..11]))
  {
    MacPatternAt();
    MacMatchesShape(mac);
    if |mac| >= 11 {
      MacMatchesShape(mac[..11]);
    }
  }

  /** Consequently every 17-character MAC, `AA:BB:CC:DD:EE:FF` included, is rejected. */
  lemma StandardMacRejected(mac: string)
    requires |mac| == 17
    ensures !MacAddress(mac)
  {
    MacAddressAccepts(mac);
  }

  /** A string the pattern as written does accept. */
  lemma SpacedMacAccepted()
    ensures MacAddress("AA:      BB")
    ensures !MacAddress("AA:BB:CC:DD:EE:FF")
  {
    MacAddressAccepts("AA:      BB");
    StandardMacRejected("AA:BB:CC:DD:EE:FF");
  }
}
