/**
 * Base64 as PHP's `base64_encode` produces it (RFC 4648, section 4: the
 * standard alphabet with `=` padding), a strict decoder for it, and the
 * base64url variant the JWT encoder builds from it (RFC 4648, section 5, with
 * the padding stripped).
 */
module Base64 {
  import opened Common

  type Sextet = x: int | 0 <= x < 64

  /** The standard alphabet: A-Z, a-z, 0-9, `+`, `/` (RFC 4648, Table 1). */
  function SextetChar(i: Sextet): (c: char)
    ensures IsStdChar(c)
  {
    if i < 26 then ('A' as int + i) as char
    else if i < 52 then ('a' as int + (i - 26)) as char
    else if i < 62 then ('0' as int + (i - 52)) as char
    else if i == 62 then '+'
    else '/'
  }

  predicate IsStdChar(c: char) {
    'A' <= c <= 'Z' || 'a' <= c <= 'z' || '0' <= c <= '9' || c == '+' || c == '/'
  }

  function CharSextet(c: char): (i: Sextet)
    requires IsStdChar(c)
    ensures SextetChar(i) == c
  {
    if 'A' <= c <= 'Z' then c as int - 'A' as int
    else if 'a' <= c <= 'z' then c as int - 'a' as int + 26
    else if '0' <= c <= '9' then c as int - '0' as int + 52
    else if c == '+' then 62
    else 63
  }

  lemma SextetRoundTrip(i: Sextet)
    ensures IsStdChar(SextetChar(i)) && CharSextet(SextetChar(i)) == i
  {
  }

  /** The four characters encoding one full group of three bytes. */
  function GroupChars(x: Byte, y: Byte, z: Byte): (r: string)
    ensures |r| == 4 && forall k :: 0 <= k < 4 ==> IsStdChar(r[k])
  {
    [SextetChar(x / 4), SextetChar((x % 4) * 16 + y / 16), SextetChar((y % 16) * 4 + z / 64), SextetChar(z % 64)]
  }

  /** The characters of the encoding of `s` before any padding: four per full group of three bytes. */
  function Unpadded(s: seq<Byte>): (r: string)
    ensures |r| == if |s| % 3 == 0 then |s| / 3 * 4 else |s| / 3 * 4 + |s| % 3 + 1
    ensures forall k :: 0 <= k < |r| ==> IsStdChar(r[k])
    decreases |s|
  {
    if |s| == 0 then ""
    else if |s| == 1 then
      [SextetChar(s[0] / 4), SextetChar((s[0] % 4) * 16)]
    else if |s| == 2 then
      [SextetChar(s[0] / 4), SextetChar((s[0] % 4) * 16 + s[1] / 16), SextetChar((s[1] % 16) * 4)]
    else
      GroupChars(s[0], s[1], s[2]) + Unpadded(s[3..])
  }

  /** The `=` characters that complete the last group. */
  function Padding(n: nat): string {
    if n % 3 == 1 then "==" else if n % 3 == 2 then "=" else ""
  }

  /** `base64_encode`. */
  function Encode(s: seq<Byte>): string {
    Unpadded(s) + Padding(|s|)
  }

  /** Decodes one group of four characters; the last two may be padding. */
  function DecodeGroup(q: string): Option<seq<Byte>>
    requires |q| == 4
  {
    if !IsStdChar(q[0]) || !IsStdChar(q[1]) then None
    else
      var a, b := CharSextet(q[0]), CharSextet(q[1]);
      if q[2] == '=' && q[3] == '=' then Some([a * 4 + b / 16])
      else if !IsStdChar(q[2]) then None
      else
        var c := CharSextet(q[2]);
        if q[3] == '=' then Some([a * 4 + b / 16, (b % 16) * 16 + c / 4])
        else if !IsStdChar(q[3]) then None
        else
          var d := CharSextet(q[3]);
          Some([a * 4 + b / 16, (b % 16) * 16 + c / 4, (c % 4) * 64 + d])
  }

  /**
   * A strict decoder: groups of four characters of the standard alphabet, with
   * padding allowed only in the last group. Malformed text decodes to None.
   */
  function Decode(t: string): Option<seq<Byte>>
    decreases |t|
  {
    if |t| == 0 then Some([])
    else if |t| < 4 then None
    else
      match DecodeGroup(t[..4])
      case None => None
      case Some(bytes) =>
        if |t| == 4 then Some(bytes)
        else if |bytes| < 3 then None
        else
          match Decode(t[4..])
          case None => None
          case Some(rest) => Some(bytes + rest)
  }

  /** A high part and a low part below `m` are recovered by division and remainder by `m`. */
  lemma SplitRecovers(h: int, l: int, m: int)
    requires m == 4 || m == 16
    requires 0 <= h && 0 <= l < m
    ensures (h * m + l) / m == h && (h * m + l) % m == l
  {
    if m == 4 {
      assert h * m + l == h * 4 + l;
    } else {
      assert h * m + l == h * 16 + l;
    }
  }

  /** Four sextets of the standard alphabet decode to the three bytes they carry. */
  lemma SextetsDecode(a: Sextet, b: Sextet, c: Sextet, d: Sextet)
    ensures DecodeGroup([SextetChar(a), SextetChar(b), SextetChar(c), SextetChar(d)])
         == Some([a * 4 + b / 16, (b % 16) * 16 + c / 4, (c % 4) * 64 + d])
  {
    SextetRoundTrip(a); SextetRoundTrip(b); SextetRoundTrip(c); SextetRoundTrip(d);
  }

  /** Regrouping three bytes into sextets and back restores them. */
  lemma RegroupBytes(x: Byte, y: Byte, z: Byte)
    ensures x / 4 * 4 + ((x % 4) * 16 + y / 16) / 16 == x
    ensures (((x % 4) * 16 + y / 16) % 16) * 16 + ((y % 16) * 4 + z / 64) / 4 == y
    ensures (((y % 16) * 4 + z / 64) % 4) * 64 + z % 64 == z
  {
    SplitRecovers(x % 4, y / 16, 16);
    SplitRecovers(y % 16, z / 64, 4);
  }

  lemma FullGroupRoundTrip(x: Byte, y: Byte, z: Byte)
    ensures DecodeGroup(GroupChars(x, y, z)) == Some([x, y, z])
  {
    var a, b, c, d := x / 4, (x % 4) * 16 + y / 16, (y % 16) * 4 + z / 64, z % 64;
    RegroupBytes(x, y, z);
    assert [a * 4 + b / 16, (b % 16) * 16 + c / 4, (c % 4) * 64 + d] == [x, y, z];
    SextetsDecode(a, b, c, d);
  }

  lemma OneByteRoundTrip(s: seq<Byte>)
    requires |s| == 1
    ensures Decode(Encode(s)) == Some(s)
  {
    var a, b := s[0] / 4, (s[0] % 4) * 16;
    SextetRoundTrip(a); SextetRoundTrip(b);
    var e := Encode(s);
    assert e == [SextetChar(a), SextetChar(b), '=', '='];
    assert e[..4] == e;
    assert b / 16 == s[0] % 4;
    assert a * 4 + b / 16 == s[0];
    assert DecodeGroup(e) == Some([s[0]]);
    assert [s[0]] == s;
  }

  /** Three sextets followed by one `=` decode to the two bytes they carry. */
  lemma SextetsDecodeTwo(a: Sextet, b: Sextet, c: Sextet)
    ensures DecodeGroup([SextetChar(a), SextetChar(b), SextetChar(c), '='])
         == Some([a * 4 + b / 16, (b % 16) * 16 + c / 4])
  {
    SextetRoundTrip(a); SextetRoundTrip(b); SextetRoundTrip(c);
  }

  /** Regrouping two bytes into sextets (the last one zero-filled) and back restores them. */
  lemma RegroupTwoBytes(x: Byte, y: Byte)
    ensures x / 4 * 4 + ((x % 4) * 16 + y / 16) / 16 == x
    ensures (((x % 4) * 16 + y / 16) % 16) * 16 + ((y % 16) * 4) / 4 == y
  {
    SplitRecovers(x % 4, y / 16, 16);
    SplitRecovers(y % 16, 0, 4);
  }

  lemma TwoByteRoundTrip(s: seq<Byte>)
    requires |s| == 2
    ensures Decode(Encode(s)) == Some(s)
  {
    var x, y := s[0], s[1];
    var a, b, c := x / 4, (x % 4) * 16 + y / 16, (y % 16) * 4;
    RegroupTwoBytes(x, y);
    assert [a * 4 + b / 16, (b % 16) * 16 + c / 4] == s;
    SextetsDecodeTwo(a, b, c);
    var e := Unpadded(s) + Padding(|s|);
    assert e[..4] == [SextetChar(a), SextetChar(b), SextetChar(c), '='];
    DecodeOneGroup(e, s);
  }

  /** Encoding three or more bytes is the first full group followed by the encoding of the rest. */
  lemma EncodeStep(s: seq<Byte>)
    requires |s| >= 3
    ensures |Encode(s)| >= 4
    ensures Encode(s)[..4] == GroupChars(s[0], s[1], s[2])
    ensures Encode(s)[4..] == Encode(s[3..])
  {
    assert Padding(|s|) == Padding(|s| - 3);
  }

  lemma DecodeFront(e: string, g: seq<Byte>, rest: seq<Byte>)
    requires |e| > 4 && DecodeGroup(e[..4]) == Some(g) && |g| == 3
    requires Decode(e[4..]) == Some(rest)
    ensures Decode(e) == Some(g + rest)
  {
  }

  lemma LeadingGroupDecodes(q: string, s: seq<Byte>)
    requires |s| >= 3 && q == GroupChars(s[0], s[1], s[2])
    ensures DecodeGroup(q) == Some(s[..3])
  {
    var x, y, z := s[0], s[1], s[2];
    assert s[..3] == [x, y, z];
    FullGroupRoundTrip(x, y, z);
  }

  lemma FirstGroupDecodes(s: seq<Byte>)
    requires |s| >= 3
    ensures |Encode(s)| >= 4 && DecodeGroup(Encode(s)[..4]) == Some(s[..3])
    ensures Encode(s)[4..] == Encode(s[3..])
  {
    EncodeStep(s);
    LeadingGroupDecodes(Encode(s)[..4], s);
  }

  lemma DecodeOneGroup(e: string, g: seq<Byte>)
    requires |e| == 4 && DecodeGroup(e[..4]) == Some(g)
    ensures Decode(e) == Some(g)
  {
  }

  lemma RoundTripStep(s: seq<Byte>)
    requires |s| >= 3
    requires Decode(Encode(s[3..])) == Some(s[3..])
    ensures Decode(Encode(s)) == Some(s)
  {
    var e := Encode(s);
    FirstGroupDecodes(s);
    assert s == s[..3] + s[3..];
    if |s| == 3 {
      assert |e| == 4;
      DecodeOneGroup(e, s[..3]);
      assert s[..3] == s;
    } else {
      DecodeFront(e, s[..3], s[3..]);
    }
  }

  /** Decoding what `base64_encode` produced gives the original bytes back. */
  lemma {:induction false} RoundTrip(s: seq<Byte>)
    ensures Decode(Encode(s)) == Some(s)
    decreases |s|
  {
    if |s| == 1 {
      OneByteRoundTrip(s);
    } else if |s| == 2 {
      TwoByteRoundTrip(s);
    } else if |s| >= 3 {
      RoundTrip(s[3..]);
      RoundTripStep(s);
    }
  }

  /** `strtr($b, '+/', '-_')`. */
  function ToUrlAlphabet(t: string): (r: string)
    ensures |r| == |t|
    ensures forall k :: 0 <= k < |t| ==> r[k] == if t[k] == '+' then '-' else if t[k] == '/' then '_' else t[k]
  {
    seq(|t|, k requires 0 <= k < |t| => if t[k] == '+' then '-' else if t[k] == '/' then '_' else t[k])
  }

  lemma UrlAlphabetKeepsPadding(u: string, p: string)
    requires p == "" || p == "=" || p == "=="
    ensures ToUrlAlphabet(u + p) == ToUrlAlphabet(u) + p
  {
    var l, r := ToUrlAlphabet(u + p), ToUrlAlphabet(u) + p;
    assert |l| == |r|;
    forall k | 0 <= k < |l| ensures l[k] == r[k] {
      if k < |u| {
        assert (u + p)[k] == u[k];
      } else {
        assert (u + p)[k] == p[k - |u|] == '=';
      }
    }
  }

  /** `rtrim($t, '=')`. */
  function TrimPadding(t: string): string
    decreases |t|
  {
    if |t| > 0 && t[|t| - 1] == '=' then TrimPadding(t[..|t| - 1]) else t
  }

  /** `JWT::base64UrlEncode`: `rtrim(strtr(base64_encode($text), '+/', '-_'), '=')`. */
  function UrlEncode(s: seq<Byte>): string {
    TrimPadding(ToUrlAlphabet(Encode(s)))
  }

  predicate IsUrlChar(c: char) {
    'A' <= c <= 'Z' || 'a' <= c <= 'z' || '0' <= c <= '9' || c == '-' || c == '_'
  }

  lemma {:induction false} TrimPaddingOf(body: string, pad: string)
    requires forall k :: 0 <= k < |body| ==> body[k] != '='
    requires forall k :: 0 <= k < |pad| ==> pad[k] == '='
    ensures TrimPadding(body + pad) == body
    decreases |pad|
  {
    if |pad| == 0 {
      assert body + pad == body;
      if |body| > 0 {
        assert body[|body| - 1] != '=';
      }
    } else {
      assert (body + pad)[..|body + pad| - 1] == body + pad[..|pad| - 1];
      TrimPaddingOf(body, pad[..|pad| - 1]);
    }
  }

  /** The URL alphabet swap of standard alphabet text holds only URL characters, hence no `=`. */
  lemma StdTextHasNoPadding(u: string)
    requires forall k :: 0 <= k < |u| ==> IsStdChar(u[k])
    ensures forall k :: 0 <= k < |ToUrlAlphabet(u)| ==> IsUrlChar(ToUrlAlphabet(u)[k]) && ToUrlAlphabet(u)[k] != '='
  {
  }

  /** Padding is empty or one or two `=`. */
  lemma PaddingShape(n: nat)
    ensures Padding(n) == "" || Padding(n) == "=" || Padding(n) == "=="
  {
  }

  /** Swapping the alphabet of standard text followed by padding, then trimming `=`, leaves the swapped text. */
  lemma TrimSwapped(u: string, p: string)
    requires forall k :: 0 <= k < |u| ==> IsStdChar(u[k])
    requires p == "" || p == "=" || p == "=="
    ensures ToUrlAlphabet(u + p) == ToUrlAlphabet(u) + p
    ensures TrimPadding(ToUrlAlphabet(u + p)) == ToUrlAlphabet(u)
  {
    assert forall k :: 0 <= k < |p| ==> p[k] == '=';
    UrlAlphabetKeepsPadding(u, p);
    StdTextHasNoPadding(u);
    TrimPaddingOf(ToUrlAlphabet(u), p);
  }

  /**
   * The base64url text is the unpadded standard encoding with `+` and `/`
   * replaced: exactly the padding (none, `=` or `==`) is removed.
   */
  lemma UrlEncodeIsUnpadded(s: seq<Byte>)
    ensures UrlEncode(s) == ToUrlAlphabet(Unpadded(s))
    ensures ToUrlAlphabet(Encode(s)) == UrlEncode(s) + Padding(|s|)
  {
    PaddingShape(|s|);
    TrimSwapped(Unpadded(s), Padding(|s|));
  }

  /** base64url output never holds `+`, `/` or `=`, and has ceil(4n/3) characters for n bytes. */
  lemma UrlEncodeShape(s: seq<Byte>)
    ensures forall k :: 0 <= k < |UrlEncode(s)| ==> IsUrlChar(UrlEncode(s)[k])
    ensures forall k :: 0 <= k < |UrlEncode(s)| ==> UrlEncode(s)[k] !in {'+', '/', '='}
    ensures |UrlEncode(s)| == (4 * |s| + 2) / 3
  {
    UrlEncodeIsUnpadded(s);
    StdTextHasNoPadding(Unpadded(s));
  }
}
