/**
 * `JWT::encode`: JWS compact serialisation (section 7.1 of RFC 7515) of an
 * HS256 token. `json_encode` of the payload and HMAC-SHA256 (RFC 2104) are
 * foreign primitives: the payload arrives as its JSON bytes and the MAC is a
 * function parameter.
 */
module Jwt {
  import opened Common
  import Base64

  /** `json_encode(['typ' => 'JWT', 'alg' => 'HS256'])`. */
  const HeaderJson: string := "{\"typ\":\"JWT\",\"alg\":\"HS256\"}"

  predicate IsLatin1(s: string) {
    forall k :: 0 <= k < |s| ==> s[k] as int < 256
  }

  /** The bytes of a string whose characters are all single bytes. */
  function Latin1(s: string): (b: seq<Byte>)
    requires IsLatin1(s)
    ensures |b| == |s| && forall k :: 0 <= k < |s| ==> b[k] == s[k] as int
  {
    seq(|s|, k requires 0 <= k < |s| => s[k] as int)
  }

  /** base64url text is single-byte text, so it can be signed. */
  lemma UrlTextIsLatin1(s: seq<Byte>)
    ensures IsLatin1(Base64.UrlEncode(s))
    ensures forall k :: 0 <= k < |Base64.UrlEncode(s)| ==> Base64.UrlEncode(s)[k] != '.'
  {
    Base64.UrlEncodeShape(s);
  }

  /** The first segment of every token this encoder produces. */
  function HeaderSegment(): string {
    Base64.UrlEncode(Latin1(HeaderJson))
  }

  /** The bytes the signature is computed over: `header . "." . payload`. */
  function SigningInput(header: string, payload: string): seq<Byte>
    requires IsLatin1(header) && IsLatin1(payload)
  {
    Latin1(header) + [46] + Latin1(payload)
  }

  datatype Encoded = Token(jwt: string) | UnsupportedAlgorithm

  /**
   * `JWT::encode($payload, $key, $alg)`: any algorithm other than `HS256`
   * throws; otherwise the token is `header.payload.signature`, each part
   * base64url without padding, the signature being HMAC-SHA256 of
   * `header.payload` under the key.
   */
  function Encode(payloadJson: seq<Byte>, key: seq<Byte>, alg: string,
                  hmacSha256: (seq<Byte>, seq<Byte>) -> seq<Byte>): (r: Encoded)
    ensures r.UnsupportedAlgorithm? <==> alg != "HS256"
    ensures r.Token? ==> |HeaderSegment()| < |r.jwt| && r.jwt[..|HeaderSegment()|] == HeaderSegment()
  {
    if alg != "HS256" then UnsupportedAlgorithm
    else
      var header := HeaderSegment();
      var payload := Base64.UrlEncode(payloadJson);
      UrlTextIsLatin1(Latin1(HeaderJson));
      UrlTextIsLatin1(payloadJson);
      var signature := Base64.UrlEncode(hmacSha256(SigningInput(header, payload), key));
      Token(header + "." + payload + "." + signature)
  }

  /**
   * A token is three dot-free base64url segments joined by exactly two dots,
   * the first being the fixed header and the last the MAC of the first two
   * joined by a dot.
   */
  lemma TokenShape(payloadJson: seq<Byte>, key: seq<Byte>, hmacSha256: (seq<Byte>, seq<Byte>) -> seq<Byte>)
    ensures Encode(payloadJson, key, "HS256", hmacSha256).Token?
    ensures
      var t := Encode(payloadJson, key, "HS256", hmacSha256).jwt;
      var h := HeaderSegment();
      var p := Base64.UrlEncode(payloadJson);
      IsLatin1(h) && IsLatin1(p)
      && t == h + "." + p + "." + Base64.UrlEncode(hmacSha256(SigningInput(h, p), key))
      && forall k :: 0 <= k < |t| ==> (t[k] == '.' <==> k == |h| || k == |h| + 1 + |p|)
  {
    var h := HeaderSegment();
    var p := Base64.UrlEncode(payloadJson);
    UrlTextIsLatin1(Latin1(HeaderJson));
    UrlTextIsLatin1(payloadJson);
    var s := Base64.UrlEncode(hmacSha256(SigningInput(h, p), key));
    UrlTextIsLatin1(hmacSha256(SigningInput(h, p), key));
    var t := h + "." + p + "." + s;
    forall k | 0 <= k < |t| ensures t[k] == '.' <==> k == |h| || k == |h| + 1 + |p| {
      if k < |h| {
        assert t[k] == h[k];
      } else if |h| < k < |h| + 1 + |p| {
        assert t[k] == p[k - |h| - 1];
      } else if k > |h| + 1 + |p| {
        assert t[k] == s[k - |h| - 2 - |p|];
      }
    }
  }
}
