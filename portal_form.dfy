/**
 * The captive portal's voucher form: the keystroke formatter that turns what
 * the guest types into `XXXX-XXXX-XXXX`, the client-side pattern check, and
 * the decision taken when the form is submitted.
 */
module PortalForm {
  import opened Common
  import Validator

  /** `toUpperCase()`, restricted to ASCII letters (the full Unicode case mapping is not modelled). */
  function AsciiUpper(c: char): (u: char)
    ensures 'a' <= c <= 'z' ==> u as int == c as int - 32
    ensures !('a' <= c <= 'z') ==> u == c
  {
    if 'a' <= c <= 'z' then (c as int - 32) as char else c
  }

  /** `value.toUpperCase().replace(/[^A-Z0-9]/g, '')`. */
  function Normalize(s: string): (v: string)
    ensures |v| <= |s|
    ensures forall i :: 0 <= i < |v| ==> Validator.IsUpperAlnum(v[i])
  {
    if s == [] then []
    else
      var u := AsciiUpper(s[0]);
      (if Validator.IsUpperAlnum(u) then [u] else []) + Normalize(s[1..])
  }

  /** `if (value.length > 4) value = value.substr(0, 4) + '-' + value.substr(4)`. */
  function FirstDash(v: string): string {
    if |v| > 4 then v[..4] + "-" + v[4..] else v
  }

  /** `if (value.length > 9) value = value.substr(0, 9) + '-' + value.substr(9)`. */
  function SecondDash(v: string): string {
    if |v| > 9 then v[..9] + "-" + v[9..] else v
  }

  /** `value.substr(0, 14)`. */
  function Prefix14(v: string): string {
    if |v| <= 14 then v else v[..14]
  }

  /** The input handler: what the field holds after a keystroke. */
  function Format(typed: string): string {
    Prefix14(SecondDash(FirstDash(Normalize(typed))))
  }

  /** `validateVoucherCode`: `/^[A-Z0-9]{4}-[A-Z0-9]{4}-[A-Z0-9]{4}$/.test(code)`; `$` is the end of input. */
  function ValidateVoucherCode(code: string): bool {
    Validator.Matches(Validator.VoucherPattern(), code)
  }

  predicate AllUpperAlnum(a: string) {
    forall i :: 0 <= i < |a| ==> Validator.IsUpperAlnum(a[i])
  }

  /** The formatter's layout of an already-normalised string, as plain concatenations. */
  function Grouped(a: string): string
    requires AllUpperAlnum(a)
  {
    if |a| <= 4 then a
    else if |a| <= 8 then a[..4] + "-" + a[4..]
    else if |a| <= 12 then a[..4] + "-" + a[4..8] + "-" + a[8..]
    else a[..4] + "-" + a[4..8] + "-" + a[8..12]
  }

  lemma LayoutIsGrouped(a: string)
    requires AllUpperAlnum(a)
    ensures Prefix14(SecondDash(FirstDash(a))) == Grouped(a)
  {
    if |a| > 8 {
      var d := a[..4] + "-" + a[4..];
      assert d[..9] == a[..4] + "-" + a[4..8];
      assert d[9..] == a[8..];
      if |a| > 12 {
        assert (d[..9] + "-" + d[9..])[..14] == a[..4] + "-" + a[4..8] + "-" + a[8..12];
      }
    }
  }

  /** Position by position: dashes at 4 and 9, the normalised characters in order elsewhere. */
  lemma GroupedAt(a: string)
    requires AllUpperAlnum(a)
    ensures var g := Grouped(a);
      |g| == (if |a| <= 4 then |a| else if |a| <= 8 then |a| + 1 else if |a| <= 12 then |a| + 2 else 14)
      && forall i :: 0 <= i < |g| ==>
           (g[i] == '-' <==> i == 4 || i == 9)
           && (i < 4 ==> g[i] == a[i])
           && (4 < i < 9 ==> g[i] == a[i - 1])
           && (9 < i ==> g[i] == a[i - 2])
  {
    if 8 < |a| {
      var last := if |a| <= 12 then a[8..] else a[8..12];
      var g := a[..4] + "-" + a[4..8] + "-" + last;
      assert Grouped(a) == g;
      forall i | 9 < i < |g| ensures g[i] == a[i - 2] {
        assert g[i] == last[i - 10];
      }
    }
  }

  /** Everything the formatter leaves in the field is `A-Z`, `0-9` or `-`, at most 14 characters, with `-` exactly at 4 and 9. */
  lemma FormatShape(typed: string)
    ensures var f := Format(typed);
      |f| <= 14
      && (forall i :: 0 <= i < |f| ==> Validator.IsUpperAlnum(f[i]) || f[i] == '-')
      && (forall i :: 0 <= i < |f| ==> (f[i] == '-' <==> i == 4 || i == 9))
  {
    var a := Normalize(typed);
    LayoutIsGrouped(a);
    GroupedAt(a);
    var f := Format(typed);
    forall i | 0 <= i < |f| ensures Validator.IsUpperAlnum(f[i]) || f[i] == '-' {
      if i < 4 { assert f[i] == a[i]; }
      else if 4 < i < 9 { assert f[i] == a[i - 1]; }
      else if 9 < i { assert f[i] == a[i - 2]; }
    }
  }

  /** The formatted field passes the client-side check exactly when the guest typed at least twelve letters or digits. */
  lemma FormatValidIff(typed: string)
    ensures ValidateVoucherCode(Format(typed)) <==> |Normalize(typed)| >= 12
  {
    var a := Normalize(typed);
    var f := Format(typed);
    LayoutIsGrouped(a);
    GroupedAt(a);
    FormatShape(typed);
    Validator.VoucherCodeAccepts(f);
    if |a| >= 12 {
      forall i | 0 <= i < 14 ensures if i == 4 || i == 9 then f[i] == '-' else Validator.IsUpperAlnum(f[i]) {
        if i < 4 { assert f[i] == a[i]; }
        else if 4 < i < 9 { assert f[i] == a[i - 1]; }
        else if 9 < i { assert f[i] == a[i - 2]; }
      }
      assert Validator.CodeShape(f);
    }
  }

  lemma {:induction false} NormalizeAppend(x: string, y: string)
    ensures Normalize(x + y) == Normalize(x) + Normalize(y)
  {
    if x != [] {
      var u := AsciiUpper(x[0]);
      var head := if Validator.IsUpperAlnum(u) then [u] else [];
      assert (x + y)[0] == x[0];
      assert (x + y)[1..] == x[1..] + y;
      NormalizeAppend(x[1..], y);
      calc {
        Normalize(x + y);
        head + Normalize(x[1..] + y);
        head + (Normalize(x[1..]) + Normalize(y));
        (head + Normalize(x[1..])) + Normalize(y);
        Normalize(x) + Normalize(y);
      }
    } else {
      assert x + y == y;
    }
  }

  lemma {:induction false} NormalizeKeeps(a: string)
    requires AllUpperAlnum(a)
    ensures Normalize(a) == a
  {
    if a != [] {
      NormalizeKeeps(a[1..]);
    }
  }

  lemma NormalizeDash()
    ensures Normalize("-") == ""
  {
    assert "-"[1..] == [];
  }

  lemma TwelveSplit(a: string)
    requires |a| >= 12
    ensures a[..4] + a[4..8] + a[8..12] == a[..12]
  {
    var g := a[..4] + a[4..8] + a[8..12];
    assert |g| == 12;
    forall i | 0 <= i < 12 ensures g[i] == a[i] {
      if i < 4 { assert g[i] == a[..4][i]; }
      else if i < 8 { assert g[i] == a[4..8][i - 4]; }
      else { assert g[i] == a[8..12][i - 8]; }
    }
  }

  /** Normalising drops a dash between any two pieces. */
  lemma NormalizeSkipsDash(x: string, y: string)
    ensures Normalize(x + "-" + y) == Normalize(x) + Normalize(y)
  {
    NormalizeDash();
    NormalizeAppend(x + "-", y);
    NormalizeAppend(x, "-");
  }

  /** Normalising two groups joined by a dash gives the groups back, joined. */
  lemma NormalizeDashed(p: string, q: string)
    requires AllUpperAlnum(p) && AllUpperAlnum(q)
    ensures Normalize(p + "-" + q) == p + q
  {
    NormalizeSkipsDash(p, q);
    NormalizeKeeps(p);
    NormalizeKeeps(q);
  }

  /** Normalising three groups joined by dashes gives the groups back, joined. */
  lemma NormalizeTwoDashes(p: string, q: string, r: string)
    requires AllUpperAlnum(p) && AllUpperAlnum(q) && AllUpperAlnum(r)
    ensures Normalize(p + "-" + q + "-" + r) == p + q + r
  {
    NormalizeSkipsDash(p + "-" + q, r);
    NormalizeDashed(p, q);
    NormalizeKeeps(r);
  }

  /** Normalising a formatted field gives back the first twelve normalised characters. */
  lemma NormalizeGrouped(a: string)
    requires AllUpperAlnum(a)
    ensures Normalize(Grouped(a)) == if |a| <= 12 then a else a[..12]
  {
    if |a| <= 4 {
      NormalizeKeeps(a);
    } else if |a| <= 8 {
      NormalizeDashed(a[..4], a[4..]);
      assert a[..4] + a[4..] == a;
    } else if |a| <= 12 {
      NormalizeTwoDashes(a[..4], a[4..8], a[8..]);
      assert a[..4] + a[4..8] + a[8..] == a;
    } else {
      NormalizeTwoDashes(a[..4], a[4..8], a[8..12]);
      TwelveSplit(a);
    }
  }

  /** Reformatting the formatter's own output leaves it unchanged. */
  lemma FormatIdempotent(typed: string)
    ensures Format(Format(typed)) == Format(typed)
  {
    var a := Normalize(typed);
    LayoutIsGrouped(a);
    NormalizeGrouped(a);
    var b := Normalize(Format(typed));
    LayoutIsGrouped(b);
    if |a| > 12 {
      assert a[..12][..4] == a[..4];
      assert a[..12][4..8] == a[4..8];
      assert a[..12][8..] == a[8..12];
    }
  }

  /** The portal and the backend share the voucher pattern: they agree on every string that does not end in a newline. */
  lemma AgreesWithBackend(code: string)
    requires code == [] || code[|code| - 1] != '\n'
    ensures ValidateVoucherCode(code) == Validator.VoucherCode(code)
  {
  }

  /** What the validate endpoint answered, or a failed `fetch`/`response.json()`. */
  datatype ValidateReply =
    | Reply(success: bool, message: Option<string>)
    | FetchFailed

  /** What the form does once submitted. */
  datatype Outcome =
    | ShowError(message: string)   // `showMessage(resultDiv, message, 'error')`
    | RedeemCode(code: string)     // `await redeemVoucher(code)`

  datatype Submission = Submission(validateRequested: bool, outcome: Outcome)

  const BadFormatMessage: string := "Please enter a valid voucher code"
  const InvalidDefaultMessage: string := "Invalid voucher code"
  const FetchErrorMessage: string := "Error validating voucher. Please try again."

  /**
   * The submit handler. A code failing the pattern shows an error without any
   * request; otherwise the code is sent to the validate endpoint and a
   * successful answer leads to redemption, any other answer to its message
   * (`data.message || 'Invalid voucher code'`), a failed request to the retry
   * message.
   */
  function Submit(code: string, reply: ValidateReply): (s: Submission)
    ensures !ValidateVoucherCode(code) ==> s == Submission(false, ShowError(BadFormatMessage))
    ensures ValidateVoucherCode(code) ==> s.validateRequested
    ensures s.outcome.RedeemCode? <==> ValidateVoucherCode(code) && reply.Reply? && reply.success
    ensures s.outcome.RedeemCode? ==> s.outcome.code == code
    ensures ValidateVoucherCode(code) && reply.FetchFailed? ==> s.outcome == ShowError(FetchErrorMessage)
  {
    if !ValidateVoucherCode(code) then Submission(false, ShowError(BadFormatMessage))
    else
      match reply
      case FetchFailed => Submission(true, ShowError(FetchErrorMessage))
      case Reply(success, message) =>
        if success then Submission(true, RedeemCode(code))
        else
          var shown := if message.Some? && message.value != "" then message.value else InvalidDefaultMessage;
          Submission(true, ShowError(shown))
  }

  /** A rejected validation always shows a non-empty message: the server's, or the default when it sent none. */
  lemma RejectionMessage(code: string, message: Option<string>)
    requires ValidateVoucherCode(code)
    ensures var s := Submit(code, Reply(false, message));
      s.outcome.ShowError? && s.outcome.message != ""
      && (s.outcome.message == InvalidDefaultMessage <==> message.None? || message.value == "" || message.value == InvalidDefaultMessage)
  {
  }
}
