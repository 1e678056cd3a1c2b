/**
 * Validation and sanitisation of what the profile editor accepts
 * (src/frontend/src/features/profile/validation.ts): link URLs, the phone
 * number, the email address and the `mailto:` link built from it.
 *
 * The WHATWG URL parser behind `new URL(...)` is a parameter: a function
 * from the trimmed text to its `protocol`, or `None` where the constructor
 * throws.
 */
module Validation {
  import opened ProfileTypes
  import opened Strings
  import opened UriEncoding

  const URL_REQUIRED: string := "URL is required"
  const UNSAFE_SCHEME: string := "Unsafe URL scheme detected"
  const HTTP_ONLY: string := "Only HTTP and HTTPS URLs are allowed"
  const INVALID_URL: string := "Invalid URL format"
  const INVALID_EMAIL: string := "Please enter a valid email address"

  /** The schemes refused before any parsing, compared with the lower-cased
      trimmed URL. */
  const UNSAFE_SCHEMES: seq<string> := ["javascript:", "data:", "vbscript:", "file:"]

  /** `new URL(s).protocol`; `None` where the constructor throws. */
  type UrlParser = string -> Option<string>

  predicate HasUnsafeScheme(lowerUrl: string) {
    exists k :: 0 <= k < |UNSAFE_SCHEMES| && StartsWith(lowerUrl, UNSAFE_SCHEMES[k])
  }

  predicate IsWebProtocol(protocol: string) {
    protocol == "http:" || protocol == "https:"
  }

  // ---------------------------------------------------------------------
  // validateUrl and isValidOutboundUrl
  // ---------------------------------------------------------------------

  /** What `validateUrl` returns: `None` stands for `null`, an accepted URL. */
  function UrlVerdict(url: string, parseUrl: UrlParser): Option<string> {
    if IsBlank(url) then Some(URL_REQUIRED)
    else
      var trimmedUrl := Trim(url);
      if HasUnsafeScheme(ToLower(trimmedUrl)) then Some(UNSAFE_SCHEME)
      else
        match parseUrl(trimmedUrl)
        case None => Some(INVALID_URL)
        case Some(protocol) => if IsWebProtocol(protocol) then None else Some(HTTP_ONLY)
  }

  /** `validateUrl`, scanning the unsafe schemes in order. */
  method ValidateUrl(url: string, parseUrl: UrlParser) returns (error: Option<string>)
    ensures error == UrlVerdict(url, parseUrl)
  {
    if IsBlank(url) {
      return Some(URL_REQUIRED);
    }
    var trimmedUrl := Trim(url);
    var lowerUrl := ToLower(trimmedUrl);
    for k := 0 to |UNSAFE_SCHEMES|
      invariant forall j :: 0 <= j < k ==> !StartsWith(lowerUrl, UNSAFE_SCHEMES[j])
    {
      if StartsWith(lowerUrl, UNSAFE_SCHEMES[k]) {
        UnsafeSchemeFound(url, parseUrl, k);
        return Some(UNSAFE_SCHEME);
      }
    }
    UrlVerdictAfterParsing(url, parseUrl);
    var parsed := parseUrl(trimmedUrl);
    if parsed == None {
      return Some(INVALID_URL);
    }
    if parsed.value != "http:" && parsed.value != "https:" {
      return Some(HTTP_ONLY);
    }
    return None;
  }

  /** `isValidOutboundUrl`: true exactly when `validateUrl` accepts the same
      URL with the same parser. */
  method IsValidOutboundUrl(url: string, parseUrl: UrlParser) returns (valid: bool)
    ensures valid <==> UrlVerdict(url, parseUrl) == None
  {
    if IsBlank(url) {
      return false;
    }
    var trimmedUrl := Trim(url);
    var lowerUrl := ToLower(trimmedUrl);
    for k := 0 to |UNSAFE_SCHEMES|
      invariant forall j :: 0 <= j < k ==> !StartsWith(lowerUrl, UNSAFE_SCHEMES[j])
    {
      if StartsWith(lowerUrl, UNSAFE_SCHEMES[k]) {
        UnsafeSchemeFound(url, parseUrl, k);
        return false;
      }
    }
    UrlVerdictAfterParsing(url, parseUrl);
    var parsed := parseUrl(trimmedUrl);
    if parsed == None {
      return false;
    }
    return parsed.value == "http:" || parsed.value == "https:";
  }

  /** A match found by the scan decides the verdict. */
  lemma UnsafeSchemeFound(url: string, parseUrl: UrlParser, k: int)
    requires !IsBlank(url) && 0 <= k < |UNSAFE_SCHEMES| && StartsWith(ToLower(Trim(url)), UNSAFE_SCHEMES[k])
    ensures UrlVerdict(url, parseUrl) == Some(UNSAFE_SCHEME)
  {
  }

  lemma UrlMessagesDistinct()
    ensures URL_REQUIRED != UNSAFE_SCHEME && URL_REQUIRED != HTTP_ONLY && URL_REQUIRED != INVALID_URL
    ensures UNSAFE_SCHEME != HTTP_ONLY && UNSAFE_SCHEME != INVALID_URL && HTTP_ONLY != INVALID_URL
  {
    assert |URL_REQUIRED| == 15 && |UNSAFE_SCHEME| == 26 && |HTTP_ONLY| == 36 && |INVALID_URL| == 18;
  }

  /** "URL is required" is returned exactly for empty or whitespace-only input. */
  lemma UrlRequiredIffBlank(url: string, parseUrl: UrlParser)
    ensures UrlVerdict(url, parseUrl) == Some(URL_REQUIRED) <==> IsBlank(url)
  {
    UrlMessagesDistinct();
  }

  /** The unsafe-scheme verdict depends only on the text: it is returned
      exactly when the trimmed, lower-cased URL starts with one of the four
      schemes, whatever the parser would say. */
  lemma UnsafeSchemeDecidedBeforeParsing(url: string, parseUrl: UrlParser)
    ensures UrlVerdict(url, parseUrl) == Some(UNSAFE_SCHEME) <==>
            && !IsBlank(url)
            && exists k :: 0 <= k < |UNSAFE_SCHEMES| &&
                 |UNSAFE_SCHEMES[k]| <= |Trim(url)| && ToLower(Trim(url))[..|UNSAFE_SCHEMES[k]|] == UNSAFE_SCHEMES[k]
  {
    UrlMessagesDistinct();
    var lowerUrl := ToLower(Trim(url));
    forall k | 0 <= k < |UNSAFE_SCHEMES|
      ensures StartsWith(lowerUrl, UNSAFE_SCHEMES[k]) <==>
              |UNSAFE_SCHEMES[k]| <= |Trim(url)| && lowerUrl[..|UNSAFE_SCHEMES[k]|] == UNSAFE_SCHEMES[k]
    {
      StartsWithIff(lowerUrl, UNSAFE_SCHEMES[k]);
    }
  }

  /** Past the blank and unsafe-scheme checks, a parse failure gives
      "Invalid URL format", a protocol other than `http:` and `https:` gives
      "Only HTTP and HTTPS URLs are allowed", and the rest is accepted. */
  lemma UrlVerdictAfterParsing(url: string, parseUrl: UrlParser)
    requires !IsBlank(url) && !HasUnsafeScheme(ToLower(Trim(url)))
    ensures parseUrl(Trim(url)) == None ==> UrlVerdict(url, parseUrl) == Some(INVALID_URL)
    ensures parseUrl(Trim(url)) != None && !IsWebProtocol(parseUrl(Trim(url)).value) ==>
              UrlVerdict(url, parseUrl) == Some(HTTP_ONLY)
    ensures parseUrl(Trim(url)) != None && IsWebProtocol(parseUrl(Trim(url)).value) ==>
              UrlVerdict(url, parseUrl) == None
  {
  }

  /** Whatever the parser, input made of leading whitespace and then text whose
      first characters spell an unsafe scheme in any letter case is refused
      as unsafe. */
  lemma UnsafePrefixRefused(w: string, rest: string, k: int, parseUrl: UrlParser)
    requires AllWhitespace(w)
    requires 0 <= k < |UNSAFE_SCHEMES|
    requires |UNSAFE_SCHEMES[k]| <= |rest| && ToLower(rest[..|UNSAFE_SCHEMES[k]|]) == UNSAFE_SCHEMES[k]
    ensures UrlVerdict(w + rest, parseUrl) == Some(UNSAFE_SCHEME)
  {
    var scheme := UNSAFE_SCHEMES[k];
    var n := |scheme|;
    SchemeEndsNotWhitespace(rest, k);
    TrimAfterWhitespaceKeepsPrefix(w, rest, n);
    var t := Trim(w + rest);
    assert ToLower(t)[..n] == ToLower(t[..n]);
    StartsWithIff(ToLower(t), scheme);
    UnsafeSchemeFound(w + rest, parseUrl, k);
  }

  /** Text that spells an unsafe scheme neither starts nor ends with whitespace. */
  lemma SchemeEndsNotWhitespace(rest: string, k: int)
    requires 0 <= k < |UNSAFE_SCHEMES|
    requires |UNSAFE_SCHEMES[k]| <= |rest| && ToLower(rest[..|UNSAFE_SCHEMES[k]|]) == UNSAFE_SCHEMES[k]
    ensures !IsJsWhitespace(rest[0]) && !IsJsWhitespace(rest[|UNSAFE_SCHEMES[k]| - 1])
  {
    var scheme := UNSAFE_SCHEMES[k];
    var n := |scheme|;
    assert scheme[0] != ':' && scheme[n - 1] == ':';
    assert LowerChar(rest[0]) == scheme[0] && LowerChar(rest[n - 1]) == ':';
  }

  // ---------------------------------------------------------------------
  // sanitizePhoneNumber
  // ---------------------------------------------------------------------

  /** The characters the first replacement keeps: `\d` and `+`. */
  predicate IsDialable(c: char) {
    IsDigit(c) || c == '+'
  }

  /** What `.` in a regular expression does not match. */
  predicate IsLineTerminator(c: char) {
    c == '\n' || c == '\r' || c == '\U{2028}' || c == '\U{2029}'
  }

  /** The first replacement, `[^\d+]` by nothing: the digits and pluses, in order. */
  function KeepDialable(s: string): (r: string)
    ensures forall k :: 0 <= k < |r| ==> IsDialable(r[k])
    ensures r == [] <==> forall k :: 0 <= k < |s| ==> !IsDialable(s[k])
  {
    if s == [] then []
    else
      var rest := KeepDialable(s[1..]);
      assert forall k :: 1 <= k < |s| ==> s[k] == s[1..][k - 1];
      (if IsDialable(s[0]) then [s[0]] else []) + rest
  }

  /** The second replacement, `\+(?=.)` by nothing: every `+` followed by a
      character that is not a line terminator goes. */
  function DropPlusBeforeAny(s: string): string {
    if s == [] then []
    else (if s[0] == '+' && |s| > 1 && !IsLineTerminator(s[1]) then [] else [s[0]]) + DropPlusBeforeAny(s[1..])
  }

  /** `sanitizePhoneNumber`, as written. */
  function SanitizePhoneNumber(phone: string): string {
    DropPlusBeforeAny(KeepDialable(phone))
  }

  /** The digits of `s`, in order. */
  function Digits(s: string): (r: string)
    ensures forall k :: 0 <= k < |r| ==> IsDigit(r[k])
  {
    if s == [] then [] else (if IsDigit(s[0]) then [s[0]] else []) + Digits(s[1..])
  }

  /** The last digit-or-plus character of `s` is a `+`. */
  predicate PlusIsLastDialable(s: string) {
    exists k :: 0 <= k < |s| && s[k] == '+' && forall j :: k < j < |s| ==> !IsDialable(s[j])
  }

  lemma {:induction false} DigitsOfDialable(s: string)
    ensures Digits(KeepDialable(s)) == Digits(s)
  {
    if s != [] {
      DigitsOfDialable(s[1..]);
      var rest := KeepDialable(s[1..]);
      if IsDialable(s[0]) {
        assert ([s[0]] + rest)[1..] == rest;
      } else {
        assert KeepDialable(s) == rest;
      }
    }
  }

  lemma {:induction false} PlusIsLastDialableIff(s: string)
    ensures PlusIsLastDialable(s) <==> KeepDialable(s) != [] && KeepDialable(s)[|KeepDialable(s)| - 1] == '+'
  {
    if s != [] {
      PlusIsLastDialableIff(s[1..]);
      var rest := KeepDialable(s[1..]);
      if rest != [] {
        if PlusIsLastDialable(s) {
          var k :| 0 <= k < |s| && s[k] == '+' && forall j :: k < j < |s| ==> !IsDialable(s[j]);
          var j0 :| 0 <= j0 < |s[1..]| && IsDialable(s[1..][j0]);
          assert k > 0;
          assert PlusIsLastDialable(s[1..]) by {
            assert s[1..][k - 1] == '+';
            forall j | k - 1 < j < |s[1..]| ensures !IsDialable(s[1..][j]) {
              assert s[1..][j] == s[j + 1];
            }
          }
        }
        if PlusIsLastDialable(s[1..]) {
          var k :| 0 <= k < |s[1..]| && s[1..][k] == '+' && forall j :: k < j < |s[1..]| ==> !IsDialable(s[1..][j]);
          assert s[k + 1] == '+';
          forall j | k + 1 < j < |s| ensures !IsDialable(s[j]) {
            assert s[j] == s[1..][j - 1];
          }
        }
      } else {
        assert forall j :: 0 < j < |s| ==> !IsDialable(s[j]) by {
          forall j | 0 < j < |s| ensures !IsDialable(s[j]) {
            assert s[j] == s[1..][j - 1];
          }
        }
        if s[0] == '+' {
          assert PlusIsLastDialable(s) by { assert s[0] == '+'; }
        }
        if PlusIsLastDialable(s) {
          var k :| 0 <= k < |s| && s[k] == '+' && forall j :: k < j < |s| ==> !IsDialable(s[j]);
          assert k == 0;
        }
      }
    }
  }

  /** On digits and pluses, the second replacement leaves the digits and at
      most one `+`, at the end, present exactly when the input ends with one. */
  lemma {:induction false} DropPlusOnDialable(d: string)
    requires forall k :: 0 <= k < |d| ==> IsDialable(d[k])
    ensures DropPlusBeforeAny(d) == Digits(d) + (if d != [] && d[|d| - 1] == '+' then "+" else "")
  {
    if d != [] {
      DropPlusOnDialable(d[1..]);
      if |d| == 1 {
        assert d[1..] == [];
      } else {
        assert d[1..][|d[1..]| - 1] == d[|d| - 1];
      }
    }
  }

  /** The output of `sanitizePhoneNumber` is the digits of the input, in
      order, followed by one `+` exactly when the last digit-or-plus
      character of the input is a `+`. A leading `+` is therefore dropped. */
  lemma SanitizePhoneNumberSpec(phone: string)
    ensures SanitizePhoneNumber(phone) == Digits(phone) + (if PlusIsLastDialable(phone) then "+" else "")
  {
    DropPlusOnDialable(KeepDialable(phone));
    DigitsOfDialable(phone);
    PlusIsLastDialableIff(phone);
  }

  /** The number with a leading `+` kept: the second replacement removes
      every `+` except one that stands first. */
  function SanitizePhoneKeepingLeadingPlus(phone: string): string {
    var d := KeepDialable(phone);
    if d == [] then [] else [d[0]] + Digits(d[1..])
  }

  /** The corrected sanitiser keeps the digits in order, keeps a `+` exactly
      when the first digit-or-plus character is one, and is idempotent. */
  lemma SanitizePhoneKeepingLeadingPlusSpec(phone: string)
    ensures var d := KeepDialable(phone);
            SanitizePhoneKeepingLeadingPlus(phone) ==
            (if d != [] && d[0] == '+' then "+" else "") + Digits(phone)
  {
    var d := KeepDialable(phone);
    DigitsOfDialable(phone);
    if d != [] {
      FirstThenDigits(d);
    }
  }

  /** The first character of digits and pluses, then the digits of the rest. */
  lemma FirstThenDigits(d: string)
    requires d != [] && forall k :: 0 <= k < |d| ==> IsDialable(d[k])
    ensures [d[0]] + Digits(d[1..]) == (if d[0] == '+' then "+" else "") + Digits(d)
  {
    var c, tail := d[0], d[1..];
    if c == '+' {
      assert Digits(d) == Digits(tail);
      assert [c] == "+";
    } else {
      assert IsDigit(c);
      assert Digits(d) == [c] + Digits(tail);
      assert "" + Digits(d) == Digits(d);
    }
  }

  /** Sanitising a sanitised number changes nothing. */
  lemma SanitizePhoneKeepingLeadingPlusIdempotent(phone: string)
    ensures SanitizePhoneKeepingLeadingPlus(SanitizePhoneKeepingLeadingPlus(phone)) ==
            SanitizePhoneKeepingLeadingPlus(phone)
  {
    var d := KeepDialable(phone);
    var r := SanitizePhoneKeepingLeadingPlus(phone);
    if d != [] {
      assert forall k :: 0 <= k < |r| ==> IsDialable(r[k]);
      KeepDialableOfDialable(r);
      assert r[1..] == Digits(d[1..]);
      DigitsOfDigits(Digits(d[1..]));
    }
  }

  lemma {:induction false} DigitsAppend(a: string, b: string)
    ensures Digits(a + b) == Digits(a) + Digits(b)
  {
    if a != [] {
      DigitsAppend(a[1..], b);
      assert (a + b)[1..] == a[1..] + b;
    } else {
      assert a + b == b;
    }
  }

  lemma {:induction false} KeepDialableOfDialable(s: string)
    requires forall k :: 0 <= k < |s| ==> IsDialable(s[k])
    ensures KeepDialable(s) == s
  {
    if s != [] {
      KeepDialableOfDialable(s[1..]);
    }
  }

  lemma {:induction false} DigitsOfDigits(s: string)
    requires forall k :: 0 <= k < |s| ==> IsDigit(s[k])
    ensures Digits(s) == s
  {
    if s != [] {
      DigitsOfDigits(s[1..]);
    }
  }

  /** Digits after a leading `+`, as in "+919687626609": the source drops the
      `+`, the corrected sanitiser keeps it. */
  lemma LeadingPlusDropped(digits: string)
    requires digits != [] && forall k :: 0 <= k < |digits| ==> IsDigit(digits[k])
    ensures SanitizePhoneNumber("+" + digits) == digits
    ensures SanitizePhoneKeepingLeadingPlus("+" + digits) == "+" + digits
  {
    var s := "+" + digits;
    assert forall k :: 0 <= k < |s| ==> IsDialable(s[k]);
    KeepDialableOfDialable(s);
    DigitsOfDigits(digits);
    SanitizePhoneNumberSpec(s);
    var last := |s| - 1;
    assert IsDialable(s[last]) && s[last] != '+';
    assert !PlusIsLastDialable(s);
    assert s[1..] == digits;
    DigitsAppend("+", digits);
  }

  /** The default phone number is all digits, so sanitising leaves it as it is. */
  lemma DefaultPhoneUnchanged()
    ensures SanitizePhoneNumber(DEFAULT_PROFILE.phone) == DEFAULT_PROFILE.phone
    ensures SanitizePhoneKeepingLeadingPlus(DEFAULT_PROFILE.phone) == DEFAULT_PROFILE.phone
  {
    var phone := DEFAULT_PROFILE.phone;
    assert phone == "9687626609";
    assert forall k :: 0 <= k < |phone| ==> IsDigit(phone[k]);
    AllDigitsUnchanged(phone);
  }

  /** Both sanitisers leave a number made of digits only as it is. */
  lemma AllDigitsUnchanged(phone: string)
    requires forall k :: 0 <= k < |phone| ==> IsDigit(phone[k])
    ensures SanitizePhoneNumber(phone) == phone
    ensures SanitizePhoneKeepingLeadingPlus(phone) == phone
  {
    KeepDialableOfDialable(phone);
    DropPlusOnDialable(phone);
    DigitsOfDigits(phone);
    if phone != [] {
      DigitsOfDigits(phone[1..]);
    }
  }

  // ---------------------------------------------------------------------
  // validateEmail
  // ---------------------------------------------------------------------

  /** The class `[^\s@]`. */
  predicate IsEmailChar(c: char) {
    !IsJsWhitespace(c) && c != '@'
  }

  /** `^[^\s@]+@[^\s@]+\.[^\s@]+$` matches `t` with its `@` at `at` and its
      `\.` at `dot`. */
  predicate EmailMatchAt(t: string, at: int, dot: int) {
    && 0 < at && at + 1 < dot && dot + 1 < |t|
    && t[at] == '@' && t[dot] == '.'
    && (forall k :: 0 <= k < at ==> IsEmailChar(t[k]))
    && (forall k :: at < k < dot ==> IsEmailChar(t[k]))
    && (forall k :: dot < k < |t| ==> IsEmailChar(t[k]))
  }

  predicate MatchesEmailPattern(t: string) {
    exists dot, at | 0 <= dot < |t| && 0 <= at < dot :: EmailMatchAt(t, at, dot)
  }

  /** What the pattern demands, said plainly: no whitespace, exactly one `@`,
      not first, and after it a `.` that neither follows the `@` directly nor
      ends the string. */
  predicate HasEmailShape(t: string) {
    && (forall k :: 0 <= k < |t| ==> !IsJsWhitespace(t[k]))
    && exists at ::
         && 0 < at < |t| && t[at] == '@'
         && (forall k :: 0 <= k < |t| && k != at ==> t[k] != '@')
         && exists dot :: at + 1 < dot < |t| - 1 && t[dot] == '.'
  }

  lemma EmailPatternIff(t: string)
    ensures MatchesEmailPattern(t) <==> HasEmailShape(t)
  {
    if MatchesEmailPattern(t) {
      var dot, at :| 0 <= dot < |t| && 0 <= at < dot && EmailMatchAt(t, at, dot);
      assert forall k :: 0 <= k < |t| && k != at ==> IsEmailChar(t[k]) || k == dot;
    }
    if HasEmailShape(t) {
      var at :| && 0 < at < |t| && t[at] == '@'
                && (forall k :: 0 <= k < |t| && k != at ==> t[k] != '@')
                && exists dot :: at + 1 < dot < |t| - 1 && t[dot] == '.';
      var dot :| at + 1 < dot < |t| - 1 && t[dot] == '.';
      assert EmailMatchAt(t, at, dot);
    }
  }

  /** `validateEmail`: `None` stands for `null`. */
  function ValidateEmail(email: string): Option<string> {
    if IsBlank(email) then None
    else if MatchesEmailPattern(Trim(email)) then None
    else Some(INVALID_EMAIL)
  }

  /** The address is optional: blank input is accepted. Otherwise it is
      accepted exactly when the trimmed text has the shape of an address,
      and the only message is the invalid-address one. */
  lemma ValidateEmailSpec(email: string)
    ensures IsBlank(email) ==> ValidateEmail(email) == None
    ensures !IsBlank(email) ==> (ValidateEmail(email) == None <==> HasEmailShape(Trim(email)))
    ensures ValidateEmail(email) == None || ValidateEmail(email) == Some(INVALID_EMAIL)
  {
    EmailPatternIff(Trim(email));
  }

  lemma EmailOfParts(local: string, domain: string, tld: string)
    requires local != [] && domain != [] && tld != []
    requires forall k :: 0 <= k < |local| ==> IsEmailChar(local[k])
    requires forall k :: 0 <= k < |domain| ==> IsEmailChar(domain[k])
    requires forall k :: 0 <= k < |tld| ==> IsEmailChar(tld[k])
    ensures MatchesEmailPattern(local + "@" + domain + "." + tld)
  {
    var t := local + "@" + domain + "." + tld;
    var at, dot := |local|, |local| + 1 + |domain|;
    assert forall k :: 0 <= k < at ==> t[k] == local[k];
    assert forall k :: at < k < dot ==> t[k] == domain[k - at - 1];
    assert forall k :: dot < k < |t| ==> t[k] == tld[k - dot - 1];
    assert EmailMatchAt(t, at, dot);
  }

  /** The default address passes `validateEmail`. */
  lemma DefaultEmailValid()
    ensures ValidateEmail(DEFAULT_PROFILE.email.value) == None
  {
    var local, domain, tld := "ae560919", "gmail", "com";
    var email := local + "@" + domain + "." + tld;
    assert DEFAULT_PROFILE.email.value == email;
    assert forall k :: 0 <= k < |local| ==> IsEmailChar(local[k]);
    assert forall k :: 0 <= k < |domain| ==> IsEmailChar(domain[k]);
    assert forall k :: 0 <= k < |tld| ==> IsEmailChar(tld[k]);
    EmailOfParts(local, domain, tld);
    TrimOfNonWhiteEnds(email);
  }

  // ---------------------------------------------------------------------
  // createSafeMailtoLink
  // ---------------------------------------------------------------------

  /** `createSafeMailtoLink`: "mailto:" and then the encoded trimmed address.
      Past the prefix there is no `?`, `&`, `#` or whitespace, so the address
      cannot add header fields or a fragment, and decoding the rest gives back
      exactly the trimmed address. */
  function CreateSafeMailtoLink(email: string): (link: string)
    ensures |link| >= 7 && link[..7] == "mailto:"
    ensures forall k :: 7 <= k < |link| ==>
              link[k] != '?' && link[k] != '&' && link[k] != '#' && !IsJsWhitespace(link[k])
    ensures DecodeUriComponent(link[7..]) == Some(Trim(email))
  {
    var encodedEmail := EncodeUriComponent(Trim(email));
    DecodeEncode(Trim(email));
    MailtoParts("mailto:", encodedEmail);
    "mailto:" + encodedEmail
  }

  lemma MailtoParts(scheme: string, encoded: string)
    requires scheme == "mailto:"
    requires forall k :: 0 <= k < |encoded| ==> IsEncodedChar(encoded[k])
    ensures var link := scheme + encoded;
            && |link| >= 7 && link[..7] == "mailto:" && link[7..] == encoded
            && forall k :: 7 <= k < |link| ==>
                 link[k] != '?' && link[k] != '&' && link[k] != '#' && !IsJsWhitespace(link[k])
  {
    var link := scheme + encoded;
    assert link[..7] == scheme;
    assert forall k :: 7 <= k < |link| ==> link[k] == encoded[k - 7];
  }
}
