/**
 * `validateEmail` and the `validate` rule of `emailValidationRules`. The regular
 * expression `EMAIL_REGEX` is decided by `EmailPattern` without a regex engine and is
 * proved equal to a direct reading of the expression (`MatchesEmailRegex`).
 */
module EmailValidation {
  import opened Wrappers
  import opened Strings

  const MAX_EMAIL_LENGTH: nat := 254

  const TOO_LONG: string := "Email address is too long"
  const INVALID_FORMAT: string := "Please enter a valid email address"
  const CONSECUTIVE_DOTS: string := "Email address cannot contain consecutive dots"
  const DOT_PLACEMENT: string := "Email address cannot start or end with a dot"

  /** `[A-Z]` under the `i` flag. */
  predicate IsLetter(c: char) { 'A' <= c <= 'Z' || 'a' <= c <= 'z' }

  predicate IsDigit(c: char) { '0' <= c <= '9' }

  /** `[A-Z0-9._%+-]` under the `i` flag. */
  predicate IsLocalChar(c: char) {
    IsLetter(c) || IsDigit(c) || c == '.' || c == '_' || c == '%' || c == '+' || c == '-'
  }

  /** `[A-Z0-9.-]` under the `i` flag. */
  predicate IsDomainChar(c: char) { IsLetter(c) || IsDigit(c) || c == '.' || c == '-' }

  predicate AllLocal(s: string) { forall i :: 0 <= i < |s| ==> IsLocalChar(s[i]) }

  predicate AllDomain(s: string) { forall i :: 0 <= i < |s| ==> IsDomainChar(s[i]) }

  predicate AllLetters(s: string) { forall i :: 0 <= i < |s| ==> IsLetter(s[i]) }

  /**
   * The expression `^[A-Z0-9._%+-]+@[A-Z0-9.-]+\.[A-Z]{2,}$` read as a concatenation:
   * a non-empty local part before the '@' at `at`, a non-empty host between it and the
   * '.' at `dot`, and at least two letters after that dot.
   */
  ghost predicate SplitsAt(s: string, at: int, dot: int) {
    0 < at && at + 1 < dot && dot + 3 <= |s|
    && s[at] == '@' && s[dot] == '.'
    && AllLocal(s[..at]) && AllDomain(s[at + 1..dot]) && AllLetters(s[dot + 1..])
  }

  ghost predicate MatchesEmailRegex(s: string) {
    exists at, dot :: SplitsAt(s, at, dot)
  }

  /** The first index of `c` in `s`, if any. */
  function IndexOf(s: string, c: char): (r: Option<nat>)
    ensures r.Some? ==> r.value < |s| && s[r.value] == c && forall j :: 0 <= j < r.value ==> s[j] != c
    ensures r.None? ==> forall j :: 0 <= j < |s| ==> s[j] != c
  {
    if s == [] then None
    else if s[0] == c then Some(0)
    else match IndexOf(s[1..], c)
      case None => None
      case Some(i) => Some(i + 1)
  }

  /** The last index of `c` in `s`, if any. */
  function LastIndexOf(s: string, c: char): (r: Option<nat>)
    ensures r.Some? ==> r.value < |s| && s[r.value] == c && forall j :: r.value < j < |s| ==> s[j] != c
    ensures r.None? ==> forall j :: 0 <= j < |s| ==> s[j] != c
  {
    if s == [] then None
    else if s[|s| - 1] == c then Some(|s| - 1)
    else LastIndexOf(s[..|s| - 1], c)
  }

  /**
   * `EMAIL_REGEX.test(s)`: split at the first '@'; the local part is non-empty over the
   * local characters; the domain is over the domain characters and is split at its LAST
   * dot into a non-empty host and a top-level label of two or more letters.
   */
  predicate EmailPattern(s: string)
    ensures EmailPattern(s) ==> IndexOf(s, '@').Some? && 6 <= |s|
  {
    match IndexOf(s, '@')
    case None => false
    case Some(at) =>
      0 < at && AllLocal(s[..at]) && AllDomain(s[at + 1..])
      && match LastIndexOf(s[at + 1..], '.')
         case None => false
         case Some(d) => 0 < d && at + d + 4 <= |s| && AllLetters(s[at + d + 2..])
  }

  /** The decision procedure accepts exactly the strings the regular expression matches. */
  lemma EmailPatternIsRegex(s: string)
    ensures EmailPattern(s) <==> MatchesEmailRegex(s)
  {
    if EmailPattern(s) {
      PatternGivesSplit(s);
    }
    if MatchesEmailRegex(s) {
      var at, dot :| SplitsAt(s, at, dot);
      SplitGivesPattern(s, at, dot);
    }
  }

  lemma PatternGivesSplit(s: string)
    requires EmailPattern(s)
    ensures MatchesEmailRegex(s)
  {
    var at := IndexOf(s, '@').value;
    var domain := s[at + 1..];
    var d := LastIndexOf(domain, '.').value;
    var dot := at + 1 + d;
    assert s[dot] == domain[d];
    var host := s[at + 1..dot];
    assert AllDomain(host) by {
      forall i | 0 <= i < |host| ensures IsDomainChar(host[i]) {
        assert host[i] == domain[i];
      }
    }
    assert SplitsAt(s, at, dot);
  }

  lemma SplitGivesPattern(s: string, at: int, dot: int)
    requires SplitsAt(s, at, dot)
    ensures EmailPattern(s)
  {
    FirstAt(s, at);
    var domain := s[at + 1..];
    var d := dot - at - 1;
    assert domain[d + 1..] == s[dot + 1..];
    LastDot(domain, d);
    assert domain[..d] == s[at + 1..dot];
    DomainJoin(domain, d);
    assert s[at + d + 2..] == s[dot + 1..];
  }

  /** An '@' preceded only by local characters is the first '@'. */
  lemma FirstAt(s: string, at: int)
    requires 0 <= at < |s| && s[at] == '@' && AllLocal(s[..at])
    ensures IndexOf(s, '@') == Some(at)
  {
    forall j | 0 <= j < at ensures s[j] != '@' {
      assert s[..at][j] == s[j];
    }
  }

  /** A '.' followed only by letters is the last '.'. */
  lemma LastDot(domain: string, d: int)
    requires 0 <= d < |domain| && domain[d] == '.' && AllLetters(domain[d + 1..])
    ensures LastIndexOf(domain, '.') == Some(d)
  {
    forall j | d < j < |domain| ensures domain[j] != '.' {
      assert domain[j] == domain[d + 1..][j - d - 1];
    }
  }

  /** Domain characters, a dot, then letters: all domain characters. */
  lemma DomainJoin(domain: string, d: int)
    requires 0 <= d < |domain| && domain[d] == '.'
    requires AllDomain(domain[..d]) && AllLetters(domain[d + 1..])
    ensures AllDomain(domain)
  {
    forall i | 0 <= i < |domain| ensures IsDomainChar(domain[i]) {
      if i < d {
        assert domain[i] == domain[..d][i];
      } else if i > d {
        assert domain[i] == domain[d + 1..][i - d - 1];
      }
    }
  }

  /** A pattern-passing address has exactly one '@'. */
  lemma PatternHasOneAt(s: string)
    requires EmailPattern(s)
    ensures IndexOf(s, '@').Some?
    ensures forall j :: 0 <= j < |s| && s[j] == '@' ==> j == IndexOf(s, '@').value
  {
  }

  /** A pattern-passing address ends with a letter, so it never ends with a dot. */
  lemma PatternEndsWithLetter(s: string)
    requires EmailPattern(s)
    ensures |s| > 0 && IsLetter(s[|s| - 1])
    ensures !EndsWith(s, ".")
  {
    var at := IndexOf(s, '@').value;
    var d := LastIndexOf(s[at + 1..], '.').value;
    assert s[at + d + 2..][|s| - (at + d + 2) - 1] == s[|s| - 1];
    assert s[|s| - 1..] == [s[|s| - 1]];
  }

  /** The `{ valid, message? }` record `validateEmail` returns. */
  datatype EmailCheck = EmailCheck(valid: bool, message: Option<string>)

  /**
   * `validateEmail`: the empty address is valid (the field is optional); the other checks
   * run in order, length first, and the first failing one gives the message.
   */
  function ValidateEmail(email: string): (r: EmailCheck)
    ensures r.valid <==> r.message == None
    ensures r.valid <==> (email == [] ||
      (Utf16Length(email) <= MAX_EMAIL_LENGTH && EmailPattern(email)
       && !Includes(email, "..") && !StartsWith(email, ".")))
  {
    if email == [] then
      EmailCheck(true, None)
    else if Utf16Length(email) > MAX_EMAIL_LENGTH then
      EmailCheck(false, Some(TOO_LONG))
    else if !EmailPattern(email) then
      EmailCheck(false, Some(INVALID_FORMAT))
    else if Includes(email, "..") then
      EmailCheck(false, Some(CONSECUTIVE_DOTS))
    else if StartsWith(email, ".") || EndsWith(email, ".") then
      EmailCheck(false, Some(DOT_PLACEMENT))
    else
      PatternEndsWithLetter(email);
      EmailCheck(true, None)
  }

  /** Length is checked first: an over-long address reports "too long" whatever else is wrong. */
  lemma TooLongWins(email: string)
    requires Utf16Length(email) > MAX_EMAIL_LENGTH
    ensures ValidateEmail(email) == EmailCheck(false, Some(TOO_LONG))
  {
  }

  /**
   * The message of a non-empty address that fits the length bound, by the first defect:
   * the pattern, then consecutive dots, then a leading dot. A trailing dot never gets
   * here, because the pattern already demands a final letter.
   */
  lemma FailureMessages(email: string)
    requires email != [] && Utf16Length(email) <= MAX_EMAIL_LENGTH
    ensures !EmailPattern(email) ==> ValidateEmail(email) == EmailCheck(false, Some(INVALID_FORMAT))
    ensures EmailPattern(email) && Includes(email, "..") ==>
      ValidateEmail(email) == EmailCheck(false, Some(CONSECUTIVE_DOTS))
    ensures EmailPattern(email) && !Includes(email, "..") && StartsWith(email, ".") ==>
      ValidateEmail(email) == EmailCheck(false, Some(DOT_PLACEMENT))
    ensures EmailPattern(email) && !Includes(email, "..") && !StartsWith(email, ".") ==>
      ValidateEmail(email) == EmailCheck(true, None)
  {
    if EmailPattern(email) {
      PatternEndsWithLetter(email);
    }
  }

  /** The empty address is valid: the field is optional. */
  lemma EmptyEmailIsValid()
    ensures ValidateEmail("") == EmailCheck(true, None)
  {
  }

  /** `a..b@x.com` matches the pattern but has consecutive dots. */
  lemma ConsecutiveDotsExample()
    ensures ValidateEmail("a..b@x.com") == EmailCheck(false, Some(CONSECUTIVE_DOTS))
  {
    DottedAddressParts("a..b@x.com");
    FailureMessages("a..b@x.com");
  }

  lemma DottedAddressParts(bad: string)
    requires bad == "a..b@x.com"
    ensures bad != [] && Utf16Length(bad) <= MAX_EMAIL_LENGTH
    ensures EmailPattern(bad) && Includes(bad, "..")
  {
    ExampleSplit(bad, 4, 6);
    assert OccursAt(bad, "..", 1);
    assert Utf16Length(bad) <= 2 * |bad|;
  }

  /** `good@example.com` passes every check. */
  lemma GoodAddressExample()
    ensures ValidateEmail("good@example.com") == EmailCheck(true, None)
  {
    GoodAddressParts("good@example.com");
    FailureMessages("good@example.com");
  }

  lemma GoodAddressParts(good: string)
    requires good == "good@example.com"
    ensures good != [] && Utf16Length(good) <= MAX_EMAIL_LENGTH
    ensures EmailPattern(good) && !Includes(good, "..") && !StartsWith(good, ".")
  {
    ExampleSplit(good, 4, 12);
    NoConsecutiveDots(good);
    assert good[0] == 'g' && !StartsWith(good, ".") by { assert good[..1][0] == good[0]; }
    assert Utf16Length(good) <= 2 * 16;
  }

  lemma ExampleSplit(s: string, at: nat, dot: nat)
    requires (s == "a..b@x.com" && at == 4 && dot == 6) || (s == "good@example.com" && at == 4 && dot == 12)
    ensures EmailPattern(s)
  {
    assert SplitsAt(s, at, dot);
    SplitGivesPattern(s, at, dot);
  }

  lemma NoConsecutiveDots(good: string)
    requires good == "good@example.com"
    ensures !Includes(good, "..")
  {
    forall i | 0 <= i <= 14 ensures !OccursAt(good, "..", i) {
      assert good[i] != '.' || good[i + 1] != '.';
      assert good[i..i + 2][0] == good[i] && good[i..i + 2][1] == good[i + 1];
    }
  }

  /** What the `validate` rule returns: `true`, or the failure message. */
  datatype RuleVerdict = Accept | Reject(message: string)

  /** `emailValidationRules.validate`: an absent or empty value passes; otherwise `validateEmail` decides. */
  function ValidateRule(value: Option<string>): (r: RuleVerdict)
    ensures r.Accept? <==> value.None? || ValidateEmail(value.value).valid
    ensures r.Reject? ==> value.Some? && ValidateEmail(value.value).message == Some(r.message)
  {
    if value.None? || value.value == [] then
      Accept
    else
      var check := ValidateEmail(value.value);
      if check.valid then Accept else Reject(check.message.value)
  }
}
