/**
 * The email-format check of signup, the regular expression
 *   ^[a-zA-Z0-9._%+-]+@[a-zA-Z0-9.-]+\.[A-Za-z]{2,}$
 * stated twice: as the language the regular expression denotes
 * (`MatchesEmailRegex`, a reference definition by splitting points) and as
 * a direct check (`IsValidEmail`) that looks at the first `@` and the last
 * `.`; the contract of `IsValidEmail` says the two agree on every string.
 */
module EmailFormat {
  import opened Wrappers

  predicate IsAsciiLetter(c: char) {
    'a' <= c <= 'z' || 'A' <= c <= 'Z'
  }

  predicate IsAsciiDigit(c: char) {
    '0' <= c <= '9'
  }

  /** The class `[a-zA-Z0-9._%+-]`. */
  predicate IsLocalChar(c: char) {
    IsAsciiLetter(c) || IsAsciiDigit(c) || c == '.' || c == '_' || c == '%' || c == '+' || c == '-'
  }

  /** The class `[a-zA-Z0-9.-]`. */
  predicate IsDomainChar(c: char) {
    IsAsciiLetter(c) || IsAsciiDigit(c) || c == '.' || c == '-'
  }

  predicate AllLocal(s: string) {
    forall i :: 0 <= i < |s| ==> IsLocalChar(s[i])
  }

  predicate AllDomain(s: string) {
    forall i :: 0 <= i < |s| ==> IsDomainChar(s[i])
  }

  predicate AllLetters(s: string) {
    forall i :: 0 <= i < |s| ==> IsAsciiLetter(s[i])
  }

  /**
   * `s` splits as local + "@" + domain + "." + tld, with the `@` at `at`
   * and the final `.` at `dot`: a non-empty local part, a non-empty domain
   * and a top-level part of at least two letters.
   */
  ghost predicate SplitsAt(s: string, at: nat, dot: nat) {
    && 0 < at && at + 1 < dot && dot + 2 < |s|
    && AllLocal(s[..at]) && s[at] == '@'
    && AllDomain(s[at + 1..dot]) && s[dot] == '.'
    && AllLetters(s[dot + 1..])
  }

  /** The strings the regular expression accepts (anchored at both ends). */
  ghost predicate MatchesEmailRegex(s: string) {
    exists at: nat, dot: nat :: SplitsAt(s, at, dot)
  }

  /** Position of the first occurrence of `c`. */
  function FirstIndex(s: string, c: char): (r: Option<nat>)
    ensures r.Some? ==> r.value < |s| && s[r.value] == c
    ensures r.Some? ==> forall k :: 0 <= k < r.value ==> s[k] != c
    ensures r.None? ==> forall k :: 0 <= k < |s| ==> s[k] != c
  {
    if s == [] then None
    else if s[0] == c then Some(0)
    else match FirstIndex(s[1..], c)
      case None => None
      case Some(i) => Some(i + 1)
  }

  /** Position of the last occurrence of `c`. */
  function LastIndex(s: string, c: char): (r: Option<nat>)
    ensures r.Some? ==> r.value < |s| && s[r.value] == c
    ensures r.Some? ==> forall k :: r.value < k < |s| ==> s[k] != c
    ensures r.None? ==> forall k :: 0 <= k < |s| ==> s[k] != c
  {
    if s == [] then None
    else if s[|s| - 1] == c then Some(|s| - 1)
    else LastIndex(s[..|s| - 1], c)
  }

  /**
   * `emailRegex.test(email)`, decided by the first `@` and the last `.`;
   * it accepts exactly the strings the regular expression matches.
   */
  function IsValidEmail(s: string): (r: bool)
    ensures r <==> MatchesEmailRegex(s)
  {
    SplitPointsAreFirstAndLast(s);
    match FirstIndex(s, '@')
    case None => false
    case Some(at) =>
      match LastIndex(s, '.')
      case None => false
      case Some(dot) =>
        var ok := && 0 < at && at + 1 < dot && dot + 2 < |s|
                  && AllLocal(s[..at]) && AllDomain(s[at + 1..dot]) && AllLetters(s[dot + 1..]);
        assert ok ==> SplitsAt(s, at, dot);
        ok
  }

  /**
   * Whatever split the regular expression finds, its `@` is the first `@`
   * of the string (the local part has none) and its `.` is the last `.`
   * (the top-level part is letters only).
   */
  lemma SplitPointsAreFirstAndLast(s: string)
    ensures forall at: nat, dot: nat :: SplitsAt(s, at, dot) ==>
              FirstIndex(s, '@') == Some(at) && LastIndex(s, '.') == Some(dot)
  {
  }

  /** A valid email holds exactly one `@`. */
  lemma ValidEmailHasOneAt(s: string)
    requires IsValidEmail(s)
    ensures multiset(s)['@'] == 1
  {
    var at, dot := FirstIndex(s, '@').value, LastIndex(s, '.').value;
    forall k | at < k < |s|
      ensures s[k] != '@'
    {
      if k < dot {
        assert IsDomainChar(s[at + 1..dot][k - at - 1]);
      } else if k > dot {
        assert IsAsciiLetter(s[dot + 1..][k - dot - 1]);
      }
    }
    assert '@' !in s[at + 1..];
    assert s == s[..at] + [s[at]] + s[at + 1..];
    assert multiset(s) == multiset(s[..at]) + multiset([s[at]]) + multiset(s[at + 1..]);
  }

  /** A valid email ends in a `.` followed by two or more letters and nothing else. */
  lemma ValidEmailTopLevel(s: string)
    requires IsValidEmail(s)
    ensures exists dot :: 0 < dot && dot + 2 < |s| && s[dot] == '.' && AllLetters(s[dot + 1..])
  {
  }
}
