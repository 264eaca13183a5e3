/**
 * The two credential checks of `UserService`: the email pattern
 * `^[a-zA-Z0-9._%+-]+@[a-zA-Z0-9.-]+\.[a-zA-Z]{2,}$` and the password pattern
 * `^(?=.*\d)(?=.*[a-z])(?=.*[A-Z]).{8,16}$`, both applied with
 * `Matcher.matches()` (the whole string must match). Characters are Unicode
 * code points, which is what `java.util.regex` steps over; `\d`, `[a-z]` and
 * `[A-Z]` are the ASCII classes, and `.` is any code point except a line
 * terminator.
 */
module Validators {

  // ---- character classes ----

  predicate IsAsciiLower(c: char) { 'a' <= c <= 'z' }
  predicate IsAsciiUpper(c: char) { 'A' <= c <= 'Z' }
  predicate IsAsciiLetter(c: char) { IsAsciiLower(c) || IsAsciiUpper(c) }
  predicate IsAsciiDigit(c: char) { '0' <= c <= '9' }

  /** `[a-zA-Z0-9._%+-]`, the characters of the part before the `@`. */
  predicate IsLocalChar(c: char)
  {
    IsAsciiLetter(c) || IsAsciiDigit(c) || c == '.' || c == '_' || c == '%' || c == '+' || c == '-'
  }

  /** `[a-zA-Z0-9.-]`, the characters of the domain. */
  predicate IsDomainChar(c: char)
  {
    IsAsciiLetter(c) || IsAsciiDigit(c) || c == '.' || c == '-'
  }

  /** The characters `.` does not match: the line terminators of `java.util.regex.Pattern`. */
  predicate IsLineTerminator(c: char)
  {
    c == '\n' || c == '\r' || c == '\U{0085}' || c == '\U{2028}' || c == '\U{2029}'
  }

  // ---- the email pattern, read as the regular expression says ----

  predicate IsLocalPart(s: string) { |s| >= 1 && forall i :: 0 <= i < |s| ==> IsLocalChar(s[i]) }
  predicate IsDomainPart(s: string) { |s| >= 1 && forall i :: 0 <= i < |s| ==> IsDomainChar(s[i]) }
  predicate IsTopLevel(s: string) { |s| >= 2 && forall i :: 0 <= i < |s| ==> IsAsciiLetter(s[i]) }

  /** The whole string splits as `local "@" domain "." tld`. */
  ghost predicate MatchesEmailPattern(s: string)
  {
    exists local, domain, tld ::
      IsLocalPart(local) && IsDomainPart(domain) && IsTopLevel(tld) &&
      s == local + "@" + domain + "." + tld
  }

  // ---- the email check as a computation ----

  /** Position of the first `c` in `s`, or `|s|` when there is none. */
  function FirstIndexOf(s: string, c: char): (k: nat)
    ensures k <= |s|
    ensures k < |s| ==> s[k] == c
    ensures forall i :: 0 <= i < k ==> s[i] != c
  {
    if s == [] then 0
    else if s[0] == c then 0
    else 1 + FirstIndexOf(s[1..], c)
  }

  /** Position of the last `c` in `s`, or -1 when there is none. */
  function LastIndexOf(s: string, c: char): (k: int)
    ensures -1 <= k < |s|
    ensures k >= 0 ==> s[k] == c
    ensures forall i :: k < i < |s| ==> s[i] != c
  {
    if s == [] then -1
    else if s[|s| - 1] == c then |s| - 1
    else LastIndexOf(s[..|s| - 1], c)
  }

  /**
   * `validateFormatEmail`, its pattern half. No class of the pattern admits
   * `@`, and the last segment admits no `.`, so the only candidate split is at
   * the first `@` and the last `.`.
   */
  predicate IsEmailFormat(email: string)
  {
    var at := FirstIndexOf(email, '@');
    var dot := LastIndexOf(email, '.');
    && at + 1 < dot
    && IsLocalPart(email[..at])
    && IsDomainPart(email[at + 1..dot])
    && IsTopLevel(email[dot + 1..])
  }

  /** The computed check accepts exactly the strings the pattern matches, in both directions. */
  lemma EmailFormatIsPattern(s: string)
    ensures IsEmailFormat(s) <==> MatchesEmailPattern(s)
  {
    var at := FirstIndexOf(s, '@');
    var dot := LastIndexOf(s, '.');
    if IsEmailFormat(s) {
      var local, domain, tld := s[..at], s[at + 1..dot], s[dot + 1..];
      assert s == local + "@" + domain + "." + tld;
    }
    if MatchesEmailPattern(s) {
      var local, domain, tld :| IsLocalPart(local) && IsDomainPart(domain) && IsTopLevel(tld) &&
                                s == local + "@" + domain + "." + tld;
      var i, j := |local|, |local| + 1 + |domain|;
      assert s[i] == '@' && s[j] == '.';
      forall k | 0 <= k < i ensures s[k] != '@' {
        assert s[k] == local[k];
        assert IsLocalChar(local[k]);
      }
      forall k | j < k < |s| ensures s[k] != '.' {
        assert s[k] == tld[k - j - 1];
        assert IsAsciiLetter(tld[k - j - 1]);
      }
      assert at == i;
      assert dot == j;
      assert s[..at] == local;
      assert s[at + 1..dot] == domain;
      assert s[dot + 1..] == tld;
    }
  }

  // ---- the password pattern ----

  predicate NoLineTerminator(p: string) { forall i :: 0 <= i < |p| ==> !IsLineTerminator(p[i]) }

  /** `(?=.*\d)` at the start: some digit is preceded only by characters `.` admits. */
  ghost predicate DigitAhead(p: string)
  {
    exists k :: 0 <= k < |p| && IsAsciiDigit(p[k]) && NoLineTerminator(p[..k])
  }

  /** `(?=.*[a-z])` at the start. */
  ghost predicate LowerAhead(p: string)
  {
    exists k :: 0 <= k < |p| && IsAsciiLower(p[k]) && NoLineTerminator(p[..k])
  }

  /** `(?=.*[A-Z])` at the start. */
  ghost predicate UpperAhead(p: string)
  {
    exists k :: 0 <= k < |p| && IsAsciiUpper(p[k]) && NoLineTerminator(p[..k])
  }

  /** The whole pattern, read as written: three lookaheads, then `.{8,16}` up to the end. */
  ghost predicate MatchesPasswordPattern(p: string)
  {
    DigitAhead(p) && LowerAhead(p) && UpperAhead(p) && 8 <= |p| <= 16 && NoLineTerminator(p)
  }

  predicate HasDigit(p: string) { exists i :: 0 <= i < |p| && IsAsciiDigit(p[i]) }
  predicate HasLower(p: string) { exists i :: 0 <= i < |p| && IsAsciiLower(p[i]) }
  predicate HasUpper(p: string) { exists i :: 0 <= i < |p| && IsAsciiUpper(p[i]) }
  /** `validatePassword`: 8 to 16 code points, no line terminator, a digit, a lower- and an upper-case letter. */
  predicate IsPasswordFormat(p: string)
  {
    8 <= |p| <= 16 && NoLineTerminator(p) && HasDigit(p) && HasLower(p) && HasUpper(p)
  }

  /** The check accepts exactly what the pattern matches: once no line terminator occurs, each lookahead only asks for one character of its class. */
  lemma PasswordFormatIsPattern(p: string)
    ensures IsPasswordFormat(p) <==> MatchesPasswordPattern(p)
  {
  }

  // ---- the credentials the repository's tests submit ----

  /** The email of the unit tests is well-formed. */
  lemma SampleEmailAccepted()
    ensures IsEmailFormat("test@nisum.cl")
  {
    assert IsLocalPart("test") && IsDomainPart("nisum") && IsTopLevel("cl");
    assert "test@nisum.cl" == "test" + "@" + "nisum" + "." + "cl";
    EmailFormatIsPattern("test@nisum.cl");
  }

  /** A string without `@` is rejected, and so is a one-letter top-level segment. */
  lemma SampleEmailsRejected()
    ensures !IsEmailFormat("bad-email")
    ensures !IsEmailFormat("a@b.c")
  {
    assert !IsEmailFormat("bad-email") by {
      var noAt := "bad-email";
      assert forall i :: 0 <= i < |noAt| ==> noAt[i] != '@';
    }
    assert !IsEmailFormat("a@b.c") by {
      var shortTop := "a@b.c";
      assert shortTop[3] == '.';
      assert LastIndexOf(shortTop, '.') == 3;
    }
  }

  /** The password of the service's unit tests is accepted. */
  lemma SampleServicePassword()
    ensures IsPasswordFormat("123Acb144*")
  {
    assert IsAsciiDigit("123Acb144*"[0]) && IsAsciiUpper("123Acb144*"[3]) && IsAsciiLower("123Acb144*"[4]);
  }

  /** The password of the controller's unit tests is accepted; the same text ending in a line feed is not. */
  lemma SampleControllerPassword()
    ensures IsPasswordFormat("Nisum123.")
    ensures !IsPasswordFormat("Nisum123\n")
  {
    assert IsAsciiDigit("Nisum123."[5]) && IsAsciiUpper("Nisum123."[0]) && IsAsciiLower("Nisum123."[1]);
    assert IsLineTerminator("Nisum123\n"[8]);
  }
}
