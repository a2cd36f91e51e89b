/**
 * The password policy shared by registration and user update: the regular
 * expression `^(?=.*[a-z])(?=.*[A-Z])(?=.*\d)(?=.*[@$!%*?&])[A-Za-z\d@$!%*?&]{8,}$`
 * (JavaScript syntax, no flags), modelled as the matcher JavaScript runs and
 * proved equal to the plain-words policy.
 */
module PasswordPolicy {
  import opened Text

  const MinLength: nat := 8

  predicate IsLower(c: char) { 'a' <= c <= 'z' }
  predicate IsUpper(c: char) { 'A' <= c <= 'Z' }
  predicate IsSpecial(c: char) { c in "@$!%*?&" }

  /** The character class `[A-Za-z\d@$!%*?&]`. */
  predicate IsAllowed(c: char) { IsLower(c) || IsUpper(c) || IsDigit(c) || IsSpecial(c) }

  /** The characters JavaScript's `.` does not match without the `s` flag. */
  predicate IsLineTerminator(c: char) { c == '\n' || c == '\r' || c == '\U{2028}' || c == '\U{2029}' }

  /** The four classes a lookahead demands. */
  datatype Class = Lower | Upper | Digit | Special

  predicate InClass(c: char, k: Class)
  {
    match k
    case Lower => IsLower(c)
    case Upper => IsUpper(c)
    case Digit => IsDigit(c)
    case Special => IsSpecial(c)
  }

  /** The lookahead `(?=.*[k])` tried at the start of `s`. */
  predicate Lookahead(s: string, k: Class)
    decreases |s|
  {
    |s| > 0 && (InClass(s[0], k) || (!IsLineTerminator(s[0]) && Lookahead(s[1..], k)))
  }

  /** `[A-Za-z\d@$!%*?&]{n,}$` tried at the start of `s`. */
  predicate AllowedToEnd(s: string, n: nat)
    decreases |s|
  {
    if |s| == 0 then n == 0
    else IsAllowed(s[0]) && AllowedToEnd(s[1..], if n == 0 then 0 else n - 1)
  }

  /** `passwordValidationRegex.test(p)`. */
  predicate RegexTest(p: string)
  {
    && Lookahead(p, Lower)
    && Lookahead(p, Upper)
    && Lookahead(p, Digit)
    && Lookahead(p, Special)
    && AllowedToEnd(p, MinLength)
  }

  /** The policy in plain words. */
  predicate IsStrong(p: string)
  {
    && |p| >= MinLength
    && (forall i :: 0 <= i < |p| ==> IsAllowed(p[i]))
    && (exists i :: 0 <= i < |p| && IsLower(p[i]))
    && (exists i :: 0 <= i < |p| && IsUpper(p[i]))
    && (exists i :: 0 <= i < |p| && IsDigit(p[i]))
    && (exists i :: 0 <= i < |p| && IsSpecial(p[i]))
  }

  predicate NoLineTerminatorBefore(s: string, i: int)
    requires 0 <= i <= |s|
  {
    forall j :: 0 <= j < i ==> !IsLineTerminator(s[j])
  }

  /** The lookahead finds a member of `k` that only non-line-terminators precede. */
  lemma {:induction false} LookaheadMeaning(s: string, k: Class)
    ensures Lookahead(s, k) <==> exists i :: 0 <= i < |s| && InClass(s[i], k) && NoLineTerminatorBefore(s, i)
    decreases |s|
  {
    if |s| > 0 {
      LookaheadMeaning(s[1..], k);
      if Lookahead(s, k) && !InClass(s[0], k) {
        var i :| 0 <= i < |s[1..]| && InClass(s[1..][i], k) && NoLineTerminatorBefore(s[1..], i);
        assert InClass(s[i + 1], k) && NoLineTerminatorBefore(s, i + 1);
      }
      if !InClass(s[0], k) && (exists i :: 0 <= i < |s| && InClass(s[i], k) && NoLineTerminatorBefore(s, i)) {
        var i :| 0 <= i < |s| && InClass(s[i], k) && NoLineTerminatorBefore(s, i);
        assert i > 0 && !IsLineTerminator(s[0]);
        assert InClass(s[1..][i - 1], k) && NoLineTerminatorBefore(s[1..], i - 1);
      }
    }
  }

  lemma {:induction false} AllowedToEndMeaning(s: string, n: nat)
    ensures AllowedToEnd(s, n) <==> |s| >= n && forall i :: 0 <= i < |s| ==> IsAllowed(s[i])
    decreases |s|
  {
    if |s| > 0 {
      AllowedToEndMeaning(s[1..], if n == 0 then 0 else n - 1);
      if forall i :: 0 <= i < |s[1..]| ==> IsAllowed(s[1..][i]) {
        if IsAllowed(s[0]) {
          assert forall i :: 0 <= i < |s| ==> IsAllowed(s[i]) by {
            forall i | 0 <= i < |s| ensures IsAllowed(s[i]) {
              if i > 0 { assert s[i] == s[1..][i - 1]; }
            }
          }
        }
      }
    }
  }

  /** The regular expression accepts exactly the passwords the policy describes. */
  lemma {:induction false} RegexTestIsPolicy(p: string)
    ensures RegexTest(p) <==> IsStrong(p)
  {
    AllowedToEndMeaning(p, MinLength);
    LookaheadMeaning(p, Lower);
    LookaheadMeaning(p, Upper);
    LookaheadMeaning(p, Digit);
    LookaheadMeaning(p, Special);
    if forall i :: 0 <= i < |p| ==> IsAllowed(p[i]) {
      forall i | 0 <= i <= |p| ensures NoLineTerminatorBefore(p, i) {
        forall j | 0 <= j < i ensures !IsLineTerminator(p[j]) {
          assert IsAllowed(p[j]);
        }
      }
    }
  }

  /** A password with a character outside `[A-Za-z\d@$!%*?&]` (a space, `#`, ...) is rejected. */
  lemma ForeignCharacterRejected(p: string, i: int)
    requires 0 <= i < |p| && !IsAllowed(p[i])
    ensures !RegexTest(p)
  {
    RegexTestIsPolicy(p);
  }

  /** A password shorter than eight characters is rejected, whatever it contains. */
  lemma ShortRejected(p: string)
    requires |p| < MinLength
    ensures !RegexTest(p)
  {
    RegexTestIsPolicy(p);
  }

  /** The password the service's tests register with is accepted. */
  lemma AcceptsTestPassword()
    ensures RegexTest("Prueba123!")
  {
    var p := "Prueba123!";
    assert IsUpper(p[0]) && IsLower(p[1]) && IsDigit(p[6]) && IsSpecial(p[9]);
    RegexTestIsPolicy(p);
  }

  /** Eight characters with one of each class is enough. */
  lemma AcceptsAtMinimumLength()
    ensures RegexTest("Prueba1!")
  {
    var p := "Prueba1!";
    assert IsUpper(p[0]) && IsLower(p[1]) && IsDigit(p[6]) && IsSpecial(p[7]);
    RegexTestIsPolicy(p);
  }

  /** The weak passwords of the service's tests and a seven-character one are rejected. */
  lemma RejectsShortPasswords()
    ensures !RegexTest("Prueb1!") && !RegexTest("123456") && !RegexTest("1234")
  {
    ShortRejected("Prueb1!");
    ShortRejected("123456");
    ShortRejected("1234");
  }

  /** A space or a `#` makes an otherwise strong password fail. */
  lemma RejectsForeignCharacters()
    ensures !RegexTest("Prueba 123!") && !RegexTest("Prueba123#")
  {
    var spaced := "Prueba 123!";
    assert !IsAllowed(spaced[6]);
    ForeignCharacterRejected(spaced, 6);
    var hashed := "Prueba123#";
    assert !IsAllowed(hashed[9]);
    ForeignCharacterRejected(hashed, 9);
  }
}
