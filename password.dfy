/**
 * The password-complexity policy of reset-password, the regular expression
 *   ^(?=.*[a-z])(?=.*[A-Z])(?=.*\d)(?=.*[@$!%*?&])[A-Za-z\d@$!%*?&]{8,}$
 * that reset-password applies to the new password.
 *
 * `RegexTest` reads the expression the way JavaScript evaluates it (no flags:
 * `^` and `$` anchor the whole input, `.` matches every character except a
 * line terminator, `\d` is the ASCII digits). `IsStrong` is the policy in
 * plain words. `RegexTest`'s contract says the two are the same.
 */
module Password {

  predicate IsLower(c: char) { 'a' <= c <= 'z' }
  predicate IsUpper(c: char) { 'A' <= c <= 'Z' }
  predicate IsDigit(c: char) { '0' <= c <= '9' }
  predicate IsSymbol(c: char) { c in "@$!%*?&" }

  /** The character class `[A-Za-z\d@$!%*?&]`. */
  predicate InAlphabet(c: char)
  {
    IsLower(c) || IsUpper(c) || IsDigit(c) || IsSymbol(c)
  }

  /** The characters `.` does not match: LF, CR, LS and PS. */
  predicate IsLineTerminator(c: char)
  {
    c == '\n' || c == '\r' || c == '\U{2028}' || c == '\U{2029}'
  }

  /** The four classes the lookaheads ask for. */
  datatype CharClass = Lower | Upper | Digit | Symbol

  predicate InClass(c: char, k: CharClass)
  {
    match k
    case Lower => IsLower(c)
    case Upper => IsUpper(c)
    case Digit => IsDigit(c)
    case Symbol => IsSymbol(c)
  }

  /** `(?=.*[k])` at the start of `s`: a character of class `k` preceded only by what `.` matches. */
  predicate Lookahead(s: string, k: CharClass)
  {
    exists i :: 0 <= i < |s| && InClass(s[i], k) && NoLineTerminatorBefore(s, i)
  }

  predicate NoLineTerminatorBefore(s: string, i: int)
    requires 0 <= i <= |s|
  {
    forall j :: 0 <= j < i ==> !IsLineTerminator(s[j])
  }

  /** `passwordRegex.test(s)`: it accepts exactly the strong passwords. */
  predicate RegexTest(s: string)
    ensures RegexTest(s) <==> IsStrong(s)
  {
    LookaheadInAlphabet(s, Lower);
    LookaheadInAlphabet(s, Upper);
    LookaheadInAlphabet(s, Digit);
    LookaheadInAlphabet(s, Symbol);
    && Lookahead(s, Lower)
    && Lookahead(s, Upper)
    && Lookahead(s, Digit)
    && Lookahead(s, Symbol)
    && |s| >= 8
    && (forall i :: 0 <= i < |s| ==> InAlphabet(s[i]))
  }

  predicate Has(s: string, k: CharClass)
  {
    exists i :: 0 <= i < |s| && InClass(s[i], k)
  }

  /**
   * The policy: at least 8 characters, all from `[A-Za-z0-9@$!%*?&]`, and at
   * least one lower-case letter, one upper-case letter, one digit and one of
   * `@$!%*?&`.
   */
  predicate IsStrong(s: string)
  {
    && |s| >= 8
    && (forall i :: 0 <= i < |s| ==> InAlphabet(s[i]))
    && Has(s, Lower) && Has(s, Upper) && Has(s, Digit) && Has(s, Symbol)
  }

  /** Inside the alphabet a lookahead reduces to "some character of the class". */
  lemma LookaheadInAlphabet(s: string, k: CharClass)
    ensures (forall i :: 0 <= i < |s| ==> InAlphabet(s[i])) ==> (Lookahead(s, k) <==> Has(s, k))
  {
    if Has(s, k) && forall i :: 0 <= i < |s| ==> InAlphabet(s[i]) {
      var i :| 0 <= i < |s| && InClass(s[i], k);
      assert NoLineTerminatorBefore(s, i) by {
        forall j | 0 <= j < i ensures !IsLineTerminator(s[j]) {
          assert InAlphabet(s[j]);
        }
      }
    }
  }

  /** `Abcdef1!` passes the check. */
  lemma AcceptsExample()
    ensures RegexTest("Abcdef1!")
  {
    var s := "Abcdef1!";
    assert InClass(s[1], Lower) && InClass(s[0], Upper) && InClass(s[6], Digit) && InClass(s[7], Symbol);
    assert forall i :: 0 <= i < |s| ==> InAlphabet(s[i]);
  }

  /** `abcdefgh` fails it: it has no upper-case letter (nor digit, nor symbol). */
  lemma RejectsExample()
    ensures !RegexTest("abcdefgh")
  {
    var s := "abcdefgh";
    assert forall i :: 0 <= i < |s| ==> IsLower(s[i]);
    assert !Has(s, Upper);
  }

  /** Seven characters are too few even when every class is present. */
  lemma RejectsShort()
    ensures !RegexTest("Abcde1!")
  {
  }
}
