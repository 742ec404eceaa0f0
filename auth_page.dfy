/** The client-side checks of the sign-in page (public/auth.js): the
    password-strength meter and the checks the signup form makes before it
    posts anything. Lengths count characters of the model's strings. */
module AuthPage {
  import opened Wrappers

  predicate LongEnough(p: string) { |p| >= 8 }
  /** `/[a-z]/` matches somewhere. */
  predicate HasLower(p: string) { exists i :: 0 <= i < |p| && 'a' <= p[i] <= 'z' }
  /** `/[A-Z]/` matches somewhere. */
  predicate HasUpper(p: string) { exists i :: 0 <= i < |p| && 'A' <= p[i] <= 'Z' }
  /** `/[0-9]/` matches somewhere. */
  predicate HasDigit(p: string) { exists i :: 0 <= i < |p| && '0' <= p[i] <= '9' }

  function Credit(b: bool): nat { if b then 1 else 0 }

  /** How many of the four criteria the password meets. */
  function CriteriaMet(p: string): (n: nat)
    ensures n <= 4
    ensures n == 4 <==> LongEnough(p) && HasLower(p) && HasUpper(p) && HasDigit(p)
    ensures n == 0 <==> !LongEnough(p) && !HasLower(p) && !HasUpper(p) && !HasDigit(p)
  {
    Credit(LongEnough(p)) + Credit(HasLower(p)) + Credit(HasUpper(p)) + Credit(HasDigit(p))
  }

  const Red := "#ef4444"
  const Amber := "#f59e0b"
  const Green := "#10b981"

  /** The meter colour for a score. */
  function StrengthColor(score: int): (c: string)
    ensures c == Green <==> score >= 75
    ensures c == Amber <==> 50 <= score < 75
    ensures c == Red <==> score < 50
  {
    if score >= 75 then Green else if score >= 50 then Amber else Red
  }

  /** `calculatePasswordStrength`: 25 points per criterion met, then the colour. */
  method CalculatePasswordStrength(password: string) returns (percentage: int, color: string)
    ensures percentage == 25 * CriteriaMet(password)
    ensures percentage in {0, 25, 50, 75, 100}
    ensures color == StrengthColor(percentage)
  {
    var score := 0;
    if |password| >= 8 { score := score + 25; }
    if exists i :: 0 <= i < |password| && 'a' <= password[i] <= 'z' { score := score + 25; }
    if exists i :: 0 <= i < |password| && 'A' <= password[i] <= 'Z' { score := score + 25; }
    if exists i :: 0 <= i < |password| && '0' <= password[i] <= '9' { score := score + 25; }
    var c := Red;
    if score >= 75 { c := Green; } else if score >= 50 { c := Amber; }
    percentage, color := score, c;
  }

  /** Typing more never lowers the meter: every criterion a password meets
      is still met once characters are appended. */
  lemma {:induction false} StrengthMonotone(p: string, more: string)
    ensures CriteriaMet(p) <= CriteriaMet(p + more)
  {
    var q := p + more;
    assert forall i :: 0 <= i < |p| ==> q[i] == p[i];
    if HasLower(p) { var i :| 0 <= i < |p| && 'a' <= p[i] <= 'z'; assert 'a' <= q[i] <= 'z'; }
    if HasUpper(p) { var i :| 0 <= i < |p| && 'A' <= p[i] <= 'Z'; assert 'A' <= q[i] <= 'Z'; }
    if HasDigit(p) { var i :| 0 <= i < |p| && '0' <= p[i] <= '9'; assert '0' <= q[i] <= '9'; }
  }

  lemma StrengthExamples()
    ensures CriteriaMet("abc") == 1
    ensures CriteriaMet("Abcdefg1") == 4
  {
    assert 'a' <= "abc"[0] <= 'z';
    assert !HasUpper("abc") by {
      forall i | 0 <= i < 3 ensures !('A' <= "abc"[i] <= 'Z') {}
    }
    assert !HasDigit("abc") by {
      forall i | 0 <= i < 3 ensures !('0' <= "abc"[i] <= '9') {}
    }
    var s := "Abcdefg1";
    assert 'b' == s[1] && 'A' == s[0] && '1' == s[7];
  }

  const PasswordsDiffer := "Passwords do not match"
  const PasswordTooShort := "Password must be at least 6 characters long"

  /** The signup handler's checks before the request: the two password
      fields must agree, and only then is the length checked. */
  function SignupCheck(password: string, confirmPassword: string): (e: Option<string>)
    ensures password != confirmPassword ==> e == Some(PasswordsDiffer)
    ensures password == confirmPassword && |password| < 6 ==> e == Some(PasswordTooShort)
    ensures e.None? <==> password == confirmPassword && |password| >= 6
  {
    if password != confirmPassword then Some(PasswordsDiffer)
    else if |password| < 6 then Some(PasswordTooShort)
    else None
  }

  /** The form accepts a six- or seven-character password that the meter gives no length credit. */
  lemma ShortPasswordAccepted(password: string)
    requires 6 <= |password| < 8
    ensures SignupCheck(password, password).None?
    ensures !LongEnough(password) && CriteriaMet(password) <= 3
  {
  }
}
