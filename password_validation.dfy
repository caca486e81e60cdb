/**
 * Client-side password strength meter and password rules
 * (client/src/utils/passwordValidation.ts).
 *
 * Lengths are counted in characters; the browser counts UTF-16 code units.
 */
module PasswordValidation {
  import opened Common

  /** `/[a-z]/.test(p)` */
  predicate HasLower(p: string) { exists i :: 0 <= i < |p| && IsAsciiLower(p[i]) }
  /** `/[A-Z]/.test(p)` */
  predicate HasUpper(p: string) { exists i :: 0 <= i < |p| && IsAsciiUpper(p[i]) }
  /** `/\d/.test(p)`: JavaScript's `\d` is the ASCII digits only. */
  predicate HasDigit(p: string) { exists i :: 0 <= i < |p| && IsAsciiDigit(p[i]) }
  /** `/[^a-zA-Z0-9]/.test(p)` */
  predicate HasSpecial(p: string) { exists i :: 0 <= i < |p| && !IsAsciiAlnum(p[i]) }

  datatype Color = Red | Orange | Yellow | Green | Emerald

  datatype PasswordStrength = PasswordStrength(score: nat, labelText: string, color: Color, percentage: nat)

  /** The five strength criteria, in the order the meter tests them. */
  function Criteria(p: string): seq<bool> {
    [|p| >= 8, |p| >= 12, HasLower(p) && HasUpper(p), HasDigit(p), HasSpecial(p)]
  }

  function CountTrue(bs: seq<bool>): nat {
    if bs == [] then 0 else (if bs[0] then 1 else 0) + CountTrue(bs[1..])
  }

  function Bit(b: bool): nat { if b then 1 else 0 }

  lemma CountTrueFive(a: bool, b: bool, c: bool, d: bool, e: bool)
    ensures CountTrue([a, b, c, d, e]) == Bit(a) + Bit(b) + Bit(c) + Bit(d) + Bit(e)
  {
    assert [e][1..] == [];
    assert CountTrue([e]) == Bit(e);
    assert [d, e][1..] == [e];
    assert CountTrue([d, e]) == Bit(d) + Bit(e);
    assert [c, d, e][1..] == [d, e];
    assert CountTrue([c, d, e]) == Bit(c) + Bit(d) + Bit(e);
    assert [b, c, d, e][1..] == [c, d, e];
    assert CountTrue([b, c, d, e]) == Bit(b) + Bit(c) + Bit(d) + Bit(e);
    assert [a, b, c, d, e][1..] == [b, c, d, e];
  }

  /** The `strengthMap` table: label, colour and bar width of each score. */
  function StrengthFor(score: nat): (r: PasswordStrength)
    requires score <= 4
    ensures r.score == score && r.percentage == 20 * (score + 1)
    ensures score == 4 <==> r.labelText == "Strong"
  {
    match score
    case 0 => PasswordStrength(0, "Very Weak", Red, 20)
    case 1 => PasswordStrength(1, "Weak", Orange, 40)
    case 2 => PasswordStrength(2, "Fair", Yellow, 60)
    case 3 => PasswordStrength(3, "Good", Green, 80)
    case 4 => PasswordStrength(4, "Strong", Emerald, 100)
  }

  /** `calculatePasswordStrength` */
  function CalculatePasswordStrength(password: string): (r: PasswordStrength)
    ensures password == [] ==> r == PasswordStrength(0, "Very Weak", Red, 0)
    ensures password != [] ==> r.score == Min(4, CountTrue(Criteria(password)))
    ensures password != [] ==> r.percentage == 20 * (r.score + 1) && r == StrengthFor(r.score)
    ensures r.score <= 4
  {
    if password == [] then PasswordStrength(0, "Very Weak", Red, 0)
    else
      var s0 := 0;
      var s1 := if |password| >= 8 then s0 + 1 else s0;
      var s2 := if |password| >= 12 then s1 + 1 else s1;
      var s3 := if HasLower(password) && HasUpper(password) then s2 + 1 else s2;
      var s4 := if HasDigit(password) then s3 + 1 else s3;
      var s5 := if HasSpecial(password) then s4 + 1 else s4;
      var score := if s5 < 4 then s5 else 4;
      CountTrueFive(|password| >= 8, |password| >= 12, HasLower(password) && HasUpper(password),
                    HasDigit(password), HasSpecial(password));
      StrengthFor(score)
  }

  /** Two non-empty passwords with the same score get the same label, colour and bar width. */
  lemma StrengthDependsOnlyOnScore(p: string, q: string)
    requires p != [] && q != []
    requires CalculatePasswordStrength(p).score == CalculatePasswordStrength(q).score
    ensures CalculatePasswordStrength(p) == CalculatePasswordStrength(q)
  {
  }

  /** A non-empty password that meets no criterion still fills a fifth of the bar; only the empty one shows 0. */
  lemma EmptyAndWeakestDiffer(p: string)
    requires p != [] && CalculatePasswordStrength(p).score == 0
    ensures CalculatePasswordStrength(p).percentage == 20
    ensures CalculatePasswordStrength([]).percentage == 0
    ensures CalculatePasswordStrength(p).labelText == CalculatePasswordStrength([]).labelText
  {
  }

  const PasswordRequired := "Password is required"
  const PasswordTooShort := "Password must be at least 8 characters long"
  const PasswordTooLong := "Password must not exceed 128 characters"
  const PasswordNeedsLower := "Password must contain at least one lowercase letter"
  const PasswordNeedsUpper := "Password must contain at least one uppercase letter"
  const PasswordNeedsNumber := "Password must contain at least one number"
  const PasswordNeedsSpecial := "Password must contain at least one special character"

  /** The rules of `validatePassword`, in the order it applies them. */
  function PasswordChecks(p: string): seq<Check> {
    [ Check(|p| != 0, PasswordRequired),
      Check(|p| >= 8, PasswordTooShort),
      Check(|p| <= 128, PasswordTooLong),
      Check(HasLower(p), PasswordNeedsLower),
      Check(HasUpper(p), PasswordNeedsUpper),
      Check(HasDigit(p), PasswordNeedsNumber),
      Check(HasSpecial(p), PasswordNeedsSpecial) ]
  }

  /** A password the registration form accepts. */
  predicate AcceptablePassword(p: string) {
    8 <= |p| <= 128 && HasLower(p) && HasUpper(p) && HasDigit(p) && HasSpecial(p)
  }

  /** `validatePassword`: None stands for `null` (valid). */
  function ValidatePassword(password: string): (r: Option<string>)
    ensures r == None <==> AcceptablePassword(password)
  {
    if |password| == 0 then Some(PasswordRequired)
    else if |password| < 8 then Some(PasswordTooShort)
    else if |password| > 128 then Some(PasswordTooLong)
    else if !HasLower(password) then Some(PasswordNeedsLower)
    else if !HasUpper(password) then Some(PasswordNeedsUpper)
    else if !HasDigit(password) then Some(PasswordNeedsNumber)
    else if !HasSpecial(password) then Some(PasswordNeedsSpecial)
    else None
  }

  /** `validatePassword` reports the first rule of PasswordChecks that the password breaks. */
  lemma ValidatePasswordReportsFirstFailure(p: string)
    ensures ValidatePassword(p) == FirstFailure(PasswordChecks(p))
  {
    FirstFailureOfSeven(
      Check(|p| != 0, PasswordRequired),
      Check(|p| >= 8, PasswordTooShort),
      Check(|p| <= 128, PasswordTooLong),
      Check(HasLower(p), PasswordNeedsLower),
      Check(HasUpper(p), PasswordNeedsUpper),
      Check(HasDigit(p), PasswordNeedsNumber),
      Check(HasSpecial(p), PasswordNeedsSpecial));
    FirstFailureOfFive(
      Check(|p| <= 128, PasswordTooLong),
      Check(HasLower(p), PasswordNeedsLower),
      Check(HasUpper(p), PasswordNeedsUpper),
      Check(HasDigit(p), PasswordNeedsNumber),
      Check(HasSpecial(p), PasswordNeedsSpecial));
  }

  /** Every password the rules accept is rated 'Strong' by the meter. */
  lemma AcceptedPasswordIsStrong(p: string)
    requires ValidatePassword(p) == None
    ensures CalculatePasswordStrength(p).score == 4
    ensures CalculatePasswordStrength(p).labelText == "Strong"
  {
    CountTrueFive(|p| >= 8, |p| >= 12, HasLower(p) && HasUpper(p), HasDigit(p), HasSpecial(p));
  }

  const ConfirmRequired := "Please confirm your password"
  const PasswordsDiffer := "Passwords do not match"

  /** `validatePasswordMatch` */
  function ValidatePasswordMatch(password: string, confirmPassword: string): (r: Option<string>)
    ensures r == None <==> confirmPassword != [] && password == confirmPassword
    ensures confirmPassword == [] ==> r == Some(ConfirmRequired)
    ensures confirmPassword != [] && password != confirmPassword ==> r == Some(PasswordsDiffer)
  {
    if |confirmPassword| == 0 then Some(ConfirmRequired)
    else if password != confirmPassword then Some(PasswordsDiffer)
    else None
  }
}
