/**
 * The username rules of the sign-in form and its submit step
 * (client/src/pages/HomePage.tsx).
 */
module HomePage {
  import opened Common
  import opened Types

  const UsernameRequired := "Username is required"
  const UsernameHasSpaces := "Username cannot contain spaces"

  /** `USERNAME_VALIDATION.PATTERN.test(t)`, i.e. `/^[a-zA-Z0-9@._-]+$/`. */
  predicate MatchesUsernamePattern(t: string) {
    |t| > 0 && forall i :: 0 <= i < |t| ==> UsernameChar(t[i])
  }

  /** The checks of `validateUsername`, in order, applied to the trimmed name. */
  function UsernameChecks(t: string): seq<Check> {
    [ Check(|t| != 0, UsernameRequired),
      Check(|t| >= UsernameMinLength, UsernameTooShort),
      Check(|t| <= UsernameMaxLength, UsernameTooLong),
      Check(!HasSpace(t), UsernameHasSpaces),
      Check(MatchesUsernamePattern(t), UsernameInvalidFormat) ]
  }

  /** A username the form accepts, stated on its trimmed form. */
  predicate AcceptableUsername(username: string) {
    var t := Trim(username);
    UsernameMinLength <= |t| <= UsernameMaxLength && forall i :: 0 <= i < |t| ==> UsernameChar(t[i])
  }

  /** No character of the username alphabet is white space. */
  lemma UsernameCharsAreNotSpace(t: string)
    ensures (forall i :: 0 <= i < |t| ==> UsernameChar(t[i])) ==> !HasSpace(t)
  {
    if forall i :: 0 <= i < |t| ==> UsernameChar(t[i]) {
      forall i | 0 <= i < |t| ensures !IsSpace(t[i]) {
        assert UsernameChar(t[i]);
      }
    }
  }

  /** `validateUsername`: None stands for `null` (valid). */
  function ValidateUsername(username: string): (r: Option<string>)
    ensures r == None <==> AcceptableUsername(username)
  {
    var trimmed := Trim(username);
    if |trimmed| == 0 then Some(UsernameRequired)
    else if |trimmed| < UsernameMinLength then Some(UsernameTooShort)
    else if |trimmed| > UsernameMaxLength then Some(UsernameTooLong)
    else if HasSpace(trimmed) then
      UsernameCharsAreNotSpace(trimmed);
      Some(UsernameHasSpaces)
    else if !MatchesUsernamePattern(trimmed) then Some(UsernameInvalidFormat)
    else None
  }

  /** `validateUsername` reports the first failing check of UsernameChecks on the trimmed name. */
  lemma ValidateUsernameReportsFirstFailure(username: string)
    ensures ValidateUsername(username) == FirstFailure(UsernameChecks(Trim(username)))
  {
    var t := Trim(username);
    FirstFailureOfFive(
      Check(|t| != 0, UsernameRequired),
      Check(|t| >= UsernameMinLength, UsernameTooShort),
      Check(|t| <= UsernameMaxLength, UsernameTooLong),
      Check(!HasSpace(t), UsernameHasSpaces),
      Check(MatchesUsernamePattern(t), UsernameInvalidFormat));
  }

  /** Leading and trailing white space never changes the verdict. */
  lemma PaddingNeverRejects(ws: string, username: string, ws': string)
    requires AllSpace(ws) && AllSpace(ws')
    ensures ValidateUsername(ws + username + ws') == ValidateUsername(username)
  {
    TrimIgnoresPadding(ws, username, ws');
  }

  /** The length checks: a trimmed name of 1 to 3 characters is too short, one over 40 too long. */
  lemma LengthMessages(username: string)
    ensures 0 < |Trim(username)| < 4 ==> ValidateUsername(username) == Some(UsernameTooShort)
    ensures |Trim(username)| > 40 ==> ValidateUsername(username) == Some(UsernameTooLong)
    ensures |Trim(username)| == 0 <==> ValidateUsername(username) == Some(UsernameRequired)
  {
  }

  /** Inner white space is reported as such, although the format check would also reject it. */
  lemma SpacesReportedBeforeFormat(username: string)
    requires 4 <= |Trim(username)| <= 40 && HasSpace(Trim(username))
    ensures ValidateUsername(username) == Some(UsernameHasSpaces)
    ensures !MatchesUsernamePattern(Trim(username))
  {
    SpaceBreaksPattern(Trim(username));
  }

  /** A white-space character is outside the username alphabet. */
  lemma SpaceBreaksPattern(t: string)
    requires HasSpace(t)
    ensures !MatchesUsernamePattern(t)
  {
    var i :| 0 <= i < |t| && IsSpace(t[i]);
    assert !UsernameChar(t[i]);
  }

  /** What the submit handler does next. */
  datatype SubmitAction = ShowError(message: string) | Login(username: string) | Create(username: string)

  /** `handleSubmit` up to the API call: validate, then log in or register the trimmed name. */
  function HandleSubmit(username: string, isLogin: bool): (a: SubmitAction)
    ensures a.ShowError? <==> ValidateUsername(username).Some?
    ensures a.ShowError? ==> a.message == ValidateUsername(username).value
    ensures !a.ShowError? ==> a.username == Trim(username) && (a.Login? <==> isLogin)
  {
    var validationError := ValidateUsername(username);
    if validationError.Some? then ShowError(validationError.value)
    else if isLogin then Login(Trim(username))
    else Create(Trim(username))
  }

  /** A name the server is sent has no white space at either end and fits the rules. */
  lemma SubmittedNameIsClean(username: string, isLogin: bool)
    requires !HandleSubmit(username, isLogin).ShowError?
    ensures var u := HandleSubmit(username, isLogin).username;
      4 <= |u| <= 40 && !HasSpace(u) && ValidateUsername(u) == None
  {
    var u := Trim(username);
    assert HandleSubmit(username, isLogin).username == u;
    assert UsernameMinLength <= |u| <= UsernameMaxLength && forall i :: 0 <= i < |u| ==> UsernameChar(u[i]) by {
      assert AcceptableUsername(username);
    }
    assert !HasSpace(u) && Trim(u) == u by {
      AlphabetNameIsTrimmed(u);
    }
    assert ValidateUsername(u) == None by {
      assert AcceptableUsername(u);
    }
  }

  /** A name drawn from the username alphabet has no white space, so trimming leaves it alone. */
  lemma AlphabetNameIsTrimmed(u: string)
    requires forall i :: 0 <= i < |u| ==> UsernameChar(u[i])
    ensures !HasSpace(u) && Trim(u) == u
  {
    UsernameCharsAreNotSpace(u);
    TrimIgnoresPadding([], u, []);
    assert [] + u + [] == u;
  }

  /** The message shown when the API call fails: the server's error text, else a fixed hint. */
  function FailureMessage(serverError: Option<string>, isLogin: bool): (m: string)
    ensures SomeTruthy(serverError) ==> m == serverError.value
    ensures !SomeTruthy(serverError) && isLogin ==> m == "User not found. Please check your username or create a new account."
    ensures !SomeTruthy(serverError) && !isLogin ==> m == "Failed to create user. Username may already exist."
  {
    OrElse(serverError,
      if isLogin then "User not found. Please check your username or create a new account."
      else "Failed to create user. Username may already exist.")
  }
}
