/**
 * `src/pages/Auth.tsx`: the sign-in and sign-up forms. Input is checked
 * against the auth schema before the backend is called; the username is
 * turned into the e-mail address the backend knows. The backend's reply is
 * a parameter of each handler, and so is the page's origin.
 */
module Auth {
  import opened Wrappers
  import opened Text

  // ---------------------------------------------------------------------
  // The auth schema

  const UsernameTooShort := "Username must be at least 2 characters"
  /** zod's default message for `.max(50)`. */
  const UsernameTooLong := "String must contain at most 50 character(s)"
  const UsernameBadChars := "Username can only contain letters, numbers, and underscores"
  const PasswordTooShort := "Password must be at least 6 characters"
  /** zod's default message for `.max(100)`. */
  const PasswordTooLong := "String must contain at most 100 character(s)"

  /** `[a-zA-Z0-9_]` */
  predicate UsernameChar(c: char) {
    ('a' <= c <= 'z') || ('A' <= c <= 'Z') || ('0' <= c <= '9') || c == '_'
  }

  /** `/^[a-zA-Z0-9_]+$/` */
  predicate MatchesUsernamePattern(u: string) {
    |u| >= 1 && forall i :: 0 <= i < |u| ==> UsernameChar(u[i])
  }

  /** Every problem the schema reports, in its order: username checks, then password checks. */
  function AuthIssues(username: string, password: string): seq<string> {
    (if |username| < 2 then [UsernameTooShort] else [])
    + (if |username| > 50 then [UsernameTooLong] else [])
    + (if MatchesUsernamePattern(username) then [] else [UsernameBadChars])
    + (if |password| < 6 then [PasswordTooShort] else [])
    + (if |password| > 100 then [PasswordTooLong] else [])
  }

  /** The username half of the acceptance rule. */
  predicate ValidUsername(username: string) {
    && 2 <= |username| <= 50
    && (forall i :: 0 <= i < |username| ==> UsernameChar(username[i]))
  }

  /** The acceptance rule written out. */
  predicate ValidCredentials(username: string, password: string) {
    ValidUsername(username) && 6 <= |password| <= 100
  }

  /** `authSchema.parse({ username, password })`: nothing, or the first error's message. */
  function CheckCredentials(username: string, password: string): (r: Option<string>)
    ensures r.None? <==> ValidCredentials(username, password)
  {
    var issues := AuthIssues(username, password);
    if issues == [] then None else Some(issues[0])
  }

  /** The first failing rule is the one reported: length, then pattern, then the password. */
  lemma FirstAuthIssue(username: string, password: string)
    ensures |username| < 2 ==> CheckCredentials(username, password) == Some(UsernameTooShort)
    ensures |username| > 50 ==> CheckCredentials(username, password) == Some(UsernameTooLong)
    ensures (2 <= |username| <= 50 && !MatchesUsernamePattern(username))
      ==> CheckCredentials(username, password) == Some(UsernameBadChars)
    ensures (ValidUsername(username) && |password| < 6)
      ==> CheckCredentials(username, password) == Some(PasswordTooShort)
    ensures (ValidUsername(username) && |password| > 100)
      ==> CheckCredentials(username, password) == Some(PasswordTooLong)
  {
  }

  // ---------------------------------------------------------------------
  // usernameToEmail

  const EmailDomain := "@sims.local"

  /** `` `${username.toLowerCase()}@sims.local` `` */
  function UsernameToEmail(username: string): (r: string)
    ensures |r| == |username| + |EmailDomain|
    ensures r[..|username|] == Lower(username) && r[|username|..] == EmailDomain
  {
    Lower(username) + EmailDomain
  }

  /** Two usernames share an address exactly when they agree once lower-cased. */
  lemma EmailIffSameLowered(a: string, b: string)
    ensures UsernameToEmail(a) == UsernameToEmail(b) <==> Lower(a) == Lower(b)
  {
    if UsernameToEmail(a) == UsernameToEmail(b) {
      assert |a| == |b|;
      assert Lower(a) == UsernameToEmail(a)[..|a|];
    }
  }

  /** Usernames that differ only in case sign in to the same account. */
  lemma CaseVariantsShareEmail(username: string)
    ensures UsernameToEmail(Upper(username)) == UsernameToEmail(username)
  {
    LowerOfUpper(username);
  }

  // ---------------------------------------------------------------------
  // The handlers

  datatype Toast = Toast(title: string, description: string, destructive: bool)

  /** The backend's reply to a sign-in or sign-up. */
  datatype AuthReply = Accepted | Rejected(message: string)

  datatype SignInRequest = SignInRequest(email: string, password: string)

  datatype SignUpRequest = SignUpRequest(email: string, password: string, redirectTo: string, fullName: string)

  /** What a handler does: the request it sends, the notice it shows, where it navigates. */
  datatype Outcome<R> = Outcome(request: Option<R>, toast: Toast, navigateTo: Option<string>)

  function ValidationToast(message: string): Toast {
    Toast("Validation Error", message, true)
  }

  /**
   * `handleLogin`: invalid input is reported and never sent; a rejected
   * sign-in says only that the username or password is wrong; a
   * successful one greets the user and goes to the dashboard.
   */
  function HandleLogin(username: string, password: string, reply: AuthReply): (o: Outcome<SignInRequest>)
    ensures o.request.Some? <==> ValidCredentials(username, password)
    ensures o.request.Some? ==> o.request.value == SignInRequest(UsernameToEmail(username), password)
    ensures !ValidCredentials(username, password) ==>
      o.toast == ValidationToast(CheckCredentials(username, password).value) && o.navigateTo.None?
    ensures ValidCredentials(username, password) && reply.Rejected? ==>
      o.toast == Toast("Login Failed", "Invalid username or password", true) && o.navigateTo.None?
    ensures o.navigateTo.Some? <==> ValidCredentials(username, password) && reply == Accepted
    ensures o.navigateTo.Some? ==> o.navigateTo.value == "/" && !o.toast.destructive
  {
    match CheckCredentials(username, password)
    case Some(message) => Outcome(None, ValidationToast(message), None)
    case None =>
      var request := SignInRequest(UsernameToEmail(username), password);
      if reply.Rejected? then
        Outcome(Some(request), Toast("Login Failed", "Invalid username or password", true), None)
      else
        Outcome(Some(request), Toast("Welcome back, " + username + "!", "Successfully logged in", false), Some("/"))
  }

  /** The sign-up failure notice: the taken-username message, or the backend's own. */
  function SignupErrorToast(message: string): (t: Toast)
    ensures t.destructive
    ensures Contains(message, "already registered") ==>
      t == Toast("Username Taken", "This username is already registered", true)
    ensures !Contains(message, "already registered") ==> t == Toast("Signup Failed", message, true)
  {
    if Contains(message, "already registered") then Toast("Username Taken", "This username is already registered", true)
    else Toast("Signup Failed", message, true)
  }

  /**
   * `handleSignup`: invalid input is reported and never sent; the request
   * carries the derived address, the page's origin with a trailing slash
   * as the confirmation link, and the username as the full name.
   */
  function HandleSignup(username: string, password: string, origin: string, reply: AuthReply): (o: Outcome<SignUpRequest>)
    ensures o.request.Some? <==> ValidCredentials(username, password)
    ensures o.request.Some? ==>
      o.request.value == SignUpRequest(UsernameToEmail(username), password, origin + "/", username)
    ensures !ValidCredentials(username, password) ==>
      o.toast == ValidationToast(CheckCredentials(username, password).value) && o.navigateTo.None?
    ensures ValidCredentials(username, password) && reply.Rejected? ==>
      o.toast == SignupErrorToast(reply.message) && o.navigateTo.None?
    ensures o.navigateTo.Some? <==> ValidCredentials(username, password) && reply == Accepted
    ensures o.navigateTo.Some? ==> o.navigateTo.value == "/" && o.toast.title == "Account Created!"
  {
    match CheckCredentials(username, password)
    case Some(message) => Outcome(None, ValidationToast(message), None)
    case None =>
      var request := SignUpRequest(UsernameToEmail(username), password, origin + "/", username);
      if reply.Rejected? then Outcome(Some(request), SignupErrorToast(reply.message), None)
      else Outcome(Some(request), Toast("Account Created!", "Welcome, " + username + "!", false), Some("/"))
  }

  /** Invalid input never reaches the backend, whatever it would have answered. */
  lemma InvalidNeverSent(username: string, password: string, origin: string, reply: AuthReply)
    requires !ValidCredentials(username, password)
    ensures HandleLogin(username, password, reply).request.None?
    ensures HandleSignup(username, password, origin, reply).request.None?
    ensures HandleLogin(username, password, reply).toast.title == "Validation Error"
    ensures HandleSignup(username, password, origin, reply).toast.title == "Validation Error"
  {
  }

  /** For an accepted username the derived address is the username itself, lower-cased, at the local domain. */
  lemma ValidUsernameEmail(username: string, password: string)
    requires ValidCredentials(username, password)
    ensures forall i :: 0 <= i < |username| ==> UsernameChar(UsernameToEmail(username)[i])
    ensures forall i :: 0 <= i < |username| ==> !IsUpperLetter(UsernameToEmail(username)[i])
  {
    forall i | 0 <= i < |username|
      ensures UsernameChar(UsernameToEmail(username)[i]) && !IsUpperLetter(UsernameToEmail(username)[i])
    {
      assert UsernameToEmail(username)[i] == Lower(username)[i] == LowerChar(username[i]);
    }
  }

  /** On mount, a visitor who already has a session is sent to the dashboard. */
  function MountRedirect(hasSession: bool): (r: Option<string>)
    ensures r.Some? <==> hasSession
    ensures r.Some? ==> r.value == "/"
  {
    if hasSession then Some("/") else None
  }
}
