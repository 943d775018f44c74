/**
 * The sign-in page: the login and registration form schemas, the username
 * availability check run as the user types, and the guard on submitting a
 * registration. Lengths are JavaScript lengths (UTF-16 code units).
 */
module AuthPage {
  import opened Wrappers
  import JsString
  import Auth

  /** `loginSchema`: both fields non-empty. */
  function LoginFormAccepts(username: string, password: string): (ok: bool)
    ensures ok <==> username != "" && password != ""
  {
    JsString.JsLength(username) >= 1 && JsString.JsLength(password) >= 1
  }

  /** The class `[a-zA-Z0-9_]`. */
  predicate IsUsernameChar(c: char)
  {
    'a' <= c <= 'z' || 'A' <= c <= 'Z' || '0' <= c <= '9' || c == '_'
  }

  /** `/^[a-zA-Z0-9_]+$/`: one or more characters, all from the class. */
  predicate MatchesUsernamePattern(u: string)
  {
    |u| >= 1 && forall i :: 0 <= i < |u| ==> IsUsernameChar(u[i])
  }

  /**
   * The `username` rule of `registerSchema`: between 3 and 20 code units and only
   * letters, digits and underscores. Since those are all one code unit, this is
   * between 3 and 20 characters.
   */
  function UsernameAccepted(u: string): (ok: bool)
    ensures ok <==> 3 <= |u| <= 20 && forall i :: 0 <= i < |u| ==> IsUsernameChar(u[i])
  {
    var pattern := MatchesUsernamePattern(u);
    if pattern then
      JsString.JsLengthInBmp(u);
      3 <= JsString.JsLength(u) <= 20
    else false
  }

  /**
   * The `password` rule with the refinement: at least 6 code units, and equal to the
   * confirmation. Six code units are at least three characters, and exactly six
   * characters when none lies outside the Basic Multilingual Plane.
   */
  function PasswordAccepted(password: string, confirmPassword: string): (ok: bool)
    ensures ok ==> |password| >= 3 && password == confirmPassword
    ensures JsString.InBmp(password) ==> (ok <==> |password| >= 6 && password == confirmPassword)
  {
    JsString.JsLengthIfBmp(password);
    JsString.JsLength(password) >= 6 && password == confirmPassword
  }

  datatype RegisterValues = RegisterValues(username: string, password: string, confirmPassword: string)

  /** `registerSchema` as a whole. */
  function RegisterFormAccepts(v: RegisterValues): (ok: bool)
    ensures ok ==> v.password == v.confirmPassword && v.username != "" && |v.password| >= 3
    ensures JsString.InBmp(v.password) ==>
      (ok <==> && 3 <= |v.username| <= 20
               && (forall i :: 0 <= i < |v.username| ==> IsUsernameChar(v.username[i]))
               && |v.password| >= 6 && v.password == v.confirmPassword)
  {
    UsernameAccepted(v.username) && PasswordAccepted(v.password, v.confirmPassword)
  }

  /** What the registration mutation sends: the form values without `confirmPassword`. */
  datatype RegisterPayload = RegisterPayload(username: string, password: string)

  /** A registration the form accepts passes the server's own required-field check. */
  lemma AcceptedFormPassesServerCheck(v: RegisterValues)
    requires RegisterFormAccepts(v)
    ensures Auth.Truthy(Some(v.username)) && Auth.Truthy(Some(v.password))
  {
  }

  /** The page's component state. */
  class AuthPageState {
    /** `usernameAvailable`: `None` is null (unknown). */
    var usernameAvailable: Option<bool>
    var checkingUsername: bool
    /** The manual error set on the username field, if any. */
    var usernameError: Option<string>

    constructor ()
      ensures usernameAvailable.None? && !checkingUsername && usernameError.None?
    {
      usernameAvailable, checkingUsername, usernameError := None, false, None;
    }

    /**
     * `handleUsernameChange`: a name shorter than 3 code units resets availability to
     * unknown without asking the server; otherwise the server's answer `available`
     * (the awaited check) becomes the availability. Returns whether the server was asked.
     */
    method HandleUsernameChange(username: string, available: bool) returns (asked: bool)
      modifies this
      ensures asked <==> JsString.JsLength(username) >= 3
      ensures !asked ==> usernameAvailable.None? && checkingUsername == old(checkingUsername)
      ensures asked ==> usernameAvailable == Some(available) && !checkingUsername
      ensures usernameError == old(usernameError)
    {
      if JsString.JsLength(username) < 3 {
        usernameAvailable := None;
        return false;
      }
      checkingUsername := true;
      usernameAvailable := Some(available);
      checkingUsername := false;
      asked := true;
    }

    /**
     * `onRegisterSubmit`: unless the name is known to be available, marks the field as
     * taken and sends nothing; otherwise sends the values without the confirmation.
     */
    method OnRegisterSubmit(values: RegisterValues) returns (sent: Option<RegisterPayload>)
      modifies this
      ensures sent.Some? <==> old(usernameAvailable) == Some(true)
      ensures sent.Some? ==>
        sent.value == RegisterPayload(values.username, values.password) && usernameError == old(usernameError)
      ensures sent.None? ==> usernameError == Some("Username is already taken")
      ensures usernameAvailable == old(usernameAvailable) && checkingUsername == old(checkingUsername)
    {
      if usernameAvailable != Some(true) {
        usernameError := Some("Username is already taken");
        return None;
      }
      sent := Some(RegisterPayload(values.username, values.password));
    }
  }
}
