/** The sign-in form: the two fields, their error messages, the check made on submit,
    and the Windows sign-in that takes the name the API reports. */
module Login {
  import opened Strings
  import opened Auth

  const UsernameRequired: string := "Username is required"
  const PasswordRequired: string := "Password is required"
  const PasswordTooShort: string := "Password must be at least 6 characters"
  const WindowsPassword: string := "windows-auth"

  /** The message the password gets on submit: required when empty, too short under six
      code units, none otherwise. */
  function PasswordMessage(password: string): (m: string)
    ensures m in [PasswordRequired, PasswordTooShort, ""]
    ensures m == "" <==> password != [] && Utf16Length(password) >= 6
  {
    if password == [] then PasswordRequired
    else if Utf16Length(password) < 6 then PasswordTooShort
    else ""
  }

  function UsernameMessage(username: string): (m: string)
    ensures m == "" <==> username != []
  {
    if username == [] then UsernameRequired else ""
  }

  /** A username and a password of at least six code units. */
  predicate IsValidLogin(username: string, password: string) {
    username != [] && password != [] && Utf16Length(password) >= 6
  }

  /** A password of three characters beyond the Basic Multilingual Plane is long
      enough, as JavaScript counts. */
  lemma ThreeAstralCharactersAreEnough()
    ensures IsValidLogin("u", "\U{1F600}\U{1F600}\U{1F600}")
    ensures |"\U{1F600}\U{1F600}\U{1F600}"| == 3
  {
  }

  /** What onLogin receives; the username is null only when the Windows sign-in gets a
      user without a name. */
  datatype Credentials = Credentials(username: Option<string>, password: string)

  class LoginForm {
    var username: string
    var password: string
    var showPassword: bool
    var usernameError: string
    var passwordError: string

    /** A message on a field is the one its current value earns: errors are set only on
        submit, and editing a field clears its own. */
    predicate Valid()
      reads this
    {
      (usernameError == "" || usernameError == UsernameMessage(username))
      && (passwordError == "" || passwordError == PasswordMessage(password))
    }

    constructor()
      ensures Valid()
      ensures username == "" && password == "" && !showPassword
      ensures usernameError == "" && passwordError == ""
    {
      username := "";
      password := "";
      showPassword := false;
      usernameError := "";
      passwordError := "";
    }

    /** handleUsernameChange: the new value, and its error cleared. */
    method ChangeUsername(value: string)
      requires Valid()
      modifies this
      ensures Valid()
      ensures username == value && usernameError == ""
      ensures password == old(password) && passwordError == old(passwordError)
      ensures showPassword == old(showPassword)
    {
      username := value;
      usernameError := "";
    }

    /** handlePasswordChange: the new value, and its error cleared. */
    method ChangePassword(value: string)
      requires Valid()
      modifies this
      ensures Valid()
      ensures password == value && passwordError == ""
      ensures username == old(username) && usernameError == old(usernameError)
      ensures showPassword == old(showPassword)
    {
      password := value;
      passwordError := "";
    }

    method TogglePasswordVisibility()
      modifies this
      ensures showPassword == !old(showPassword)
      ensures username == old(username) && password == old(password)
      ensures usernameError == old(usernameError) && passwordError == old(passwordError)
    {
      showPassword := !showPassword;
    }

    /** validateForm: each failing check sets its message and clears the flag; a passing
        check leaves its message as it was. */
    method ValidateForm() returns (isValid: bool)
      requires Valid()
      modifies this
      ensures Valid()
      ensures isValid <==> IsValidLogin(username, password)
      ensures username == old(username) && password == old(password) && showPassword == old(showPassword)
      ensures usernameError == UsernameMessage(username)
      ensures passwordError == PasswordMessage(password)
    {
      isValid := true;
      if username == [] {
        usernameError := UsernameRequired;
        isValid := false;
      }
      if password == [] {
        passwordError := PasswordRequired;
        isValid := false;
      } else if Utf16Length(password) < 6 {
        passwordError := PasswordTooShort;
        isValid := false;
      }
    }

    /** handleSubmit: onLogin with the two fields, only when the form is valid. */
    method HandleSubmit() returns (login: Option<Credentials>)
      requires Valid()
      modifies this
      ensures Valid()
      ensures login.Some? <==> IsValidLogin(username, password)
      ensures login.Some? ==> login.value == Credentials(Some(username), password)
      ensures username == old(username) && password == old(password)
      ensures usernameError == UsernameMessage(username) && passwordError == PasswordMessage(password)
    {
      var ok := ValidateForm();
      if ok {
        login := Some(Credentials(Some(username), password));
      } else {
        login := None;
      }
    }
  }

  /** How the browser's GET api/auth/user ends. */
  datatype UserFetch = Answered(response: CurrentUserResponse) | FetchThrew

  /** handleWindowsAuth: on a 200, onLogin with the reported username and the fixed
      password "windows-auth"; otherwise nothing. The fields and their checks play no
      part. */
  function WindowsSignIn(fetch: UserFetch): (login: Option<Credentials>)
    ensures login.Some? <==> fetch.Answered? && fetch.response.UserOk?
    ensures login.Some? ==> login.value == Credentials(fetch.response.user.username, WindowsPassword)
  {
    if fetch.Answered? && fetch.response.UserOk? then
      Some(Credentials(fetch.response.user.username, WindowsPassword))
    else None
  }

  /** The Windows sign-in hands on the whole `DOMAIN\user` name the API reports, not the
      display name the API splits off. */
  lemma WindowsSignInKeepsDomain(domain: string, user: string)
    requires '\\' !in domain && '\\' !in user
    ensures var login := WindowsSignIn(Answered(GetCurrentUser(Some(Identity(true, Some(domain + "\\" + user))))));
      login == Some(Credentials(Some(domain + "\\" + user), WindowsPassword))
      && DisplayNameOf(login.value.username.value) == user
  {
    DomainAndUser(domain, user);
  }
}
