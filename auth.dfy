/** The sign-in endpoints: POST api/auth/login, which checks the request and then asks
    the directory, and GET api/auth/user, which reports the caller's Windows identity.
    The directory is a collaborator whose answers (or exceptions) are parameters. */
module Auth {
  import opened Strings

  /** The login body; a JSON null leaves a property null. */
  datatype LoginRequest = LoginRequest(username: Option<string>, password: Option<string>)

  /** What a call into the directory did: returned a value or threw. */
  datatype Attempt<T> = Returned(value: T) | Threw(message: string)

  /** The directory's record of an account. */
  datatype DirectoryUser = DirectoryUser(
    samAccountName: string,
    displayName: Option<string>,
    emailAddress: Option<string>,
    contextName: string)

  /** The body of a successful login. */
  datatype UserInfo = UserInfo(
    username: string,
    displayName: Option<string>,
    email: Option<string>,
    domain: string,
    isAuthenticated: bool)

  datatype LoginResponse =
    | LoginOk(info: UserInfo)
    | LoginBadRequest(message: string)
    | LoginUnauthorized(message: string)
    | LoginServerError(message: string, error: string)

  const RequiredMessage: string := "Username and password are required"
  const InvalidMessage: string := "Invalid username or password"
  const ErrorMessage: string := "Authentication error"

  /** string.IsNullOrEmpty. */
  predicate IsNullOrEmpty(s: Option<string>) {
    s.None? || s.value == []
  }

  /** Login: an empty field is refused before the directory is asked; then the
      credentials must check out and the account must be found; an exception from the
      directory is a 500 carrying its message. */
  function Login(request: LoginRequest, validate: Attempt<bool>, find: Attempt<Option<DirectoryUser>>): (r: LoginResponse)
    ensures r.LoginOk? ==>
      find.Returned? && find.value.Some? && r.info.isAuthenticated && r.info.username == find.value.value.samAccountName
  {
    if IsNullOrEmpty(request.username) || IsNullOrEmpty(request.password) then LoginBadRequest(RequiredMessage)
    else
      match validate
      case Threw(m) => LoginServerError(ErrorMessage, m)
      case Returned(false) => LoginUnauthorized(InvalidMessage)
      case Returned(true) =>
        match find
        case Threw(m) => LoginServerError(ErrorMessage, m)
        case Returned(None) => LoginUnauthorized(InvalidMessage)
        case Returned(Some(u)) =>
          LoginOk(UserInfo(u.samAccountName, u.displayName, u.emailAddress, u.contextName, true))
  }

  /** An empty or missing field is a 400 whatever the directory would have said. */
  lemma EmptyFieldSkipsDirectory(request: LoginRequest, v1: Attempt<bool>, f1: Attempt<Option<DirectoryUser>>,
      v2: Attempt<bool>, f2: Attempt<Option<DirectoryUser>>)
    ensures Login(request, v1, f1).LoginBadRequest? <==>
      (IsNullOrEmpty(request.username) || IsNullOrEmpty(request.password))
    ensures Login(request, v1, f1).LoginBadRequest? ==> Login(request, v1, f1) == Login(request, v2, f2)
  {
  }

  /** Success needs both fields, credentials the directory accepts and an account it
      finds; every other answer of the directory that does not throw is a 401. */
  lemma LoginOkIff(request: LoginRequest, validate: Attempt<bool>, find: Attempt<Option<DirectoryUser>>)
    ensures Login(request, validate, find).LoginOk? <==>
      (!IsNullOrEmpty(request.username) && !IsNullOrEmpty(request.password)
      && validate == Returned(true) && find.Returned? && find.value.Some?)
    ensures Login(request, validate, find).LoginUnauthorized? <==>
      (!IsNullOrEmpty(request.username) && !IsNullOrEmpty(request.password)
      && (validate == Returned(false) || (validate == Returned(true) && find == Returned(None))))
  {
  }

  /** An exception from the directory is always a 500, never a success or a 401. */
  lemma DirectoryExceptionIs500(request: LoginRequest, validate: Attempt<bool>, find: Attempt<Option<DirectoryUser>>)
    requires !IsNullOrEmpty(request.username) && !IsNullOrEmpty(request.password)
    requires validate.Threw? || (validate == Returned(true) && find.Threw?)
    ensures Login(request, validate, find).LoginServerError?
    ensures Login(request, validate, find).message == ErrorMessage
  {
  }

  // ---------------------------------------------------------------------------
  // GET api/auth/user

  /** The caller's identity as the authentication middleware sets it. */
  datatype Identity = Identity(isAuthenticated: bool, name: Option<string>)

  datatype CurrentUser = CurrentUser(
    username: Option<string>,
    displayName: Option<string>,
    domain: Option<string>,
    isAuthenticated: bool)

  datatype CurrentUserResponse = UserOk(user: CurrentUser) | UserUnauthorized

  /** `name.Split('\\').LastOrDefault()`: the part after the last backslash. */
  function DisplayNameOf(name: string): string {
    var parts := Split(name, '\\');
    parts[|parts| - 1]
  }

  /** `name.Split('\\').FirstOrDefault()`: the part before the first backslash. */
  function DomainOf(name: string): string {
    Split(name, '\\')[0]
  }

  /** The display name is the longest backslash-free suffix of the name and the domain
      the longest backslash-free prefix. */
  lemma NameParts(name: string)
    ensures var d := DisplayNameOf(name);
      '\\' !in d && |d| <= |name| && name[|name| - |d|..] == d && (|d| < |name| ==> name[|name| - |d| - 1] == '\\')
    ensures var p := DomainOf(name);
      '\\' !in p && p <= name && (|p| < |name| ==> name[|p|] == '\\')
  {
    SplitLast(name, '\\');
    SplitFirst(name, '\\');
  }

  /** A name without a backslash is its own display name and its own domain. */
  lemma NameWithoutDomain(name: string)
    requires '\\' !in name
    ensures DisplayNameOf(name) == name && DomainOf(name) == name
  {
    SplitWithoutSeparator(name, '\\');
  }

  /** `DOMAIN\user` splits back into DOMAIN and user. */
  lemma DomainAndUser(domain: string, user: string)
    requires '\\' !in domain && '\\' !in user
    ensures DomainOf(domain + "\\" + user) == domain
    ensures DisplayNameOf(domain + "\\" + user) == user
  {
    SplitAfterPiece(domain, user, '\\');
    SplitWithoutSeparator(user, '\\');
  }

  /** GetCurrentUser: an authenticated caller gets the name and its parts, anyone else
      401. */
  function GetCurrentUser(identity: Option<Identity>): (r: CurrentUserResponse)
    ensures r.UserOk? <==> identity.Some? && identity.value.isAuthenticated
    ensures r.UserOk? ==> r.user.isAuthenticated && r.user.username == identity.value.name
    ensures r.UserOk? && identity.value.name.Some? ==>
      r.user.displayName == Some(DisplayNameOf(identity.value.name.value))
      && r.user.domain == Some(DomainOf(identity.value.name.value))
    ensures r.UserOk? && identity.value.name.None? ==> r.user.displayName.None? && r.user.domain.None?
  {
    if identity.Some? && identity.value.isAuthenticated then
      var name := identity.value.name;
      UserOk(CurrentUser(name,
        if name.Some? then Some(DisplayNameOf(name.value)) else None,
        if name.Some? then Some(DomainOf(name.value)) else None,
        true))
    else UserUnauthorized
  }
}
