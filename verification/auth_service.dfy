/**
 * The user service's account checks (microservices/user-service/src/modules/auth/service.ts):
 * registration, login and the current-user lookup. Hashing and token signing are parameters.
 */
module AuthService {
  import opened Wrappers
  import opened Failures
  import opened Tables
  import opened Domain
  import opened Users
  import opened UserSchemas

  const EmailExists := "User with this email already exists"
  const BadCredentials := "Invalid email or password"
  const AccountDeleted := "Account has been deleted"

  /** The pair `generateTokens` returns. */
  datatype Tokens = Tokens(accessToken: string, refreshToken: string)

  datatype RegisterInput = RegisterInput(name: string, email: string, password: string)
  datatype LoginInput = LoginInput(email: string, password: string)

  /** What register and login answer: the user without its password, and the signed tokens. */
  datatype AuthResult = AuthResult(user: PublicUser, tokens: Tokens)

  /** The token payload of a stored user: its id, email and role. */
  function Payload(id: Id, u: User): (p: AuthUser)
    ensures p.userId == id && p.email == u.email && ParseRole(p.role) == Some(u.role)
  {
    AuthUser(id, u.email, RoleName(u.role))
  }

  /**
   * `register`: an email any stored user holds (deleted or not) is refused with 400 and nothing
   * is stored; otherwise the user is stored under the new id with the hash of the password and
   * the default role, and answered without the password, with tokens for its payload.
   */
  function Register(users: Table<User>, id: Id, input: RegisterInput, crypto: Crypto, sign: AuthUser -> Tokens)
    : (r: Result<(Table<User>, AuthResult), Failure>)
    requires id !in users
    ensures EmailInUse(users, input.email) ==> r == Err(App(EmailExists, 400, true))
    ensures r.Ok? <==> !EmailInUse(users, input.email)
    ensures r.Ok? ==> r.value.0.Keys == users.Keys + {id} && forall k :: k in users ==> r.value.0[k] == users[k]
    ensures r.Ok? ==> r.value.0[id] == Row(User(input.name, input.email, crypto.hash(input.password), USER), false)
    ensures r.Ok? ==> r.value.1.user == PublicUser(id, input.name, input.email, USER)
    ensures r.Ok? ==> r.value.1.tokens == sign(AuthUser(id, input.email, "USER"))
  {
    if EmailInUse(users, input.email) then Err(AppError(EmailExists, Some(400)))
    else
      var u := User(input.name, input.email, crypto.hash(input.password), USER);
      Ok((users[id := Row(u, false)], AuthResult(Public(id, u), sign(Payload(id, u)))))
  }

  /** A registration keeps every email unique. */
  lemma RegisterKeepsEmailsUnique(users: Table<User>, id: Id, input: RegisterInput, crypto: Crypto, sign: AuthUser -> Tokens)
    requires id !in users && UniqueEmails(users)
    requires Register(users, id, input, crypto, sign).Ok?
    ensures UniqueEmails(Register(users, id, input, crypto, sign).value.0)
  {
    var t := Register(users, id, input, crypto, sign).value.0;
    forall a, b | a in t && b in t && a != b ensures t[a].value.email != t[b].value.email {
      if a == id || b == id {
        var other := if a == id then b else a;
        assert !(other in users && users[other].value.email == input.email);
      }
    }
  }

  /**
   * `login`: an unknown email and a wrong password both answer 401 with the same message; a
   * deleted account answers 403 before its password is looked at; otherwise the user without its
   * password, with tokens for its payload.
   */
  function Login(users: Table<User>, input: LoginInput, crypto: Crypto, sign: AuthUser -> Tokens): (r: Result<AuthResult, Failure>)
    requires UniqueEmails(users)
    ensures !EmailInUse(users, input.email) ==> r == Err(App(BadCredentials, 401, true))
    ensures forall k :: k in users && users[k].value.email == input.email ==>
              && (users[k].deleted ==> r == Err(App(AccountDeleted, 403, true)))
              && (!users[k].deleted && !crypto.matches(input.password, users[k].value.password) ==> r == Err(App(BadCredentials, 401, true)))
              && (r.Ok? <==> !users[k].deleted && crypto.matches(input.password, users[k].value.password))
              && (r.Ok? ==> r.value == AuthResult(Public(k, users[k].value), sign(Payload(k, users[k].value))))
  {
    match ByEmail(users, input.email)
    case None => Err(AppError(BadCredentials, Some(401)))
    case Some(k) =>
      if users[k].deleted then Err(AppError(AccountDeleted, Some(403)))
      else if !crypto.matches(input.password, users[k].value.password) then Err(AppError(BadCredentials, Some(401)))
      else Ok(AuthResult(Public(k, users[k].value), sign(Payload(k, users[k].value))))
  }

  /** The answer does not tell an unknown email from a wrong password. */
  lemma UnknownEmailLooksLikeWrongPassword(users: Table<User>, unknown: LoginInput, wrong: LoginInput, crypto: Crypto, sign: AuthUser -> Tokens)
    requires UniqueEmails(users)
    requires !EmailInUse(users, unknown.email)
    requires exists k :: k in users && users[k].value.email == wrong.email && !users[k].deleted && !crypto.matches(wrong.password, users[k].value.password)
    ensures Login(users, unknown, crypto, sign) == Login(users, wrong, crypto, sign)
  {
  }

  /** Right after registering, the same email and password log in as the registered user. */
  lemma RegisterThenLogin(users: Table<User>, id: Id, input: RegisterInput, crypto: Crypto, sign: AuthUser -> Tokens)
    requires Sound(crypto) && UniqueEmails(users) && id !in users
    requires Register(users, id, input, crypto, sign).Ok?
    ensures var (t, registered) := Register(users, id, input, crypto, sign).value;
            UniqueEmails(t) && Login(t, LoginInput(input.email, input.password), crypto, sign) == Ok(registered)
  {
    RegisterKeepsEmailsUnique(users, id, input, crypto, sign);
    var t := Register(users, id, input, crypto, sign).value.0;
    assert crypto.matches(input.password, crypto.hash(input.password));
    assert t[id].value.email == input.email;
  }

  /** After a password change the new password logs in and the old check no longer decides. */
  lemma ChangePasswordThenLogin(users: Table<User>, userId: Id, change: ChangePasswordInput, crypto: Crypto, sign: AuthUser -> Tokens)
    requires Sound(crypto) && UniqueEmails(users)
    requires ChangePasswordUserService(users, userId, change, crypto).Ok?
    ensures var t := ChangePasswordUserService(users, userId, change, crypto).value.0;
            UniqueEmails(t) && Login(t, LoginInput(users[userId].value.email, change.newPassword), crypto, sign).Ok?
  {
    NewPasswordMatchesAfterChange(users, userId, change, crypto);
    var t := ChangePasswordUserService(users, userId, change, crypto).value.0;
    assert t[userId].value.email == users[userId].value.email;
  }

  /** A deleted account answers 403 to every password. */
  lemma DeletedAccountCannotLogin(users: Table<User>, id: Id, password: string, crypto: Crypto, sign: AuthUser -> Tokens)
    requires UniqueEmails(users) && id in users
    ensures var t := DeleteUser(users, id).value;
            UniqueEmails(t) && Login(t, LoginInput(users[id].value.email, password), crypto, sign) == Err(App(AccountDeleted, 403, true))
  {
    var t := DeleteUser(users, id).value;
    assert t[id].value.email == users[id].value.email;
  }

  /**
   * `getMe`: 404 for an unknown id, 403 for a deleted account, otherwise the user without its
   * password (and without the `deleted` flag).
   */
  function GetMe(users: Table<User>, userId: Id): (r: Result<PublicUser, Failure>)
    ensures userId !in users ==> r == Err(App(UserNotFound, 404, true))
    ensures userId in users && users[userId].deleted ==> r == Err(App(AccountDeleted, 403, true))
    ensures r.Ok? <==> Live(users, userId)
    ensures r.Ok? ==> Some(r.value) == GetLiveUserById(users, userId)
  {
    if userId !in users then Err(AppError(UserNotFound, Some(404)))
    else if users[userId].deleted then Err(AppError(AccountDeleted, Some(403)))
    else Ok(Public(userId, users[userId].value))
  }
}
