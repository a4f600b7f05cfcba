/** Registration and login. The foreign primitives (the schema's email check,
    bcrypt's hash and compare, jsonwebtoken's sign) are function-valued
    parameters; the salt bcrypt draws at random, the clock and the signing
    secret read from the environment are parameters too. */
module AuthController {
  import opened Http
  import opened Schema
  import TodoModel

  type UserId = TodoModel.UserId

  /** A stored user; `password` holds the bcrypt hash. */
  datatype User = User(id: UserId, name: string, email: string, password: string)

  /** The token's payload: the user id under the key `id`, the issue time and
      the expiry, both in whole seconds. */
  datatype Claims = Claims(id: UserId, iat: int, exp: int)
  datatype Token = Token(claims: Claims, signature: string)

  datatype Primitives = Primitives(
    isEmail: string -> bool,            // the schema's email-shape check
    hash: (string, string) -> string,   // bcrypt.hash(password, salt)
    compare: (string, string) -> bool,  // bcrypt.compare(password, storedHash)
    sign: (Claims, string) -> string)   // jwt.sign(payload, secret)

  datatype Body = Message(text: string) | Error(text: string) | Issues | Issued(token: Token)

  /** `expiresIn: '15m'`, in seconds. */
  const TokenLifetime := 15 * 60

  const InvalidBody := Response(BadRequest, Issues)
  const EmailTaken := Response(BadRequest, Error("Email already exists"))
  const Registered := Response(Created, Message("User registered successfully"))
  const InvalidCredentials := Response(BadRequest, Error("Invalid credentials"))
  const ServerFailure := Response(ServerError, Error("Server error"))

  // ---------------------------------------------------------------------------
  // Request schemas

  datatype RegisterBody = RegisterBody(name: Option<Value>, email: Option<Value>, password: Option<Value>)
  datatype RegisterInput = RegisterInput(name: string, email: string, password: string)

  /** The register schema: a non-empty name, an email-shaped email and a
      password of at least six characters. */
  function ParseRegister(b: RegisterBody, isEmail: string -> bool): (r: Option<RegisterInput>)
    ensures r.Some? <==> && b.name.Some? && b.name.value.Str? && b.name.value.s != ""
                         && b.email.Some? && b.email.value.Str? && isEmail(b.email.value.s)
                         && b.password.Some? && b.password.value.Str? && |b.password.value.s| >= 6
    ensures r.Some? ==> && b.name == Some(Str(r.value.name))
                        && b.email == Some(Str(r.value.email))
                        && b.password == Some(Str(r.value.password))
  {
    match (RequiredString(b.name, 1), RequiredString(b.email, 0), RequiredString(b.password, 6))
    case (Some(name), Some(email), Some(password)) =>
      if isEmail(email) then Some(RegisterInput(name, email, password)) else None
    case _ => None
  }

  datatype LoginBody = LoginBody(email: Option<Value>, password: Option<Value>)
  datatype LoginInput = LoginInput(email: string, password: string)

  /** The login schema: an email-shaped email and a non-empty password. */
  function ParseLogin(b: LoginBody, isEmail: string -> bool): (r: Option<LoginInput>)
    ensures r.Some? <==> && b.email.Some? && b.email.value.Str? && isEmail(b.email.value.s)
                         && b.password.Some? && b.password.value.Str? && b.password.value.s != ""
    ensures r.Some? ==> b.email == Some(Str(r.value.email)) && b.password == Some(Str(r.value.password))
  {
    match (RequiredString(b.email, 0), RequiredString(b.password, 1))
    case (Some(email), Some(password)) =>
      if isEmail(email) then Some(LoginInput(email, password)) else None
    case _ => None
  }

  // ---------------------------------------------------------------------------
  // The user collection

  /** `findOne({ email })`: the position of the first user, in insertion
      order, whose email is exactly `email`. */
  function FindByEmail(users: seq<User>, email: string): (r: Option<nat>)
    ensures r.Some? ==> r.value < |users| && users[r.value].email == email
    ensures r.Some? ==> forall j :: 0 <= j < r.value ==> users[j].email != email
    ensures r.None? ==> forall j :: 0 <= j < |users| ==> users[j].email != email
    decreases |users|
  {
    if users == [] then None
    else match FindByEmail(users[..|users| - 1], email)
      case Some(k) => Some(k)
      case None => if users[|users| - 1].email == email then Some(|users| - 1) else None
  }

  /** No two users share an email. */
  ghost predicate EmailsUnique(users: seq<User>) {
    forall i, j :: 0 <= i < j < |users| ==> users[i].email != users[j].email
  }

  /** Appending a user whose email is not yet taken keeps emails unique. */
  lemma AppendKeepsEmailsUnique(users: seq<User>, u: User)
    requires EmailsUnique(users)
    requires FindByEmail(users, u.email).None?
    ensures EmailsUnique(users + [u])
  {
  }

  /** Once a user is stored, a lookup by their email finds them. */
  lemma FindAppended(users: seq<User>, u: User)
    requires FindByEmail(users, u.email).None?
    ensures FindByEmail(users + [u], u.email) == Some(|users|)
  {
  }

  /** No two users share an id. */
  ghost predicate IdsUnique(users: seq<User>) {
    forall i, j :: 0 <= i < j < |users| ==> users[i].id != users[j].id
  }

  class UserStore {
    var users: seq<User>

    ghost predicate Valid()
      reads this
    {
      EmailsUnique(users) && IdsUnique(users)
    }

    constructor ()
      ensures Valid() && users == []
    {
      users := [];
    }

    /** `register`: validation, then the duplicate check, then one insert of
        the user with the hashed password. `freshId` is the new ObjectId and
        `salt` what `genSalt(10)` returned. */
    method Register(body: RegisterBody, p: Primitives, salt: string, freshId: UserId) returns (resp: Response<Body>)
      requires Valid()
      requires forall i :: 0 <= i < |users| ==> users[i].id != freshId
      modifies this
      ensures Valid()
      ensures ParseRegister(body, p.isEmail).None? ==> resp == InvalidBody && users == old(users)
      ensures ParseRegister(body, p.isEmail).Some? && FindByEmail(old(users), ParseRegister(body, p.isEmail).value.email).Some? ==>
        resp == EmailTaken && users == old(users)
      ensures ParseRegister(body, p.isEmail).Some? && FindByEmail(old(users), ParseRegister(body, p.isEmail).value.email).None? ==>
        var input := ParseRegister(body, p.isEmail).value;
        && users == old(users) + [User(freshId, input.name, input.email, p.hash(input.password, salt))]
        && resp == Registered
    {
      var parsed := ParseRegister(body, p.isEmail);
      if parsed.None? {
        return InvalidBody;
      }
      var input := parsed.value;
      var existing := FindByEmail(users, input.email);
      if existing.Some? {
        return EmailTaken;
      }
      var hashed := p.hash(input.password, salt);
      var user := User(freshId, input.name, input.email, hashed);
      AppendKeepsEmailsUnique(users, user);
      users := users + [user];
      resp := Registered;
    }
  }

  // ---------------------------------------------------------------------------
  // Login

  /** `login` over a read-only view of the users: an unknown email and a wrong
      password give the same response; with a usable secret the caller gets a
      token whose payload names the matched user and expires fifteen minutes
      after it was issued; without one, a server error. `nowMs` is the clock in
      milliseconds; the token's times are whole seconds. */
  function Login(users: seq<User>, body: LoginBody, p: Primitives, secret: Option<string>, nowMs: int): (r: Response<Body>)
    ensures ParseLogin(body, p.isEmail).None? ==> r == InvalidBody
    ensures ParseLogin(body, p.isEmail).Some? ==>
      var input := ParseLogin(body, p.isEmail).value;
      var found := FindByEmail(users, input.email);
      && (found.None? ==> r == InvalidCredentials)
      && (found.Some? && !p.compare(input.password, users[found.value].password) ==> r == InvalidCredentials)
      && (found.Some? && p.compare(input.password, users[found.value].password) ==>
            if secret.None? || secret.value == "" then r == ServerFailure else r.status == Ok)
    ensures r.status == Ok <==> r.body.Issued?
    ensures r.status == Ok ==>
      && ParseLogin(body, p.isEmail).Some?
      && var input := ParseLogin(body, p.isEmail).value;
      && var k := FindByEmail(users, input.email);
      && k.Some?
      && p.compare(input.password, users[k.value].password)
      && secret.Some? && secret.value != ""
      && r.body.token.claims.id == users[k.value].id
      && r.body.token.claims.exp == r.body.token.claims.iat + TokenLifetime
      && r.body.token.claims.iat * 1000 <= nowMs < r.body.token.claims.iat * 1000 + 1000
      && r.body.token.signature == p.sign(r.body.token.claims, secret.value)
    ensures r.status == ServerError ==> r == ServerFailure
  {
    match ParseLogin(body, p.isEmail)
    case None => InvalidBody
    case Some(input) =>
      match FindByEmail(users, input.email)
      case None => InvalidCredentials
      case Some(k) =>
        if !p.compare(input.password, users[k].password) then InvalidCredentials
        else if secret.None? || secret.value == "" then ServerFailure
        else
          var iat := nowMs / 1000;
          var claims := Claims(users[k].id, iat, iat + TokenLifetime);
          Response(Ok, Issued(Token(claims, p.sign(claims, secret.value))))
  }

  /** A correct email with a wrong password and an unknown email are answered
      identically. */
  lemma LoginNoExistenceOracle(
    users: seq<User>, known: LoginBody, unknown: LoginBody, p: Primitives,
    secret: Option<string>, nowMs: int, nowMs': int)
    requires ParseLogin(known, p.isEmail).Some? && ParseLogin(unknown, p.isEmail).Some?
    requires FindByEmail(users, ParseLogin(unknown, p.isEmail).value.email).None?
    requires FindByEmail(users, ParseLogin(known, p.isEmail).value.email).Some?
    requires !p.compare(ParseLogin(known, p.isEmail).value.password,
                        users[FindByEmail(users, ParseLogin(known, p.isEmail).value.email).value].password)
    ensures Login(users, known, p, secret, nowMs) == Login(users, unknown, p, secret, nowMs')
    ensures Login(users, known, p, secret, nowMs) == InvalidCredentials
  {
  }

  /** With a compare that accepts what hash produced, logging in with the
      credentials just registered yields a token for the new user. */
  lemma LoginAfterRegister(
    users: seq<User>, u: User, plain: string, salt: string, body: LoginBody,
    p: Primitives, secret: string, nowMs: int)
    requires FindByEmail(users, u.email).None?
    requires u.password == p.hash(plain, salt)
    requires p.compare(plain, p.hash(plain, salt))
    requires ParseLogin(body, p.isEmail) == Some(LoginInput(u.email, plain))
    requires secret != ""
    ensures Login(users + [u], body, p, Some(secret), nowMs).status == Ok
    ensures Login(users + [u], body, p, Some(secret), nowMs).body.token.claims.id == u.id
  {
  }
}
