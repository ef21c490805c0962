/**
 * The server's auth routes (routes/authentication.js): `/authenticated`
 * echoes the user the passport middleware resolved, `/login` checks
 * credentials against the user collection and signs a token, `/register`
 * adds a user. The database, bcrypt and jsonwebtoken are collaborators given
 * as parameters.
 */
module Authentication {
  import opened Wrappers
  import opened Http
  import ValidateBody

  /** The outcome of a call into a collaborator that may throw. */
  datatype Try<T> = Ok(value: T) | Threw

  /** The fields of the request body the handlers read. */
  datatype Credentials = Credentials(name: Option<string>, email: string, password: string)

  /** The payload `/login` signs. */
  datatype TokenPayload = TokenPayload(id: string, name: Option<string>)

  /**
   * The collaborators: whether `User.findOne` or `newUser.save()` rejects,
   * `bcrypt.compare(raw, stored)`, `jwtSign(payload, secret, { expiresIn })`
   * with the secret fixed, and the function the name `passwordHash` denotes.
   */
  datatype Collaborators = Collaborators(
    findFails: bool,
    compare: (string, string) -> Try<bool>,
    sign: (TokenPayload, nat) -> Try<string>,
    hash: string -> Try<string>,
    saveFails: bool)

  /** A token's lifetime, one year in seconds. */
  const TokenLifetime: nat := 31556926

  const LoginInvalid := Response(404, Messages(map["emailnotfound" := "Email or password is invalid."]))
  const LoginError := Response(500, Messages(map["default" := "Something went wrong trying to log in."]))
  const EmailTaken := Response(400, Messages(map["email" := "Email already exists."]))
  const RegisterError := Response(500, Messages(map["default" := "Something went wrong creating your account."]))

  /** `POST /authenticated`, after the middleware has put the user on the request. */
  function Authenticated(user: UserRecord): (r: Response)
    ensures r.status == 200 && r.body == UserDoc(user)
  {
    Response(200, UserDoc(user))
  }

  /** What the login handler ends with: a response sent, or a value returned and never sent. */
  datatype LoginOutcome = Sent(response: Response) | Returned(success: bool, token: string, user: UserRecord)

  /** The payload signed for a user. */
  function PayloadOf(u: UserRecord): (p: TokenPayload)
    ensures p.id == u.id && p.name == u.name
  {
    TokenPayload(u.id, u.name)
  }

  /** The password check passes for `c` against the user stored under its email. */
  predicate PasswordMatches(users: map<string, UserRecord>, c: Credentials, ext: Collaborators)
    requires c.email in users
  {
    ext.compare(c.password, users[c.email].password) == Ok(true)
  }

  /** The login handler, after validation. */
  function LoginHandler(users: map<string, UserRecord>, c: Credentials, ext: Collaborators): (o: LoginOutcome)
    // success: the stored user, with "Bearer " before the signed payload {id, name}
    ensures o.Returned? <==>
      !ext.findFails && c.email in users && PasswordMatches(users, c, ext)
      && ext.sign(PayloadOf(users[c.email]), TokenLifetime).Ok?
    ensures o.Returned? ==>
      o.success && o.user == users[c.email]
      && o.token == "Bearer " + ext.sign(PayloadOf(users[c.email]), TokenLifetime).value
    // unknown email and wrong password give one and the same 404
    ensures o == Sent(LoginInvalid) <==>
      !ext.findFails && (c.email !in users || ext.compare(c.password, users[c.email].password) == Ok(false))
    // anything that throws gives the fixed 500
    ensures o.Sent? ==> o.response == LoginInvalid || o.response == LoginError
  {
    if ext.findFails then Sent(LoginError)
    else if c.email !in users then Sent(LoginInvalid)
    else
      var user := users[c.email];
      match ext.compare(c.password, user.password)
      case Threw => Sent(LoginError)
      case Ok(isMatch) =>
        if !isMatch then Sent(LoginInvalid)
        else
          match ext.sign(PayloadOf(user), TokenLifetime)
          case Threw => Sent(LoginError)
          case Ok(token) => Returned(true, "Bearer " + token, user)
  }

  /** `POST /login`: the validation gate, then the handler. */
  function LoginRoute(validator: Credentials -> ValidateBody.ValidatorResult, users: map<string, UserRecord>,
                      c: Credentials, ext: Collaborators): (o: LoginOutcome)
    ensures !validator(c).True? ==>
      o == Sent(Response(400, Messages(ValidateBody.MapValidationErrors(validator(c).list))))
    ensures validator(c).True? ==> o == LoginHandler(users, c, ext)
  {
    match ValidateBody.ValidateBodyWith(validator, c)
    case Halt(response) => Sent(response)
    case Next => LoginHandler(users, c, ext)
  }

  /** Enumeration resistance: an unknown email looks exactly like a wrong password. */
  lemma UnknownEmailLooksLikeWrongPassword(users: map<string, UserRecord>, c: Credentials, d: Credentials,
                                           ext: Collaborators)
    requires !ext.findFails && c.email !in users
    requires d.email in users && ext.compare(d.password, users[d.email].password) == Ok(false)
    ensures LoginHandler(users, c, ext) == LoginHandler(users, d, ext) == Sent(LoginInvalid)
  {
  }

  /** The register handler's response and the collection it leaves. */
  datatype RegisterResult = RegisterResult(response: Response, users: map<string, UserRecord>)

  /** The document `new User({ name, email, password })` builds, given its fresh id. */
  function NewUser(c: Credentials, hashed: string, newId: string): (u: UserRecord)
    ensures u.id == newId && u.name == c.name && u.email == c.email && u.password == hashed
  {
    UserRecord(newId, c.name, c.email, hashed)
  }

  /** The register handler, after validation. */
  function RegisterHandler(users: map<string, UserRecord>, c: Credentials, ext: Collaborators, newId: string)
    : (r: RegisterResult)
    // nothing but a 200 changes the collection
    ensures r.response.status != 200 ==> r.users == users
    // a taken email is the conflict, and only a taken email is
    ensures r.response == EmailTaken <==> !ext.findFails && c.email in users
    ensures r.response == EmailTaken ==> r.users == users
    // a 200 adds exactly the new document, with the hashed password, and echoes it
    ensures r.response.status == 200 <==>
      !ext.findFails && c.email !in users && ext.hash(c.password).Ok? && !ext.saveFails
    ensures r.response.status == 200 ==>
      var u := NewUser(c, ext.hash(c.password).value, newId);
      r.users == users[c.email := u] && r.response.body == UserDoc(u)
    // every other outcome is the fixed 500
    ensures r.response.status != 200 && r.response != EmailTaken ==> r.response == RegisterError
  {
    if ext.findFails then RegisterResult(RegisterError, users)
    else if c.email in users then RegisterResult(EmailTaken, users)
    else
      match ext.hash(c.password)
      case Threw => RegisterResult(RegisterError, users)
      case Ok(hashed) =>
        var u := NewUser(c, hashed, newId);
        if ext.saveFails then RegisterResult(RegisterError, users)
        else RegisterResult(Response(200, UserDoc(u)), users[c.email := u])
  }

  /** `POST /register`: the validation gate, then the handler. */
  function RegisterRoute(validator: Credentials -> ValidateBody.ValidatorResult, users: map<string, UserRecord>,
                         c: Credentials, ext: Collaborators, newId: string): (r: RegisterResult)
    ensures !validator(c).True? ==>
      r == RegisterResult(Response(400, Messages(ValidateBody.MapValidationErrors(validator(c).list))), users)
    ensures validator(c).True? ==> r == RegisterHandler(users, c, ext, newId)
  {
    match ValidateBody.ValidateBodyWith(validator, c)
    case Halt(response) => RegisterResult(response, users)
    case Next => RegisterHandler(users, c, ext, newId)
  }

  /** Registering an email twice: the second attempt is a conflict and adds nothing. */
  lemma RegisterTwiceConflicts(users: map<string, UserRecord>, c: Credentials, d: Credentials,
                                  ext: Collaborators, id1: string, id2: string)
    requires RegisterHandler(users, c, ext, id1).response.status == 200
    requires d.email == c.email && !ext.findFails
    ensures var after := RegisterHandler(users, c, ext, id1).users;
      RegisterHandler(after, d, ext, id2) == RegisterResult(EmailTaken, after)
  {
  }

  /**
   * Register, then log in with the same credentials: when bcrypt accepts the
   * password against its own hash and signing succeeds, the login returns the
   * new user and a token signed over that user's id and name.
   */
  lemma RegisterThenLogin(users: map<string, UserRecord>, c: Credentials, ext: Collaborators, newId: string)
    requires RegisterHandler(users, c, ext, newId).response.status == 200
    requires ext.compare(c.password, ext.hash(c.password).value) == Ok(true)
    requires ext.sign(TokenPayload(newId, c.name), TokenLifetime).Ok?
    ensures var after := RegisterHandler(users, c, ext, newId).users;
      LoginHandler(after, c, ext)
      == Returned(true, "Bearer " + ext.sign(TokenPayload(newId, c.name), TokenLifetime).value,
                  NewUser(c, ext.hash(c.password).value, newId))
  {
  }

  /**
   * `passwordHash` is not bound in this file, so evaluating it throws a
   * ReferenceError: this is the collaborator set the route actually runs with.
   */
  function AsWritten(ext: Collaborators): (w: Collaborators)
    ensures forall p :: w.hash(p) == Threw
    ensures w.findFails == ext.findFails && w.saveFails == ext.saveFails
  {
    ext.(hash := (_: string) => Threw)
  }

  /** As written, no registration ever succeeds: a new email always gets the 500. */
  lemma RegisterAsWrittenNeverCreates(users: map<string, UserRecord>, c: Credentials, ext: Collaborators,
                                      newId: string)
    requires !ext.findFails && c.email !in users
    ensures RegisterHandler(users, c, AsWritten(ext), newId) == RegisterResult(RegisterError, users)
  {
  }

  /** The `User` collection, keyed by email. */
  class UserCollection {
    var users: map<string, UserRecord>

    constructor (users: map<string, UserRecord>)
      ensures this.users == users
    {
      this.users := users;
    }

    /** `POST /register` run against the collection. */
    method Register(validator: Credentials -> ValidateBody.ValidatorResult, c: Credentials,
                    ext: Collaborators, newId: string) returns (response: Response)
      modifies this`users
      ensures RegisterResult(response, users) == RegisterRoute(validator, old(users), c, ext, newId)
      ensures response.status != 200 ==> users == old(users)
    {
      var gate := ValidateBody.ValidateBodyWith(validator, c);
      if gate.Halt? {
        return gate.response;
      }
      if ext.findFails {
        return RegisterError;
      }
      if c.email in users {
        return EmailTaken;
      }
      var hashed := ext.hash(c.password);
      if hashed.Threw? {
        return RegisterError;
      }
      var newUser := NewUser(c, hashed.value, newId);
      if ext.saveFails {
        return RegisterError;
      }
      users := users[c.email := newUser];
      response := Response(200, UserDoc(newUser));
    }
  }
}
