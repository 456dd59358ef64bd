/**
 * The account endpoints: register (POST /api/auth/register), login
 * (POST /api/auth/login) and the current user (GET /api/auth/me), over the
 * collection of users. Both register and login answer with a signed token
 * carrying the user's id, e-mail address and role.
 */
module AuthController {
  import opened Options
  import opened JsString
  import opened ObjectIds
  import opened Http
  import opened UserModel
  import opened AuthMiddleware

  const EmailInUse := "Cet email est déjà utilisé"
  const CredentialsRequired := "Email et mot de passe requis"
  const InvalidCredentials := "Identifiants invalides"

  /** Signing a payload with the server's secret and expiry, seen from
      outside: the token text it produces. */
  type Signer = Identity -> string

  /** The `user` object of a register or login answer. */
  datatype UserSummary = UserSummary(id: string, name: string, email: string, role: string)

  /** `{success: true, token, user}`. */
  datatype AuthPayload = AuthPayload(token: string, user: UserSummary)

  /** A user as GET /me shows it: every stored path except the password,
      which the schema never selects by default. */
  datatype PublicUser = PublicUser(id: string, name: string, email: string, role: string,
                                   createdAt: int, updatedAt: int)

  /** `generateToken(id, email, role)`. */
  function GenerateToken(id: string, email: string, role: string, sign: Signer): string {
    sign(Identity(id, email, role))
  }

  function Summary(id: string, u: User): UserSummary {
    UserSummary(id, u.name, u.email, RoleName(u.role))
  }

  /** The token for a stored user, and the user's summary. */
  function Payload(id: string, u: User, sign: Signer): AuthPayload {
    AuthPayload(GenerateToken(id, u.email, RoleName(u.role), sign), Summary(id, u))
  }

  function Public(id: string, u: User): PublicUser {
    PublicUser(id, u.name, u.email, RoleName(u.role), u.createdAt, u.updatedAt)
  }

  /** The users collection: keyed by ObjectId, every document valid, and
      the unique index on `email` holding. */
  predicate ValidUsers(users: map<string, User>) {
    && (forall k :: k in users ==> IsCanonical(k) && ValidUser(users[k]))
    && (forall k1, k2 :: k1 in users && k2 in users && users[k1].email == users[k2].email ==> k1 == k2)
  }

  /** Some stored user has this address. */
  predicate HasEmail(users: map<string, User>, email: string) {
    exists k :: k in users && users[k].email == email
  }

  /** `findOne({email})`: the query runs the schema's lowercase setter on
      the address before matching. */
  ghost function FindByEmail(users: map<string, User>, email: string): (k: Option<string>)
    ensures k.Some? <==> HasEmail(users, ToLower(email))
    ensures k.Some? ==> k.value in users && users[k.value].email == ToLower(email)
  {
    if HasEmail(users, ToLower(email)) then
      var k :| k in users && users[k].email == ToLower(email);
      Some(k)
    else None
  }

  /** With the unique index, the user with an address is the only one. */
  lemma FindByEmailUnique(users: map<string, User>, email: string, k: string)
    requires ValidUsers(users)
    requires k in users && users[k].email == ToLower(email)
    ensures FindByEmail(users, email) == Some(k)
  {
  }

  /** The document a register request hands to `User.create`. */
  function RegisterFields(body: map<string, string>): UserFields {
    UserFields(Get(body, "name"), Get(body, "email"), Get(body, "password"), Get(body, "role"))
  }

  /** The address of the request already belongs to a user. An undefined
      address matches no stored user, all of which have one. */
  predicate EmailTaken(users: map<string, User>, body: map<string, string>) {
    Get(body, "email").Some? && HasEmail(users, ToLower(Get(body, "email").value))
  }

  /** How a register request ends: refused as a duplicate up front, refused
      by the store, or stored as `user`. */
  datatype Registration = Taken | Refused(fault: Fault) | Registered(user: User)

  /** The register request's effect on the collection, with the document's
      save hook having hashed the plaintext with `salt`. */
  function RegisterOutcome(users: map<string, User>, body: map<string, string>, newId: string,
                           salt: string, now: int, hash: (string, string) -> string): (g: Registration)
    ensures g.Taken? <==> EmailTaken(users, body)
    ensures g.Registered? <==>
      !EmailTaken(users, body) && AdmissibleUser(RegisterFields(body)) && newId !in users
    ensures g.Refused? ==> g.fault in {ValidationFailed, DuplicateKey}
  {
    if EmailTaken(users, body) then Taken
    else match ValidateUser(RegisterFields(body), now)
      case Failure(e) => Refused(e)
      case Success(u) =>
        if newId in users then Refused(DuplicateKey)
        else Registered(u.(password := hash(u.password, salt)))
  }

  /** The answer to a register request. */
  function RegisterReply(users: map<string, User>, body: map<string, string>, newId: string,
                         salt: string, now: int, hash: (string, string) -> string,
                         sign: Signer): Reply<AuthPayload> {
    match RegisterOutcome(users, body, newId, salt, now, hash)
    case Taken => BadRequest(EmailInUse)
    case Refused(e) => ServerError(e)
    case Registered(u) => Ok(201, Payload(newId, u, sign))
  }

  /** The collection after a register request. */
  function RegisteredUsers(users: map<string, User>, body: map<string, string>, newId: string,
                           salt: string, now: int, hash: (string, string) -> string): map<string, User> {
    match RegisterOutcome(users, body, newId, salt, now, hash)
    case Registered(u) => users[newId := u]
    case _ => users
  }

  /** A registered user is the validated document with its password hashed
      once: name trimmed, address lower-cased, role as asked or consultant,
      both timestamps `now`. */
  lemma RegisteredUser(users: map<string, User>, body: map<string, string>, newId: string,
                       salt: string, now: int, hash: (string, string) -> string)
    requires RegisterOutcome(users, body, newId, salt, now, hash).Registered?
    ensures var u := RegisterOutcome(users, body, newId, salt, now, hash).user;
      && ValidUser(u)
      && u.name == Trim(body["name"])
      && u.email == ToLower(body["email"])
      && u.password == hash(body["password"], salt)
      && Some(u.role) == ResolveRole(Get(body, "role"))
      && u.createdAt == now && u.updatedAt == now
  {
  }

  /** Registering keeps the collection valid: in particular no second user
      ever gets an address that is already stored. */
  lemma RegisterPreservesValid(users: map<string, User>, body: map<string, string>, newId: string,
                               salt: string, now: int, hash: (string, string) -> string)
    requires ValidUsers(users) && IsCanonical(newId)
    ensures ValidUsers(RegisteredUsers(users, body, newId, salt, now, hash))
  {
    var g := RegisterOutcome(users, body, newId, salt, now, hash);
    if g.Registered? {
      RegisteredUser(users, body, newId, salt, now, hash);
      assert !HasEmail(users, g.user.email);
      InsertPreservesValid(users, newId, g.user);
    }
  }

  /** A valid user with a fresh id and an address no one has can join a
      valid collection. */
  lemma InsertPreservesValid(users: map<string, User>, k: string, u: User)
    requires ValidUsers(users) && IsCanonical(k) && k !in users
    requires ValidUser(u) && !HasEmail(users, u.email)
    ensures ValidUsers(users[k := u])
  {
    assert forall k1 :: k1 in users ==> users[k1].email != u.email;
  }

  /** The answer to a login request. */
  ghost function LoginReply(users: map<string, User>, body: map<string, string>,
                            compare: (string, string) -> bool, sign: Signer): Reply<AuthPayload> {
    var email := Get(body, "email");
    var password := Get(body, "password");
    if !Truthy(email) || !Truthy(password) then BadRequest(CredentialsRequired)
    else match FindByEmail(users, email.value)
      case None => Unauthorized(InvalidCredentials)
      case Some(k) =>
        if !ComparePassword(users[k], password.value, compare) then Unauthorized(InvalidCredentials)
        else Ok(200, Payload(k, users[k], sign))
  }

  /** The login body carries both an address and a password. */
  predicate Presented(body: map<string, string>) {
    Truthy(Get(body, "email")) && Truthy(Get(body, "password"))
  }

  /** The stored user `k` has the body's address and a hash its password
      matches. */
  predicate Credited(users: map<string, User>, k: string, body: map<string, string>,
                     compare: (string, string) -> bool)
    requires k in users && Presented(body)
  {
    users[k].email == ToLower(body["email"]) && compare(body["password"], users[k].password)
  }

  /** Login succeeds exactly for the stored user with that address whose
      hash the password matches, and then answers with that user's token.
      An unknown address and a wrong password get the same answer. */
  lemma LoginDecision(users: map<string, User>, body: map<string, string>,
                      compare: (string, string) -> bool, sign: Signer)
    requires ValidUsers(users)
    ensures !Presented(body) ==> LoginReply(users, body, compare, sign) == BadRequest(CredentialsRequired)
    ensures Presented(body) ==>
      var r := LoginReply(users, body, compare, sign);
      && (r.Ok? || r == Unauthorized(InvalidCredentials))
      && (r.Ok? <==> exists k :: k in users && Credited(users, k, body, compare))
      && (forall k :: k in users && Credited(users, k, body, compare) ==> r == Ok(200, Payload(k, users[k], sign)))
  {
    if Presented(body) {
      var f := FindByEmail(users, body["email"]);
      if f.Some? {
        forall k | k in users && users[k].email == ToLower(body["email"])
          ensures k == f.value
        {
        }
      }
    }
  }

  /** A user who has just registered can log in with the same request body
      (provided the password library recognises its own hash) and receives
      the same token and summary. */
  lemma RegisterThenLogin(users: map<string, User>, body: map<string, string>, newId: string,
                          salt: string, now: int, hash: (string, string) -> string,
                          compare: (string, string) -> bool, sign: Signer)
    requires ValidUsers(users) && IsCanonical(newId)
    requires RegisterOutcome(users, body, newId, salt, now, hash).Registered?
    requires compare(body["password"], hash(body["password"], salt))
    ensures LoginReply(RegisteredUsers(users, body, newId, salt, now, hash), body, compare, sign)
         == Ok(200, RegisterReply(users, body, newId, salt, now, hash, sign).body)
  {
    var m := RegisteredUsers(users, body, newId, salt, now, hash);
    assert newId in m && m[newId] == RegisterOutcome(users, body, newId, salt, now, hash).user;
    assert Presented(body) && m[newId].email == ToLower(body["email"])
        && m[newId].password == hash(body["password"], salt) by {
      RegisteredUser(users, body, newId, salt, now, hash);
      assert |ToLower(body["email"])| == |body["email"]|;
    }
    RegisterPreservesValid(users, body, newId, salt, now, hash);
    LoginAs(m, newId, body, compare, sign);
  }

  /** The stored user whose address and password a login body presents is
      the one logged in. */
  lemma LoginAs(users: map<string, User>, k: string, body: map<string, string>,
                compare: (string, string) -> bool, sign: Signer)
    requires ValidUsers(users) && k in users && Presented(body)
    requires Credited(users, k, body, compare)
    ensures LoginReply(users, body, compare, sign) == Ok(200, Payload(k, users[k], sign))
  {
    FindByEmailUnique(users, body["email"], k);
  }

  /** The token of a successful login, checked by a verifier that decodes
      what the signer produced, carries the logged-in user's id, address and
      role, the payload `generateToken` signs, next to that user's summary. */
  lemma LoginTokenDecodes(users: map<string, User>, body: map<string, string>,
                          compare: (string, string) -> bool, sign: Signer, verify: Verifier)
    requires ValidUsers(users)
    requires forall who :: verify(Some(sign(who))) == Some(who)
    requires LoginReply(users, body, compare, sign).Ok?
    ensures var p := LoginReply(users, body, compare, sign).body;
      exists k :: k in users && p.user == Summary(k, users[k])
        && verify(Some(p.token)) == Some(Identity(k, users[k].email, RoleName(users[k].role)))
  {
    var k := FindByEmail(users, body["email"]).value;
    var who := Identity(k, users[k].email, RoleName(users[k].role));
    assert LoginReply(users, body, compare, sign).body.token == sign(who);
    assert verify(Some(sign(who))) == Some(who);
  }

  /** `getMe`: the caller's id as the token carries it. */
  function GetMeReply(users: map<string, User>, caller: Identity): (r: Reply<Option<PublicUser>>)
    ensures match Cast(caller.id)
      case None => r == ServerError(CastFailed)
      case Some(k) =>
        && r.Ok? && r.code == 200
        && (r.body.Some? <==> k in users)
        && (r.body.Some? ==> r.body.value == Public(k, users[k]) && r.body.value.id == k)
  {
    match Cast(caller.id)
    case None => ServerError(CastFailed)
    case Some(k) => Ok(200, if k in users then Some(Public(k, users[k])) else None)
  }

  /** The token a register request returns opens the protected routes:
      presented as "Bearer <token>" to a verifier that decodes what the
      signer produced, it yields the new user's identity, and GET /me then
      shows that user. */
  lemma RegisteredTokenAuthenticates(users: map<string, User>, body: map<string, string>, newId: string,
                                     salt: string, now: int, hash: (string, string) -> string,
                                     sign: Signer, verify: Verifier)
    requires IsCanonical(newId)
    requires RegisterOutcome(users, body, newId, salt, now, hash).Registered?
    requires var u := RegisterOutcome(users, body, newId, salt, now, hash).user;
      var who := Identity(newId, u.email, RoleName(u.role));
      && verify(Some(sign(who))) == Some(who) && ' ' !in sign(who) && sign(who) != ""
    ensures var u := RegisterOutcome(users, body, newId, salt, now, hash).user;
      var token := RegisterReply(users, body, newId, salt, now, hash, sign).body.token;
      var who := Identity(newId, u.email, RoleName(u.role));
      && ProtectEffects(Some("Bearer " + token), verify) == [Next(who)]
      && GetMeReply(RegisteredUsers(users, body, newId, salt, now, hash), who) == Ok(200, Some(Public(newId, u)))
  {
    var u := RegisterOutcome(users, body, newId, salt, now, hash).user;
    var who := Identity(newId, u.email, RoleName(u.role));
    BearerHeaderToken(sign(who));
    CastCanonical(newId);
  }

  /** The users collection the account endpoints read and write. */
  class UserStore {
    var users: map<string, User>

    predicate Valid()
      reads this
    {
      ValidUsers(users)
    }

    constructor ()
      ensures Valid() && users == map[]
    {
      users := map[];
    }

    /** POST /api/auth/register: refuse a known address, validate and
        create the document, whose save hook hashes the password, store it
        under the generated id, and answer 201 with a token. */
    method Register(body: map<string, string>, newId: string, salt: string, now: int,
                    hash: (string, string) -> string, sign: Signer)
      returns (r: Reply<AuthPayload>)
      requires Valid() && IsCanonical(newId)
      modifies this
      ensures Valid()
      ensures users == RegisteredUsers(old(users), body, newId, salt, now, hash)
      ensures r == RegisterReply(old(users), body, newId, salt, now, hash, sign)
    {
      RegisterPreservesValid(users, body, newId, salt, now, hash);
      var email := Get(body, "email");
      if email.Some? && HasEmail(users, ToLower(email.value)) {
        return BadRequest(EmailInUse);
      }
      var validated := ValidateUser(RegisterFields(body), now);
      if validated.Failure? {
        return ServerError(validated.error);
      }
      var doc := new UserDocument(validated.value);
      doc.Save(salt, hash);
      if newId in users {
        return ServerError(DuplicateKey);
      }
      var stored := doc.Record();
      users := users[newId := stored];
      r := Ok(201, Payload(newId, stored, sign));
    }

    /** POST /api/auth/login. */
    method Login(body: map<string, string>, compare: (string, string) -> bool, sign: Signer)
      returns (r: Reply<AuthPayload>)
      requires Valid()
      ensures r == LoginReply(users, body, compare, sign)
    {
      var email := Get(body, "email");
      var password := Get(body, "password");
      if !Truthy(email) || !Truthy(password) {
        return BadRequest(CredentialsRequired);
      }
      if !HasEmail(users, ToLower(email.value)) {
        return Unauthorized(InvalidCredentials);
      }
      var k :| k in users && users[k].email == ToLower(email.value);
      FindByEmailUnique(users, email.value, k);
      if !ComparePassword(users[k], password.value, compare) {
        return Unauthorized(InvalidCredentials);
      }
      r := Ok(200, Payload(k, users[k], sign));
    }

    /** GET /api/auth/me: a malformed id fails the cast; an id that names
        no user answers 200 with a null user. */
    method GetMe(caller: Identity) returns (r: Reply<Option<PublicUser>>)
      ensures r == GetMeReply(users, caller)
    {
      var key := Cast(caller.id);
      if key.None? {
        return ServerError(CastFailed);
      }
      if key.value !in users {
        return Ok(200, None);
      }
      r := Ok(200, Some(Public(key.value, users[key.value])));
    }
  }
}
