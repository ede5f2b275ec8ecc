/** `src/lib/auth.ts` and `src/app/api/auth/init/route.ts`: credential
    sign-in, the token and session callbacks, and creation of the first
    administrator. Password hashing and comparison are parameters. */
module Auth {
  import opened Common
  import opened Http
  import opened Store
  import Paging

  /** A row of the user table; `password` holds the hash. */
  datatype User = User(email: string, password: Option<string>, name: Option<string>,
                       role: string, isActive: bool, image: Option<string>)

  /** What the sign-in form posts; either member may be missing. */
  datatype Credentials = Credentials(email: Option<string>, password: Option<string>)

  /** The user object `authorize` hands to next-auth: no password. */
  datatype AuthUser = AuthUser(id: string, email: string, name: Option<string>, role: string, image: Option<string>)

  /** The three messages `authorize` throws, by meaning. */
  datatype AuthError = MissingCredentials | InvalidCredentials | Inactive

  datatype SignIn = Authorized(user: AuthUser) | Refused(error: AuthError)

  /** The text form of a user id. */
  function IdText(id: nat): string {
    Paging.NatToString(id)
  }

  /** `findUnique({ where: { email } })`: the position of the user with
      that email, or |users| when there is none. */
  function FindUser(users: seq<Row<User>>, email: string): (i: nat)
    ensures i <= |users|
    ensures i < |users| ==> users[i].data.email == email
    ensures i == |users| ==> forall j :: 0 <= j < |users| ==> users[j].data.email != email
  {
    if users == [] then 0
    else if users[0].data.email == email then 0
    else 1 + FindUser(users[1..], email)
  }

  /** `authorize(credentials)`, with `matches(plain, hash)` standing for
      bcrypt's `compare`. An unknown email, a user without a password and a
      wrong password all give the same error; an inactive account is
      refused before its password is looked at. */
  function Authorize(users: seq<Row<User>>, creds: Option<Credentials>, matches: (string, string) -> bool): (r: SignIn)
    ensures creds.None? || !Truthy(creds.value.email) || !Truthy(creds.value.password) ==>
      r == Refused(MissingCredentials)
    ensures r.Authorized? <==>
      creds.Some? && Truthy(creds.value.email) && Truthy(creds.value.password) &&
      exists i :: 0 <= i < |users| && users[i].data.email == creds.value.email.value &&
        i == FindUser(users, creds.value.email.value) &&
        users[i].data.isActive && Truthy(users[i].data.password) &&
        matches(creds.value.password.value, users[i].data.password.value)
    ensures r.Authorized? ==>
      var i := FindUser(users, creds.value.email.value);
      i < |users| &&
      r.user == AuthUser(IdText(users[i].id), users[i].data.email, users[i].data.name, users[i].data.role, users[i].data.image)
    ensures (creds.Some? && Truthy(creds.value.email) && Truthy(creds.value.password) &&
      FindUser(users, creds.value.email.value) == |users|) ==> r == Refused(InvalidCredentials)
    ensures (creds.Some? && Truthy(creds.value.email) && Truthy(creds.value.password) &&
      FindUser(users, creds.value.email.value) < |users| &&
      Truthy(users[FindUser(users, creds.value.email.value)].data.password) &&
      !users[FindUser(users, creds.value.email.value)].data.isActive) ==> r == Refused(Inactive)
    ensures r == Refused(Inactive) ==>
      creds.Some? && Truthy(creds.value.email) &&
      FindUser(users, creds.value.email.value) < |users| &&
      !users[FindUser(users, creds.value.email.value)].data.isActive
  {
    if creds.None? || !Truthy(creds.value.email) || !Truthy(creds.value.password) then Refused(MissingCredentials)
    else
      var email := creds.value.email.value;
      var i := FindUser(users, email);
      if i == |users| || !Truthy(users[i].data.password) then Refused(InvalidCredentials)
      else if !users[i].data.isActive then Refused(Inactive)
      else if !matches(creds.value.password.value, users[i].data.password.value) then Refused(InvalidCredentials)
      else
        var u := users[i];
        Authorized(AuthUser(IdText(u.id), u.data.email, u.data.name, u.data.role, u.data.image))
  }

  /** The password comparison is never consulted for an inactive account:
      whatever `compare` says, the answer is the same. */
  lemma InactiveIgnoresPassword(users: seq<Row<User>>, creds: Credentials, m1: (string, string) -> bool, m2: (string, string) -> bool)
    requires Truthy(creds.email) && Truthy(creds.password)
    requires FindUser(users, creds.email.value) < |users|
    requires !users[FindUser(users, creds.email.value)].data.isActive
    ensures Authorize(users, Some(creds), m1) == Authorize(users, Some(creds), m2)
    ensures Authorize(users, Some(creds), m1).Refused?
  {
  }

  // ---------------------------------------------------------------------
  // Callbacks

  /** The fields of the JWT the callbacks touch. */
  datatype Token = Token(id: Option<string>, role: Option<string>, email: Option<string>, name: Option<string>)

  /** The `jwt` callback: on sign-in (a user is present) the id and role
      are copied onto the token; otherwise the token is returned as is. */
  function Jwt(token: Token, user: Option<AuthUser>): (r: Token)
    ensures user.None? ==> r == token
    ensures user.Some? ==> r.id == Some(user.value.id) && r.role == Some(user.value.role)
    ensures r.email == token.email && r.name == token.name
  {
    if user.Some? then token.(id := Some(user.value.id), role := Some(user.value.role)) else token
  }

  /** The `session` callback: when the session has a user, its id and role
      are taken from the token. */
  function SessionOf(session: Session, token: Token): (r: Session)
    ensures session.user.None? ==> r == session
    ensures session.user.Some? ==> (r.user.Some? && r.user.value.id == token.id &&
      r.user.value.role == token.role && r.user.value.email == session.user.value.email)
  {
    if session.user.Some? then Session(Some(session.user.value.(id := token.id, role := token.role)))
    else session
  }

  /** An active administrator who signs in with the right password gets a
      session that passes the admin gate of the write routes; any other
      role does not. */
  lemma {:induction false} SignInGivesRole(users: seq<Row<User>>, creds: Credentials, matches: (string, string) -> bool,
                                           token: Token, session: Session)
    requires Authorize(users, Some(creds), matches).Authorized?
    requires session.user.Some?
    ensures var u := Authorize(users, Some(creds), matches).user;
      IsAdmin(Some(SessionOf(session, Jwt(token, Some(u))))) <==> u.role == "admin"
  {
    var u := Authorize(users, Some(creds), matches).user;
    var t := Jwt(token, Some(u));
    assert t.role == Some(u.role);
    var s := SessionOf(session, t);
    assert s.user.value.role == Some(u.role);
  }

  /** A later request (no user) keeps the role the token got at sign-in. */
  lemma TokenKeepsRole(token: Token, u: AuthUser)
    ensures Jwt(Jwt(token, Some(u)), None).role == Some(u.role)
  {
  }

  // ---------------------------------------------------------------------
  // The first administrator

  /** `process.env.ADMIN_EMAIL` and `process.env.ADMIN_PASSWORD`. */
  datatype Env = Env(adminEmail: Option<string>, adminPassword: Option<string>)

  const DEFAULT_ADMIN_EMAIL := "admin@lumina.agency"
  const DEFAULT_ADMIN_PASSWORD := "admin123456"

  function AdminEmail(env: Env): (e: string)
    ensures Truthy(env.adminEmail) ==> e == env.adminEmail.value
    ensures !Truthy(env.adminEmail) ==> e == DEFAULT_ADMIN_EMAIL
    ensures e != ""
  {
    OrElse(env.adminEmail, DEFAULT_ADMIN_EMAIL)
  }

  function AdminPassword(env: Env): (p: string)
    ensures Truthy(env.adminPassword) ==> p == env.adminPassword.value
    ensures !Truthy(env.adminPassword) ==> p == DEFAULT_ADMIN_PASSWORD
    ensures p != ""
  {
    OrElse(env.adminPassword, DEFAULT_ADMIN_PASSWORD)
  }

  /** The user both creators insert: an active admin named 'Admin'. */
  function AdminUser(env: Env, hash: string -> string): (u: User)
    ensures u.email == AdminEmail(env) && u.password == Some(hash(AdminPassword(env)))
    ensures u.name == Some("Admin") && u.role == "admin" && u.isActive
  {
    User(AdminEmail(env), Some(hash(AdminPassword(env))), Some("Admin"), "admin", true, None)
  }

  predicate EmailTaken(users: seq<Row<User>>, email: string) {
    FindUser(users, email) < |users|
  }

  /** `createAdminUser()`: inserts the administrator only when no user has
      the administrator's email; `hash` stands for bcrypt's `hash`. */
  method CreateAdminUser(t: Table<User>, env: Env, hash: string -> string, now: nat)
    requires t.Valid()
    modifies t
    ensures t.Valid()
    ensures EmailTaken(old(t.rows), AdminEmail(env)) ==> t.rows == old(t.rows)
    ensures !EmailTaken(old(t.rows), AdminEmail(env)) ==>
      |t.rows| == |old(t.rows)| + 1 && t.rows[..|old(t.rows)|] == old(t.rows) &&
      t.rows[|old(t.rows)|].data == AdminUser(env, hash) && t.rows[|old(t.rows)|].createdAt == now
    ensures EmailTaken(t.rows, AdminEmail(env))
  {
    if !EmailTaken(t.rows, AdminEmail(env)) {
      var id := t.Insert(AdminUser(env, hash), now);
      assert t.rows[|t.rows| - 1].data.email == AdminEmail(env);
    }
  }

  /** The `data` of the init route's reply: no password. */
  datatype Created = Created(id: string, email: string, name: string)

  /** POST /api/auth/init: 400 when the administrator exists, else one
      new user and 201. */
  method Init(t: Table<User>, env: Env, hash: string -> string, now: nat) returns (r: Reply<Created>)
    requires t.Valid()
    modifies t
    ensures t.Valid()
    ensures EmailTaken(old(t.rows), AdminEmail(env)) ==> r.Fail? && r.status == BAD_REQUEST && t.rows == old(t.rows)
    ensures !EmailTaken(old(t.rows), AdminEmail(env)) ==>
      r.Ok? && r.status == CREATED && |t.rows| == |old(t.rows)| + 1 &&
      t.rows == old(t.rows) + [t.rows[|old(t.rows)|]] &&
      t.rows[|old(t.rows)|].data == AdminUser(env, hash) &&
      r.data == Created(IdText(t.rows[|old(t.rows)|].id), AdminEmail(env), "Admin")
  {
    if EmailTaken(t.rows, AdminEmail(env)) {
      return Fail(BAD_REQUEST, "admin exists");
    }
    var u := AdminUser(env, hash);
    var id := t.Insert(u, now);
    r := Ok(CREATED, Created(IdText(id), u.email, "Admin"));
  }

  /** Once the administrator exists, it can sign in with the configured
      password as soon as `compare` accepts it against the stored hash
      (a bcrypt hash is never empty). */
  lemma {:induction false} AdminCanSignIn(users: seq<Row<User>>, env: Env, hash: string -> string, matches: (string, string) -> bool, id: nat, now: nat)
    requires !EmailTaken(users, AdminEmail(env))
    requires hash(AdminPassword(env)) != "" && matches(AdminPassword(env), hash(AdminPassword(env)))
    ensures var users' := users + [Row(id, now, AdminUser(env, hash))];
      Authorize(users', Some(Credentials(Some(AdminEmail(env)), Some(AdminPassword(env)))), matches) ==
      Authorized(AuthUser(IdText(id), AdminEmail(env), Some("Admin"), "admin", None))
  {
    var users' := users + [Row(id, now, AdminUser(env, hash))];
    var row := Row(id, now, AdminUser(env, hash));
    FindAppended(users, row);
    assert users'[|users|] == row;
    assert Truthy(Some(AdminEmail(env))) && Truthy(Some(AdminPassword(env)));
    assert Truthy(row.data.password);
  }

  lemma {:induction false} FindAppended(users: seq<Row<User>>, row: Row<User>)
    requires FindUser(users, row.data.email) == |users|
    ensures FindUser(users + [row], row.data.email) == |users|
    decreases |users|
  {
    if users != [] {
      assert (users + [row])[1..] == users[1..] + [row];
      FindAppended(users[1..], row);
    }
  }
}
