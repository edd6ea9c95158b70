/** The `token_required` and `admin_required` decorators and the
    `register`, `login` and `refresh` handlers.  Signing and checking tokens
    and hashing passwords are oracles passed in as functions. */
module Auth {
  import opened Common
  import opened Models
  import opened Store
  import opened Api

  /** What `jwt.decode` makes of a token: an expired or otherwise invalid
      token, or a payload that may or may not carry `user_id`. */
  datatype Decoded = Expired | Invalid | Payload(userId: Option<int>)

  type Decoder = string -> Decoded

  /** The decision of `token_required`: a reply, or the caller to run the
      handler as. */
  datatype Gate = Denied(reply: Reply) | Caller(user: User)

  /** `auth_header.split(" ")[1]` when there is a header. */
  datatype HeaderToken = NoHeader | BadFormat | Bearer(token: string)

  function ExtractToken(header: Option<string>): (t: HeaderToken)
    ensures header.None? <==> t == NoHeader
    ensures header.Some? ==> (t == BadFormat <==> ' ' !in header.value)
    ensures t.Bearer? ==> |Split(header.value, ' ')| >= 2 && t.token == Split(header.value, ' ')[1]
  {
    match header
    case None => NoHeader
    case Some(h) =>
      SplitSingleField(h, ' ');
      var fields := Split(h, ' ');
      if |fields| < 2 then BadFormat else Bearer(fields[1])
  }

  const TokenMissing := "Token is missing"
  const InvalidFormat := "Invalid token format"

  /** `token_required`: the guards in the order the decorator runs them. */
  function Authenticate(st: Db, header: Option<string>, decode: Decoder): (g: Gate)
    ensures header.None? ==> g == Denied(Fail(401, TokenMissing))
    ensures header.Some? && ' ' !in header.value ==> g == Denied(Fail(401, InvalidFormat))
    ensures g.Caller? ==>
      && ExtractToken(header).Bearer?
      && var token := ExtractToken(header).token;
      && token != ""
      && decode(token).Payload? && decode(token).userId.Some?
      && UserIndex(st, decode(token).userId.value).Some?
      && g.user == st.users[UserIndex(st, decode(token).userId.value).value]
      && g.user.id == decode(token).userId.value
    ensures ExtractToken(header).Bearer? && ExtractToken(header).token == "" ==>
      g == Denied(Fail(401, TokenMissing))
    ensures ExtractToken(header).Bearer? && ExtractToken(header).token != "" ==>
      var token := ExtractToken(header).token;
      && (decode(token) == Expired ==> g == Denied(Fail(401, "Token has expired")))
      && (decode(token) == Invalid ==> g == Denied(Fail(401, "Token is invalid")))
      && (decode(token) == Payload(None) ==> g == Denied(Fail(500, "Internal Server Error")))
      && (decode(token).Payload? && decode(token).userId.Some? ==>
            var k := UserIndex(st, decode(token).userId.value);
            && (k.None? ==> g == Denied(Fail(401, "User not found")))
            && (k.Some? ==> g == Caller(st.users[k.value])))
  {
    match ExtractToken(header)
    case NoHeader => Denied(Fail(401, TokenMissing))
    case BadFormat => Denied(Fail(401, InvalidFormat))
    case Bearer(token) =>
      if token == "" then Denied(Fail(401, TokenMissing))
      else
        match decode(token)
        case Expired => Denied(Fail(401, "Token has expired"))
        case Invalid => Denied(Fail(401, "Token is invalid"))
        // data['user_id'] raises KeyError, which neither except clause catches
        case Payload(None) => Denied(Fail(500, "Internal Server Error"))
        case Payload(Some(id)) =>
          match UserIndex(st, id)
          case None => Denied(Fail(401, "User not found"))
          case Some(k) => Caller(st.users[k])
  }

  /** An empty second field is a missing token: "Bearer " and "Bearer  x". */
  lemma EmptyTokenIsMissing(st: Db, scheme: string, rest: string, decode: Decoder)
    requires ' ' !in scheme
    ensures Authenticate(st, Some(scheme + " " + " " + rest), decode) == Denied(Fail(401, TokenMissing))
    ensures Authenticate(st, Some(scheme + " "), decode) == Denied(Fail(401, TokenMissing))
  {
    assert scheme + " " + " " + rest == scheme + [' '] + (" " + rest);
    SplitAfterWord(scheme, " " + rest, ' ');
    assert (" " + rest) == [] + [' '] + rest;
    SplitAfterWord([], rest, ' ');
    assert scheme + " " == scheme + [' '] + "";
    SplitAfterWord(scheme, "", ' ');
    assert ' ' in scheme + " " + " " + rest;
    assert (scheme + " " + " " + rest)[|scheme|] == ' ';
    assert (scheme + " ")[|scheme|] == ' ';
  }

  /** The scheme word in front of the token is never looked at. */
  lemma SchemeIgnored(st: Db, scheme1: string, scheme2: string, token: string, decode: Decoder)
    requires ' ' !in scheme1 && ' ' !in scheme2 && ' ' !in token
    ensures Authenticate(st, Some(scheme1 + " " + token), decode)
         == Authenticate(st, Some(scheme2 + " " + token), decode)
  {
    assert scheme1 + " " + token == scheme1 + [' '] + token;
    assert scheme2 + " " + token == scheme2 + [' '] + token;
    SplitAfterWord(scheme1, token, ' ');
    SplitAfterWord(scheme2, token, ' ');
    SplitWithoutSeparator(token, ' ');
    assert (scheme1 + " " + token)[|scheme1|] == ' ';
    assert (scheme2 + " " + token)[|scheme2|] == ' ';
  }

  /** A token whose payload names an existing user admits that user, active
      or not: `is_active` is not consulted here. */
  lemma BearerAdmitsInactiveUser(st: Db, token: string, k: nat, decode: Decoder)
    requires ' ' !in token && token != ""
    requires k < |st.users| && UserIndex(st, st.users[k].id) == Some(k)
    requires decode(token) == Payload(Some(st.users[k].id))
    ensures Authenticate(st, Some("Bearer " + token), decode) == Caller(st.users[k])
  {
    assert "Bearer " + token == "Bearer" + [' '] + token;
    SplitAfterWord("Bearer", token, ' ');
    SplitWithoutSeparator(token, ' ');
    assert ("Bearer " + token)[6] == ' ';
  }

  /** `admin_required`: None lets the handler run. */
  function AdminGate(caller: User): (r: Option<Reply>)
    ensures r.None? <==> caller.isAdmin
    ensures r.Some? ==> r.value == Fail(403, "Admin access required")
  {
    if caller.isAdmin then None else Some(Fail(403, "Admin access required"))
  }

  // ---------------------------------------------------------------------
  // register

  /** The JSON body of a request: a field is None when the key is absent. */
  datatype RegisterBody = RegisterBody(
    username: Option<string>, email: Option<string>, password: Option<string>,
    firstName: Option<string>, lastName: Option<string>)

  function RegisterFields(b: RegisterBody): set<string> {
    (if b.username.Some? then {"username"} else {}) +
    (if b.email.Some? then {"email"} else {}) +
    (if b.password.Some? then {"password"} else {})
  }

  const RegisterRequired := ["username", "email", "password"]

  /** The user `register` adds; `is_admin` and `is_active` take the user
      model's defaults, false and true. */
  function NewUser(id: nat, b: RegisterBody, hash: string -> string): User
    requires b.username.Some? && b.email.Some? && b.password.Some?
  {
    User(id, b.username.value, b.email.value, hash(b.password.value),
         b.firstName.GetOr(""), b.lastName.GetOr(""), false, true)
  }

  predicate UniqueUsernames(users: seq<User>) {
    forall i, j :: 0 <= i < j < |users| ==> users[i].username != users[j].username
  }

  predicate UniqueEmails(users: seq<User>) {
    forall i, j :: 0 <= i < j < |users| ==> users[i].email != users[j].email
  }

  /** `register`: the required-field loop (unrolled, see
      `RegisterMissingField`), the username check, then the email check. */
  function RegisterSpec(st: Db, b: RegisterBody, hash: string -> string): (Reply, Db)
  {
    if b.username.None? then (Fail(400, RequiredMessage("username")), st)
    else if b.email.None? then (Fail(400, RequiredMessage("email")), st)
    else if b.password.None? then (Fail(400, RequiredMessage("password")), st)
    else if UserByName(st, b.username.value).Some? then (Fail(400, "Username already exists"), st)
    else if UserByEmail(st, b.email.value).Some? then (Fail(400, "Email already exists"), st)
    else
      var u := NewUser(st.nextUserId, b, hash);
      (Reply(201, "User created successfully", UserBody(u)),
       st.(users := st.users + [u], nextUserId := st.nextUserId + 1))
  }

  /** The required-field loop of `register` reports the first absent name in
      the order username, email, password. */
  lemma RegisterMissingField(b: RegisterBody)
    ensures MissingField(RegisterRequired, RegisterFields(b))
         == if b.username.None? then Some("username")
            else if b.email.None? then Some("email")
            else if b.password.None? then Some("password") else None
  {
    var present := RegisterFields(b);
    assert RegisterRequired[1..][1..] == ["password"];
    assert ["password"][1..] == [];
    assert MissingField(["password"], present) == if b.password.None? then Some("password") else None;
    assert RegisterRequired[1..] == ["email", "password"];
    assert MissingField(["email", "password"], present)
        == if b.email.None? then Some("email") else MissingField(["password"], present);
  }

  /** Nothing is stored unless `register` answers 201: a missing field is
      reported first, a taken username before a taken email, and a user is
      added exactly when both are free. */
  lemma RegisterRejects(st: Db, b: RegisterBody, hash: string -> string)
    ensures var r := RegisterSpec(st, b, hash);
      && (r.0.code != 201 ==> r.1 == st)
      && (MissingField(RegisterRequired, RegisterFields(b)).Some? ==>
            r.0 == Fail(400, MissingField(RegisterRequired, RegisterFields(b)).value + " is required"))
      && ((b.username.Some? && b.email.Some? && b.password.Some? && UserByName(st, b.username.value).Some?)
            ==> r.0 == Fail(400, "Username already exists"))
      && ((b.username.Some? && b.email.Some? && b.password.Some? && UserByName(st, b.username.value).None?
           && UserByEmail(st, b.email.value).Some?)
            ==> r.0 == Fail(400, "Email already exists"))
      && (r.0.code == 201 <==>
            && b.username.Some? && b.email.Some? && b.password.Some?
            && UserByName(st, b.username.value).None?
            && UserByEmail(st, b.email.value).None?)
  {
    RegisterMissingField(b);
  }

  /** A registered user is appended with the next key, as a regular, active
      account holding the hashed password. */
  lemma RegisterAdds(st: Db, b: RegisterBody, hash: string -> string)
    requires RegisterSpec(st, b, hash).0.code == 201
    ensures b.username.Some? && b.email.Some? && b.password.Some?
    ensures var r := RegisterSpec(st, b, hash);
      && var u := NewUser(st.nextUserId, b, hash);
      && u.id == st.nextUserId && u.username == b.username.value && u.email == b.email.value
      && u.passwordHash == hash(b.password.value) && !u.isAdmin && u.isActive
      && r.1 == st.(users := st.users + [u], nextUserId := st.nextUserId + 1)
      && r.0.body == UserBody(u)
  {
  }

  /** Registration never admits a second user with a taken username or email. */
  lemma RegisterKeepsUsersUnique(st: Db, b: RegisterBody, hash: string -> string)
    requires UniqueUsernames(st.users) && UniqueEmails(st.users)
    ensures UniqueUsernames(RegisterSpec(st, b, hash).1.users)
    ensures UniqueEmails(RegisterSpec(st, b, hash).1.users)
  {
    var r := RegisterSpec(st, b, hash);
    if r.0.code == 201 {
      RegisterRejects(st, b, hash);
      var users := r.1.users;
      var u := users[|st.users|];
      forall i | 0 <= i < |st.users|
        ensures users[i].username != u.username && users[i].email != u.email
      {
        assert users[i] == st.users[i];
      }
    }
  }

  lemma RegisterPreservesValid(st: Db, b: RegisterBody, hash: string -> string)
    requires Valid(st)
    ensures Valid(RegisterSpec(st, b, hash).1)
  {
    var r := RegisterSpec(st, b, hash);
    if r.0.code == 201 {
      KeyedAppend(st.users, UserKey, st.nextUserId, r.1.users[|st.users|]);
      OrderIndexAfterUpdate(st, r.1, 0);
      forall c | c in r.1.contents ensures OrderIndex(r.1, c.orderId).Some? {
        OrderIndexAfterUpdate(st, r.1, c.orderId);
      }
      forall p | p in r.1.payments ensures OrderIndex(r.1, p.orderId).Some? {
        OrderIndexAfterUpdate(st, r.1, p.orderId);
      }
    }
  }

  /** The `for field in required_fields` loop of `register`. */
  method CheckRegisterFields(b: RegisterBody) returns (missing: Option<string>)
    ensures missing == if b.username.None? then Some("username")
                       else if b.email.None? then Some("email")
                       else if b.password.None? then Some("password") else None
  {
    missing := FirstMissing(RegisterRequired, RegisterFields(b));
    RegisterMissingField(b);
  }

  method Register(db: Database, b: RegisterBody, hash: string -> string) returns (reply: Reply)
    modifies db
    ensures (reply, db.State()) == RegisterSpec(old(db.State()), b, hash)
  {
    var missing := CheckRegisterFields(b);
    if missing.Some? {
      return Fail(400, RequiredMessage(missing.value));
    }
    if UserByName(db.State(), b.username.value).Some? {
      return Fail(400, "Username already exists");
    }
    if UserByEmail(db.State(), b.email.value).Some? {
      return Fail(400, "Email already exists");
    }
    var user := NewUser(db.nextUserId, b, hash);
    db.users := db.users + [user];
    db.nextUserId := db.nextUserId + 1;
    return Reply(201, "User created successfully", UserBody(user));
  }

  // ---------------------------------------------------------------------
  // login and refresh

  /** `timedelta(hours=24)` in clock seconds. */
  const TokenLifetime: nat := 24 * 60 * 60

  function IssueClaims(userId: nat, now: Clock): (c: Claims)
    ensures c.userId == userId && c.exp == now + 86400
  {
    Claims(userId, now + TokenLifetime)
  }

  datatype LoginBody = LoginBody(username: Option<string>, password: Option<string>)

  /** Python truthiness of `data.get(key)` for a string field. */
  predicate Given(v: Option<string>) {
    v.Some? && v.value != ""
  }

  /** `login`; `checkPassword(hash, password)` stands for `user.check_password`
      and `encode` for `jwt.encode`. Nothing is written. */
  function LoginSpec(st: Db, b: LoginBody, checkPassword: (string, string) -> bool,
                     encode: Claims -> string, now: Clock): (r: Reply)
    ensures !Given(b.username) || !Given(b.password) ==> r == Fail(400, "Username and password are required")
    ensures Given(b.username) && Given(b.password) && UserByName(st, b.username.value).None?
            ==> r == Fail(401, "Invalid credentials")
    ensures Given(b.username) && Given(b.password) && UserByName(st, b.username.value).Some?
            && !checkPassword(st.users[UserByName(st, b.username.value).value].passwordHash, b.password.value)
            ==> r == Fail(401, "Invalid credentials")
    ensures Given(b.username) && Given(b.password) && UserByName(st, b.username.value).Some? ==>
      var u := st.users[UserByName(st, b.username.value).value];
      checkPassword(u.passwordHash, b.password.value) ==>
        && (!u.isActive ==> r == Fail(401, "Account is deactivated"))
        && (u.isActive ==> r == Reply(200, "Login successful",
                                      TokenBody(encode(IssueClaims(u.id, now)), IssueClaims(u.id, now), Some(u))))
    ensures r.message == "Account is deactivated" ==>
      && UserByName(st, b.username.value).Some?
      && var u := st.users[UserByName(st, b.username.value).value];
      && checkPassword(u.passwordHash, b.password.value) && !u.isActive
    ensures r.code == 200 ==>
      && Given(b.username) && Given(b.password) && UserByName(st, b.username.value).Some?
      && var u := st.users[UserByName(st, b.username.value).value];
      && checkPassword(u.passwordHash, b.password.value) && u.isActive
      && r.body == TokenBody(encode(IssueClaims(u.id, now)), IssueClaims(u.id, now), Some(u))
  {
    if !Given(b.username) || !Given(b.password) then Fail(400, "Username and password are required")
    else
      match UserByName(st, b.username.value)
      case Some(k) =>
        var u := st.users[k];
        if checkPassword(u.passwordHash, b.password.value) then
          if !u.isActive then Fail(401, "Account is deactivated")
          else
            var claims := IssueClaims(u.id, now);
            Reply(200, "Login successful", TokenBody(encode(claims), claims, Some(u)))
        else Fail(401, "Invalid credentials")
      case None => Fail(401, "Invalid credentials")
  }

  /** `refresh_token`: a new token for the caller, with the same lifetime. */
  function RefreshSpec(caller: User, encode: Claims -> string, now: Clock): (r: Reply)
    ensures r.code == 200
    ensures r.body == TokenBody(encode(IssueClaims(caller.id, now)), IssueClaims(caller.id, now), None)
  {
    var claims := IssueClaims(caller.id, now);
    Reply(200, "Token refreshed successfully", TokenBody(encode(claims), claims, None))
  }

  /** Login and refresh at the same moment sign the same claims for a user. */
  lemma LoginAndRefreshAgree(st: Db, b: LoginBody, checkPassword: (string, string) -> bool,
                             encode: Claims -> string, now: Clock)
    requires LoginSpec(st, b, checkPassword, encode, now).code == 200
    ensures var login := LoginSpec(st, b, checkPassword, encode, now);
            var refresh := RefreshSpec(login.body.tokenUser.value, encode, now);
            login.body.claims == refresh.body.claims && login.body.token == refresh.body.token
            && login.body.claims.exp == now + 86400
  {
  }
}
