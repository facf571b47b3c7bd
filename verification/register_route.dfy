/** Registration (src/app/api/users/register/route.ts) and the credentials
    check of sign-in (src/app/api/auth/[...nextauth]/route.ts): the request
    schema, the duplicate-email check, the creation of the user and the
    reply.  The request schema's email check and the user schema's email
    pattern are parameters. */
module RegisterRoute {
  import opened Common
  import Text
  import opened UserModel

  const MinNameLength: int := 2
  const BcryptCostInRoute: nat := 12

  /** The JSON body; a field that is absent is `None`. */
  datatype RegisterInput = RegisterInput(name: Option<string>, email: Option<string>,
                                         password: Option<string>, role: Option<string>)

  /** A request-schema error: the field and the message. */
  datatype FieldError = FieldError(path: string, message: string)

  datatype ReplyBody =
    | Registered(id: Id, name: string, email: string, role: string)
    | Invalid(errors: seq<FieldError>)
    | Failure(error: string)

  datatype Reply = Reply(status: int, body: ReplyBody)

  datatype Outcome = Outcome(users: seq<User>, reply: Reply)

  /** The request schema's checks of one field, at most one error each.
      The `min` checks count UTF-16 code units, as `length` does. */
  function NameErrors(name: Option<string>): (r: seq<FieldError>)
    ensures r == [] <==> name.Some? && Text.Utf16Length(name.value) >= MinNameLength
    ensures |r| <= 1
  {
    if name.None? then [FieldError("name", "Required")]
    else if Text.Utf16Length(name.value) < MinNameLength then [FieldError("name", "Name must be at least 2 characters")]
    else []
  }

  function EmailErrors(email: Option<string>, isEmail: string -> bool): (r: seq<FieldError>)
    ensures r == [] <==> email.Some? && isEmail(email.value)
    ensures |r| <= 1
  {
    if email.None? then [FieldError("email", "Required")]
    else if !isEmail(email.value) then [FieldError("email", "Invalid email address")]
    else []
  }

  function PasswordErrors(password: Option<string>): (r: seq<FieldError>)
    ensures r == [] <==> password.Some? && Text.Utf16Length(password.value) >= MinPasswordLength
    ensures |r| <= 1
  {
    if password.None? then [FieldError("password", "Required")]
    else if Text.Utf16Length(password.value) < MinPasswordLength then [FieldError("password", "Password must be at least 6 characters")]
    else []
  }

  /** The schema's message for a role outside the enumeration. */
  function RoleMessage(received: string): string {
    "Invalid enum value. Expected 'player' | 'team' | 'scout', received '" + received + "'"
  }

  function RoleErrors(role: Option<string>): (r: seq<FieldError>)
    ensures r == [] <==> role.None? || ParseRole(role.value).Some?
    ensures |r| <= 1
  {
    if role.Some? && ParseRole(role.value).None? then
      [FieldError("role", RoleMessage(role.value))]
    else []
  }

  /** Every request-schema error, in field order. */
  function SchemaErrors(b: RegisterInput, isEmail: string -> bool): (r: seq<FieldError>)
    ensures r == [] <==> && b.name.Some? && Text.Utf16Length(b.name.value) >= MinNameLength
                         && b.email.Some? && isEmail(b.email.value)
                         && b.password.Some? && Text.Utf16Length(b.password.value) >= MinPasswordLength
                         && (b.role.None? || ParseRole(b.role.value).Some?)
    ensures |r| <= 4
  {
    var name := NameErrors(b.name);
    var email := EmailErrors(b.email, isEmail);
    var password := PasswordErrors(b.password);
    var role := RoleErrors(b.role);
    assert |name + email + password + role| == |name| + |email| + |password| + |role|;
    name + email + password + role
  }

  /** A single emoji is two code units long and so a long enough name,
      while a single letter is not. */
  lemma EmojiNameLongEnough()
    ensures NameErrors(Some("\U{1F600}")) == []
    ensures NameErrors(Some("a")) != []
  {
    Text.EmojiCountsTwice();
  }

  /** The role after the schema's default. */
  function RoleOf(b: RegisterInput): Role
    requires b.role.None? || ParseRole(b.role.value).Some?
  {
    if b.role.Some? then ParseRole(b.role.value).value else PlayerRole
  }

  /** What the handler hands to the model as the password. */
  function Given(hashInRoute: bool, password: string): Secret {
    if hashInRoute then Hash(Plain(password), BcryptCostInRoute) else Plain(password)
  }

  /** Whether a request that passed the request schema also passes the user
      schema and the unique indexes. */
  predicate Storable(hashInRoute: bool, users: seq<User>, b: RegisterInput, newId: Id, pattern: string -> bool)
    requires b.password.Some? && (b.role.None? || ParseRole(b.role.value).Some?)
  {
    UserIssues(UserDraft(b.name, b.email, Some(Given(hashInRoute, b.password.value)), RoleOf(b), None, None), pattern) == []
    && !IdTaken(users, newId)
  }

  /** The registration flow.  `hashInRoute` says whether the handler hashes
      the password itself before creating the user.  The user is created
      through the base user model with the role value as given; no
      discriminator model is chosen, so the new user has no player fields
      and none of their defaults. */
  function RegisterWith(hashInRoute: bool, users: seq<User>, body: Result<RegisterInput>, newId: Id,
                        isEmail: string -> bool, pattern: string -> bool, now: int): (o: Outcome)
    ensures body.Err? ==> o == Outcome(users, Reply(500, Failure(body.msg)))
    ensures body.Ok? && SchemaErrors(body.value, isEmail) != [] ==>
              o == Outcome(users, Reply(400, Invalid(SchemaErrors(body.value, isEmail))))
    ensures body.Ok? && SchemaErrors(body.value, isEmail) == [] && EmailTaken(users, NormaliseEmail(body.value.email.value)) ==>
              o == Outcome(users, Reply(400, Failure("User already exists")))
    ensures o.reply.status != 201 ==> o.users == users
    ensures o.reply.status in {201, 400, 500}
    ensures o.reply.status == 201 <==>
              && body.Ok? && SchemaErrors(body.value, isEmail) == []
              && !EmailTaken(users, NormaliseEmail(body.value.email.value))
              && Storable(hashInRoute, users, body.value, newId, pattern)
    ensures o.reply.status == 201 ==>
              && |o.users| == |users| + 1 && o.users[..|users|] == users
              && var u := o.users[|users|];
                 && u.id == newId && u.name == Text.Trim(body.value.name.value)
                 && u.email == NormaliseEmail(body.value.email.value) && u.role == RoleOf(body.value)
                 && u.password == Hashed(Given(hashInRoute, body.value.password.value), SaltRounds)
                 && o.reply.body == Registered(u.id, u.name, u.email, RoleName(u.role))
                 && u.email != "" && u.profile.None?
  {
    match body
    case Err(msg) => Outcome(users, Reply(500, Failure(msg)))
    case Ok(b) =>
      var errors := SchemaErrors(b, isEmail);
      if errors != [] then Outcome(users, Reply(400, Invalid(errors)))
      else if EmailTaken(users, NormaliseEmail(b.email.value)) then
        Outcome(users, Reply(400, Failure("User already exists")))
      else
        var draft := UserDraft(b.name, b.email, Some(Given(hashInRoute, b.password.value)), RoleOf(b), None, None);
        match CreateUser(users, draft, newId, pattern, now)
        case Err(msg) => Outcome(users, Reply(500, Failure(msg)))
        case Ok(after) =>
          var u := after[|users|];
          Outcome(after, Reply(201, Registered(u.id, u.name, u.email, RoleName(u.role))))
  }

  /** `POST` as written: the handler hashes with cost 12, and the pre-save
      hook hashes the result again. */
  function RegisterAsWritten(users: seq<User>, body: Result<RegisterInput>, newId: Id,
                             isEmail: string -> bool, pattern: string -> bool, now: int): (o: Outcome)
    ensures o.reply.status == 201 ==>
              && body.Ok? && SchemaErrors(body.value, isEmail) == []
              && |o.users| == |users| + 1 && o.users[..|users|] == users
              && !EmailTaken(users, NormaliseEmail(body.value.email.value))
              && o.users[|users|].email == NormaliseEmail(body.value.email.value) && o.users[|users|].email != ""
              && o.users[|users|].password
                 == Hashed(Hashed(Plain(body.value.password.value), BcryptCostInRoute), SaltRounds)
  {
    RegisterWith(true, users, body, newId, isEmail, pattern, now)
  }

  /** `POST` with the password handed to the model in plain text, so that the
      pre-save hook is the only hashing. */
  function Register(users: seq<User>, body: Result<RegisterInput>, newId: Id,
                    isEmail: string -> bool, pattern: string -> bool, now: int): (o: Outcome)
    ensures body.Err? ==> o == Outcome(users, Reply(500, Failure(body.msg)))
    ensures body.Ok? && SchemaErrors(body.value, isEmail) != [] ==>
              o == Outcome(users, Reply(400, Invalid(SchemaErrors(body.value, isEmail))))
    ensures body.Ok? && SchemaErrors(body.value, isEmail) == [] && EmailTaken(users, NormaliseEmail(body.value.email.value)) ==>
              o == Outcome(users, Reply(400, Failure("User already exists")))
    ensures o.reply.status != 201 ==> o.users == users
    ensures o.reply.status in {201, 400, 500}
    ensures o.reply.status == 201 <==>
              && body.Ok? && SchemaErrors(body.value, isEmail) == []
              && !EmailTaken(users, NormaliseEmail(body.value.email.value))
              && UserIssues(UserDraft(body.value.name, body.value.email, Some(Plain(body.value.password.value)),
                                      RoleOf(body.value), None, None), pattern) == []
              && !IdTaken(users, newId)
    ensures o.reply.status == 201 ==>
              && |o.users| == |users| + 1 && o.users[..|users|] == users
              && var u := o.users[|users|];
                 && u.id == newId && u.name == Text.Trim(body.value.name.value)
                 && u.email == NormaliseEmail(body.value.email.value) && u.role == RoleOf(body.value)
                 && u.password == Hashed(Plain(body.value.password.value), SaltRounds)
                 && o.reply.body == Registered(u.id, u.name, u.email, RoleName(u.role))
  {
    RegisterWith(false, users, body, newId, isEmail, pattern, now)
  }

  /** What a successful sign-in puts in the session. */
  datatype SessionUser = SessionUser(id: Id, name: string, email: string, role: string)

  function FindByEmail(users: seq<User>, email: string): (r: Option<nat>)
    ensures r.Some? ==> r.value < |users| && users[r.value].email == email
    ensures r.Some? ==> forall k :: 0 <= k < r.value ==> users[k].email != email
    ensures r.None? ==> !EmailTaken(users, email)
    decreases |users|
  {
    if |users| == 0 then None
    else match FindByEmail(users[..|users| - 1], email)
      case Some(i) => Some(i)
      case None => if users[|users| - 1].email == email then Some(|users| - 1) else None
  }

  /** The credentials check of sign-in: both fields must be given, the email
      must belong to a user (the query applies the email setters), and the
      password must match the stored hash. */
  function Login(users: seq<User>, email: Option<string>, password: Option<string>): (r: Result<SessionUser>)
    ensures !Present(email) || !Present(password) ==> r == Err("Please provide email and password")
    ensures Present(email) && Present(password) && !EmailTaken(users, NormaliseEmail(email.value)) ==>
              r == Err("No user found with this email")
    ensures r.Ok? ==> exists k :: 0 <= k < |users| && users[k].email == NormaliseEmail(email.value)
                                  && Compare(password.value, users[k].password) && r.value.id == users[k].id
  {
    if !Present(email) || !Present(password) then Err("Please provide email and password")
    else match FindByEmail(users, NormaliseEmail(email.value))
      case None => Err("No user found with this email")
      case Some(i) =>
        var u := users[i];
        if !Compare(password.value, u.password) then Err("Invalid password")
        else Ok(SessionUser(u.id, u.name, u.email, RoleName(u.role)))
  }

  lemma EmptyEmailNormalisesEmpty(e: string)
    ensures NormaliseEmail(e) != "" ==> e != ""
  {
    if e == "" {
      assert Text.Trim(e) == "";
    }
  }

  /** Sign-in with a found user comes down to the password check. */
  lemma LoginOfFound(users: seq<User>, email: string, password: string, i: nat)
    requires email != "" && password != ""
    requires FindByEmail(users, NormaliseEmail(email)) == Some(i)
    ensures Compare(password, users[i].password) ==>
              Login(users, Some(email), Some(password)).Ok? && Login(users, Some(email), Some(password)).value.id == users[i].id
    ensures !Compare(password, users[i].password) ==> Login(users, Some(email), Some(password)) == Err("Invalid password")
  {
  }

  /** When `email` was free, the first user with it after an append is the
      appended one. */
  lemma FirstWithEmailIsNew(users: seq<User>, after: seq<User>, e: string)
    requires !EmailTaken(users, e)
    requires |after| == |users| + 1 && after[..|users|] == users && after[|users|].email == e
    ensures FindByEmail(after, e) == Some(|users|)
  {
    assert after[..|after| - 1] == users;
  }

  /** As written, a user who has just registered cannot sign in with the
      password they registered with: the stored value hashes a hash. */
  lemma AsWrittenLoginFails(users: seq<User>, body: Result<RegisterInput>, newId: Id,
                            isEmail: string -> bool, pattern: string -> bool, now: int)
    requires RegisterAsWritten(users, body, newId, isEmail, pattern, now).reply.status == 201
    ensures var o := RegisterAsWritten(users, body, newId, isEmail, pattern, now);
            Login(o.users, body.value.email, body.value.password) == Err("Invalid password")
  {
    var o := RegisterAsWritten(users, body, newId, isEmail, pattern, now);
    var b := body.value;
    var e := NormaliseEmail(b.email.value);
    FirstWithEmailIsNew(users, o.users, e);
    EmptyEmailNormalisesEmpty(b.email.value);
    LoginOfFound(o.users, b.email.value, b.password.value, |users|);
  }

  /** With the route handing over the plain password, a user who has just
      registered signs in with that password, as themselves. */
  lemma RegisteredUserLogsIn(users: seq<User>, body: Result<RegisterInput>, newId: Id,
                             isEmail: string -> bool, pattern: string -> bool, now: int)
    requires Register(users, body, newId, isEmail, pattern, now).reply.status == 201
    ensures var o := Register(users, body, newId, isEmail, pattern, now);
            var r := Login(o.users, body.value.email, body.value.password);
            r.Ok? && r.value.id == newId
  {
    var o := Register(users, body, newId, isEmail, pattern, now);
    var b := body.value;
    var e := NormaliseEmail(b.email.value);
    FirstWithEmailIsNew(users, o.users, e);
    EmptyEmailNormalisesEmpty(b.email.value);
    LoginOfFound(o.users, b.email.value, b.password.value, |users|);
  }

  /** Registering twice with the same email leaves one account. */
  lemma SecondRegistrationRefused(users: seq<User>, body: Result<RegisterInput>, id1: Id, id2: Id,
                                  isEmail: string -> bool, pattern: string -> bool, t1: int, t2: int)
    requires Register(users, body, id1, isEmail, pattern, t1).reply.status == 201
    ensures var once := Register(users, body, id1, isEmail, pattern, t1).users;
            Register(once, body, id2, isEmail, pattern, t2) == Outcome(once, Reply(400, Failure("User already exists")))
  {
    var once := Register(users, body, id1, isEmail, pattern, t1).users;
    assert once[|users|].email == NormaliseEmail(body.value.email.value);
  }
}
