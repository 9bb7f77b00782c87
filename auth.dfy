/** The authentication API (`authAPI` in src/lib/api/auth.ts): the user a profile
    row is shown as, the profile written at registration, the patch
    `updateDetails` sends, and the guards that turn the auth service's answers
    into errors. The `profiles` table is a map from user id to row; an operation
    that writes returns the table as it leaves it. */
module Auth {
  import opened Wrappers
  import opened Text
  import opened Backend

  /** A row of the `profiles` table. */
  datatype Profile = Profile(
    id: string,
    first_name: string,
    last_name: string,
    email: string,
    phone: Option<string>,
    role: Option<string>,
    avatar_url: Option<string>)

  /** `User`: `phone` and `avatar` may be undefined, `role` may not. */
  datatype User = User(
    id: string,
    firstName: string,
    lastName: string,
    email: string,
    phone: Option<string>,
    role: string,
    avatar: Option<string>)

  const DefaultRole: string := "buyer"

  /** `mapProfileToUser`. */
  function MapProfileToUser(p: Profile): User {
    User(p.id, p.first_name, p.last_name, p.email, NonEmpty(p.phone),
         if Given(p.role) then p.role.value else DefaultRole, NonEmpty(p.avatar_url))
  }

  /** A user as `mapProfileToUser` can produce it: no empty phone, avatar or role. */
  predicate Normal(u: User) {
    u.phone != Some("") && u.avatar != Some("") && u.role != ""
  }

  /** The row a user is stored as. */
  function ProfileOf(u: User): Profile {
    Profile(u.id, u.firstName, u.lastName, u.email, u.phone, Some(u.role), u.avatar)
  }

  /** Mapping renames the columns and keeps id and email: a user stored as a row
      and mapped back is the same user, and every mapped user is of that kind;
      an empty or missing role reads as "buyer". */
  lemma MapProfileRoundTrip(u: User, p: Profile)
    ensures Normal(u) ==> MapProfileToUser(ProfileOf(u)) == u
    ensures Normal(MapProfileToUser(p))
    ensures MapProfileToUser(p).phone.Some? <==> Given(p.phone)
    ensures MapProfileToUser(p).avatar.Some? <==> Given(p.avatar_url)
    ensures MapProfileToUser(p).id == p.id && MapProfileToUser(p).email == p.email
    ensures !Given(p.role) <==> MapProfileToUser(p).role == DefaultRole && p.role != Some(DefaultRole)
    ensures MapProfileToUser(p).firstName == p.first_name && MapProfileToUser(p).lastName == p.last_name
    ensures Given(p.phone) ==> MapProfileToUser(p).phone == p.phone
    ensures Given(p.avatar_url) ==> MapProfileToUser(p).avatar == p.avatar_url
    ensures Given(p.role) ==> MapProfileToUser(p).role == p.role.value
  {
  }

  /** The `profiles` table, or the error every call to the database answers. */
  type Profiles = Result<map<string, Profile>, Error>

  /** PostgREST's answer when `.single()` finds no row. */
  const NoRows: string := "JSON object requested, multiple (or no) rows returned"

  /** `getProfileById(id)`: the row, or the service's error. */
  function ProfileById(db: Profiles, id: string): (r: Result<Profile, Error>)
    ensures r.Success? <==> db.Success? && id in db.value
    ensures r.Success? ==> r.value == db.value[id]
    ensures db.Failure? ==> r == Failure(db.error)
    ensures db.Success? && id !in db.value ==> r == Failure(Service(NoRows))
  {
    var rows :- db;
    if id in rows then Success(rows[id]) else Failure(Service(NoRows))
  }

  /** An access token. */
  datatype Session = Session(access_token: string)

  /** The answer of `signInWithPassword` or `signUp`: a user and a session, each
      possibly null. */
  datatype SignIn = SignIn(user: Option<AuthUser>, session: Option<Session>)

  datatype AuthResponse = AuthResponse(status: string, message: string, token: string, user: User)

  /** `login`: the service's error; "Login failed" unless both a session and a
      user came back; then the user's profile. */
  function Login(answer: Result<SignIn, Error>, db: Profiles): (r: Result<AuthResponse, Error>)
    ensures answer.Failure? ==> r == Failure(answer.error)
    ensures answer.Success? && (answer.value.session.None? || answer.value.user.None?) ==>
      r == Failure(Thrown("Login failed"))
    ensures r.Success? <==>
      answer.Success? && answer.value.session.Some? && answer.value.user.Some?
      && db.Success? && answer.value.user.value.id in db.value
    ensures r.Success? ==>
      r.value.token == answer.value.session.value.access_token
      && r.value.user == MapProfileToUser(db.value[answer.value.user.value.id])
    ensures answer.Success? && answer.value.session.Some? && answer.value.user.Some? ==>
      && (db.Failure? ==> r == Failure(db.error))
      && (db.Success? && answer.value.user.value.id !in db.value ==> r == Failure(Service(NoRows)))
  {
    var signIn :- answer;
    if signIn.session.None? || signIn.user.None? then Failure(Thrown("Login failed"))
    else
      var profile :- ProfileById(db, signIn.user.value.id);
      Success(AuthResponse("success", "Login successful", signIn.session.value.access_token,
                           MapProfileToUser(profile)))
  }

  /** `RegisterData`. */
  datatype RegisterData = RegisterData(
    firstName: string, lastName: string, email: string, password: string,
    phone: Option<string>, role: Option<string>)

  /** The profile row `register` upserts: an empty phone is stored as null and an
      empty or missing role as "buyer". */
  datatype ProfilePayload = ProfilePayload(
    id: string, first_name: string, last_name: string, email: string,
    phone: Option<string>, role: string)

  function RegisterPayload(id: string, d: RegisterData): (r: ProfilePayload)
    ensures r.id == id && r.first_name == d.firstName && r.last_name == d.lastName && r.email == d.email
    ensures r.phone.Some? <==> Given(d.phone)
    ensures r.phone.Some? ==> r.phone == d.phone
    ensures r.role != ""
    ensures r.role == DefaultRole <==> !Given(d.role) || d.role == Some(DefaultRole)
    ensures Given(d.role) ==> r.role == d.role.value
  {
    ProfilePayload(id, d.firstName, d.lastName, d.email, NonEmpty(d.phone),
                   if Given(d.role) then d.role.value else DefaultRole)
  }

  /** An upsert: a new row gets the payload's columns, an existing row keeps the
      columns the payload does not carry. */
  function Upsert(rows: map<string, Profile>, payload: ProfilePayload): map<string, Profile> {
    var avatar := if payload.id in rows then rows[payload.id].avatar_url else None;
    rows[payload.id := Profile(payload.id, payload.first_name, payload.last_name, payload.email,
                               payload.phone, Some(payload.role), avatar)]
  }

  /** `register`: the service's error, or "Registration failed" when no user came
      back, in which case nothing is written; else the profile is upserted and the
      response carries the session's token, or `''` when there is no session. */
  function Register(d: RegisterData, answer: Result<SignIn, Error>, db: Profiles): (out: (Result<AuthResponse, Error>, Profiles))
    ensures answer.Failure? ==> out == (Failure(answer.error), db)
    ensures answer.Success? && answer.value.user.None? ==> out == (Failure(Thrown("Registration failed")), db)
    ensures out.0.Success? <==> answer.Success? && answer.value.user.Some? && db.Success?
    ensures out.0.Success? ==>
      var token := out.0.value.token;
      && (answer.value.session.Some? ==> token == answer.value.session.value.access_token)
      && (answer.value.session.None? ==> token == "")
    ensures answer.Success? && answer.value.user.Some? && db.Failure? ==> out == (Failure(db.error), db)
    ensures out.0.Success? ==> out.1 == Success(Upsert(db.value, RegisterPayload(answer.value.user.value.id, d)))
    ensures out.0.Success? ==> out.0.value.user == MapProfileToUser(out.1.value[answer.value.user.value.id])
    ensures out.0.Success? ==>
      var user := out.0.value.user;
      && user.id == answer.value.user.value.id && user.email == d.email
      && user.firstName == d.firstName && user.lastName == d.lastName
  {
    match answer
    case Failure(e) => (Failure(e), db)
    case Success(signUp) =>
      if signUp.user.None? then (Failure(Thrown("Registration failed")), db)
      else if db.Failure? then (Failure(db.error), db)
      else
        var payload := RegisterPayload(signUp.user.value.id, d);
        var rows := Upsert(db.value, payload);
        var token := if signUp.session.Some? then signUp.session.value.access_token else "";
        (Success(AuthResponse("success", "Registration successful", token,
                              MapProfileToUser(rows[payload.id]))), Success(rows))
  }

  /** `getMe`: "Not authenticated" (or the service's error) without a user, else
      the user's profile. */
  function GetMe(identity: Identity, db: Profiles): (r: Result<User, Error>)
    ensures RequireUser(identity).Failure? ==> r == Failure(RequireUser(identity).error)
    ensures r.Success? <==> RequireUser(identity).Success? && db.Success? && RequireUser(identity).value.id in db.value
    ensures r.Success? ==> r.value == MapProfileToUser(db.value[RequireUser(identity).value.id])
    ensures RequireUser(identity).Success? && db.Failure? ==> r == Failure(db.error)
    ensures RequireUser(identity).Success? && db.Success? && RequireUser(identity).value.id !in db.value ==>
      r == Failure(Service(NoRows))
  {
    var user :- RequireUser(identity);
    var profile :- ProfileById(db, user.id);
    Success(MapProfileToUser(profile))
  }

  /** The user `register` returns is the one `getMe` returns afterwards for the same
      account: the registration data, with the defaults applied. */
  lemma RegisterThenGetMe(d: RegisterData, answer: Result<SignIn, Error>, db: Profiles, email: string)
    requires Register(d, answer, db).0.Success?
    ensures var (r, db') := Register(d, answer, db);
      var id := answer.value.user.value.id;
      && GetMe(Success(Some(AuthUser(id, email))), db') == Success(r.value.user)
      && r.value.user == User(id, d.firstName, d.lastName, d.email, NonEmpty(d.phone),
                              if Given(d.role) then d.role.value else DefaultRole,
                              if id in db.value then NonEmpty(db.value[id].avatar_url) else None)
  {
  }

  /** The profile columns `updateDetails` may write. */
  datatype ProfileColumn = FirstName | LastName | Phone | Role | AvatarUrl | Email | Id

  /** `Partial<User>`: the fields a caller supplies. */
  datatype UserPatch = UserPatch(
    id: Option<string>, firstName: Option<string>, lastName: Option<string>, email: Option<string>,
    phone: Option<string>, role: Option<string>, avatar: Option<string>)

  /** How many of the five updatable fields the caller supplied. */
  function Supplied(data: UserPatch): nat {
    (if data.firstName.Some? then 1 else 0) + (if data.lastName.Some? then 1 else 0)
    + (if data.phone.Some? then 1 else 0) + (if data.role.Some? then 1 else 0)
    + (if data.avatar.Some? then 1 else 0)
  }

  /** `updates`, built one supplied field at a time: exactly the supplied fields
      among first name, last name, phone, role and avatar, under their column
      names, with the supplied values; never the email or the id. */
  method BuildUpdates(data: UserPatch) returns (updates: map<ProfileColumn, string>)
    ensures FirstName in updates <==> data.firstName.Some?
    ensures LastName in updates <==> data.lastName.Some?
    ensures Phone in updates <==> data.phone.Some?
    ensures Role in updates <==> data.role.Some?
    ensures AvatarUrl in updates <==> data.avatar.Some?
    ensures Email !in updates && Id !in updates
    ensures FirstName in updates ==> updates[FirstName] == data.firstName.value
    ensures LastName in updates ==> updates[LastName] == data.lastName.value
    ensures Phone in updates ==> updates[Phone] == data.phone.value
    ensures Role in updates ==> updates[Role] == data.role.value
    ensures AvatarUrl in updates ==> updates[AvatarUrl] == data.avatar.value
    ensures |updates| == Supplied(data)
  {
    updates := map[];
    if data.firstName.Some? {
      updates := updates[FirstName := data.firstName.value];
    }
    if data.lastName.Some? {
      updates := updates[LastName := data.lastName.value];
    }
    if data.phone.Some? {
      updates := updates[Phone := data.phone.value];
    }
    if data.role.Some? {
      updates := updates[Role := data.role.value];
    }
    if data.avatar.Some? {
      updates := updates[AvatarUrl := data.avatar.value];
    }
  }

  /** The database's UPDATE: the columns in `updates` take their new values. */
  function ApplyUpdates(p: Profile, updates: map<ProfileColumn, string>): Profile {
    Profile(
      if Id in updates then updates[Id] else p.id,
      if FirstName in updates then updates[FirstName] else p.first_name,
      if LastName in updates then updates[LastName] else p.last_name,
      if Email in updates then updates[Email] else p.email,
      if Phone in updates then Some(updates[Phone]) else p.phone,
      if Role in updates then Some(updates[Role]) else p.role,
      if AvatarUrl in updates then Some(updates[AvatarUrl]) else p.avatar_url)
  }

  /** The profile the caller asks for: each supplied field replaced, the rest kept. */
  function Patched(p: Profile, data: UserPatch): Profile {
    p.(first_name := data.firstName.GetOr(p.first_name),
       last_name := data.lastName.GetOr(p.last_name),
       phone := if data.phone.Some? then data.phone else p.phone,
       role := if data.role.Some? then data.role else p.role,
       avatar_url := if data.avatar.Some? then data.avatar else p.avatar_url)
  }

  /** `updateDetails`: without a user, "Not authenticated" (or the service's error)
      and no write; without a profile row, the service's error and no write;
      otherwise the row becomes the patched profile and the patched user is
      returned. */
  method UpdateDetails(identity: Identity, data: UserPatch, db: Profiles)
    returns (r: Result<User, Error>, db': Profiles)
    ensures RequireUser(identity).Failure? ==> r == Failure(RequireUser(identity).error) && db' == db
    ensures r.Failure? ==> db' == db
    ensures r.Success? <==> RequireUser(identity).Success? && db.Success? && RequireUser(identity).value.id in db.value
    ensures r.Success? ==>
      var id := RequireUser(identity).value.id;
      var row := Patched(db.value[id], data);
      && db' == Success(db.value[id := row])
      && r.value == MapProfileToUser(row)
    ensures RequireUser(identity).Success? && db.Failure? ==> r == Failure(db.error)
    ensures RequireUser(identity).Success? && db.Success? && RequireUser(identity).value.id !in db.value ==>
      r == Failure(Service(NoRows))
  {
    var user := RequireUser(identity);
    if user.Failure? {
      return Failure(user.error), db;
    }
    var updates := BuildUpdates(data);
    var id := user.value.id;
    if db.Failure? {
      return Failure(db.error), db;
    }
    if id !in db.value {
      return Failure(Service(NoRows)), db;
    }
    var row := ApplyUpdates(db.value[id], updates);
    assert row == Patched(db.value[id], data);
    db' := Success(db.value[id := row]);
    r := Success(MapProfileToUser(row));
  }

  /** An update changes only what was supplied: id and email stay, a field not
      supplied keeps its value, and a supplied field shows its new value (an empty
      phone or avatar showing as none, an empty role as "buyer"). */
  lemma PatchedUser(p: Profile, data: UserPatch)
    ensures var u := MapProfileToUser(Patched(p, data));
      var before := MapProfileToUser(p);
      && u.id == p.id && u.email == p.email
      && u.firstName == data.firstName.GetOr(before.firstName)
      && u.lastName == data.lastName.GetOr(before.lastName)
      && (data.phone.None? ==> u.phone == before.phone)
      && (data.phone.Some? ==> u.phone == NonEmpty(data.phone))
      && (data.role.None? ==> u.role == before.role)
      && (data.role.Some? ==> u.role == if data.role.value != "" then data.role.value else DefaultRole)
      && (data.avatar.None? ==> u.avatar == before.avatar)
      && (data.avatar.Some? ==> u.avatar == NonEmpty(data.avatar))
  {
  }

  /** `updatePassword`: without a user, "Not authenticated" (or the service's
      error) and no password change; otherwise the new password is sent and the
      auth service's error, if any, is passed on. The current password is not
      used. The result pairs the outcome with the password sent, if any. */
  function UpdatePassword(identity: Identity, currentPassword: string, newPassword: string, updateError: Option<Error>)
    : (out: (Result<string, Error>, Option<string>))
    ensures RequireUser(identity).Failure? ==> out == (Failure(RequireUser(identity).error), None)
    ensures RequireUser(identity).Success? ==> out.1 == Some(newPassword)
    ensures out.0.Success? <==> RequireUser(identity).Success? && updateError.None?
    ensures out.0.Success? ==> out.0.value == "Password updated"
    ensures RequireUser(identity).Success? && updateError.Some? ==> out.0 == Failure(updateError.value)
  {
    var user := RequireUser(identity);
    if user.Failure? then (Failure(user.error), None)
    else if updateError.Some? then (Failure(updateError.value), Some(newPassword))
    else (Success("Password updated"), Some(newPassword))
  }

  /** The outcome does not depend on the current password given. */
  lemma UpdatePasswordIgnoresCurrent(identity: Identity, a: string, b: string, newPassword: string, updateError: Option<Error>)
    ensures UpdatePassword(identity, a, newPassword, updateError) == UpdatePassword(identity, b, newPassword, updateError)
  {
  }
}
