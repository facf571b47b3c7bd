/** The user document (src/models/user.ts): the field validators of the
    base user schema, the player fields with their defaults, and the
    pre-save hook that hashes the password.  bcrypt is symbolic: a hash
    records what it hashed and at which cost, so `compare` holds exactly
    when the stored value is one hash of the candidate. */
module UserModel {
  import opened Common
  import Text
  import opened Validation

  type Id = string

  const MaxNameLength: int := 50
  const MinPasswordLength: int := 6
  const MaxBioLength: int := 500
  const SaltRounds: nat := 10
  /** Length of a bcrypt hash string. */
  const HashLength: nat := 60

  datatype Secret = Plain(text: string) | Hashed(of: Secret, cost: nat)

  /** `hash(secret, cost)` */
  function Hash(s: Secret, cost: nat): Secret {
    Hashed(s, cost)
  }

  /** bcrypt `compare(candidate, stored)`: the stored value must be a hash of
      the candidate itself. */
  predicate Compare(candidate: string, stored: Secret) {
    stored.Hashed? && stored.of == Plain(candidate)
  }

  /** The length of the string the document holds in `password`. */
  function SecretLength(s: Secret): nat {
    match s
    case Plain(t) => Text.Utf16Length(t)
    case Hashed(_, _) => HashLength
  }

  datatype Role = PlayerRole | TeamRole | ScoutRole

  function RoleName(r: Role): string {
    match r
    case PlayerRole => "player"
    case TeamRole => "team"
    case ScoutRole => "scout"
  }

  function ParseRole(s: string): (r: Option<Role>)
    ensures r.Some? <==> s == "player" || s == "team" || s == "scout"
    ensures r.Some? ==> RoleName(r.value) == s
  {
    if s == "player" then Some(PlayerRole)
    else if s == "team" then Some(TeamRole)
    else if s == "scout" then Some(ScoutRole)
    else None
  }

  datatype Foot = Left | Right | Both

  function ParseFoot(s: string): (r: Option<Foot>)
    ensures r.Some? <==> s == "left" || s == "right" || s == "both"
  {
    if s == "left" then Some(Left)
    else if s == "right" then Some(Right)
    else if s == "both" then Some(Both)
    else None
  }

  datatype GeoPoint = GeoPoint(latitude: real, longitude: real)

  /** A player's availability; times are milliseconds since the epoch. */
  datatype Availability = Availability(
    isAvailable: bool,
    availableUntil: Option<int>,
    preferredPositions: seq<string>,
    maxDistance: Option<real>,
    location: Option<GeoPoint>,
    lastUpdated: Option<int>)

  datatype PlayerProfile = PlayerProfile(
    position: Option<string>,
    dominantFoot: Option<Foot>,
    averageRating: real,
    matchesPlayed: int,
    availability: Availability)

  datatype User = User(
    id: Id,
    name: string,
    email: string,
    password: Secret,
    role: Role,
    bio: Option<string>,
    profile: Option<PlayerProfile>,
    createdAt: int,
    updatedAt: int)

  datatype AvailabilityDraft = AvailabilityDraft(
    isAvailable: Option<bool>,
    availableUntil: Option<int>,
    preferredPositions: seq<string>,
    maxDistance: Option<real>,
    location: Option<GeoPoint>,
    lastUpdated: Option<int>)

  datatype PlayerDraft = PlayerDraft(
    position: Option<string>,
    dominantFoot: Option<string>,
    averageRating: Option<real>,
    matchesPlayed: Option<int>,
    availability: Option<AvailabilityDraft>)

  /** A user document as handed to the data layer; a missing field is `None`. */
  datatype UserDraft = UserDraft(
    name: Option<string>,
    email: Option<string>,
    password: Option<Secret>,
    role: Role,
    bio: Option<string>,
    player: Option<PlayerDraft>)

  /** The `lowercase` and `trim` setters of `email`. */
  function NormaliseEmail(e: string): string {
    Text.ToLower(Text.Trim(e))
  }

  /** The name validators, on the trimmed name: required, then at most 50
      UTF-16 code units. */
  function NameIssues(name: Option<string>): (r: seq<Issue>)
    ensures r == [] <==> name.Some? && 0 < |Text.Trim(name.value)| && Text.Utf16Length(Text.Trim(name.value)) <= MaxNameLength
    ensures |r| <= 1 && (r != [] ==> r[0].path == "name")
  {
    if name.None? || Text.Trim(name.value) == "" then [Issue("name", "Please provide a name")]
    else if Text.Utf16Length(Text.Trim(name.value)) > MaxNameLength then [Issue("name", "Name cannot be more than 50 characters")]
    else []
  }

  /** The email validators, on the normalised email: required, then the
      pattern (a parameter here). */
  function EmailIssues(email: Option<string>, pattern: string -> bool): (r: seq<Issue>)
    ensures r == [] <==> email.Some? && NormaliseEmail(email.value) != "" && pattern(NormaliseEmail(email.value))
    ensures |r| <= 1 && (r != [] ==> r[0].path == "email")
  {
    if email.None? || NormaliseEmail(email.value) == "" then [Issue("email", "Please provide an email")]
    else if !pattern(NormaliseEmail(email.value)) then [Issue("email", "Please provide a valid email")]
    else []
  }

  /** The password validators, on the value handed in (before the pre-save
      hook): required, then at least 6 UTF-16 code units. */
  function PasswordIssues(password: Option<Secret>): (r: seq<Issue>)
    ensures r == [] <==> password.Some? && password.value != Plain("") && SecretLength(password.value) >= MinPasswordLength
    ensures |r| <= 1 && (r != [] ==> r[0].path == "password")
  {
    if password.None? || password.value == Plain("") then [Issue("password", "Please provide a password")]
    else if SecretLength(password.value) < MinPasswordLength then [Issue("password", "Password must be at least 6 characters")]
    else []
  }

  /** At most 500 UTF-16 code units of biography. */
  function BioIssues(bio: Option<string>): (r: seq<Issue>)
    ensures r == [] <==> bio.None? || Text.Utf16Length(bio.value) <= MaxBioLength
  {
    if bio.Some? && Text.Utf16Length(bio.value) > MaxBioLength then [Issue("bio", "Bio cannot be more than 500 characters")] else []
  }

  function FootIssues(player: Option<PlayerDraft>): (r: seq<Issue>)
    ensures r == [] <==> player.None? || player.value.dominantFoot.None? || ParseFoot(player.value.dominantFoot.value).Some?
  {
    if player.Some? && player.value.dominantFoot.Some? && ParseFoot(player.value.dominantFoot.value).None?
    then [Issue("dominantFoot", EnumMessage(player.value.dominantFoot.value, "dominantFoot"))]
    else []
  }

  /** Every failed validator of a draft, in schema order. */
  function UserIssues(d: UserDraft, pattern: string -> bool): (r: seq<Issue>)
    ensures r == [] <==> && d.name.Some? && 0 < |Text.Trim(d.name.value)|
                         && Text.Utf16Length(Text.Trim(d.name.value)) <= MaxNameLength
                         && d.email.Some? && NormaliseEmail(d.email.value) != "" && pattern(NormaliseEmail(d.email.value))
                         && d.password.Some? && d.password.value != Plain("")
                         && SecretLength(d.password.value) >= MinPasswordLength
                         && (d.bio.None? || Text.Utf16Length(d.bio.value) <= MaxBioLength)
                         && (d.player.None? || d.player.value.dominantFoot.None?
                             || ParseFoot(d.player.value.dominantFoot.value).Some?)
  {
    NameIssues(d.name) + EmailIssues(d.email, pattern) + PasswordIssues(d.password) + BioIssues(d.bio) + FootIssues(d.player)
  }

  /** The player fields with the schema defaults applied: rating and
      matches played 0, not available, no preferred positions. */
  function PlayerDefaults(p: PlayerDraft): (r: PlayerProfile)
    requires p.dominantFoot.None? || ParseFoot(p.dominantFoot.value).Some?
    ensures r.averageRating == (if p.averageRating.Some? then p.averageRating.value else 0.0)
    ensures r.matchesPlayed == (if p.matchesPlayed.Some? then p.matchesPlayed.value else 0)
    ensures p.availability.None? ==> r.availability == Availability(false, None, [], None, None, None)
    ensures p.availability.Some? ==> r.availability.isAvailable == (p.availability.value.isAvailable == Some(true))
    ensures p.availability.Some? ==> r.availability.preferredPositions == p.availability.value.preferredPositions
    ensures r.position == p.position
    ensures p.dominantFoot.Some? <==> r.dominantFoot.Some?
  {
    var a := if p.availability.Some? then p.availability.value
             else AvailabilityDraft(None, None, [], None, None, None);
    PlayerProfile(
      p.position,
      if p.dominantFoot.Some? then ParseFoot(p.dominantFoot.value) else None,
      if p.averageRating.Some? then p.averageRating.value else 0.0,
      if p.matchesPlayed.Some? then p.matchesPlayed.value else 0,
      Availability(if a.isAvailable.Some? then a.isAvailable.value else false,
                   a.availableUntil, a.preferredPositions, a.maxDistance, a.location, a.lastUpdated))
  }

  predicate EmailTaken(users: seq<User>, email: string) {
    exists k :: 0 <= k < |users| && users[k].email == email
  }

  predicate IdTaken(users: seq<User>, id: Id) {
    exists k :: 0 <= k < |users| && users[k].id == id
  }

  /** The unique `email` index. */
  predicate UniqueEmails(users: seq<User>) {
    forall i, j :: 0 <= i < j < |users| ==> users[i].email != users[j].email
  }

  /** The pre-save hook: hash the password with 10 rounds when it was
      modified, leave it alone otherwise. */
  function PreSave(password: Secret, modified: bool): (r: Secret)
    ensures modified ==> r == Hashed(password, SaltRounds)
    ensures !modified ==> r == password
  {
    if modified then Hash(password, SaltRounds) else password
  }

  /** Appending a user whose e-mail is not taken keeps the e-mails unique. */
  lemma AppendKeepsUniqueEmails(users: seq<User>, u: User)
    ensures UniqueEmails(users) && !EmailTaken(users, u.email) ==> UniqueEmails(users + [u])
  {
    if UniqueEmails(users) && !EmailTaken(users, u.email) {
      var after := users + [u];
      forall i, j | 0 <= i < j < |after|
        ensures after[i].email != after[j].email
      {
        if j == |users| {
          assert after[i] == users[i];
        }
      }
    }
  }

  /** Saving a new user: validation, then the pre-save hook (a new document's
      password counts as modified), then the unique index.  On success the
      user is appended with its name trimmed and its email normalised.
      `d.player` is present exactly when the document is created through the
      player discriminator model, whose paths and defaults then apply. */
  function CreateUser(users: seq<User>, d: UserDraft, newId: Id, pattern: string -> bool, now: int)
    : (r: Result<seq<User>>)
    ensures r.Ok? <==> UserIssues(d, pattern) == [] && !EmailTaken(users, NormaliseEmail(d.email.value))
                       && !IdTaken(users, newId)
    ensures UserIssues(d, pattern) != [] ==> r == Err(ValidationMessage("User", UserIssues(d, pattern)))
    ensures r.Ok? ==> |r.value| == |users| + 1 && r.value[..|users|] == users
    ensures r.Ok? ==> var u := r.value[|users|];
                      && u.id == newId && u.name == Text.Trim(d.name.value)
                      && u.email == NormaliseEmail(d.email.value) && u.role == d.role && u.bio == d.bio
                      && u.password == Hashed(d.password.value, SaltRounds)
                      && (d.player.Some? <==> u.profile.Some?)
    ensures r.Ok? && UniqueEmails(users) ==> UniqueEmails(r.value)
  {
    var issues := UserIssues(d, pattern);
    if issues != [] then Err(ValidationMessage("User", issues))
    else
      var email := NormaliseEmail(d.email.value);
      if EmailTaken(users, email) || IdTaken(users, newId) then
        Err("E11000 duplicate key error collection: users index: email_1 dup key")
      else
        var profile := if d.player.Some? then Some(PlayerDefaults(d.player.value)) else None;
        var u := User(newId, Text.Trim(d.name.value), email, PreSave(d.password.value, true),
                      d.role, d.bio, profile, now, now);
        AppendKeepsUniqueEmails(users, u);
        Ok(users + [u])
  }

  /** Saving an existing user after assigning `password` (or not).  An
      assignment of a different value marks the path modified; the save
      then validates it, and a value that fails leaves the stored user as
      it was.  A valid new value is hashed by the pre-save hook, and the
      update time moves only when the document was modified.  The other
      paths are unmodified, and a stored user already passed them. */
  function SavePassword(u: User, newValue: Option<Secret>, now: int): (r: Result<User>)
    ensures r.Err? <==> newValue.Some? && newValue.value != u.password && PasswordIssues(newValue) != []
    ensures r.Err? ==> r.msg == ValidationMessage("User", PasswordIssues(newValue))
    ensures (newValue.None? || newValue.value == u.password) ==> r == Ok(u)
    ensures r.Ok? && newValue.Some? && newValue.value != u.password ==>
              r.value.password == Hashed(newValue.value, SaltRounds) && r.value.updatedAt == now
    ensures r.Ok? ==> r.value.(password := u.password, updatedAt := u.updatedAt) == u
  {
    var modified := newValue.Some? && newValue.value != u.password;
    if !modified then Ok(u)
    else if PasswordIssues(newValue) != [] then Err(ValidationMessage("User", PasswordIssues(newValue)))
    else Ok(u.(password := PreSave(newValue.value, true), updatedAt := now))
  }

  /** Re-saving a user without touching the password keeps the user, and so
      every password that logged in before logging in. */
  lemma ResaveKeepsLogin(u: User, candidate: string, now: int)
    ensures SavePassword(u, None, now).Ok?
    ensures Compare(candidate, SavePassword(u, None, now).value.password) <==> Compare(candidate, u.password)
  {
  }

  /** A valid password set in plain text on an existing user is the one that
      logs in afterwards, and no other. */
  lemma NewPasswordLogsIn(u: User, p: string, candidate: string, now: int)
    requires u.password != Plain(p) && PasswordIssues(Some(Plain(p))) == []
    ensures SavePassword(u, Some(Plain(p)), now).Ok?
    ensures Compare(candidate, SavePassword(u, Some(Plain(p)), now).value.password) <==> candidate == p
  {
  }

  /** A new password shorter than six code units is refused with the
      schema's message; the save stores nothing, so the old password still
      logs in. */
  lemma ShortPasswordRefused(u: User, p: string, now: int)
    requires p != "" && Text.Utf16Length(p) < MinPasswordLength && u.password != Plain(p)
    ensures SavePassword(u, Some(Plain(p)), now)
            == Err(ValidationMessage("User", [Issue("password", "Password must be at least 6 characters")]))
  {
  }

  /** The stored password of a created user never equals what was given. */
  lemma CreatedPasswordNotPlain(users: seq<User>, d: UserDraft, newId: Id, pattern: string -> bool, now: int)
    requires CreateUser(users, d, newId, pattern, now).Ok?
    ensures CreateUser(users, d, newId, pattern, now).value[|users|].password != d.password.value
    ensures !CreateUser(users, d, newId, pattern, now).value[|users|].password.Plain?
  {
    var u := CreateUser(users, d, newId, pattern, now).value[|users|];
    assert u.password == Hashed(d.password.value, SaltRounds);
  }
}
