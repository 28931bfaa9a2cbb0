/** Accounts: the user entity, its role choices, the manager that creates
    users and superusers, and the user's display string. */
module Accounts {
  import opened Common

  /** The closed set of role choices; the stored value is RoleValue. */
  datatype Role = Admin | Instructor | Student

  const RoleChoices: seq<Role> := [Admin, Instructor, Student]

  /** The value stored in the `role` column. */
  function RoleValue(r: Role): string
  {
    match r
    case Admin => "admin"
    case Instructor => "instructor"
    case Student => "student"
  }

  /** The human-readable label `get_role_display` returns. */
  function RoleLabel(r: Role): string
  {
    match r
    case Admin => "Admin"
    case Instructor => "Instructor"
    case Student => "Student"
  }

  /** Validates a submitted role value against the choices. */
  function ParseRole(s: string): (r: Option<Role>)
    ensures r.Some? <==> (s == "admin" || s == "instructor" || s == "student")
    ensures r.Some? ==> RoleValue(r.value) == s
  {
    if s == "admin" then Some(Admin)
    else if s == "instructor" then Some(Instructor)
    else if s == "student" then Some(Student)
    else None
  }

  /** Every role is a choice, and its stored value reads back as itself. */
  lemma RoleChoicesComplete(r: Role)
    ensures r in RoleChoices
    ensures ParseRole(RoleValue(r)) == Some(r)
  {
  }

  /** The stored password: `set_password(None)` marks it unusable. */
  datatype Password = Unusable | Hashed(digest: string)

  datatype User = User(
    id: UserId,
    email: string,
    fullName: string,
    role: Role,
    isActive: bool,
    isStaff: bool,
    isSuperuser: bool,
    password: Password)

  /** The keyword arguments a caller may pass to the manager; None = not passed. */
  datatype ExtraFields = ExtraFields(
    fullName: Option<string>,
    role: Option<Role>,
    isActive: Option<bool>,
    isStaff: Option<bool>,
    isSuperuser: Option<bool>)

  const NoExtraFields: ExtraFields := ExtraFields(None, None, None, None, None)

  datatype UserError = EmailNotSet | DuplicateEmail

  function Given<T>(o: Option<T>, default: T): T
  {
    if o.Some? then o.value else default
  }

  /** `dict.setdefault`: keeps a value the caller passed, otherwise stores the default. */
  function SetDefault<T>(o: Option<T>, default: T): Option<T>
  {
    if o.Some? then o else Some(default)
  }

  /** The hashed form of the password; the hash function is opaque to the model. */
  function PasswordOf(password: Option<string>, hash: string -> string): Password
  {
    if password.Some? then Hashed(hash(password.value)) else Unusable
  }

  /** The row `self.model(email=email, **extra_fields)` builds: fields not passed
      take the model defaults (empty name, student, active, not staff, not superuser). */
  function NewUser(id: UserId, email: string, extra: ExtraFields, password: Password): (u: User)
    ensures u.id == id && u.email == email && u.password == password
    ensures u.role == (if extra.role.Some? then extra.role.value else Student)
    ensures u.isActive <==> extra.isActive != Some(false)
    ensures u.isStaff <==> extra.isStaff == Some(true)
    ensures u.isSuperuser <==> extra.isSuperuser == Some(true)
  {
    User(id, email, Given(extra.fullName, ""), Given(extra.role, Student),
         Given(extra.isActive, true), Given(extra.isStaff, false),
         Given(extra.isSuperuser, false), password)
  }

  /** A user created without extra fields is an active, non-staff student. */
  lemma NewUserDefaults(id: UserId, email: string, password: Password)
    ensures var u := NewUser(id, email, NoExtraFields, password);
      u.role == Student && u.isActive && !u.isStaff && !u.isSuperuser && u.email == email
  {
  }

  /** Every extra field the caller passes is stored as given. */
  lemma NewUserKeepsExtraFields(id: UserId, email: string, extra: ExtraFields, password: Password)
    ensures var u := NewUser(id, email, extra, password);
      && (extra.fullName.Some? ==> u.fullName == extra.fullName.value)
      && (extra.role.Some? ==> u.role == extra.role.value)
      && (extra.isActive.Some? ==> u.isActive == extra.isActive.value)
      && (extra.isStaff.Some? ==> u.isStaff == extra.isStaff.value)
      && (extra.isSuperuser.Some? ==> u.isSuperuser == extra.isSuperuser.value)
  {
  }

  /** The extra fields after the three `setdefault` calls of `create_superuser`. */
  function SuperuserFields(extra: ExtraFields): (r: ExtraFields)
    ensures r.fullName == extra.fullName && r.isActive == extra.isActive
    ensures r.isStaff.Some? && r.isSuperuser.Some? && r.role.Some?
  {
    extra.(isStaff := SetDefault(extra.isStaff, true),
           isSuperuser := SetDefault(extra.isSuperuser, true),
           role := SetDefault(extra.role, Admin))
  }

  /** A superuser is staff, superuser and admin unless the caller said otherwise;
      a value the caller passed for any of the three keys wins. */
  lemma SuperuserDefaults(id: UserId, email: string, extra: ExtraFields, password: Password)
    ensures var u := NewUser(id, email, SuperuserFields(extra), password);
      && u.isStaff == Given(extra.isStaff, true)
      && u.isSuperuser == Given(extra.isSuperuser, true)
      && u.role == Given(extra.role, Admin)
      && (extra == NoExtraFields ==> u.isStaff && u.isSuperuser && u.role == Admin && u.isActive)
  {
  }

  /** `User.__str__`: "User <email> (Label)". */
  function UserString(u: User): (s: string)
    ensures |s| == 10 + |u.email| + |RoleLabel(u.role)|
    ensures s[..6] == "User <" && s[6..6 + |u.email|] == u.email
    ensures s[6 + |u.email|..] == "> (" + RoleLabel(u.role) + ")"
  {
    "User <" + u.email + "> (" + RoleLabel(u.role) + ")"
  }

  lemma UserStringParts(u: User)
    ensures var s := UserString(u);
      && |s| == 10 + |u.email| + |RoleLabel(u.role)|
      && s[6..6 + |u.email|] == u.email
      && s[|s| - 2] == RoleLabel(u.role)[|RoleLabel(u.role)| - 1]
  {
    var s := UserString(u);
    var l := RoleLabel(u.role);
    assert s == "User <" + u.email + "> (" + l + ")";
    assert s[|s| - 2] == l[|l| - 1];
  }

  /** The display string determines the user's email and role. */
  lemma UserStringDetermines(a: User, b: User)
    requires UserString(a) == UserString(b)
    ensures a.email == b.email && a.role == b.role
  {
    UserStringParts(a);
    UserStringParts(b);
    assert a.role == b.role;
  }

  /** The user table with its unique email column and auto-increment key. */
  class UserDirectory {
    var users: map<UserId, User>
    var nextId: nat

    ghost predicate Valid()
      reads this
    {
      && (forall id :: id in users ==> id < nextId && users[id].id == id)
      && (forall a, b :: a in users && b in users && a != b ==> users[a].email != users[b].email)
    }

    constructor ()
      ensures Valid() && users == map[] && nextId == 1
    {
      users := map[];
      nextId := 1;
    }

    /** The email of a stored user, or None when there is no such row. */
    function EmailOf(id: UserId): (e: Option<string>)
      reads this
      ensures e.Some? <==> id in users
      ensures e.Some? ==> e.value == users[id].email
    {
      if id in users then Some(users[id].email) else None
    }

    predicate EmailTaken(email: string)
      reads this
    {
      exists id :: id in users && users[id].email == email
    }

    /** `UserManager.create_user`: a missing or empty email is rejected before anything
        is stored; otherwise the normalised email and every passed field are saved.
        The unique email column rejects a second user with the same normalised email. */
    method CreateUser(email: Option<string>, password: Option<string>, extra: ExtraFields,
                      normalize: string -> string, hash: string -> string)
      returns (r: Result<User, UserError>)
      requires Valid()
      modifies this
      ensures Valid()
      ensures (email.None? || email.value == "") ==> r == Err(EmailNotSet)
      ensures email.Some? && email.value != "" ==>
        (r == Err(DuplicateEmail) <==> old(EmailTaken(normalize(email.value))))
      ensures email.Some? && email.value != "" ==>
        (r.Ok? <==> !old(EmailTaken(normalize(email.value))))
      ensures r.Err? ==> users == old(users) && nextId == old(nextId)
      ensures r.Ok? ==>
        && email.Some?
        && r.value == NewUser(old(nextId), normalize(email.value), extra, PasswordOf(password, hash))
        && old(nextId) !in old(users)
        && users == old(users)[old(nextId) := r.value]
        && nextId == old(nextId) + 1
    {
      if email.None? || email.value == "" {
        return Err(EmailNotSet);
      }
      var normalized := normalize(email.value);
      if EmailTaken(normalized) {
        return Err(DuplicateEmail);
      }
      var u := NewUser(nextId, normalized, extra, PasswordOf(password, hash));
      users := users[nextId := u];
      nextId := nextId + 1;
      r := Ok(u);
    }

    /** `UserManager.create_superuser`: three `setdefault` calls, then `create_user`. */
    method CreateSuperuser(email: Option<string>, password: Option<string>, extra: ExtraFields,
                           normalize: string -> string, hash: string -> string)
      returns (r: Result<User, UserError>)
      requires Valid()
      modifies this
      ensures Valid()
      ensures (email.None? || email.value == "") ==> r == Err(EmailNotSet)
      ensures email.Some? && email.value != "" ==>
        (r == Err(DuplicateEmail) <==> old(EmailTaken(normalize(email.value))))
      ensures email.Some? && email.value != "" ==>
        (r.Ok? <==> !old(EmailTaken(normalize(email.value))))
      ensures r.Err? ==> users == old(users) && nextId == old(nextId)
      ensures r.Ok? ==>
        && email.Some?
        && r.value == NewUser(old(nextId), normalize(email.value), SuperuserFields(extra),
                              PasswordOf(password, hash))
        && old(nextId) !in old(users)
        && users == old(users)[old(nextId) := r.value]
        && nextId == old(nextId) + 1
    {
      var fields := extra;
      fields := fields.(isStaff := SetDefault(fields.isStaff, true));
      fields := fields.(isSuperuser := SetDefault(fields.isSuperuser, true));
      fields := fields.(role := SetDefault(fields.role, Admin));
      r := CreateUser(email, password, fields, normalize, hash);
    }
  }
}
