/**
 * The User schema: the role enumeration and its default, the trimmed name,
 * the lower-cased and pattern-checked e-mail address, the minimum password
 * length, and the document hook that re-hashes the password before a save
 * only when the password was modified.
 */
module UserModel {
  import opened Options
  import opened JsString
  import opened Http

  datatype Role = Consultant | Manager | Dev

  const DefaultRole := Consultant
  const MinPasswordLength := 6

  function RoleName(r: Role): string {
    match r
    case Consultant => "consultant"
    case Manager => "manager"
    case Dev => "dev"
  }

  function ParseRole(v: string): (r: Option<Role>)
    ensures forall x :: r == Some(x) <==> RoleName(x) == v
  {
    if v == "consultant" then Some(Consultant)
    else if v == "manager" then Some(Manager)
    else if v == "dev" then Some(Dev)
    else None
  }

  /** A stored user; `password` holds the hash, never the plaintext. */
  datatype User = User(
    name: string,
    email: string,
    password: string,
    role: Role,
    createdAt: int,
    updatedAt: int)

  predicate NoWhitespace(s: string) {
    forall i :: 0 <= i < |s| ==> !IsWhitespace(s[i])
  }

  /** One `\S+` of the pattern: a non-empty run of non-whitespace. */
  predicate NonSpaceRun(s: string) {
    |s| >= 1 && NoWhitespace(s)
  }

  /** The reading of `^\S+@\S+\.\S+$` as a decomposition of the whole
      string into three runs separated by `@` and `.`. */
  ghost predicate MatchesEmailRegex(s: string) {
    exists i, j :: 0 <= i < j < |s| && s[i] == '@' && s[j] == '.'
      && NonSpaceRun(s[..i]) && NonSpaceRun(s[i + 1..j]) && NonSpaceRun(s[j + 1..])
  }

  /** The validator as the application runs it: no whitespace anywhere, and
      an `@` after the first character followed, at least one character
      later, by a `.` before the last character. */
  predicate EmailPattern(s: string) {
    NoWhitespace(s)
    && exists i, j | 1 <= i && i + 2 <= j <= |s| - 2 :: s[i] == '@' && s[j] == '.'
  }

  /** The executable check agrees with the regular expression, both ways. */
  lemma EmailPatternIsRegex(s: string)
    ensures EmailPattern(s) <==> MatchesEmailRegex(s)
  {
    if EmailPattern(s) {
      var i, j :| 1 <= i && i + 2 <= j <= |s| - 2 && s[i] == '@' && s[j] == '.';
      assert NonSpaceRun(s[..i]) && NonSpaceRun(s[i + 1..j]) && NonSpaceRun(s[j + 1..]);
    }
    if MatchesEmailRegex(s) {
      var i, j :| 0 <= i < j < |s| && s[i] == '@' && s[j] == '.'
        && NonSpaceRun(s[..i]) && NonSpaceRun(s[i + 1..j]) && NonSpaceRun(s[j + 1..]);
      forall k | 0 <= k < |s| ensures !IsWhitespace(s[k]) {
        if k < i {
          assert s[k] == s[..i][k];
        } else if k == i || k == j {
        } else if k < j {
          assert s[k] == s[i + 1..j][k - i - 1];
        } else {
          assert s[k] == s[j + 1..][k - j - 1];
        }
      }
    }
  }

  /** The document handed to `User.create`; None is an undefined field. */
  datatype UserFields = UserFields(
    name: Option<string>,
    email: Option<string>,
    password: Option<string>,
    role: Option<string>)

  function ResolveRole(v: Option<string>): Option<Role> {
    if v.None? then Some(DefaultRole) else ParseRole(v.value)
  }

  /** What a stored user satisfies (the password is opaque once hashed). */
  predicate ValidUser(u: User) {
    && u.name != "" && IsTrimmed(u.name)
    && u.email != "" && ToLower(u.email) == u.email && EmailPattern(u.email)
  }

  /** Every validator of the schema accepts the document, after the trim
      and lowercase setters have run. */
  predicate AdmissibleUser(f: UserFields) {
    && f.name.Some? && Trim(f.name.value) != ""
    && f.email.Some? && ToLower(f.email.value) != "" && EmailPattern(ToLower(f.email.value))
    && f.password.Some? && Utf16Length(f.password.value) >= MinPasswordLength
    && ResolveRole(f.role).Some?
  }

  /** The validated document before the save hook: setters and defaults
      applied, the password still the plaintext, both timestamps `now`. */
  function ValidateUser(f: UserFields, now: int): (r: Result<User, Fault>)
    ensures r.Success? <==> AdmissibleUser(f)
    ensures r.Failure? ==> r.error == ValidationFailed
    ensures r.Success? ==>
              && ValidUser(r.value)
              && r.value.name == Trim(f.name.value)
              && r.value.email == ToLower(f.email.value)
              && r.value.password == f.password.value
              && Some(r.value.role) == ResolveRole(f.role)
              && r.value.createdAt == now && r.value.updatedAt == now
  {
    if !AdmissibleUser(f) then Failure(ValidationFailed)
    else
      TrimmedExactly(f.name.value);
      ToLowerIdempotent(f.email.value);
      Success(User(Trim(f.name.value), ToLower(f.email.value), f.password.value,
                   ResolveRole(f.role).value, now, now))
  }

  /** The minimum length counts UTF-16 code units, as JavaScript's `length`
      does: within the Basic Multilingual Plane it is the number of
      characters, and three characters outside it already make six. */
  lemma PasswordLengthInCodeUnits(p: string)
    ensures (forall i :: 0 <= i < |p| ==> p[i] as int <= 0xFFFF) ==>
      (Utf16Length(p) >= MinPasswordLength <==> |p| >= MinPasswordLength)
    ensures Utf16Length("\U{1F600}\U{1F600}\U{1F600}") >= MinPasswordLength
  {
    if forall i :: 0 <= i < |p| ==> p[i] as int <= 0xFFFF {
      Utf16LengthOfBmp(p);
    }
  }

  /** A role that is omitted defaults to consultant; one outside the
      enumeration is refused. */
  lemma RoleDefaultsToConsultant(f: UserFields, now: int)
    requires AdmissibleUser(f) && f.role.None?
    ensures ValidateUser(f, now).Success? && ValidateUser(f, now).value.role == Consultant
  {
  }

  /** `comparePassword`: the candidate against the stored hash, under the
      password library's comparison. */
  function ComparePassword(u: User, candidate: string, compare: (string, string) -> bool): bool {
    compare(candidate, u.password)
  }

  /**
   * A user document in memory. Mongoose tracks which paths were modified
   * since the last save; the save hook reads that flag for the password.
   */
  class UserDocument {
    var name: string
    var email: string
    var password: string
    var role: Role
    var createdAt: int
    var updatedAt: int
    var passwordModified: bool

    /** The record the document would be stored as. */
    function Record(): User
      reads this
    {
      User(name, email, password, role, createdAt, updatedAt)
    }

    /** A new document: every path it was given counts as modified. */
    constructor (u: User)
      ensures Record() == u && passwordModified
    {
      name, email, password, role := u.name, u.email, u.password, u.role;
      createdAt, updatedAt := u.createdAt, u.updatedAt;
      passwordModified := true;
    }

    /** Assigning the password path marks it modified. */
    method SetPassword(p: string)
      modifies this
      ensures Record() == old(Record()).(password := p) && passwordModified
    {
      password := p;
      passwordModified := true;
    }

    /** The pre-save hook: hash the password with a fresh salt if, and only
        if, it was modified; nothing else changes. */
    method PreSave(salt: string, hash: (string, string) -> string)
      modifies this
      ensures passwordModified == old(passwordModified)
      ensures Record() == old(Record()).(password :=
        if old(passwordModified) then hash(old(password), salt) else old(password))
    {
      if !passwordModified {
        return;
      }
      password := hash(password, salt);
    }

    /** `save`: the hook, then the store clears the modified flags. */
    method Save(salt: string, hash: (string, string) -> string)
      modifies this
      ensures !passwordModified
      ensures Record() == old(Record()).(password :=
        if old(passwordModified) then hash(old(password), salt) else old(password))
    {
      PreSave(salt, hash);
      passwordModified := false;
    }
  }

  /** Saving an unchanged document a second time keeps the stored hash:
      the password is hashed once, not once per save. */
  method SaveTwiceHashesOnce(u: User, salt1: string, salt2: string, hash: (string, string) -> string)
    returns (stored: User)
    ensures stored == u.(password := hash(u.password, salt1))
  {
    var doc := new UserDocument(u);
    doc.Save(salt1, hash);
    doc.Save(salt2, hash);
    stored := doc.Record();
  }

  /** `comparePassword` on a document saved with a new password: the
      candidate is compared against the hash the save hook stored, not
      against the plaintext. */
  method SaveThenCompare(u: User, salt: string, hash: (string, string) -> string,
                         compare: (string, string) -> bool, candidate: string)
    returns (ok: bool)
    ensures ok == compare(candidate, hash(u.password, salt))
  {
    var doc := new UserDocument(u);
    doc.Save(salt, hash);
    ok := ComparePassword(doc.Record(), candidate, compare);
  }
}
