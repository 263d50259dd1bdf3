/**
 * The user record of accounts/models.py: the three roles, the checks that
 * `UserManager.create_user` makes before saving, and the role predicates
 * `has_perm`, `has_module_perms` and `is_staff`.
 */
module Accounts {
  import opened Wrappers

  type UserId = int

  /** `User.Role`, a `TextChoices` whose stored values are the upper-case names. */
  datatype Role = Admin | Employee | Customer

  function RoleValue(r: Role): string {
    match r
    case Admin => "ADMIN"
    case Employee => "EMPLOYEE"
    case Customer => "CUSTOMER"
  }

  /** The role whose stored value is `s`, if there is one. */
  function RoleFromValue(s: string): (r: Option<Role>)
    ensures r.Some? <==> s in {"ADMIN", "EMPLOYEE", "CUSTOMER"}
    ensures r.Some? ==> RoleValue(r.value) == s
  {
    if s == "ADMIN" then Some(Admin)
    else if s == "EMPLOYEE" then Some(Employee)
    else if s == "CUSTOMER" then Some(Customer)
    else None
  }

  lemma RoleValueRoundTrip(r: Role)
    ensures RoleFromValue(RoleValue(r)) == Some(r)
  {
  }

  /**
   * What the password column holds. A row inserted without a password holds
   * the empty string (`Blank`). `set_password` stores a hash: hashing is a
   * library call, so `Hashed(raw)` stands for the hash of `raw`, and `None`
   * gives an unusable password.
   */
  datatype Credential = Blank | Unusable | Hashed(raw: string)

  function SetPassword(password: Option<string>): Credential {
    if password.Some? then Hashed(password.value) else Unusable
  }

  datatype User = User(
    id: UserId,
    email: string,
    name: string,
    age: int,
    role: Role,
    isActive: bool,
    isAdmin: bool,
    password: Credential)

  predicate HasPerm(u: User, perm: string) {
    u.role == Admin
  }

  predicate HasModulePerms(u: User, appLabel: string) {
    u.role == Admin
  }

  predicate IsStaff(u: User) {
    u.role in {Admin}
  }

  /** All three capability checks are "the user is an ADMIN", whatever is asked. */
  lemma CapabilitiesAreAdminOnly(u: User, perm: string, appLabel: string)
    ensures HasPerm(u, perm) <==> u.role == Admin
    ensures HasModulePerms(u, appLabel) <==> u.role == Admin
    ensures IsStaff(u) <==> u.role == Admin
  {
  }

  // ---- UserManager.create_user: the checks before the row is built ----

  /**
   * Why a user cannot be created. `MissingEmail` and `InvalidRole` are the
   * `ValueError`s `create_user` raises; `EmailTaken` is the `IntegrityError`
   * the unique index on `email` raises when the row is inserted. The source
   * catches none of them, so a request that reaches one fails with a server
   * error.
   */
  datatype AccountError = MissingEmail | InvalidRole | EmailTaken

  /** The message of the `ValueError`s; the `IntegrityError` carries the database's own text. */
  function AccountErrorText(e: AccountError): Option<string> {
    match e
    case MissingEmail => Some("Users must have an email address")
    case InvalidRole => Some("Invalid role")
    case EmailTaken => None
  }

  /** Python truth of an optional string: `None` and `""` are false. */
  predicate Truthy(s: Option<string>) {
    s.Some? && s.value != ""
  }

  /** The email test, then the role test, in that order. */
  function CheckNewUser(email: Option<string>, role: Option<string>): (r: Result<Role, AccountError>)
    ensures !Truthy(email) ==> r == Err(MissingEmail)
    ensures Truthy(email) && (role.None? || RoleFromValue(role.value).None?) ==> r == Err(InvalidRole)
    ensures r.Ok? <==> Truthy(email) && role.Some? && RoleFromValue(role.value).Some?
    ensures r.Ok? ==> RoleValue(r.value) == role.value
  {
    if !Truthy(email) then Err(MissingEmail)
    else if role.None? then Err(InvalidRole)
    else match RoleFromValue(role.value)
      case None => Err(InvalidRole)
      case Some(ro) => Ok(ro)
  }

  // ---- BaseUserManager.normalize_email ----

  function LowerAscii(c: char): char {
    if 'A' <= c <= 'Z' then (c as int + 32) as char else c
  }

  function Lower(s: string): (r: string)
    ensures |r| == |s|
    ensures forall i :: 0 <= i < |s| ==> r[i] == LowerAscii(s[i])
  {
    seq(|s|, i requires 0 <= i < |s| => LowerAscii(s[i]))
  }

  /** Position of the last '@' of `s`, if any. */
  function LastAt(s: string): (r: Option<nat>)
    ensures r.Some? ==> r.value < |s| && s[r.value] == '@' && '@' !in s[r.value + 1..]
    ensures r.None? <==> '@' !in s
  {
    if s == [] then None
    else if s[|s| - 1] == '@' then Some(|s| - 1)
    else
      var r := LastAt(s[..|s| - 1]);
      assert s == s[..|s| - 1] + [s[|s| - 1]];
      if r.Some? then
        assert s[r.value + 1..] == s[..|s| - 1][r.value + 1..] + [s[|s| - 1]];
        r
      else None
  }

  /** Lower-cases the part after the last '@'; an address without '@' is kept. */
  function NormalizeEmail(email: string): string {
    match LastAt(email)
    case None => email
    case Some(k) => email[..k] + "@" + Lower(email[k + 1..])
  }

  lemma LowerIdempotent(s: string)
    ensures Lower(Lower(s)) == Lower(s)
  {
  }

  /** Lower-casing neither removes nor introduces an '@'. */
  lemma LowerKeepsAt(s: string)
    ensures ('@' in Lower(s)) <==> ('@' in s)
  {
    var d := Lower(s);
    if '@' in d {
      var i :| 0 <= i < |d| && d[i] == '@';
      assert s[i] == '@';
    }
    if '@' in s {
      var i :| 0 <= i < |s| && s[i] == '@';
      assert d[i] == '@';
    }
  }

  lemma LastAtIs(s: string, k: nat)
    requires k < |s| && s[k] == '@' && '@' !in s[k + 1..]
    ensures LastAt(s) == Some(k)
  {
    var r := LastAt(s);
    assert '@' in s;
    forall j | k < j < |s| ensures s[j] != '@' {
      assert s[k + 1..][j - k - 1] == s[j];
    }
    forall j | r.value < j < |s| ensures s[j] != '@' {
      assert s[r.value + 1..][j - r.value - 1] == s[j];
    }
  }

  /** Normalizing twice is normalizing once, and the local part is kept as typed. */
  lemma NormalizeEmailIdempotent(email: string)
    ensures NormalizeEmail(NormalizeEmail(email)) == NormalizeEmail(email)
    ensures LastAt(email).Some? ==> NormalizeEmail(email)[..LastAt(email).value] == email[..LastAt(email).value]
  {
    match LastAt(email)
    case None =>
    case Some(k) =>
      var d := Lower(email[k + 1..]);
      var n := email[..k] + "@" + d;
      LowerKeepsAt(email[k + 1..]);
      assert n[k] == '@';
      assert n[k + 1..] == d;
      assert n[..k] == email[..k];
      LastAtIs(n, k);
      LowerIdempotent(email[k + 1..]);
  }
}
