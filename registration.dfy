/**
 * `UserRegistrationSerializer` of accounts/serializers.py: the password
 * confirmation check of `validate` and the row `create` writes. A request body
 * is a map from field name to a text or integer value.
 */
module Registration {
  import opened Wrappers
  import opened Products
  import opened Accounts
  import opened Carts
  import opened Billing
  import opened Database
  import opened AccountSignals
  import opened UserManager

  datatype Value = Text(text: string) | Number(number: int)

  type Attrs = map<string, Value>

  /** `Meta.fields` plus the declared `password2`. */
  const DeclaredFields: set<string> := {"role", "name", "age", "email", "password", "password2"}

  const PasswordMismatch := "Passwords don't match"

  /** The body as the serializer reads it: undeclared fields are ignored. */
  function Submitted(data: Attrs): (r: Attrs)
    ensures r.Keys <= DeclaredFields
    ensures forall k :: k in data && k in DeclaredFields ==> k in r && r[k] == data[k]
  {
    map k | k in data && k in DeclaredFields :: data[k]
  }

  /** `attrs.get(key)`. */
  function Get(attrs: Attrs, key: string): Option<Value> {
    if key in attrs then Some(attrs[key]) else None
  }

  /** `validate`: the attributes unchanged, or the mismatch error. */
  function Validate(attrs: Attrs): (r: Result<Attrs, string>)
    ensures r.Err? <==> Get(attrs, "password") != Get(attrs, "password2")
    ensures r.Err? ==> r.error == PasswordMismatch
    ensures r.Ok? ==> r.value == attrs
  {
    if Get(attrs, "password") != Get(attrs, "password2") then Err(PasswordMismatch) else Ok(attrs)
  }

  predicate TextField(attrs: Attrs, key: string, maxLength: int) {
    key in attrs && attrs[key].Text? && attrs[key].text != "" && |attrs[key].text| <= maxLength
  }

  /**
   * The field validators derived from the model and the declaration: email and
   * name required and at most 255 long, the email not yet in use, the age at
   * least 18, the role one of the three when given, the password at most 128
   * long, the confirmation required.
   */
  predicate FieldsValid(users: seq<User>, attrs: Attrs) {
    && TextField(attrs, "email", 255) && !EmailInUse(users, attrs["email"].text)
    && TextField(attrs, "name", 255)
    && "age" in attrs && attrs["age"].Number? && attrs["age"].number >= 18
    && ("role" in attrs ==> attrs["role"].Text? && RoleFromValue(attrs["role"].text).Some?)
    && TextField(attrs, "password", 128)
    && "password2" in attrs && attrs["password2"].Text? && attrs["password2"].text != ""
  }

  /** The role of the new row: the one given, else the model default CUSTOMER. */
  function RoleOf(fields: Attrs): (r: Role)
    ensures "role" in fields && fields["role"].Text? && RoleFromValue(fields["role"].text).Some? ==>
              RoleValue(r) == fields["role"].text
    ensures "role" !in fields ==> r == Customer
  {
    if "role" in fields && fields["role"].Text? && RoleFromValue(fields["role"].text).Some?
    then RoleFromValue(fields["role"].text).value
    else Customer
  }

  /**
   * The row `User.objects.create(**fields)` inserts under key `id`, before
   * `set_password`: the email is stored exactly as given (this is not
   * `create_user`, so there is no normalisation) and the password column holds
   * the empty string.
   */
  function InsertedUser(id: UserId, fields: Attrs): (u: User)
    requires TextField(fields, "email", 255) && TextField(fields, "name", 255)
    requires "age" in fields && fields["age"].Number?
    ensures u.id == id && u.email == fields["email"].text && u.name == fields["name"].text
    ensures u.age == fields["age"].number && u.role == RoleOf(fields)
    ensures u.isActive && !u.isAdmin && u.password == Blank
  {
    User(id, fields["email"].text, fields["name"].text, fields["age"].number, RoleOf(fields), true, false, Blank)
  }

  /**
   * `create`: pop `password2`, pop `password`, insert the remaining fields,
   * then store the password through `set_password` and save again. Both saves
   * fire `post_save`; only the first has `created` set.
   */
  method Create(db: Database, validated: Attrs) returns (user: User, fields: Attrs)
    requires db.Valid() && FieldsValid(db.users, validated)
    modifies db
    ensures db.Valid()
    ensures fields.Keys == validated.Keys - {"password", "password2"}
    ensures forall k :: k in fields ==> fields[k] == validated[k]
    ensures user == InsertedUser(old(db.nextUserId), fields).(password := Hashed(validated["password"].text))
    ensures db.users == old(db.users) + [user] && db.nextUserId == old(db.nextUserId) + 1
    ensures db.carts == CartsAfterSave(old(db.carts), old(db.nextCartId), user, true)
    ensures db.nextCartId == old(db.nextCartId) + (if CreatesCart(user, true) then 1 else 0)
    ensures db.products == old(db.products) && db.bills == old(db.bills) && db.nextBillId == old(db.nextBillId)
  {
    fields := validated;
    fields := fields - {"password2"};
    var password := fields["password"];
    fields := fields - {"password"};
    var row := InsertedUser(db.nextUserId, fields);
    InsertKeepsSchema(db.users, row, db.products, db.carts, db.bills, db.nextUserId, db.nextCartId, db.nextBillId);
    FreshUserHasNoCart(db.users, db.products, db.carts, db.bills, db.nextUserId, db.nextCartId, db.nextBillId);
    db.users := db.users + [row];
    db.nextUserId := db.nextUserId + 1;
    CreateCartForCustomer(db, row, true);
    user := row.(password := Hashed(password.text));
    var users := db.users[|db.users| - 1 := user];
    assert users == old(db.users) + [user];
    ReplaceLastKeepsSchema(old(db.users), row, user, db.products, db.carts, db.bills,
                           db.nextUserId, db.nextCartId, db.nextBillId);
    db.users := users;
    CreateCartForCustomer(db, user, false);
  }

  /** A row with a fresh key and an email not in use can be inserted. */
  lemma InsertKeepsSchema(users: seq<User>, u: User, products: seq<Product>, carts: map<UserId, Cart>,
                          bills: seq<Bill>, nextUserId: int, nextCartId: int, nextBillId: int)
    requires Schema(users, products, carts, bills, nextUserId, nextCartId, nextBillId)
    requires u.id == nextUserId && !EmailInUse(users, u.email)
    ensures Schema(users + [u], products, carts, bills, nextUserId + 1, nextCartId, nextBillId)
    ensures UserExists(users + [u], u.id)
  {
    var s := users + [u];
    assert forall i :: 0 <= i < |users| ==> s[i] == users[i];
    assert s[|users|] == u;
    UsersGrowKeepsSchema(users, s, products, carts, bills, nextUserId, nextUserId + 1, nextCartId, nextBillId);
  }
}
