/**
 * `UserManager` of accounts/models.py: `create_user` and the three helpers
 * that fix the role. Saving a user fires `post_save`, so every save below is
 * followed by `AccountSignals.CreateCartForCustomer`.
 */
module UserManager {
  import opened Wrappers
  import opened Products
  import opened Accounts
  import opened Carts
  import opened Billing
  import opened Database
  import opened AccountSignals

  /**
   * The row `create_user` saves under key `id`, or why it fails: the email
   * test, the role test, then the unique index on the normalised email when
   * the row is inserted.
   */
  function NewUser(users: seq<User>, id: UserId, email: Option<string>, name: string, age: int,
                   password: Option<string>, role: Option<string>): (r: Result<User, AccountError>)
    ensures CheckNewUser(email, role).Err? ==> r == Err(CheckNewUser(email, role).error)
    ensures r == Err(AccountError.EmailTaken) <==>
              CheckNewUser(email, role).Ok? && EmailInUse(users, NormalizeEmail(email.value))
    ensures r.Ok? <==> CheckNewUser(email, role).Ok? && !EmailInUse(users, NormalizeEmail(email.value))
    ensures r.Ok? ==>
              && r.value.id == id && r.value.email == NormalizeEmail(email.value)
              && RoleValue(r.value.role) == role.value
              && r.value.name == name && r.value.age == age
              && r.value.isActive && !r.value.isAdmin
              && r.value.password == SetPassword(password)
  {
    match CheckNewUser(email, role)
    case Err(e) => Err(e)
    case Ok(ro) =>
      var address := NormalizeEmail(email.value);
      if EmailInUse(users, address) then Err(AccountError.EmailTaken)
      else Ok(User(id, address, name, age, ro, true, false, SetPassword(password)))
  }

  /** Inserting the row `NewUser` builds keeps keys and emails unique. */
  lemma NewUserKeepsUsersValid(users: seq<User>, nextId: UserId, email: Option<string>, name: string, age: int,
                               password: Option<string>, role: Option<string>)
    requires ValidUsers(users, nextId)
    requires NewUser(users, nextId, email, name, age, password, role).Ok?
    ensures ValidUsers(users + [NewUser(users, nextId, email, name, age, password, role).value], nextId + 1)
    ensures UserExists(users + [NewUser(users, nextId, email, name, age, password, role).value], nextId)
  {
    var u := NewUser(users, nextId, email, name, age, password, role).value;
    var s := users + [u];
    assert forall i :: 0 <= i < |users| ==> s[i] == users[i];
    assert s[|users|] == u;
    assert forall i :: 0 <= i < |users| ==> users[i].email != u.email;
  }

  /** A user table that keeps every key of the old one keeps every cart's owner. */
  lemma UsersGrowKeepsSchema(users: seq<User>, users': seq<User>, products: seq<Product>, carts: map<UserId, Cart>,
                             bills: seq<Bill>, nextUserId: int, nextUserId': int, nextCartId: int, nextBillId: int)
    requires Schema(users, products, carts, bills, nextUserId, nextCartId, nextBillId)
    requires ValidUsers(users', nextUserId')
    requires forall i :: 0 <= i < |users| ==> i < |users'| && users'[i].id == users[i].id
    ensures Schema(users', products, carts, bills, nextUserId', nextCartId, nextBillId)
  {
    forall u | u in carts ensures UserExists(users', u) {
      var i :| 0 <= i < |users| && users[i].id == u;
      assert users'[i].id == u;
    }
  }

  /** Re-saving the newest row with the same key and email keeps the schema. */
  lemma ReplaceLastKeepsSchema(users: seq<User>, u: User, u': User, products: seq<Product>, carts: map<UserId, Cart>,
                               bills: seq<Bill>, nextUserId: int, nextCartId: int, nextBillId: int)
    requires Schema(users + [u], products, carts, bills, nextUserId, nextCartId, nextBillId)
    requires u'.id == u.id && u'.email == u.email
    ensures Schema(users + [u'], products, carts, bills, nextUserId, nextCartId, nextBillId)
    ensures UserExists(users + [u'], u'.id)
  {
    var s, s' := users + [u], users + [u'];
    assert forall i :: 0 <= i < |s| ==> s'[i].id == s[i].id && s'[i].email == s[i].email;
    UsersGrowKeepsSchema(s, s', products, carts, bills, nextUserId, nextUserId, nextCartId, nextBillId);
    assert s'[|users|] == u';
  }

  /** With the role fixed by a helper, the role test always passes and the role is kept. */
  lemma FixedRoleIsValid(users: seq<User>, id: UserId, email: Option<string>, name: string, age: int,
                         password: Option<string>, role: Role)
    ensures NewUser(users, id, email, name, age, password, Some(RoleValue(role))) != Err(InvalidRole)
    ensures NewUser(users, id, email, name, age, password, Some(RoleValue(role))).Ok? ==>
              NewUser(users, id, email, name, age, password, Some(RoleValue(role))).value.role == role
  {
    RoleValueRoundTrip(role);
  }

  /** `create_user`. */
  method CreateUser(db: Database, email: Option<string>, name: string, age: int,
                    password: Option<string>, role: Option<string>) returns (r: Result<User, AccountError>)
    requires db.Valid()
    modifies db
    ensures db.Valid()
    ensures r == NewUser(old(db.users), old(db.nextUserId), email, name, age, password, role)
    ensures r.Err? ==> unchanged(db)
    ensures r.Ok? ==>
              && db.users == old(db.users) + [r.value] && db.nextUserId == old(db.nextUserId) + 1
              && db.carts == CartsAfterSave(old(db.carts), old(db.nextCartId), r.value, true)
              && db.nextCartId == old(db.nextCartId) + (if CreatesCart(r.value, true) then 1 else 0)
    ensures db.products == old(db.products) && db.bills == old(db.bills) && db.nextBillId == old(db.nextBillId)
  {
    r := NewUser(db.users, db.nextUserId, email, name, age, password, role);
    if r.Ok? {
      NewUserKeepsUsersValid(db.users, db.nextUserId, email, name, age, password, role);
      FreshUserHasNoCart(db.users, db.products, db.carts, db.bills, db.nextUserId, db.nextCartId, db.nextBillId);
      UsersGrowKeepsSchema(db.users, db.users + [r.value], db.products, db.carts, db.bills,
                           db.nextUserId, db.nextUserId + 1, db.nextCartId, db.nextBillId);
      db.users := db.users + [r.value];
      db.nextUserId := db.nextUserId + 1;
      CreateCartForCustomer(db, r.value, true);
    }
  }

  /** What `create_superuser` returns: an ADMIN row with `is_admin` set. */
  function NewSuperuser(users: seq<User>, id: UserId, email: Option<string>, name: string, age: int,
                        password: Option<string>): (r: Result<User, AccountError>)
    ensures r.Ok? ==> r.value.role == Admin && r.value.isAdmin && r.value.id == id
    ensures r.Err? <==> !Truthy(email) || EmailInUse(users, NormalizeEmail(email.value))
  {
    FixedRoleIsValid(users, id, email, name, age, password, Admin);
    match NewUser(users, id, email, name, age, password, Some("ADMIN"))
    case Err(e) => Err(e)
    case Ok(u) => Ok(u.(isAdmin := true))
  }

  /** `create_superuser`: `create_user` with role ADMIN, then `is_admin = True` and a second save. */
  method CreateSuperuser(db: Database, email: Option<string>, name: string, age: int,
                         password: Option<string>) returns (r: Result<User, AccountError>)
    requires db.Valid()
    modifies db
    ensures db.Valid()
    ensures r == NewSuperuser(old(db.users), old(db.nextUserId), email, name, age, password)
    ensures r.Err? ==> unchanged(db)
    ensures r.Ok? ==> db.users == old(db.users) + [r.value] && db.nextUserId == old(db.nextUserId) + 1
    ensures db.carts == old(db.carts) && db.nextCartId == old(db.nextCartId)
    ensures db.products == old(db.products) && db.bills == old(db.bills) && db.nextBillId == old(db.nextBillId)
  {
    var created := CreateUser(db, email, name, age, password, Some("ADMIN"));
    FixedRoleIsValid(old(db.users), old(db.nextUserId), email, name, age, password, Admin);
    if created.Ok? {
      var user := created.value.(isAdmin := true);
      var users := db.users[|db.users| - 1 := user];
      assert db.users == old(db.users) + [created.value];
      assert users == old(db.users) + [user];
      ReplaceLastKeepsSchema(old(db.users), created.value, user, db.products, db.carts, db.bills,
                             db.nextUserId, db.nextCartId, db.nextBillId);
      db.users := users;
      CreateCartForCustomer(db, user, false);
      r := Ok(user);
    } else {
      r := Err(created.error);
    }
  }

  /** `create_employee`. */
  method CreateEmployee(db: Database, email: Option<string>, name: string, age: int,
                        password: Option<string>) returns (r: Result<User, AccountError>)
    requires db.Valid()
    modifies db
    ensures db.Valid()
    ensures r == NewUser(old(db.users), old(db.nextUserId), email, name, age, password, Some("EMPLOYEE"))
    ensures r.Ok? ==>
              && r.value.role == Employee && db.users == old(db.users) + [r.value]
              && db.nextUserId == old(db.nextUserId) + 1
    ensures r.Err? ==> unchanged(db)
    ensures db.carts == old(db.carts) && db.nextCartId == old(db.nextCartId)
    ensures db.products == old(db.products) && db.bills == old(db.bills) && db.nextBillId == old(db.nextBillId)
  {
    r := CreateUser(db, email, name, age, password, Some("EMPLOYEE"));
    FixedRoleIsValid(old(db.users), old(db.nextUserId), email, name, age, password, Employee);
  }

  /** `create_customer`: the new customer also gets an empty cart. */
  method CreateCustomer(db: Database, email: Option<string>, name: string, age: int,
                        password: Option<string>) returns (r: Result<User, AccountError>)
    requires db.Valid()
    modifies db
    ensures db.Valid()
    ensures r == NewUser(old(db.users), old(db.nextUserId), email, name, age, password, Some("CUSTOMER"))
    ensures r.Err? ==> unchanged(db)
    ensures r.Ok? ==>
              && r.value.role == Customer && db.users == old(db.users) + [r.value]
              && db.nextUserId == old(db.nextUserId) + 1
              && db.carts == old(db.carts)[r.value.id := Cart(old(db.nextCartId), [])]
              && db.nextCartId == old(db.nextCartId) + 1
    ensures db.products == old(db.products) && db.bills == old(db.bills) && db.nextBillId == old(db.nextBillId)
  {
    r := CreateUser(db, email, name, age, password, Some("CUSTOMER"));
    FixedRoleIsValid(old(db.users), old(db.nextUserId), email, name, age, password, Customer);
  }
}
