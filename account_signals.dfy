/**
 * `create_cart_for_customer` of accounts/signals.py: the `post_save` receiver
 * that gives every newly created customer an empty cart.
 */
module AccountSignals {
  import opened Products
  import opened Accounts
  import opened Carts
  import opened Billing
  import opened Database

  /** `created and instance.role == 'CUSTOMER'`. */
  predicate CreatesCart(instance: User, created: bool) {
    created && RoleValue(instance.role) == "CUSTOMER"
  }

  /** The cart table after the receiver ran, `cartId` being the next cart key. */
  function CartsAfterSave(carts: map<UserId, Cart>, cartId: CartId, instance: User, created: bool): (r: map<UserId, Cart>)
    ensures CreatesCart(instance, created) ==>
              && instance.id in r && r[instance.id] == Cart(cartId, [])
              && r.Keys == carts.Keys + {instance.id}
    ensures !CreatesCart(instance, created) ==> r == carts
    ensures instance.role != Customer ==> r == carts
    ensures !created ==> r == carts
    ensures forall u :: u in carts && u != instance.id ==> u in r && r[u] == carts[u]
  {
    if CreatesCart(instance, created) then carts[instance.id := Cart(cartId, [])] else carts
  }

  /** A user just inserted has a key no cart refers to yet. */
  lemma FreshUserHasNoCart(users: seq<User>, products: seq<Product>, carts: map<UserId, Cart>, bills: seq<Bill>,
                           nextUserId: int, nextCartId: int, nextBillId: int)
    requires Schema(users, products, carts, bills, nextUserId, nextCartId, nextBillId)
    ensures nextUserId !in carts
  {
    forall u | UserExists(users, u) ensures u < nextUserId {
      var i :| 0 <= i < |users| && users[i].id == u;
    }
  }

  /** Giving an existing user without a cart a new empty cart keeps the schema. */
  lemma NewCartKeepsSchema(users: seq<User>, products: seq<Product>, carts: map<UserId, Cart>, bills: seq<Bill>,
                           nextUserId: int, nextCartId: int, nextBillId: int, owner: UserId)
    requires Schema(users, products, carts, bills, nextUserId, nextCartId, nextBillId)
    requires UserExists(users, owner) && owner !in carts
    ensures Schema(users, products, carts[owner := Cart(nextCartId, [])], bills, nextUserId, nextCartId + 1, nextBillId)
  {
  }

  /** The receiver, run after a save of `instance`. */
  method CreateCartForCustomer(db: Database, instance: User, created: bool)
    requires db.Valid() && UserExists(db.users, instance.id)
    requires created ==> instance.id !in db.carts
    modifies db
    ensures db.Valid()
    ensures db.carts == CartsAfterSave(old(db.carts), old(db.nextCartId), instance, created)
    ensures db.nextCartId == old(db.nextCartId) + (if CreatesCart(instance, created) then 1 else 0)
    ensures db.users == old(db.users) && db.products == old(db.products) && db.bills == old(db.bills)
    ensures db.nextUserId == old(db.nextUserId) && db.nextBillId == old(db.nextBillId)
  {
    if created && RoleValue(instance.role) == "CUSTOMER" {
      NewCartKeepsSchema(db.users, db.products, db.carts, db.bills, db.nextUserId, db.nextCartId, db.nextBillId, instance.id);
      db.carts := db.carts[instance.id := Cart(db.nextCartId, [])];
      db.nextCartId := db.nextCartId + 1;
    }
  }
}
