/**
 * The database the views and managers work on: the user, product, cart and
 * bill tables and the next primary key of each auto-increment table. Tables
 * whose order matters to a query are sequences in table order; carts are keyed
 * by their owner, since the views fetch a user's cart with
 * `Cart.objects.get(user=...)`, which admits at most one.
 */
module Database {
  import opened Wrappers
  import opened Products
  import opened Accounts
  import opened Carts
  import opened Billing

  predicate UserExists(users: seq<User>, id: UserId) {
    exists i :: 0 <= i < |users| && users[i].id == id
  }

  predicate EmailInUse(users: seq<User>, email: string) {
    exists i :: 0 <= i < |users| && users[i].email == email
  }

  /** Keys below the next key and unique, emails unique (`unique=True`). */
  predicate ValidUsers(users: seq<User>, nextId: int) {
    && (forall i :: 0 <= i < |users| ==> users[i].id < nextId)
    && (forall i, j :: 0 <= i < j < |users| ==> users[i].id != users[j].id && users[i].email != users[j].email)
  }

  /** Every cart belongs to a user, has an id below the next cart key, one line per product, and lines that refer to products. */
  predicate ValidCarts(carts: map<UserId, Cart>, users: seq<User>, products: seq<Product>, nextCartId: int) {
    forall u :: u in carts ==>
      && UserExists(users, u)
      && carts[u].id < nextCartId
      && UniqueLines(carts[u].lines)
      && Stocked(carts[u].lines, products)
  }

  predicate Schema(users: seq<User>, products: seq<Product>, carts: map<UserId, Cart>, bills: seq<Bill>,
                   nextUserId: int, nextCartId: int, nextBillId: int) {
    && ValidUsers(users, nextUserId)
    && ValidCatalog(products)
    && ValidCarts(carts, users, products, nextCartId)
    && (forall i :: 0 <= i < |bills| ==> bills[i].id < nextBillId)
  }

  class Database {
    var users: seq<User>
    var products: seq<Product>
    var carts: map<UserId, Cart>
    var bills: seq<Bill>
    var nextUserId: int
    var nextCartId: int
    var nextBillId: int

    /** The constraints the schema keeps: keys, uniqueness and foreign keys. */
    ghost predicate Valid()
      reads this
    {
      Schema(users, products, carts, bills, nextUserId, nextCartId, nextBillId)
    }

    /** A database with the given product table and nothing else. */
    constructor (catalog: seq<Product>)
      requires ValidCatalog(catalog)
      ensures Valid()
      ensures users == [] && products == catalog && carts == map[] && bills == []
    {
      users, products, carts, bills := [], catalog, map[], [];
      nextUserId, nextCartId, nextBillId := 1, 1, 1;
    }
  }

  /** The user's cart, if there is one (`Cart.objects.filter(user=user).first()`). */
  function CartOf(carts: map<UserId, Cart>, user: UserId): Option<Cart> {
    if user in carts then Some(carts[user]) else None
  }
}
