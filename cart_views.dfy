/**
 * `CartViewSet` of cart/views.py: the three cart actions, each working on the
 * requesting user's cart only. `get_user_cart` raises when the user has no
 * cart; that uncaught error is `CartMissing` here.
 */
module CartViews {
  import opened Wrappers
  import opened Products
  import opened Accounts
  import opened Carts
  import opened Billing
  import opened Database

  datatype CartError = CartMissing | ProductNotFound | ItemNotFound | ProductIdRequired

  /**
   * The `error` string of the response, for the errors the views catch.
   * `CartMissing` is the `Cart.DoesNotExist` that `get_user_cart` lets
   * through: a server error with no `error` field.
   */
  function CartErrorText(e: CartError): Option<string> {
    match e
    case CartMissing => None
    case ProductNotFound => Some("Product not found")
    case ItemNotFound => Some("Item not found in cart")
    case ProductIdRequired => Some("Product ID is required")
  }

  function CartErrorStatus(e: CartError): int {
    match e
    case CartMissing => 500
    case ProductNotFound => 404
    case ItemNotFound => 404
    case ProductIdRequired => 400
  }

  /** `int(request.data.get("quantity", 1))`, the text-to-integer step left out. */
  function RequestedQuantity(quantity: Option<int>): int {
    if quantity.Some? then quantity.value else 1
  }

  /** Python truth of the product id: `None` and `0` are false. */
  predicate GivenId(productId: Option<ProductId>) {
    productId.Some? && productId.value != 0
  }

  /** `get_queryset`: the carts owned by the requesting user. */
  function UserCarts(carts: map<UserId, Cart>, user: UserId): (r: seq<Cart>)
    ensures |r| <= 1
    ensures user in carts <==> r != []
    ensures forall i :: 0 <= i < |r| ==> user in carts && r[i] == carts[user]
  {
    if user in carts then [carts[user]] else []
  }

  /** Replacing one cart's lines by lines that are unique and refer to products keeps the schema. */
  lemma EditKeepsSchema(users: seq<User>, products: seq<Product>, carts: map<UserId, Cart>, bills: seq<Bill>,
                        nextUserId: int, nextCartId: int, nextBillId: int, user: UserId, lines: seq<CartLine>)
    requires Schema(users, products, carts, bills, nextUserId, nextCartId, nextBillId)
    requires user in carts && UniqueLines(lines) && Stocked(lines, products)
    ensures Schema(users, products, carts[user := carts[user].(lines := lines)], bills, nextUserId, nextCartId, nextBillId)
  {
  }

  lemma SetKeepsStocked(lines: seq<CartLine>, products: seq<Product>, k: nat, q: int)
    requires Stocked(lines, products) && k < |lines|
    ensures Stocked(lines[k := CartLine(lines[k].product, q)], products)
  {
    var s := lines[k := CartLine(lines[k].product, q)];
    assert forall i :: 0 <= i < |s| ==> s[i].product == lines[i].product;
  }

  lemma DeleteKeepsStocked(lines: seq<CartLine>, products: seq<Product>, k: nat)
    requires Stocked(lines, products) && k < |lines|
    ensures Stocked(lines[..k] + lines[k + 1..], products)
  {
    var s := lines[..k] + lines[k + 1..];
    forall i | 0 <= i < |s| ensures Lookup(products, s[i].product).Some? {
      if i < k { assert s[i] == lines[i]; } else { assert s[i] == lines[i + 1]; }
    }
  }

  lemma AppendKeepsStocked(lines: seq<CartLine>, products: seq<Product>, line: CartLine)
    requires Stocked(lines, products) && Lookup(products, line.product).Some?
    ensures Stocked(lines + [line], products)
  {
    var s := lines + [line];
    assert forall i :: 0 <= i < |lines| ==> s[i] == lines[i];
  }

  /**
   * `add_item`: for a known product, its line gains the requested quantity
   * (default 1), or a new line with that quantity is put last; an unknown
   * product id answers "Product not found" and leaves the cart as it was.
   */
  method AddItem(db: Database, user: UserId, productId: Option<ProductId>, quantity: Option<int>)
    returns (r: Result<CartLine, CartError>)
    requires db.Valid()
    modifies db
    ensures db.Valid()
    ensures db.users == old(db.users) && db.products == old(db.products) && db.bills == old(db.bills)
    ensures db.nextUserId == old(db.nextUserId) && db.nextCartId == old(db.nextCartId) && db.nextBillId == old(db.nextBillId)
    ensures user !in old(db.carts) ==> r == Err(CartMissing) && db.carts == old(db.carts)
    ensures user in old(db.carts) && (productId.None? || Lookup(old(db.products), productId.value).None?) ==>
      r == Err(ProductNotFound) && db.carts == old(db.carts)
    ensures user in old(db.carts) && productId.Some? && Lookup(old(db.products), productId.value).Some? ==>
      var lines := old(db.carts)[user].lines;
      && db.carts == old(db.carts)[user := old(db.carts)[user].(lines := Added(lines, productId.value, RequestedQuantity(quantity)))]
      && r == Ok(CartLine(productId.value, QuantityIn(lines, productId.value) + RequestedQuantity(quantity)))
  {
    if user !in db.carts {
      return Err(CartMissing);
    }
    var cart := db.carts[user];
    var q := RequestedQuantity(quantity);
    if productId.None? || Lookup(db.products, productId.value).None? {
      return Err(ProductNotFound);
    }
    var pid := productId.value;
    var lines, line := AddToLines(cart.lines, db.products, pid, q);
    EditKeepsSchema(db.users, db.products, db.carts, db.bills, db.nextUserId, db.nextCartId, db.nextBillId, user, lines);
    db.carts := db.carts[user := cart.(lines := lines)];
    r := Ok(line);
  }

  /** `get_or_create` then `quantity = n` on a new line or `quantity += n` on an existing one. */
  method AddToLines(lines: seq<CartLine>, products: seq<Product>, pid: ProductId, q: int)
    returns (lines': seq<CartLine>, line: CartLine)
    requires UniqueLines(lines) && Stocked(lines, products) && Lookup(products, pid).Some?
    ensures lines' == Added(lines, pid, q) && UniqueLines(lines') && Stocked(lines', products)
    ensures line == CartLine(pid, QuantityIn(lines, pid) + q)
  {
    AddedSpec(lines, pid, q);
    AddedKeepsStocked(lines, products, pid, q);
    var k := Find(lines, pid);
    if k.None? {
      line := CartLine(pid, q);
      lines' := lines + [line];
    } else {
      line := lines[k.value];
      line := line.(quantity := line.quantity + q);
      lines' := lines[k.value := line];
    }
  }

  lemma AddedKeepsStocked(lines: seq<CartLine>, products: seq<Product>, pid: ProductId, q: int)
    requires Stocked(lines, products) && Lookup(products, pid).Some?
    ensures Stocked(Added(lines, pid, q), products)
  {
    match Find(lines, pid)
    case None => AppendKeepsStocked(lines, products, CartLine(pid, q));
    case Some(k) => SetKeepsStocked(lines, products, k, lines[k].quantity + q);
  }

  /**
   * `update_item_quantity`: a positive quantity (default 1) replaces the
   * line's quantity, any other deletes the line; the answer is the line as
   * saved, or as it was before deletion. A product without a line answers
   * "Item not found in cart" and changes nothing.
   */
  method UpdateItemQuantity(db: Database, user: UserId, productId: Option<ProductId>, quantity: Option<int>)
    returns (r: Result<CartLine, CartError>)
    requires db.Valid()
    modifies db
    ensures db.Valid()
    ensures db.users == old(db.users) && db.products == old(db.products) && db.bills == old(db.bills)
    ensures db.nextUserId == old(db.nextUserId) && db.nextCartId == old(db.nextCartId) && db.nextBillId == old(db.nextBillId)
    ensures user !in old(db.carts) ==> r == Err(CartMissing) && db.carts == old(db.carts)
    ensures user in old(db.carts) && (productId.None? || !HasLine(old(db.carts)[user].lines, productId.value)) ==>
      r == Err(ItemNotFound) && db.carts == old(db.carts)
    ensures user in old(db.carts) && productId.Some? && HasLine(old(db.carts)[user].lines, productId.value) ==>
      var lines, q := old(db.carts)[user].lines, RequestedQuantity(quantity);
      && db.carts == old(db.carts)[user := old(db.carts)[user].(lines := Updated(lines, productId.value, q))]
      && r == Ok(CartLine(productId.value, if q > 0 then q else QuantityIn(lines, productId.value)))
  {
    if user !in db.carts {
      return Err(CartMissing);
    }
    var cart := db.carts[user];
    var q := RequestedQuantity(quantity);
    if productId.None? || Find(cart.lines, productId.value).None? {
      return Err(ItemNotFound);
    }
    var pid := productId.value;
    var lines, line := UpdateLines(cart.lines, db.products, pid, q);
    EditKeepsSchema(db.users, db.products, db.carts, db.bills, db.nextUserId, db.nextCartId, db.nextBillId, user, lines);
    db.carts := db.carts[user := cart.(lines := lines)];
    r := Ok(line);
  }

  /** `cart_item.quantity = quantity` and `save()`, or `delete()` when the quantity is not positive. */
  method UpdateLines(lines: seq<CartLine>, products: seq<Product>, pid: ProductId, q: int)
    returns (lines': seq<CartLine>, line: CartLine)
    requires UniqueLines(lines) && Stocked(lines, products) && HasLine(lines, pid)
    ensures lines' == Updated(lines, pid, q) && UniqueLines(lines') && Stocked(lines', products)
    ensures line == CartLine(pid, if q > 0 then q else QuantityIn(lines, pid))
  {
    UpdatedSpec(lines, pid, q);
    var k := Find(lines, pid).value;
    line := lines[k];
    if q > 0 {
      line := line.(quantity := q);
      SetKeepsStocked(lines, products, k, q);
      lines' := lines[k := line];
    } else {
      DeleteKeepsStocked(lines, products, k);
      lines' := lines[..k] + lines[k + 1..];
    }
  }

  /** `cart_item.delete()`. */
  method RemoveLine(lines: seq<CartLine>, products: seq<Product>, pid: ProductId) returns (lines': seq<CartLine>)
    requires UniqueLines(lines) && Stocked(lines, products) && HasLine(lines, pid)
    ensures lines' == Removed(lines, pid) && UniqueLines(lines') && Stocked(lines', products)
  {
    RemovedSpec(lines, pid);
    var k := Find(lines, pid).value;
    DeleteKeepsStocked(lines, products, k);
    lines' := lines[..k] + lines[k + 1..];
  }

  /**
   * `remove_item`: without a product id, "Product ID is required"; for a
   * product without a line, "Item not found in cart"; otherwise exactly that
   * line is deleted.
   */
  method RemoveItem(db: Database, user: UserId, productId: Option<ProductId>)
    returns (r: Result<(), CartError>)
    requires db.Valid()
    modifies db
    ensures db.Valid()
    ensures db.users == old(db.users) && db.products == old(db.products) && db.bills == old(db.bills)
    ensures db.nextUserId == old(db.nextUserId) && db.nextCartId == old(db.nextCartId) && db.nextBillId == old(db.nextBillId)
    ensures user !in old(db.carts) ==> r == Err(CartMissing) && db.carts == old(db.carts)
    ensures user in old(db.carts) && !GivenId(productId) ==> r == Err(ProductIdRequired) && db.carts == old(db.carts)
    ensures user in old(db.carts) && GivenId(productId) && !HasLine(old(db.carts)[user].lines, productId.value) ==>
      r == Err(ItemNotFound) && db.carts == old(db.carts)
    ensures user in old(db.carts) && GivenId(productId) && HasLine(old(db.carts)[user].lines, productId.value) ==>
      && r == Ok(())
      && db.carts == old(db.carts)[user := old(db.carts)[user].(lines := Removed(old(db.carts)[user].lines, productId.value))]
  {
    if user !in db.carts {
      return Err(CartMissing);
    }
    var cart := db.carts[user];
    if !GivenId(productId) {
      return Err(ProductIdRequired);
    }
    var pid := productId.value;
    var k := Find(cart.lines, pid);
    if k.None? {
      return Err(ItemNotFound);
    }
    var lines := RemoveLine(cart.lines, db.products, pid);
    EditKeepsSchema(db.users, db.products, db.carts, db.bills, db.nextUserId, db.nextCartId, db.nextBillId, user, lines);
    db.carts := db.carts[user := cart.(lines := lines)];
    r := Ok(());
  }
}
