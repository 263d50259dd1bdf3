/**
 * Checkout as bills/views.py `generate_bill` performs it, stated on values:
 * the cart's lines, the product table as read at checkout, the requesting
 * user and the id the new bill gets. `Checkout` is the specification,
 * `StageCheckout` the loop that builds the bill items and the decremented
 * stock on local copies; `BillViews.GenerateBill` commits the result.
 */
module Billing {
  import opened Wrappers
  import opened Products
  import opened Accounts
  import opened Carts

  type BillId = int

  /** One bill line: product, quantity bought, and the unit price frozen at checkout. */
  datatype BillItem = BillItem(product: ProductId, quantity: int, price: int)

  datatype Bill = Bill(id: BillId, owner: UserId, totalAmount: int, items: seq<BillItem>)

  datatype CheckoutError = CartIsEmpty | NotEnoughStock(productName: string)

  /** The `error` string of the 400 response. */
  function ErrorText(e: CheckoutError): string {
    match e
    case CartIsEmpty => "Cart is empty"
    case NotEnoughStock(name) => "Not enough stock for " + name
  }

  /** The committed result of a successful checkout: the bill and the new product table. */
  datatype Receipt = Receipt(bill: Bill, stock: seq<Product>)

  /** Every line's product is a row of the table (the cart line's foreign key). */
  predicate Stocked(lines: seq<CartLine>, rows: seq<Product>) {
    forall i :: 0 <= i < |lines| ==> Lookup(rows, lines[i].product).Some?
  }

  /** The product row a line refers to. */
  function ProductOf(line: CartLine, rows: seq<Product>): Product
    requires Lookup(rows, line.product).Some?
  {
    Lookup(rows, line.product).value
  }

  /** `product.quantity < cart_item.quantity`. */
  predicate Short(line: CartLine, rows: seq<Product>)
    requires Lookup(rows, line.product).Some?
  {
    ProductOf(line, rows).quantity < line.quantity
  }

  lemma StockedTail(lines: seq<CartLine>, rows: seq<Product>)
    requires lines != [] && Stocked(lines, rows)
    ensures Stocked(lines[1..], rows) && Stocked(lines[..|lines| - 1], rows)
  {
    assert forall i :: 0 <= i < |lines| - 1 ==> lines[1..][i] == lines[i + 1] && lines[..|lines| - 1][i] == lines[i];
  }

  /** The first line, in cart order, whose product has too little stock. */
  function FirstShortLine(lines: seq<CartLine>, rows: seq<Product>): (r: Option<nat>)
    requires Stocked(lines, rows)
    ensures r.Some? ==> r.value < |lines| && Short(lines[r.value], rows)
    ensures r.Some? ==> forall j :: 0 <= j < r.value ==> !Short(lines[j], rows)
    ensures r.None? ==> forall j :: 0 <= j < |lines| ==> !Short(lines[j], rows)
  {
    if lines == [] then None
    else if Short(lines[0], rows) then Some(0)
    else
      StockedTail(lines, rows);
      var r := FirstShortLine(lines[1..], rows);
      assert forall j :: 0 <= j < |lines| - 1 ==> lines[1..][j] == lines[j + 1];
      if r.Some? then Some(r.value + 1) else None
  }

  /** `sum(item.product.price * item.quantity for item in cart_items)`. */
  function CartTotal(lines: seq<CartLine>, rows: seq<Product>): int
    requires Stocked(lines, rows)
  {
    if lines == [] then 0
    else
      StockedTail(lines, rows);
      ProductOf(lines[0], rows).price * lines[0].quantity + CartTotal(lines[1..], rows)
  }

  /** Sum of price times quantity over bill items. */
  function ItemsTotal(items: seq<BillItem>): int {
    if items == [] then 0 else items[0].price * items[0].quantity + ItemsTotal(items[1..])
  }

  /** One bill item per line, carrying the line's product and quantity and the product's price now. */
  function FrozenItems(lines: seq<CartLine>, rows: seq<Product>): seq<BillItem>
    requires Stocked(lines, rows)
  {
    seq(|lines|, i requires 0 <= i < |lines| && Stocked(lines, rows) =>
      BillItem(lines[i].product, lines[i].quantity, ProductOf(lines[i], rows).price))
  }

  /** Total quantity the lines take of product `pid`. */
  function Withdrawn(lines: seq<CartLine>, pid: ProductId): int {
    if lines == [] then 0
    else Withdrawn(lines[..|lines| - 1], pid) + (if lines[|lines| - 1].product == pid then lines[|lines| - 1].quantity else 0)
  }

  /** `product.quantity = F('quantity') - cart_item.quantity` on the rows of one product. */
  function Withdraw(rows: seq<Product>, pid: ProductId, n: int): (r: seq<Product>)
    ensures |r| == |rows|
  {
    seq(|rows|, i requires 0 <= i < |rows| => if rows[i].id == pid then rows[i].(quantity := rows[i].quantity - n) else rows[i])
  }

  /** The table after every line's quantity has been taken from its product. */
  function Decremented(rows: seq<Product>, lines: seq<CartLine>): (r: seq<Product>)
    ensures |r| == |rows|
  {
    seq(|rows|, i requires 0 <= i < |rows| => rows[i].(quantity := rows[i].quantity - Withdrawn(lines, rows[i].id)))
  }

  /** Checkout of a non-empty cart. */
  function Settle(lines: seq<CartLine>, rows: seq<Product>, owner: UserId, billId: BillId): Result<Receipt, CheckoutError>
    requires Stocked(lines, rows)
  {
    match FirstShortLine(lines, rows)
    case Some(k) => Err(NotEnoughStock(ProductOf(lines[k], rows).name))
    case None => Ok(Receipt(Bill(billId, owner, CartTotal(lines, rows), FrozenItems(lines, rows)), Decremented(rows, lines)))
  }

  /** `generate_bill` for the cart found for the user (`None`: the user has no cart). */
  function Checkout(cart: Option<Cart>, rows: seq<Product>, owner: UserId, billId: BillId): Result<Receipt, CheckoutError>
    requires cart.Some? ==> Stocked(cart.value.lines, rows)
  {
    if cart.None? || cart.value.lines == [] then Err(CartIsEmpty)
    else Settle(cart.value.lines, rows, owner, billId)
  }

  /**
   * The loop of `generate_bill`, on local copies: it checks each line in cart
   * order, stops at the first short one, and otherwise collects the bill items
   * and the decremented stock.
   */
  method StageCheckout(lines: seq<CartLine>, rows: seq<Product>, owner: UserId, billId: BillId)
    returns (r: Result<Receipt, CheckoutError>)
    requires Stocked(lines, rows)
    ensures r == Settle(lines, rows, owner, billId)
  {
    var total := CartTotal(lines, rows);
    var items: seq<BillItem> := [];
    var stock := rows;
    var i := 0;
    while i < |lines|
      invariant 0 <= i <= |lines|
      invariant Stocked(lines[..i], rows)
      invariant forall j :: 0 <= j < i ==> !Short(lines[j], rows)
      invariant items == FrozenItems(lines[..i], rows)
      invariant stock == Decremented(rows, lines[..i])
    {
      var product := ProductOf(lines[i], rows);
      if product.quantity < lines[i].quantity {
        assert FirstShortLine(lines, rows) == Some(i);
        return Err(NotEnoughStock(product.name));
      }
      StageStep(lines, rows, i);
      items := items + [BillItem(lines[i].product, lines[i].quantity, product.price)];
      stock := Withdraw(stock, lines[i].product, lines[i].quantity);
      i := i + 1;
    }
    assert lines[..i] == lines;
    return Ok(Receipt(Bill(billId, owner, total, items), stock));
  }

  /** One turn of the staging loop: the prefix grows by line `i`. */
  lemma StageStep(lines: seq<CartLine>, rows: seq<Product>, i: nat)
    requires Stocked(lines, rows) && i < |lines|
    ensures Stocked(lines[..i], rows) && Stocked(lines[..i + 1], rows)
    ensures FrozenItems(lines[..i + 1], rows)
              == FrozenItems(lines[..i], rows) + [BillItem(lines[i].product, lines[i].quantity, ProductOf(lines[i], rows).price)]
    ensures Decremented(rows, lines[..i + 1]) == Withdraw(Decremented(rows, lines[..i]), lines[i].product, lines[i].quantity)
  {
    var before, after := lines[..i], lines[..i + 1];
    assert forall j :: 0 <= j < i ==> after[j] == before[j] == lines[j];
    assert after[i] == lines[i];
    assert after[..i] == before;
    var d, d' := Decremented(rows, before), Decremented(rows, after);
    var w := Withdraw(d, lines[i].product, lines[i].quantity);
    forall j | 0 <= j < |rows| ensures d'[j] == w[j] {
      assert Withdrawn(after, rows[j].id) == Withdrawn(before, rows[j].id) + (if lines[i].product == rows[j].id then lines[i].quantity else 0);
    }
  }

  // ---- what a checkout promises ----

  /** No cart, or a cart without lines: "Cart is empty". */
  lemma CheckoutRejectsEmptyCart(cart: Option<Cart>, rows: seq<Product>, owner: UserId, billId: BillId)
    requires cart.None? || cart.value.lines == []
    ensures Checkout(cart, rows, owner, billId) == Err(CartIsEmpty)
  {
  }

  /** The error names the product of the first short line in cart order. */
  lemma CheckoutReportsFirstShortLine(cart: Option<Cart>, rows: seq<Product>, owner: UserId, billId: BillId, k: nat)
    requires cart.Some? && Stocked(cart.value.lines, rows)
    requires k < |cart.value.lines| && Short(cart.value.lines[k], rows)
    requires forall j :: 0 <= j < k ==> !Short(cart.value.lines[j], rows)
    ensures Checkout(cart, rows, owner, billId) == Err(NotEnoughStock(ProductOf(cart.value.lines[k], rows).name))
  {
    var r := FirstShortLine(cart.value.lines, rows);
    assert r.Some?;
    assert r.value == k;
  }

  /** Checkout succeeds exactly when the cart has lines and every line is covered by stock. */
  lemma CheckoutSucceedsIffStocked(cart: Option<Cart>, rows: seq<Product>, owner: UserId, billId: BillId)
    requires cart.Some? ==> Stocked(cart.value.lines, rows)
    ensures Checkout(cart, rows, owner, billId).Ok? <==>
      cart.Some? && cart.value.lines != [] &&
      forall j :: 0 <= j < |cart.value.lines| ==> ProductOf(cart.value.lines[j], rows).quantity >= cart.value.lines[j].quantity
  {
    if cart.Some? && cart.value.lines != [] {
      var r := FirstShortLine(cart.value.lines, rows);
      if r.Some? {
        assert Short(cart.value.lines[r.value], rows);
      }
    }
  }

  lemma {:induction false} TotalsAgree(lines: seq<CartLine>, rows: seq<Product>)
    requires Stocked(lines, rows)
    ensures CartTotal(lines, rows) == ItemsTotal(FrozenItems(lines, rows))
  {
    if lines != [] {
      StockedTail(lines, rows);
      TotalsAgree(lines[1..], rows);
      assert FrozenItems(lines, rows)[1..] == FrozenItems(lines[1..], rows);
    }
  }

  /**
   * A successful checkout yields a bill for the requesting user with one item
   * per cart line, in cart order, carrying the line's product and quantity and
   * the product's price at checkout; its total is the sum of price times
   * quantity over the cart lines, and equally over its own items.
   */
  lemma CheckoutBill(cart: Option<Cart>, rows: seq<Product>, owner: UserId, billId: BillId)
    requires cart.Some? ==> Stocked(cart.value.lines, rows)
    requires Checkout(cart, rows, owner, billId).Ok?
    ensures var bill := Checkout(cart, rows, owner, billId).value.bill;
      && bill.id == billId && bill.owner == owner
      && |bill.items| == |cart.value.lines|
      && (forall i :: 0 <= i < |bill.items| ==>
            bill.items[i] == BillItem(cart.value.lines[i].product, cart.value.lines[i].quantity, ProductOf(cart.value.lines[i], rows).price))
      && bill.totalAmount == CartTotal(cart.value.lines, rows)
      && bill.totalAmount == ItemsTotal(bill.items)
  {
    TotalsAgree(cart.value.lines, rows);
  }

  /** With one line per product, what the lines withdraw from `pid` is its cart quantity. */
  lemma {:induction false} WithdrawnIsCartQuantity(lines: seq<CartLine>, pid: ProductId)
    requires UniqueLines(lines)
    ensures Withdrawn(lines, pid) == QuantityIn(lines, pid)
  {
    if lines != [] {
      var init, last := lines[..|lines| - 1], lines[|lines| - 1];
      assert lines == init + [CartLine(last.product, last.quantity)];
      assert UniqueLines(init) by {
        forall i, j | 0 <= i < j < |init| ensures init[i].product != init[j].product {
          assert init[i] == lines[i] && init[j] == lines[j];
        }
      }
      assert !HasLine(init, last.product) by {
        forall i | 0 <= i < |init| ensures init[i].product != last.product {
          assert init[i] == lines[i];
        }
      }
      WithdrawnIsCartQuantity(init, pid);
      if pid != last.product {
        assert Find(lines, pid) == Find(init, pid);
      }
    }
  }

  /**
   * A successful checkout takes from each product exactly its cart line's
   * quantity and leaves every other product, and every other field, as it was.
   */
  lemma CheckoutStock(cart: Option<Cart>, rows: seq<Product>, owner: UserId, billId: BillId)
    requires cart.Some? ==> Stocked(cart.value.lines, rows)
    requires cart.Some? ==> UniqueLines(cart.value.lines)
    requires Checkout(cart, rows, owner, billId).Ok?
    ensures var stock := Checkout(cart, rows, owner, billId).value.stock;
      && |stock| == |rows|
      && forall i :: 0 <= i < |rows| ==>
           stock[i] == rows[i].(quantity := rows[i].quantity - QuantityIn(cart.value.lines, rows[i].id))
  {
    forall i | 0 <= i < |rows| {
      WithdrawnIsCartQuantity(cart.value.lines, rows[i].id);
    }
  }

  /**
   * Every decrement is covered by a passed stock check, so a successful
   * checkout keeps the product table valid: no quantity goes negative, and
   * keys, names and prices are untouched.
   */
  lemma CheckoutKeepsCatalogValid(cart: Option<Cart>, rows: seq<Product>, owner: UserId, billId: BillId)
    requires cart.Some? ==> Stocked(cart.value.lines, rows)
    requires cart.Some? ==> UniqueLines(cart.value.lines)
    requires ValidCatalog(rows)
    requires Checkout(cart, rows, owner, billId).Ok?
    ensures ValidCatalog(Checkout(cart, rows, owner, billId).value.stock)
    ensures forall pid :: Lookup(Checkout(cart, rows, owner, billId).value.stock, pid).Some? <==> Lookup(rows, pid).Some?
  {
    var lines := cart.value.lines;
    CheckoutSucceedsIffStocked(cart, rows, owner, billId);
    DecrementedKeepsKeys(rows, lines);
    DecrementedNonNegative(rows, lines);
  }

  /** Decrementing changes quantities only, so the same keys are found. */
  lemma DecrementedKeepsKeys(rows: seq<Product>, lines: seq<CartLine>)
    ensures forall i :: 0 <= i < |rows| ==>
      Decremented(rows, lines)[i] == rows[i].(quantity := Decremented(rows, lines)[i].quantity)
    ensures forall pid :: Lookup(Decremented(rows, lines), pid).Some? <==> Lookup(rows, pid).Some?
  {
    var stock := Decremented(rows, lines);
    assert forall i :: 0 <= i < |rows| ==> stock[i].id == rows[i].id;
  }

  /** When every line is covered by its product's stock, no decremented quantity is negative. */
  lemma DecrementedNonNegative(rows: seq<Product>, lines: seq<CartLine>)
    requires ValidCatalog(rows) && UniqueLines(lines) && Stocked(lines, rows)
    requires forall j :: 0 <= j < |lines| ==> ProductOf(lines[j], rows).quantity >= lines[j].quantity
    ensures ValidCatalog(Decremented(rows, lines))
  {
    var stock := Decremented(rows, lines);
    forall i | 0 <= i < |rows| ensures stock[i].quantity >= 0 {
      var pid := rows[i].id;
      WithdrawnIsCartQuantity(lines, pid);
      match Find(lines, pid)
      case None =>
      case Some(k) =>
        LookupAt(rows, i);
        assert ProductOf(lines[k], rows) == rows[i];
    }
    assert forall i :: 0 <= i < |rows| ==> stock[i].id == rows[i].id && stock[i].name == rows[i].name && stock[i].price == rows[i].price;
  }
}
