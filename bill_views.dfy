/**
 * `BillViewSet` of bills/views.py: the per-user bill query and the
 * `generate_bill` action, which runs checkout, renders the bill and hands it
 * to the mail queue, all inside one transaction.
 */
module BillViews {
  import opened Wrappers
  import opened Products
  import opened Accounts
  import opened Carts
  import opened Billing
  import opened Database

  /** The bytes `generate_pdf` returns; template rendering is outside this model. */
  type Document = seq<bv8>

  /** `send_bill_email.delay(bill.id, user.email, pdf)`. */
  datatype BillEmail = BillEmail(billId: BillId, recipient: string, pdf: Document)

  /**
   * The `filter(user=...)` of `get_queryset`: the bills of the requesting
   * user, in table order. The source's `Prefetch("bills", ...)` is not
   * modelled: the relation from a bill to its items is named `items`, so
   * the query as written fails once the user has a bill.
   */
  function UserBills(bills: seq<Bill>, user: UserId): (r: seq<Bill>)
    ensures forall i :: 0 <= i < |r| ==> r[i].owner == user && r[i] in bills
    ensures forall i :: 0 <= i < |bills| && bills[i].owner == user ==> bills[i] in r
  {
    if bills == [] then []
    else
      var rest := UserBills(bills[1..], user);
      assert forall i :: 1 <= i < |bills| ==> bills[i] == bills[1..][i - 1];
      if bills[0].owner == user then [bills[0]] + rest else rest
  }

  /** Committing a successful checkout keeps every constraint of the schema. */
  lemma CommitKeepsSchema(users: seq<User>, products: seq<Product>, carts: map<UserId, Cart>, bills: seq<Bill>,
                          nextUserId: int, nextCartId: int, nextBillId: int, owner: UserId)
    requires Schema(users, products, carts, bills, nextUserId, nextCartId, nextBillId)
    requires Checkout(CartOf(carts, owner), products, owner, nextBillId).Ok?
    ensures var receipt := Checkout(CartOf(carts, owner), products, owner, nextBillId).value;
      && owner in carts
      && Schema(users, receipt.stock, carts[owner := carts[owner].(lines := [])], bills + [receipt.bill],
                nextUserId, nextCartId, nextBillId + 1)
  {
    var cart := CartOf(carts, owner);
    var receipt := Checkout(cart, products, owner, nextBillId).value;
    CheckoutKeepsCatalogValid(cart, products, owner, nextBillId);
    var carts' := carts[owner := carts[owner].(lines := [])];
    forall u | u in carts' ensures Stocked(carts'[u].lines, receipt.stock) {
      if u != owner {
        assert Stocked(carts[u].lines, products);
      }
    }
  }

  /** The bill of a checkout, or its error. */
  function BillOf(c: Result<Receipt, CheckoutError>): Result<Bill, CheckoutError> {
    if c.Ok? then Ok(c.value.bill) else Err(c.error)
  }

  /**
   * `generate_bill` for the authenticated `requester`. `pdf` stands for what
   * `generate_pdf` returns (`None` when rendering failed). On an error nothing
   * in the database changes; on success the bill is added, each product loses
   * its line's quantity, the cart stays but has no lines, and an email job is
   * produced exactly when there is a non-empty PDF (`if pdf:`).
   */
  method GenerateBill(db: Database, requester: User, pdf: Option<Document>)
    returns (r: Result<Bill, CheckoutError>, email: Option<BillEmail>)
    requires db.Valid()
    modifies db
    ensures db.Valid()
    ensures r == BillOf(Checkout(CartOf(old(db.carts), requester.id), old(db.products), requester.id, old(db.nextBillId)))
    ensures r.Err? ==> unchanged(db)
    ensures r.Ok? ==>
      && db.bills == old(db.bills) + [r.value]
      && db.nextBillId == old(db.nextBillId) + 1
      && db.products == Checkout(CartOf(old(db.carts), requester.id), old(db.products), requester.id, old(db.nextBillId)).value.stock
      && requester.id in old(db.carts)
      && db.carts == old(db.carts)[requester.id := old(db.carts)[requester.id].(lines := [])]
    ensures db.users == old(db.users) && db.nextUserId == old(db.nextUserId) && db.nextCartId == old(db.nextCartId)
    ensures email == if r.Ok? && pdf.Some? && pdf.value != [] then Some(BillEmail(r.value.id, requester.email, pdf.value)) else None
  {
    email := None;
    var cart := CartOf(db.carts, requester.id);
    if cart.None? || cart.value.lines == [] {
      return Err(CartIsEmpty), None;
    }
    // The source creates the Bill row before the stock loop and rolls the
    // transaction back on a short line; here everything is staged first and
    // written only once every line has passed.
    var staged := StageCheckout(cart.value.lines, db.products, requester.id, db.nextBillId);
    if staged.Err? {
      return Err(staged.error), None;
    }
    var receipt := staged.value;
    CommitKeepsSchema(db.users, db.products, db.carts, db.bills, db.nextUserId, db.nextCartId, db.nextBillId, requester.id);
    db.bills := db.bills + [receipt.bill];
    db.nextBillId := db.nextBillId + 1;
    db.products := receipt.stock;
    db.carts := db.carts[requester.id := cart.value.(lines := [])];
    r := Ok(receipt.bill);
    if pdf.Some? && pdf.value != [] {
      email := Some(BillEmail(receipt.bill.id, requester.email, pdf.value));
    }
  }
}
