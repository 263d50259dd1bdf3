/**
 * The product record of products/models.py: its fields, the constraints the
 * model declares on them, and the default listing order (price, then quantity).
 * Prices are `DecimalField(max_digits=10, decimal_places=2)` values, held here
 * as whole cents.
 */
module Products {
  import opened Wrappers

  type ProductId = int

  const MaxNameLength := 255
  /** `MinValueValidator(1.00)`, in cents. */
  const MinPriceCents := 100
  /** Ten digits of which two are decimals: at most 99999999.99. */
  const MaxPriceCents := 99_999_999_99
  /** `PositiveIntegerField(default=0)`. */
  const DefaultQuantity := 0

  datatype Product = Product(id: ProductId, name: string, description: string, price: int, quantity: int)

  predicate ValidPrice(cents: int) {
    MinPriceCents <= cents <= MaxPriceCents
  }

  predicate ValidProduct(p: Product) {
    |p.name| <= MaxNameLength && ValidPrice(p.price) && p.quantity >= 0
  }

  predicate UniqueIds(rows: seq<Product>) {
    forall i, j :: 0 <= i < j < |rows| ==> rows[i].id != rows[j].id
  }

  /** `unique=True` on the name column. */
  predicate UniqueNames(rows: seq<Product>) {
    forall i, j :: 0 <= i < j < |rows| ==> rows[i].name != rows[j].name
  }

  /** The product table: every row valid, primary keys and names unique. */
  predicate ValidCatalog(rows: seq<Product>) {
    && (forall i :: 0 <= i < |rows| ==> ValidProduct(rows[i]))
    && UniqueIds(rows)
    && UniqueNames(rows)
  }

  predicate NameTaken(rows: seq<Product>, name: string) {
    exists i :: 0 <= i < |rows| && rows[i].name == name
  }

  /** A field constraint of the model that a candidate row breaks. */
  datatype Violation = NameTooLong | NameNotUnique | PriceTooManyDigits | PriceBelowMinimum | QuantityNegative

  /** Every constraint of the model that `p` breaks when added to `rows`. */
  function Violations(rows: seq<Product>, p: Product): set<Violation> {
    (if |p.name| > MaxNameLength then {NameTooLong} else {})
    + (if NameTaken(rows, p.name) then {NameNotUnique} else {})
    + (if p.price > MaxPriceCents || p.price < -MaxPriceCents then {PriceTooManyDigits} else {})
    + (if p.price < MinPriceCents then {PriceBelowMinimum} else {})
    + (if p.quantity < 0 then {QuantityNegative} else {})
  }

  /** A product with no violations is exactly one whose addition keeps the table valid. */
  lemma NoViolationsKeepsCatalogValid(rows: seq<Product>, p: Product)
    requires ValidCatalog(rows)
    requires forall i :: 0 <= i < |rows| ==> rows[i].id != p.id
    ensures Violations(rows, p) == {} <==> ValidCatalog(rows + [p])
  {
    var s := rows + [p];
    if ValidCatalog(s) {
      assert ValidProduct(s[|rows|]);
      forall i | 0 <= i < |rows| ensures rows[i].name != p.name {
        assert s[i] == rows[i] && s[|rows|] == p;
      }
    }
    if Violations(rows, p) == {} {
      assert NameTooLong !in Violations(rows, p);
      assert PriceTooManyDigits !in Violations(rows, p);
      assert PriceBelowMinimum !in Violations(rows, p);
      assert QuantityNegative !in Violations(rows, p);
      assert !NameTaken(rows, p.name) by { assert NameNotUnique !in Violations(rows, p); }
      forall i, j | 0 <= i < j < |s| ensures s[i].name != s[j].name {
        if j == |rows| {
          assert s[i] == rows[i];
        }
      }
    }
  }

  /** `quantity` defaults to 0 when the creator gives none. */
  function NewProduct(id: ProductId, name: string, description: string, price: int, quantity: Option<int>): (p: Product)
    ensures quantity.None? ==> p.quantity == DefaultQuantity
    ensures quantity.Some? ==> p.quantity == quantity.value
    ensures p.id == id && p.name == name && p.price == price
  {
    Product(id, name, description, price, if quantity.Some? then quantity.value else DefaultQuantity)
  }

  /** The row with primary key `id`, if any. */
  function Lookup(rows: seq<Product>, id: ProductId): (r: Option<Product>)
    ensures r.Some? ==> r.value in rows && r.value.id == id
    ensures r.None? <==> forall i :: 0 <= i < |rows| ==> rows[i].id != id
  {
    if rows == [] then None
    else if rows[0].id == id then Some(rows[0])
    else Lookup(rows[1..], id)
  }

  /** With unique keys, the row found is the one at the key's position. */
  lemma {:induction false} LookupAt(rows: seq<Product>, i: nat)
    requires UniqueIds(rows) && i < |rows|
    ensures Lookup(rows, rows[i].id) == Some(rows[i])
  {
    if i > 0 {
      assert rows[1..][i - 1] == rows[i];
      LookupAt(rows[1..], i - 1);
    }
  }

  // ---- Meta.ordering = ["price", "quantity"] ----

  /** `a` may be listed before `b`: lower price first, then lower quantity. */
  predicate ListedBefore(a: Product, b: Product) {
    a.price < b.price || (a.price == b.price && a.quantity <= b.quantity)
  }

  predicate InListingOrder(s: seq<Product>) {
    forall i, j :: 0 <= i < j < |s| ==> ListedBefore(s[i], s[j])
  }

  /** Places `p` in front of the first row of `s` it may be listed before. */
  function Insert(p: Product, s: seq<Product>): seq<Product> {
    if s == [] then [p]
    else if ListedBefore(p, s[0]) then [p] + s
    else [s[0]] + Insert(p, s[1..])
  }

  /**
   * The table in its default order. The order among rows with the same price
   * and quantity is left to the database; the model keeps table order (the
   * order of the product sequence).
   */
  function Listing(rows: seq<Product>): seq<Product> {
    if rows == [] then [] else Insert(rows[0], Listing(rows[1..]))
  }

  lemma {:induction false} InsertPermutes(p: Product, s: seq<Product>)
    ensures multiset(Insert(p, s)) == multiset(s) + multiset{p}
  {
    if s != [] && !ListedBefore(p, s[0]) {
      InsertPermutes(p, s[1..]);
      assert s == [s[0]] + s[1..];
    }
  }

  lemma {:induction false} InsertOrdered(p: Product, s: seq<Product>)
    requires InListingOrder(s)
    ensures InListingOrder(Insert(p, s))
  {
    if s != [] && !ListedBefore(p, s[0]) {
      var t := Insert(p, s[1..]);
      InsertOrdered(p, s[1..]);
      InsertPermutes(p, s[1..]);
      forall k | 0 <= k < |t| ensures ListedBefore(s[0], t[k]) {
        assert t[k] in multiset(t);
        if t[k] != p {
          assert t[k] in multiset(s[1..]);
          var m :| 0 <= m < |s[1..]| && s[1..][m] == t[k];
          assert s[m + 1] == t[k];
        }
      }
    }
  }

  /** The listing is in default order. */
  lemma {:induction false} ListingOrdered(rows: seq<Product>)
    ensures InListingOrder(Listing(rows))
  {
    if rows != [] {
      ListingOrdered(rows[1..]);
      InsertOrdered(rows[0], Listing(rows[1..]));
    }
  }

  /** The listing holds exactly the rows of the table. */
  lemma {:induction false} ListingPermutes(rows: seq<Product>)
    ensures multiset(Listing(rows)) == multiset(rows)
  {
    if rows != [] {
      ListingPermutes(rows[1..]);
      InsertPermutes(rows[0], Listing(rows[1..]));
      assert rows == [rows[0]] + rows[1..];
    }
  }
}
