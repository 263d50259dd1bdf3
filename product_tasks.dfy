/**
 * The two mail jobs of products/tasks.py, reduced to what they compute: which
 * products are reported, to whom, and the exact message text. Sending the mail
 * (and the swallowed send failure) is not modelled; a job returns the mail it
 * would hand to `send_mail`. Both jobs only read the database.
 */
module ProductTasks {
  import opened Wrappers
  import opened Products
  import opened Accounts
  import opened Database

  /** `quantity__lt=10`. */
  const LowStockThreshold := 10

  const LowStockSubject := "Low Product Quantity Alert"
  const LowStockHeader := "The following products have quantity below 10:\n\n"
  const DailySubject := "Daily Product Update"
  const DailyHeader := "Here's the current product inventory:\n\n"

  /** A mail as handed to `send_mail`; the sender is configuration and left out. */
  datatype Mail = Mail(subject: string, message: string, recipients: seq<string>)

  // ---- decimal text of an integer, as an f-string prints it ----

  function Digit(d: nat): char
    requires d < 10
  {
    "0123456789"[d]
  }

  predicate IsDigit(c: char) {
    '0' <= c <= '9'
  }

  /** Decimal digits of `n`, most significant first, without leading zeros. */
  function NatText(n: nat): (s: string)
    ensures |s| >= 1
    ensures forall i :: 0 <= i < |s| ==> IsDigit(s[i])
    ensures s[0] == '0' ==> n == 0
    decreases n
  {
    if n < 10 then [Digit(n)] else NatText(n / 10) + [Digit(n % 10)]
  }

  function IntText(i: int): (s: string)
    ensures |s| >= 1 && (s[0] == '-' <==> i < 0)
    ensures forall k :: 1 <= k < |s| ==> IsDigit(s[k])
    ensures s[0] == '-' || IsDigit(s[0])
  {
    if i < 0 then "-" + NatText(-i) else NatText(i)
  }

  function DigitValue(c: char): nat
    requires IsDigit(c)
  {
    c as int - '0' as int
  }

  lemma DigitRoundTrip(d: nat)
    requires d < 10
    ensures DigitValue(Digit(d)) == d
  {
  }

  /** The number a run of decimal digits denotes: the reading-back partner of `NatText`. */
  function DigitsValue(s: string): nat
    requires forall i :: 0 <= i < |s| ==> IsDigit(s[i])
  {
    if s == [] then 0 else DigitsValue(s[..|s| - 1]) * 10 + DigitValue(s[|s| - 1])
  }

  function IntValue(s: string): int
    requires |s| >= 1
    requires forall i :: 1 <= i < |s| ==> IsDigit(s[i])
    requires s[0] == '-' || IsDigit(s[0])
  {
    if s[0] == '-' then -(DigitsValue(s[1..]) as int) else DigitsValue(s)
  }

  lemma {:induction false} NatTextRoundTrip(n: nat)
    ensures DigitsValue(NatText(n)) == n
    decreases n
  {
    var s := NatText(n);
    if n >= 10 {
      NatTextRoundTrip(n / 10);
      assert s[..|s| - 1] == NatText(n / 10);
      DigitRoundTrip(n % 10);
    } else {
      DigitRoundTrip(n);
    }
  }

  /** The quantity printed in a stock line reads back as the quantity. */
  lemma IntTextRoundTrip(i: int)
    ensures IntValue(IntText(i)) == i
  {
    if i < 0 {
      NegativeRoundTrip(-i);
    } else {
      NatTextRoundTrip(i);
    }
  }

  lemma NegativeRoundTrip(n: nat)
    requires n > 0
    ensures IntValue("-" + NatText(n)) == -(n as int)
  {
    assert ("-" + NatText(n))[1..] == NatText(n);
    NatTextRoundTrip(n);
  }

  // ---- the report ----

  predicate IsLow(p: Product) {
    p.quantity < LowStockThreshold
  }

  /** `filter(quantity__lt=10)` applied to rows in query order. */
  function LowStock(rows: seq<Product>): (r: seq<Product>)
    ensures forall p :: p in r <==> p in rows && IsLow(p)
    ensures forall p :: multiset(r)[p] == (if IsLow(p) then multiset(rows)[p] else 0)
    ensures |r| <= |rows|
  {
    if rows == [] then []
    else
      assert rows == [rows[0]] + rows[1..];
      (if IsLow(rows[0]) then [rows[0]] else []) + LowStock(rows[1..])
  }

  /** The tail of an ordered sequence is ordered, and its head is listed before all of it. */
  lemma TailOrdered(rows: seq<Product>)
    requires rows != [] && InListingOrder(rows)
    ensures InListingOrder(rows[1..])
    ensures forall x :: x in rows[1..] ==> ListedBefore(rows[0], x)
  {
    var t := rows[1..];
    forall i, j | 0 <= i < j < |t| ensures ListedBefore(t[i], t[j]) {
      assert t[i] == rows[i + 1] && t[j] == rows[j + 1];
    }
    forall x | x in t ensures ListedBefore(rows[0], x) {
      var m :| 0 <= m < |t| && t[m] == x;
      assert rows[m + 1] == x;
    }
  }

  /** A row listed before every row of an ordered sequence can go in front of it. */
  lemma ConsOrdered(x: Product, r: seq<Product>)
    requires InListingOrder(r)
    requires forall y :: y in r ==> ListedBefore(x, y)
    ensures InListingOrder([x] + r)
  {
    var s := [x] + r;
    forall i, j | 0 <= i < j < |s| ensures ListedBefore(s[i], s[j]) {
      assert s[j] == r[j - 1];
      if i > 0 {
        assert s[i] == r[i - 1];
      }
    }
  }

  /** Filtering keeps the query's order. */
  lemma {:induction false} LowStockOrdered(rows: seq<Product>)
    requires InListingOrder(rows)
    ensures InListingOrder(LowStock(rows))
  {
    if rows != [] {
      var t := rows[1..];
      TailOrdered(rows);
      LowStockOrdered(t);
      var r := LowStock(t);
      if IsLow(rows[0]) {
        assert forall y :: y in r ==> y in t;
        ConsOrdered(rows[0], r);
        assert LowStock(rows) == [rows[0]] + r;
      } else {
        assert LowStock(rows) == [] + r;
      }
    }
  }

  /** The low-stock report lists exactly the products below the threshold, in listing order. */
  lemma LowStockReport(rows: seq<Product>)
    ensures forall p :: p in LowStock(Listing(rows)) <==> p in rows && IsLow(p)
    ensures forall p :: multiset(LowStock(Listing(rows)))[p] == (if IsLow(p) then multiset(rows)[p] else 0)
    ensures InListingOrder(LowStock(Listing(rows)))
    ensures LowStock(Listing(rows)) == [] <==> forall i :: 0 <= i < |rows| ==> !IsLow(rows[i])
  {
    ListingPermutes(rows);
    ListingOrdered(rows);
    LowStockOrdered(Listing(rows));
    assert forall p :: p in Listing(rows) <==> p in rows by {
      forall p ensures p in Listing(rows) <==> p in rows {
        assert p in Listing(rows) <==> p in multiset(Listing(rows));
      }
    }
    if LowStock(Listing(rows)) != [] {
      var p := LowStock(Listing(rows))[0];
      assert p in rows;
    }
  }

  /** `f"{product.name}: {product.quantity}\n"`. */
  function StockLine(p: Product): string {
    p.name + ": " + IntText(p.quantity) + "\n"
  }

  /** The lines the loop appends, one per product in order. */
  function StockLines(rows: seq<Product>): string {
    if rows == [] then "" else StockLines(rows[..|rows| - 1]) + StockLine(rows[|rows| - 1])
  }

  lemma {:induction false} StockLinesAppend(a: seq<Product>, b: seq<Product>)
    ensures StockLines(a + b) == StockLines(a) + StockLines(b)
    decreases |b|
  {
    if b == [] {
      assert a + b == a;
    } else {
      var c, x := b[..|b| - 1], b[|b| - 1];
      LastSplit(a, b);
      StockLinesAppend(a, c);
      StockLinesSnoc(a + c, x);
      StockLinesSnoc(c, x);
      Associative(StockLines(a), StockLines(c), StockLine(x));
    }
  }

  lemma LastSplit(a: seq<Product>, b: seq<Product>)
    requires b != []
    ensures b == b[..|b| - 1] + [b[|b| - 1]]
    ensures a + b == (a + b[..|b| - 1]) + [b[|b| - 1]]
  {
  }

  lemma StockLinesSnoc(s: seq<Product>, x: Product)
    ensures StockLines(s + [x]) == StockLines(s) + StockLine(x)
  {
    assert (s + [x])[..|s|] == s;
  }

  /** The message holds the line of the k-th product right after those of the products before it. */
  lemma StockLinesAt(rows: seq<Product>, k: nat)
    requires k < |rows|
    ensures StockLines(rows) == StockLines(rows[..k]) + StockLine(rows[k]) + StockLines(rows[k + 1..])
  {
    SplitAt(rows, k);
    StockLinesAround(rows[..k], rows[k], rows[k + 1..]);
  }

  lemma SplitAt(rows: seq<Product>, k: nat)
    requires k < |rows|
    ensures rows[..k] + [rows[k]] + rows[k + 1..] == rows
  {
  }

  lemma StockLinesAround(head: seq<Product>, p: Product, rest: seq<Product>)
    ensures StockLines(head + [p] + rest) == StockLines(head) + StockLine(p) + StockLines(rest)
  {
    StockLinesAppend(head + [p], rest);
    StockLinesSnoc(head, p);
    Associative(StockLines(head), StockLine(p), StockLines(rest));
  }

  /** The `message += ...` loop over the products. */
  method AppendStockLines(header: string, rows: seq<Product>) returns (message: string)
    ensures message == header + StockLines(rows)
  {
    message := header;
    for i := 0 to |rows|
      invariant message == header + StockLines(rows[..i])
    {
      var line := StockLine(rows[i]);
      StockLinesPrefix(rows, i);
      Associative(header, StockLines(rows[..i]), line);
      message := message + line;
    }
    assert rows[..|rows|] == rows;
  }

  lemma Associative(a: string, b: string, c: string)
    ensures a + b + c == a + (b + c)
  {
  }

  lemma StockLinesPrefix(rows: seq<Product>, i: nat)
    requires i < |rows|
    ensures StockLines(rows[..i + 1]) == StockLines(rows[..i]) + StockLine(rows[i])
  {
    assert rows[..i + 1][..i] == rows[..i];
  }

  /** `[employee.email for employee in User.objects.filter(role=EMPLOYEE)]`. */
  function EmployeeEmails(users: seq<User>): (r: seq<string>)
    ensures forall e :: e in r <==> exists i :: 0 <= i < |users| && users[i].role == Employee && users[i].email == e
    ensures |r| <= |users|
  {
    if users == [] then []
    else
      var rest := EmployeeEmails(users[1..]);
      assert forall i :: 1 <= i < |users| ==> users[1..][i - 1] == users[i];
      if users[0].role == Employee then [users[0].email] + rest else rest
  }

  /** `check_low_quantity_products`: mail the employees when some product is below the threshold. */
  method CheckLowQuantityProducts(db: Database) returns (mail: Option<Mail>)
    ensures mail.None? <==> forall i :: 0 <= i < |db.products| ==> !IsLow(db.products[i])
    ensures mail.Some? ==>
              mail.value == Mail(LowStockSubject, LowStockHeader + StockLines(LowStock(Listing(db.products))),
                                 EmployeeEmails(db.users))
  {
    var low := LowStock(Listing(db.products));
    LowStockReport(db.products);
    if low == [] {
      mail := None;
    } else {
      var recipients := EmployeeEmails(db.users);
      var message := AppendStockLines(LowStockHeader, low);
      mail := Some(Mail(LowStockSubject, message, recipients));
    }
  }

  /** `send_daily_product_update`: every product in listing order, to the employees. */
  method SendDailyProductUpdate(db: Database) returns (mail: Mail)
    ensures mail == Mail(DailySubject, DailyHeader + StockLines(Listing(db.products)), EmployeeEmails(db.users))
  {
    var recipients := EmployeeEmails(db.users);
    var message := AppendStockLines(DailyHeader, Listing(db.products));
    mail := Mail(DailySubject, message, recipients);
  }
}
