/**
 * A customer's cart as the cart views see it: an ordered list of lines, at
 * most one per product, and the three edits `add_item`, `update_item_quantity`
 * and `remove_item` make to it (cart/views.py). The model fixes the order of
 * the lines as the order in which they were created, and checkout visits them
 * in that order; the source's `cart.items.all()` leaves the order to the
 * database.
 */
module Carts {
  import opened Wrappers
  import opened Products

  type CartId = int

  datatype CartLine = CartLine(product: ProductId, quantity: int)

  datatype Cart = Cart(id: CartId, lines: seq<CartLine>)

  /** `get_or_create(cart=cart, product=product)` keeps one line per product. */
  predicate UniqueLines(lines: seq<CartLine>) {
    forall i, j :: 0 <= i < j < |lines| ==> lines[i].product != lines[j].product
  }

  predicate HasLine(lines: seq<CartLine>, pid: ProductId) {
    exists i :: 0 <= i < |lines| && lines[i].product == pid
  }

  /** Position of the line for `pid`, if any. */
  function Find(lines: seq<CartLine>, pid: ProductId): (r: Option<nat>)
    ensures r.Some? ==> r.value < |lines| && lines[r.value].product == pid
    ensures r.None? <==> !HasLine(lines, pid)
  {
    if lines == [] then None
    else if lines[|lines| - 1].product == pid then Some(|lines| - 1)
    else
      var r := Find(lines[..|lines| - 1], pid);
      if r.None? then
        assert forall i :: 0 <= i < |lines| - 1 ==> lines[..|lines| - 1][i] == lines[i];
        None
      else r
  }

  /** With one line per product, the line found is the only one. */
  lemma FindUnique(lines: seq<CartLine>, i: nat)
    requires UniqueLines(lines) && i < |lines|
    ensures Find(lines, lines[i].product) == Some(i)
  {
    assert HasLine(lines, lines[i].product);
  }

  /** The cart as a map from product to quantity. */
  function Contents(lines: seq<CartLine>): map<ProductId, int>
    requires UniqueLines(lines)
  {
    map i | 0 <= i < |lines| :: lines[i].product := lines[i].quantity
  }

  lemma ContentsAt(lines: seq<CartLine>, i: nat)
    requires UniqueLines(lines) && i < |lines|
    ensures lines[i].product in Contents(lines) && Contents(lines)[lines[i].product] == lines[i].quantity
  {
  }

  /** Quantity in the cart for `pid`, 0 when there is no line. */
  function QuantityIn(lines: seq<CartLine>, pid: ProductId): int {
    match Find(lines, pid)
    case Some(k) => lines[k].quantity
    case None => 0
  }

  /** The map view agrees with the per-product quantity. */
  lemma QuantityInContents(lines: seq<CartLine>, pid: ProductId)
    requires UniqueLines(lines)
    ensures pid in Contents(lines) <==> HasLine(lines, pid)
    ensures pid in Contents(lines) ==> Contents(lines)[pid] == QuantityIn(lines, pid)
  {
    match Find(lines, pid)
    case Some(k) => ContentsAt(lines, k);
    case None =>
  }

  // ---- the edits ----

  /** `add_item`: a new line at the end, or the existing line increased. */
  function Added(lines: seq<CartLine>, pid: ProductId, quantity: int): seq<CartLine> {
    match Find(lines, pid)
    case None => lines + [CartLine(pid, quantity)]
    case Some(k) => lines[k := CartLine(pid, lines[k].quantity + quantity)]
  }

  /** `update_item_quantity` on an existing line: set when positive, delete otherwise. */
  function Updated(lines: seq<CartLine>, pid: ProductId, quantity: int): seq<CartLine> {
    match Find(lines, pid)
    case None => lines
    case Some(k) => if quantity > 0 then lines[k := CartLine(pid, quantity)] else lines[..k] + lines[k + 1..]
  }

  /** `remove_item` on an existing line. */
  function Removed(lines: seq<CartLine>, pid: ProductId): seq<CartLine> {
    match Find(lines, pid)
    case None => lines
    case Some(k) => lines[..k] + lines[k + 1..]
  }

  /** A map is the cart's contents when it holds each line and nothing else. */
  lemma ContentsIs(lines: seq<CartLine>, m: map<ProductId, int>)
    requires UniqueLines(lines)
    requires forall i :: 0 <= i < |lines| ==> lines[i].product in m && m[lines[i].product] == lines[i].quantity
    requires forall p :: p in m ==> HasLine(lines, p)
    ensures Contents(lines) == m
  {
    var n := Contents(lines);
    forall p | p in m ensures p in n && n[p] == m[p] {
      var i :| 0 <= i < |lines| && lines[i].product == p;
    }
  }

  lemma UniqueAfterSet(lines: seq<CartLine>, k: nat, q: int)
    requires UniqueLines(lines) && k < |lines|
    ensures UniqueLines(lines[k := CartLine(lines[k].product, q)])
    ensures Contents(lines[k := CartLine(lines[k].product, q)]) == Contents(lines)[lines[k].product := q]
  {
    var s := lines[k := CartLine(lines[k].product, q)];
    var m := Contents(lines)[lines[k].product := q];
    forall i | 0 <= i < |s| ensures s[i].product in m && m[s[i].product] == s[i].quantity {
      if i != k { ContentsAt(lines, i); }
    }
    forall p | p in m ensures HasLine(s, p) {
      if p != lines[k].product {
        var i :| 0 <= i < |lines| && lines[i].product == p;
        assert s[i].product == p;
      } else {
        assert s[k].product == p;
      }
    }
    ContentsIs(s, m);
  }

  /** Deleting position `k` shifts the later lines down by one. */
  lemma DeleteAt(lines: seq<CartLine>, k: nat)
    requires k < |lines|
    ensures |lines[..k] + lines[k + 1..]| == |lines| - 1
    ensures forall i :: 0 <= i < k ==> (lines[..k] + lines[k + 1..])[i] == lines[i]
    ensures forall i :: k < i < |lines| ==> (lines[..k] + lines[k + 1..])[i - 1] == lines[i]
  {
    var s := lines[..k] + lines[k + 1..];
    forall i | 0 <= i < |s| ensures s[i] == lines[if i < k then i else i + 1] {
      if i < k { assert s[i] == lines[..k][i]; } else { assert s[i] == lines[k + 1..][i - k]; }
    }
    forall i | k < i < |lines| ensures s[i - 1] == lines[i] {
      assert s[i - 1] == lines[k + 1..][i - 1 - k];
    }
  }

  lemma DeleteKeepsUnique(lines: seq<CartLine>, k: nat)
    requires UniqueLines(lines) && k < |lines|
    ensures UniqueLines(lines[..k] + lines[k + 1..])
  {
    var s := lines[..k] + lines[k + 1..];
    DeleteAt(lines, k);
    forall i, j | 0 <= i < j < |s| ensures s[i].product != s[j].product {
      var i', j' := if i < k then i else i + 1, if j < k then j else j + 1;
      assert s[i] == lines[i'] && s[j] == lines[j'] && i' < j';
    }
  }

  lemma UniqueAfterDelete(lines: seq<CartLine>, k: nat)
    requires UniqueLines(lines) && k < |lines|
    ensures UniqueLines(lines[..k] + lines[k + 1..])
    ensures Contents(lines[..k] + lines[k + 1..]) == Contents(lines) - {lines[k].product}
  {
    var s := lines[..k] + lines[k + 1..];
    DeleteAt(lines, k);
    DeleteKeepsUnique(lines, k);
    var m := Contents(lines) - {lines[k].product};
    forall i | 0 <= i < |s| ensures s[i].product in m && m[s[i].product] == s[i].quantity {
      var i' := if i < k then i else i + 1;
      assert s[i] == lines[i'];
      ContentsAt(lines, i');
    }
    forall p | p in m ensures HasLine(s, p) {
      var i :| 0 <= i < |lines| && lines[i].product == p;
      assert i != k;
      var i' := if i < k then i else i - 1;
      assert s[i'] == lines[i];
    }
    ContentsIs(s, m);
  }

  /**
   * `add_item` adds the requested quantity to the product's quantity (0 when it
   * had no line), keeps one line per product, leaves every other line where it
   * was and puts a new product's line last.
   */
  lemma AddedSpec(lines: seq<CartLine>, pid: ProductId, quantity: int)
    requires UniqueLines(lines)
    ensures UniqueLines(Added(lines, pid, quantity))
    ensures Contents(Added(lines, pid, quantity)) == Contents(lines)[pid := QuantityIn(lines, pid) + quantity]
    ensures !HasLine(lines, pid) ==> Added(lines, pid, quantity) == lines + [CartLine(pid, quantity)]
    ensures HasLine(lines, pid) ==>
              && |Added(lines, pid, quantity)| == |lines|
              && forall i :: 0 <= i < |lines| && lines[i].product != pid ==> Added(lines, pid, quantity)[i] == lines[i]
  {
    match Find(lines, pid)
    case Some(k) =>
      ContentsAt(lines, k);
      var s := lines[k := CartLine(pid, lines[k].quantity + quantity)];
      assert Added(lines, pid, quantity) == s;
      UniqueAfterSet(lines, k, lines[k].quantity + quantity);
      assert forall i :: 0 <= i < |lines| && i != k ==> s[i] == lines[i];
    case None =>
      assert pid !in Contents(lines);
      UniqueAfterAppend(lines, pid, quantity);
  }

  lemma UniqueAfterAppend(lines: seq<CartLine>, pid: ProductId, q: int)
    requires UniqueLines(lines) && !HasLine(lines, pid)
    ensures UniqueLines(lines + [CartLine(pid, q)])
    ensures Contents(lines + [CartLine(pid, q)]) == Contents(lines)[pid := q]
  {
    var s := lines + [CartLine(pid, q)];
    assert forall i :: 0 <= i < |lines| ==> s[i] == lines[i];
    var m := Contents(lines)[pid := q];
    forall i | 0 <= i < |s| ensures s[i].product in m && m[s[i].product] == s[i].quantity {
      if i < |lines| { ContentsAt(lines, i); }
    }
    forall p | p in m ensures HasLine(s, p) {
      if p == pid {
        assert s[|lines|].product == pid;
      } else {
        var i :| 0 <= i < |lines| && lines[i].product == p;
        assert s[i] == lines[i];
      }
    }
    ContentsIs(s, m);
  }

  /**
   * `update_item_quantity` on a product in the cart sets its quantity to
   * exactly the given value when that is positive and deletes the line
   * otherwise; on a product not in the cart it changes nothing.
   */
  lemma UpdatedSpec(lines: seq<CartLine>, pid: ProductId, quantity: int)
    requires UniqueLines(lines)
    ensures UniqueLines(Updated(lines, pid, quantity))
    ensures !HasLine(lines, pid) ==> Updated(lines, pid, quantity) == lines
    ensures HasLine(lines, pid) && quantity > 0 ==> Contents(Updated(lines, pid, quantity)) == Contents(lines)[pid := quantity]
    ensures HasLine(lines, pid) && quantity <= 0 ==> Contents(Updated(lines, pid, quantity)) == Contents(lines) - {pid}
  {
    match Find(lines, pid)
    case None =>
    case Some(k) =>
      if quantity > 0 {
        UniqueAfterSet(lines, k, quantity);
      } else {
        UniqueAfterDelete(lines, k);
      }
  }

  /**
   * `remove_item` deletes exactly the named product's line; the others keep
   * their quantities and their order.
   */
  lemma RemovedSpec(lines: seq<CartLine>, pid: ProductId)
    requires UniqueLines(lines)
    ensures UniqueLines(Removed(lines, pid))
    ensures Contents(Removed(lines, pid)) == Contents(lines) - {pid}
    ensures !HasLine(Removed(lines, pid), pid)
    ensures HasLine(lines, pid) ==> |Removed(lines, pid)| == |lines| - 1
    ensures Removed(lines, pid) == Without(lines, pid)
  {
    var s := Removed(lines, pid);
    match Find(lines, pid)
    case None =>
      assert s == lines;
      QuantityInContents(lines, pid);
      assert Contents(lines) - {pid} == Contents(lines);
      WithoutAbsent(lines, pid);
    case Some(k) =>
      assert s == lines[..k] + lines[k + 1..];
      UniqueAfterDelete(lines, k);
      assert Contents(s) == Contents(lines) - {pid};
      QuantityInContents(s, pid);
      WithoutUnique(lines, k);
  }

  /** The lines other than the one for `pid`, in their order: the reference for `remove_item`. */
  function Without(lines: seq<CartLine>, pid: ProductId): seq<CartLine> {
    if lines == [] then []
    else (if lines[0].product == pid then [] else [lines[0]]) + Without(lines[1..], pid)
  }

  lemma {:induction false} WithoutAbsent(lines: seq<CartLine>, pid: ProductId)
    requires !HasLine(lines, pid)
    ensures Without(lines, pid) == lines
  {
    if lines != [] {
      assert lines[0].product != pid;
      assert !HasLine(lines[1..], pid) by {
        forall i | 0 <= i < |lines[1..]| ensures lines[1..][i].product != pid {
          assert lines[1..][i] == lines[i + 1];
        }
      }
      WithoutAbsent(lines[1..], pid);
    }
  }

  lemma {:induction false} WithoutUnique(lines: seq<CartLine>, k: nat)
    requires UniqueLines(lines) && k < |lines|
    ensures Without(lines, lines[k].product) == lines[..k] + lines[k + 1..]
  {
    var pid := lines[k].product;
    if k == 0 {
      assert !HasLine(lines[1..], pid) by {
        forall i | 0 <= i < |lines[1..]| ensures lines[1..][i].product != pid {
          assert lines[1..][i] == lines[i + 1];
        }
      }
      WithoutAbsent(lines[1..], pid);
    } else {
      var t := lines[1..];
      assert UniqueLines(t) by {
        forall i, j | 0 <= i < j < |t| ensures t[i].product != t[j].product {
          assert t[i] == lines[i + 1] && t[j] == lines[j + 1];
        }
      }
      assert t[k - 1] == lines[k];
      WithoutUnique(t, k - 1);
      assert lines[0].product != pid;
      assert lines[..k] == [lines[0]] + t[..k - 1];
      assert lines[k + 1..] == t[k..];
    }
  }
}
