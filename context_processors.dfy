/**
 * The `cart_count` context processor: the number of items shown on the cart
 * badge of every page, recomputed from the `Cart` table on each request.
 */
module ContextProcessors {
  import opened Wrappers
  import opened CartTable
  import opened Views

  /**
   * `total_items` for a request: 0 for an anonymous session, otherwise the sum
   * of the quantities of the session customer's rows. None stands for the
   * DoesNotExist error raised when the session names a customer with no record.
   */
  function CartCount(session: Option<CustomerId>, customers: set<CustomerId>, rows: seq<CartRow>): (r: Option<int>)
    ensures session.None? ==> r == Some(0)
    ensures session.Some? ==> (r.Some? <==> session.value in customers)
    ensures session.Some? && r.Some? && Owned(rows, session.value) == [] ==> r.value == 0
    ensures session.Some? && r.Some? && QuantitiesPositive(rows) ==> r.value >= |Owned(rows, session.value)|
  {
    if session.None? then Some(0)
    else if session.value !in customers then None
    else Some(QuantitySum(Owned(rows, session.value)))
  }

  /** Sum of the quantities of all rows, counting only customer `c`'s: an independent statement of the badge. */
  function MaskedQuantity(rows: seq<CartRow>, c: CustomerId): int {
    if rows == [] then 0
    else (if rows[0].customer == c then rows[0].quantity else 0) + MaskedQuantity(rows[1..], c)
  }

  /** For a signed-in customer the badge counts that customer's rows and nothing else. */
  lemma {:induction false} CartCountOnlyCustomerRows(rows: seq<CartRow>, c: CustomerId, customers: set<CustomerId>)
    requires c in customers
    ensures CartCount(Some(c), customers, rows) == Some(MaskedQuantity(rows, c))
  {
    if rows != [] {
      var h, rest := if rows[0].customer == c then [rows[0]] else [], rows[1..];
      assert QuantitySum(Owned(rest, c)) == MaskedQuantity(rest, c) by {
        CartCountOnlyCustomerRows(rest, c, customers);
      }
      assert QuantitySum(h + Owned(rest, c)) == QuantitySum(h) + QuantitySum(Owned(rest, c)) by {
        QuantitySumAppend(h, Owned(rest, c));
      }
      assert Owned(rows, c) == h + Owned(rest, c);
    }
  }

  /**
   * A change confined to one food of customer `c` that moves its units by `d`
   * moves `c`'s badge by `d` and leaves every other customer's badge alone.
   */
  lemma CartCountShift(rows: seq<CartRow>, after: seq<CartRow>, c: CustomerId, f: FoodId, d: int,
                       customers: set<CustomerId>, other: CustomerId)
    requires c in customers
    requires Without(after, c, f) == Without(rows, c, f)
    requires QuantityOf(after, c, f) == QuantityOf(rows, c, f) + d
    ensures CartCount(Some(c), customers, after).value == CartCount(Some(c), customers, rows).value + d
    ensures other != c ==> CartCount(Some(other), customers, after) == CartCount(Some(other), customers, rows)
  {
    SplitQuantity(rows, c, f);
    SplitQuantity(after, c, f);
    if other != c {
      OwnedIgnoresOtherCustomers(rows, c, f, other);
      OwnedIgnoresOtherCustomers(after, c, f, other);
    }
  }

  /** After `add_to_cart` the customer's badge shows exactly one more item; other customers' badges do not move. */
  lemma CartCountAfterAdd(rows: seq<CartRow>, c: CustomerId, f: FoodId, id: nat, customers: set<CustomerId>, other: CustomerId)
    requires c in customers
    ensures CartCount(Some(c), customers, AddRow(rows, c, f, id)).value == CartCount(Some(c), customers, rows).value + 1
    ensures other != c ==> CartCount(Some(other), customers, AddRow(rows, c, f, id)) == CartCount(Some(other), customers, rows)
  {
    AddRowEffect(rows, c, f, id);
    CartCountShift(rows, AddRow(rows, c, f, id), c, f, 1, customers, other);
  }

  /**
   * After `remove_from_cart` on a food whose row holds a unit or more the
   * customer's badge shows exactly one item fewer; on a food with no row it
   * does not move; other customers' badges do not move.
   */
  lemma CartCountAfterRemove(rows: seq<CartRow>, c: CustomerId, f: FoodId, customers: set<CustomerId>, other: CustomerId)
    requires c in customers
    ensures Matching(rows, c, f) != [] && Matching(rows, c, f)[0].quantity >= 1 ==>
      CartCount(Some(c), customers, RemoveRow(rows, c, f)).value == CartCount(Some(c), customers, rows).value - 1
    ensures Matching(rows, c, f) == [] ==>
      CartCount(Some(c), customers, RemoveRow(rows, c, f)) == CartCount(Some(c), customers, rows)
    ensures other != c ==> CartCount(Some(other), customers, RemoveRow(rows, c, f)) == CartCount(Some(other), customers, rows)
  {
    RemoveRowEffect(rows, c, f);
    var after := RemoveRow(rows, c, f);
    var d := QuantityOf(after, c, f) - QuantityOf(rows, c, f);
    CartCountShift(rows, after, c, f, d, customers, other);
  }

  /**
   * After `delete_from_cart` the customer's badge drops by the units the
   * deleted rows held; other customers' badges do not move.
   */
  lemma CartCountAfterDelete(rows: seq<CartRow>, c: CustomerId, f: FoodId, customers: set<CustomerId>, other: CustomerId)
    requires c in customers
    ensures CartCount(Some(c), customers, Without(rows, c, f)).value
         == CartCount(Some(c), customers, rows).value - QuantityOf(rows, c, f)
    ensures other != c ==> CartCount(Some(other), customers, Without(rows, c, f)) == CartCount(Some(other), customers, rows)
  {
    SplitQuantity(rows, c, f);
    if other != c {
      OwnedIgnoresOtherCustomers(rows, c, f, other);
    }
  }
}
