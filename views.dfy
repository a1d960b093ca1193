/**
 * The cart views of the food-ordering application: `add_to_cart`,
 * `remove_from_cart` and `delete_from_cart`, which change the `Cart` table in
 * place, and the total shown by the `cart` page.
 *
 * The session is an optional customer id; the catalog gives the customers
 * and the price of every food item in cents. A view answers with a Response
 * standing for the redirect or error the web framework produces.
 */
module Views {
  import opened Wrappers
  import opened CartTable

  /** The customers and food items that exist, with each food's price. */
  datatype Catalog = Catalog(customers: set<CustomerId>, prices: map<FoodId, Cents>)

  datatype Response =
    | RedirectSignIn   // no customer in the session
    | ServerError      // `.objects.get` raised DoesNotExist and nothing caught it
    | NotFound         // `get_object_or_404` raised Http404
    | RedirectReferer  // back to the referring page (or the cart when there is none)
    | RedirectCart

  /**
   * The checks every cart view makes before touching the table: a customer in
   * the session, that customer's record, and the food item. The customer is
   * looked up with `.get`, so a missing one is a server error; a missing food
   * is `missingFood`, which depends on how the view looks it up.
   */
  function Authenticate(session: Option<CustomerId>, catalog: Catalog, food: FoodId, missingFood: Response): (r: Result<CustomerId, Response>)
    ensures r.Ok? <==> session.Some? && session.value in catalog.customers && food in catalog.prices
    ensures r.Ok? ==> r.value == session.value
    ensures session.None? ==> r == Err(RedirectSignIn)
    ensures session.Some? && session.value !in catalog.customers ==> r == Err(ServerError)
    ensures session.Some? && session.value in catalog.customers && food !in catalog.prices ==> r == Err(missingFood)
  {
    if session.None? then Err(RedirectSignIn)
    else if session.value !in catalog.customers then Err(ServerError)
    else if food !in catalog.prices then Err(missingFood)
    else Ok(session.value)
  }

  // ---------------------------------------------------------------------------
  // The table after each view, as functions of the table before
  // ---------------------------------------------------------------------------

  /** `add_to_cart`: one more unit on the first row for the pair, or a new row of one unit under key `id`. */
  function AddRow(rows: seq<CartRow>, c: CustomerId, f: FoodId, id: nat): (r: seq<CartRow>)
    ensures |r| == |rows| || (|r| == |rows| + 1 && r[|rows|] == CartRow(id, c, f, 1))
    ensures forall k | 0 <= k < |rows| ::
      r[k] == rows[k] || (IsFor(rows[k], c, f) && r[k] == rows[k].(quantity := rows[k].quantity + 1))
  {
    match FindFirst(rows, c, f)
    case Some(i) => rows[i := rows[i].(quantity := rows[i].quantity + 1)]
    case None => rows + [CartRow(id, c, f, 1)]
  }

  /** The key counter after `add_to_cart`: it advances only when a row is created. */
  function KeyAfterAdd(rows: seq<CartRow>, c: CustomerId, f: FoodId, id: nat): (next: nat)
    ensures next == id || next == id + 1
    ensures next == id + 1 <==> |AddRow(rows, c, f, id)| == |rows| + 1
  {
    if FindFirst(rows, c, f).Some? then id else id + 1
  }

  /** `remove_from_cart`: one unit fewer on the first row for the pair, deleting the row instead when it holds one unit or less. */
  function RemoveRow(rows: seq<CartRow>, c: CustomerId, f: FoodId): (r: seq<CartRow>)
    ensures |r| == |rows| ==> forall k | 0 <= k < |rows| ::
      r[k] == rows[k] || (IsFor(rows[k], c, f) && rows[k].quantity > 1 && r[k] == rows[k].(quantity := rows[k].quantity - 1))
    ensures |r| != |rows| ==> exists i | 0 <= i < |rows| ::
      IsFor(rows[i], c, f) && rows[i].quantity <= 1 && r == rows[..i] + rows[i + 1..]
  {
    match FindFirst(rows, c, f)
    case Some(i) =>
      if rows[i].quantity > 1 then rows[i := rows[i].(quantity := rows[i].quantity - 1)]
      else rows[..i] + rows[i + 1..]
    case None => rows
  }

  /** `sum(item.food.price * item.quantity for item in cart_items)` over the customer's rows. */
  function CartTotal(rows: seq<CartRow>, c: CustomerId, prices: map<FoodId, Cents>): (total: Cents)
    requires Priced(rows, prices)
    ensures Owned(rows, c) == [] ==> total == 0
    ensures QuantitiesPositive(rows) && (forall f :: f in prices ==> prices[f] >= 0) ==> total >= 0
  {
    assert Priced(Owned(rows, c), prices);
    ValueSum(Owned(rows, c), prices)
  }

  // ---------------------------------------------------------------------------
  // The cart table and its views
  // ---------------------------------------------------------------------------

  class Cart {
    /** The rows of the table, in primary-key order. */
    var rows: seq<CartRow>
    /** The key the next created row receives. */
    var nextId: nat

    ghost predicate Valid()
      reads this
    {
      TableInvariant(rows, nextId)
    }

    /** An empty table; the database hands out keys from 1. */
    constructor ()
      ensures Valid()
      ensures rows == [] && nextId == 1
    {
      rows := [];
      nextId := 1;
    }

    method AddToCart(session: Option<CustomerId>, catalog: Catalog, food: FoodId) returns (resp: Response)
      modifies this
      ensures var auth := Authenticate(session, catalog, food, ServerError);
        && resp == (if auth.Ok? then RedirectReferer else auth.error)
        && rows == (if auth.Ok? then AddRow(old(rows), auth.value, food, old(nextId)) else old(rows))
        && nextId == (if auth.Ok? then KeyAfterAdd(old(rows), auth.value, food, old(nextId)) else old(nextId))
      ensures old(Valid()) ==> Valid()
    {
      if session.None? {
        return RedirectSignIn;
      }
      var customer := session.value;
      if customer !in catalog.customers {
        return ServerError;
      }
      if food !in catalog.prices {
        return ServerError;
      }
      if Valid() {
        AddKeepsInvariant(rows, customer, food, nextId);
      }
      var first := FindFirst(rows, customer, food);
      if first.Some? {
        var i := first.value;
        rows := rows[i := rows[i].(quantity := rows[i].quantity + 1)];
      } else {
        rows := rows + [CartRow(nextId, customer, food, 1)];
        nextId := nextId + 1;
      }
      resp := RedirectReferer;
    }

    method RemoveFromCart(session: Option<CustomerId>, catalog: Catalog, food: FoodId) returns (resp: Response)
      modifies this
      ensures var auth := Authenticate(session, catalog, food, NotFound);
        && resp == (if auth.Ok? then RedirectCart else auth.error)
        && rows == (if auth.Ok? then RemoveRow(old(rows), auth.value, food) else old(rows))
      ensures nextId == old(nextId)
      ensures old(Valid()) ==> Valid()
    {
      if session.None? {
        return RedirectSignIn;
      }
      var customer := session.value;
      if customer !in catalog.customers {
        return ServerError;
      }
      if food !in catalog.prices {
        return NotFound;
      }
      if Valid() {
        RemoveKeepsInvariant(rows, customer, food, nextId);
      }
      var first := FindFirst(rows, customer, food);
      if first.Some? {
        var i := first.value;
        if rows[i].quantity > 1 {
          rows := rows[i := rows[i].(quantity := rows[i].quantity - 1)];
        } else {
          rows := rows[..i] + rows[i + 1..];
        }
      }
      resp := RedirectCart;
    }

    method DeleteFromCart(session: Option<CustomerId>, catalog: Catalog, food: FoodId) returns (resp: Response)
      modifies this
      ensures var auth := Authenticate(session, catalog, food, NotFound);
        && resp == (if auth.Ok? then RedirectCart else auth.error)
        && rows == (if auth.Ok? then Without(old(rows), auth.value, food) else old(rows))
      ensures nextId == old(nextId)
      ensures old(Valid()) ==> Valid()
    {
      if session.None? {
        return RedirectSignIn;
      }
      var customer := session.value;
      if customer !in catalog.customers {
        return ServerError;
      }
      if food !in catalog.prices {
        return NotFound;
      }
      if Valid() {
        DeleteKeepsInvariant(rows, customer, food, nextId);
      }
      rows := Without(rows, customer, food);
      resp := RedirectCart;
    }
  }

  // ---------------------------------------------------------------------------
  // What each view does to the pair it names, and that it touches nothing else
  // ---------------------------------------------------------------------------

  /**
   * `add_to_cart` adds exactly one unit of the food to the customer's cart,
   * creates a row only when the pair had none, and leaves every other row as
   * it was.
   */
  lemma AddRowEffect(rows: seq<CartRow>, c: CustomerId, f: FoodId, id: nat)
    ensures Without(AddRow(rows, c, f, id), c, f) == Without(rows, c, f)
    ensures QuantityOf(AddRow(rows, c, f, id), c, f) == QuantityOf(rows, c, f) + 1
    ensures Matching(rows, c, f) != [] ==> |AddRow(rows, c, f, id)| == |rows|
    ensures Matching(rows, c, f) == [] ==> Matching(AddRow(rows, c, f, id), c, f) == [CartRow(id, c, f, 1)]
  {
    var after, first := AddRow(rows, c, f, id), FindFirst(rows, c, f);
    assert first.None? <==> Matching(rows, c, f) == [] by {
      FirstHeadsMatching(rows, c, f);
    }
    if first.Some? {
      var i := first.value;
      var y := rows[i].(quantity := rows[i].quantity + 1);
      assert after == rows[i := y];
      ReplaceRowOfPair(rows, i, y, c, f);
    } else {
      var y := CartRow(id, c, f, 1);
      assert after == rows + [y];
      AppendRowOfPair(rows, y, c, f);
    }
  }

  /**
   * `remove_from_cart` on a pair with no row changes nothing. Otherwise it acts
   * on the pair's first row: it keeps the row with one unit fewer when the row
   * holds more than one, and deletes the row otherwise; either way a row of at
   * least one unit costs the customer exactly one unit, and every other row
   * is left as it was.
   */
  lemma RemoveRowEffect(rows: seq<CartRow>, c: CustomerId, f: FoodId)
    ensures Matching(rows, c, f) == [] ==> RemoveRow(rows, c, f) == rows
    ensures Without(RemoveRow(rows, c, f), c, f) == Without(rows, c, f)
    ensures Matching(rows, c, f) != [] ==>
      (|RemoveRow(rows, c, f)| == |rows| <==> Matching(rows, c, f)[0].quantity > 1) &&
      (|RemoveRow(rows, c, f)| == |rows| || |RemoveRow(rows, c, f)| == |rows| - 1)
    ensures Matching(rows, c, f) != [] && Matching(rows, c, f)[0].quantity >= 1 ==>
      QuantityOf(RemoveRow(rows, c, f), c, f) == QuantityOf(rows, c, f) - 1
  {
    FirstHeadsMatching(rows, c, f);
    match FindFirst(rows, c, f)
    case Some(i) =>
      if rows[i].quantity > 1 {
        ReplaceRowOfPair(rows, i, rows[i].(quantity := rows[i].quantity - 1), c, f);
      } else {
        DropRowOfPair(rows, i, c, f);
      }
    case None =>
  }

  /**
   * `delete_from_cart` removes every row for the pair whatever its quantity,
   * and no other: each other pair keeps exactly its rows.
   */
  lemma {:induction false} DeleteEffect(rows: seq<CartRow>, c: CustomerId, f: FoodId, c': CustomerId, f': FoodId)
    ensures Matching(Without(rows, c, f), c, f) == []
    ensures c' != c || f' != f ==> Matching(Without(rows, c, f), c', f') == Matching(rows, c', f')
  {
    if rows != [] {
      var head, rest := rows[0], rows[1..];
      DeleteEffect(rest, c, f, c', f');
      var h := if IsFor(head, c, f) then [] else [head];
      MatchingAppend(h, Without(rest, c, f), c, f);
      MatchingAppend(h, Without(rest, c, f), c', f');
    }
  }

  /**
   * On a valid table `add_to_cart` leaves exactly one row for the pair, and
   * that row holds all of the pair's units, one more than before.
   */
  lemma AddLeavesOneRow(rows: seq<CartRow>, c: CustomerId, f: FoodId, id: nat)
    requires TableInvariant(rows, id)
    ensures |Matching(AddRow(rows, c, f, id), c, f)| == 1
    ensures Matching(AddRow(rows, c, f, id), c, f)[0].quantity == QuantityOf(rows, c, f) + 1
  {
    var after := AddRow(rows, c, f, id);
    assert |Matching(after, c, f)| <= 1 by {
      AddKeepsInvariant(rows, c, f, id);
      UniqueMatchesAtMostOne(after, c, f);
    }
    assert QuantityOf(after, c, f) == QuantityOf(rows, c, f) + 1 && Matching(after, c, f) != [] by {
      AddRowEffect(rows, c, f, id);
      FirstHeadsMatching(after, c, f);
      match FindFirst(rows, c, f)
      case Some(i) =>
        assert IsFor(after[i], c, f);
      case None =>
    }
    var m := Matching(after, c, f);
    assert m == [m[0]];
    assert QuantitySum(m) == m[0].quantity + QuantitySum(m[1..]);
  }

  /** `add_to_cart` followed by `remove_from_cart` on the same pair gives back the rows as they were. */
  lemma AddThenRemoveRestores(rows: seq<CartRow>, c: CustomerId, f: FoodId, id: nat)
    requires QuantitiesPositive(rows)
    ensures RemoveRow(AddRow(rows, c, f, id), c, f) == rows
  {
    var after := AddRow(rows, c, f, id);
    match FindFirst(rows, c, f)
    case Some(i) =>
      assert FindFirst(after, c, f) == Some(i) by {
        assert IsFor(after[i], c, f);
        assert forall j :: 0 <= j < i ==> after[j] == rows[j];
      }
    case None =>
      assert FindFirst(after, c, f) == Some(|rows|) by {
        assert IsFor(after[|rows|], c, f);
        assert forall j :: 0 <= j < |rows| ==> after[j] == rows[j];
      }
      assert after[..|rows|] == rows;
  }

  // ---------------------------------------------------------------------------
  // The views preserve the table invariant
  // ---------------------------------------------------------------------------

  /** Setting one row's quantity to a unit or more keeps pairs unique, quantities positive and keys ordered. */
  lemma SetQuantityKeepsInvariant(rows: seq<CartRow>, i: nat, q: int, id: nat)
    requires i < |rows| && q >= 1
    requires TableInvariant(rows, id)
    ensures TableInvariant(rows[i := rows[i].(quantity := q)], id)
  {
    var after := rows[i := rows[i].(quantity := q)];
    assert forall k :: 0 <= k < |after| ==>
      after[k].customer == rows[k].customer && after[k].food == rows[k].food && after[k].cartId == rows[k].cartId;
  }

  /** Appending a row of a new pair under the next key keeps pairs unique, quantities positive and keys ordered. */
  lemma AppendKeepsInvariant(rows: seq<CartRow>, y: CartRow, id: nat)
    requires TableInvariant(rows, id)
    requires y.cartId == id && y.quantity >= 1
    requires forall k :: 0 <= k < |rows| ==> !IsFor(rows[k], y.customer, y.food)
    ensures TableInvariant(rows + [y], id + 1)
  {
    var after := rows + [y];
    assert forall k :: 0 <= k < |rows| ==> after[k] == rows[k];
  }

  /** `add_to_cart` keeps pairs unique, quantities positive and keys ordered. */
  lemma AddKeepsInvariant(rows: seq<CartRow>, c: CustomerId, f: FoodId, id: nat)
    requires TableInvariant(rows, id)
    ensures TableInvariant(AddRow(rows, c, f, id), KeyAfterAdd(rows, c, f, id))
  {
    match FindFirst(rows, c, f)
    case Some(i) =>
      SetQuantityKeepsInvariant(rows, i, rows[i].quantity + 1, id);
    case None =>
      AppendKeepsInvariant(rows, CartRow(id, c, f, 1), id);
  }

  /** Deleting the row at position `i` keeps pairs unique, quantities positive and keys ordered. */
  lemma RemoveAtKeepsInvariant(rows: seq<CartRow>, i: nat, id: nat)
    requires i < |rows|
    requires TableInvariant(rows, id)
    ensures TableInvariant(rows[..i] + rows[i + 1..], id)
  {
    var after := rows[..i] + rows[i + 1..];
    assert forall k :: 0 <= k < |after| ==> after[k] == rows[if k < i then k else k + 1];
  }

  /** `remove_from_cart` keeps pairs unique, quantities positive and keys ordered. */
  lemma RemoveKeepsInvariant(rows: seq<CartRow>, c: CustomerId, f: FoodId, id: nat)
    requires TableInvariant(rows, id)
    ensures TableInvariant(RemoveRow(rows, c, f), id)
  {
    match FindFirst(rows, c, f)
    case Some(i) =>
      if rows[i].quantity > 1 {
        SetQuantityKeepsInvariant(rows, i, rows[i].quantity - 1, id);
      } else {
        RemoveAtKeepsInvariant(rows, i, id);
      }
    case None =>
  }

  /** A row that comes before every row of a valid table, with a smaller key and a pair of its own, keeps the table valid. */
  lemma PrependKeepsInvariant(head: CartRow, tail: seq<CartRow>, id: nat)
    requires TableInvariant(tail, id) && head.quantity >= 1 && head.cartId < id
    requires forall k :: 0 <= k < |tail| ==> !IsFor(tail[k], head.customer, head.food) && head.cartId < tail[k].cartId
    ensures TableInvariant([head] + tail, id)
  {
    var after := [head] + tail;
    assert forall k :: 0 < k < |after| ==> after[k] == tail[k - 1];
  }

  /** Dropping the first row of a valid table keeps it valid. */
  lemma TailKeepsInvariant(rows: seq<CartRow>, id: nat)
    requires rows != [] && TableInvariant(rows, id)
    ensures TableInvariant(rows[1..], id)
  {
    var rest := rows[1..];
    assert forall k :: 0 <= k < |rest| ==> rest[k] == rows[k + 1];
  }

  /** In a valid table the first row precedes, by key, every later row, and no later row shares its pair. */
  lemma HeadPrecedesRest(rows: seq<CartRow>, id: nat, x: CartRow)
    requires rows != [] && TableInvariant(rows, id)
    requires x in rows[1..]
    ensures !IsFor(x, rows[0].customer, rows[0].food) && rows[0].cartId < x.cartId
  {
    var m :| 0 <= m < |rows[1..]| && rows[1..][m] == x;
    assert rows[m + 1] == x;
  }

  /** `delete_from_cart` keeps pairs unique, quantities positive and keys ordered. */
  lemma {:induction false} DeleteKeepsInvariant(rows: seq<CartRow>, c: CustomerId, f: FoodId, id: nat)
    requires TableInvariant(rows, id)
    ensures TableInvariant(Without(rows, c, f), id)
  {
    if rows != [] {
      var head, rest := rows[0], rows[1..];
      TailKeepsInvariant(rows, id);
      DeleteKeepsInvariant(rest, c, f, id);
      var tail := Without(rest, c, f);
      if !IsFor(head, c, f) {
        forall k | 0 <= k < |tail|
          ensures !IsFor(tail[k], head.customer, head.food) && head.cartId < tail[k].cartId
        {
          assert tail[k] in tail;
          HeadPrecedesRest(rows, id, tail[k]);
        }
        assert Without(rows, c, f) == [head] + tail;
        PrependKeepsInvariant(head, tail, id);
      } else {
        assert Without(rows, c, f) == tail;
      }
    }
  }

  // ---------------------------------------------------------------------------
  // The cart page's total
  // ---------------------------------------------------------------------------

  /** Sum of price times quantity over all rows, counting only customer `c`'s: an independent statement of the total. */
  function MaskedTotal(rows: seq<CartRow>, c: CustomerId, prices: map<FoodId, Cents>): Cents
    requires Priced(rows, prices)
  {
    if rows == [] then 0
    else (if rows[0].customer == c then prices[rows[0].food] * rows[0].quantity else 0)
         + MaskedTotal(rows[1..], c, prices)
  }

  /** The total counts the customer's rows and nothing else. */
  lemma {:induction false} CartTotalOnlyCustomerRows(rows: seq<CartRow>, c: CustomerId, prices: map<FoodId, Cents>)
    requires Priced(rows, prices)
    ensures CartTotal(rows, c, prices) == MaskedTotal(rows, c, prices)
  {
    if rows != [] {
      var head, rest := rows[0], rows[1..];
      CartTotalOnlyCustomerRows(rest, c, prices);
      ValueSumAppend(if head.customer == c then [head] else [], Owned(rest, c), prices);
    }
  }

  /** The rows after `add_to_cart` still all have a priced food. */
  lemma AddKeepsPriced(rows: seq<CartRow>, c: CustomerId, f: FoodId, id: nat, prices: map<FoodId, Cents>)
    requires Priced(rows, prices) && f in prices
    ensures Priced(AddRow(rows, c, f, id), prices)
  {
  }

  /** The rows after `remove_from_cart` still all have a priced food. */
  lemma RemoveKeepsPriced(rows: seq<CartRow>, c: CustomerId, f: FoodId, prices: map<FoodId, Cents>)
    requires Priced(rows, prices)
    ensures Priced(RemoveRow(rows, c, f), prices)
  {
  }

  /** Splitting the total at food `f`: the other foods' value plus `f`'s price times its units. */
  lemma CartTotalSplit(rows: seq<CartRow>, c: CustomerId, f: FoodId, prices: map<FoodId, Cents>)
    requires Priced(rows, prices) && f in prices
    ensures Priced(Without(rows, c, f), prices)
    ensures CartTotal(rows, c, prices) == CartTotal(Without(rows, c, f), c, prices) + prices[f] * QuantityOf(rows, c, f)
  {
    SplitValue(rows, c, f, prices);
    MatchingValue(rows, c, f, prices);
  }

  /** A change confined to food `f` that moves its units by `d` moves the total by `f`'s price times `d`. */
  lemma CartTotalShift(rows: seq<CartRow>, after: seq<CartRow>, c: CustomerId, f: FoodId, d: int, prices: map<FoodId, Cents>)
    requires Priced(rows, prices) && Priced(after, prices) && f in prices
    requires Without(after, c, f) == Without(rows, c, f)
    requires QuantityOf(after, c, f) == QuantityOf(rows, c, f) + d
    ensures CartTotal(after, c, prices) == CartTotal(rows, c, prices) + prices[f] * d
  {
    var p, q, q' := prices[f], QuantityOf(rows, c, f), QuantityOf(after, c, f);
    var others := CartTotal(Without(rows, c, f), c, prices);
    assert CartTotal(rows, c, prices) == others + p * q by {
      CartTotalSplit(rows, c, f, prices);
    }
    assert CartTotal(after, c, prices) == others + p * q' by {
      CartTotalSplit(after, c, f, prices);
    }
    Distribute(p, q, d, q');
  }

  /** Adding one unit of food `f` raises the total by exactly that food's price. */
  lemma CartTotalAfterAdd(rows: seq<CartRow>, c: CustomerId, f: FoodId, id: nat, prices: map<FoodId, Cents>)
    requires Priced(rows, prices) && f in prices
    ensures Priced(AddRow(rows, c, f, id), prices)
    ensures CartTotal(AddRow(rows, c, f, id), c, prices) == CartTotal(rows, c, prices) + prices[f]
  {
    AddKeepsPriced(rows, c, f, id, prices);
    AddRowEffect(rows, c, f, id);
    CartTotalShift(rows, AddRow(rows, c, f, id), c, f, 1, prices);
  }

  /** Removing one unit of food `f` from a row of at least one unit lowers the total by exactly that food's price. */
  lemma CartTotalAfterRemove(rows: seq<CartRow>, c: CustomerId, f: FoodId, prices: map<FoodId, Cents>)
    requires Priced(rows, prices) && f in prices
    requires Matching(rows, c, f) != [] && Matching(rows, c, f)[0].quantity >= 1
    ensures Priced(RemoveRow(rows, c, f), prices)
    ensures CartTotal(RemoveRow(rows, c, f), c, prices) == CartTotal(rows, c, prices) - prices[f]
  {
    RemoveKeepsPriced(rows, c, f, prices);
    RemoveRowEffect(rows, c, f);
    CartTotalShift(rows, RemoveRow(rows, c, f), c, f, -1, prices);
  }

  /** Deleting food `f` lowers the total by its price times every unit the deleted rows held. */
  lemma CartTotalAfterDelete(rows: seq<CartRow>, c: CustomerId, f: FoodId, prices: map<FoodId, Cents>)
    requires Priced(rows, prices) && f in prices
    ensures Priced(Without(rows, c, f), prices)
    ensures CartTotal(Without(rows, c, f), c, prices) == CartTotal(rows, c, prices) - prices[f] * QuantityOf(rows, c, f)
  {
    CartTotalSplit(rows, c, f, prices);
  }
}
