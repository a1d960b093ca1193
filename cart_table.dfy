/**
 * The `Cart` table of the food-ordering application and the queries the
 * cart views run on it.
 *
 * A row binds a customer, a food item and a quantity, under an auto-numbered
 * primary key `cartId`. The table is kept as a sequence in primary-key order:
 * a new row always receives a key larger than every key in use, so appending
 * keeps the order, and deleting a row keeps the order of the others. The
 * schema declares no uniqueness on (customer, food) and no bound on the
 * quantity; both are stated here as invariants that the cart views preserve.
 */
module CartTable {
  import opened Wrappers

  type CustomerId = nat
  type FoodId = nat

  /** Money in cents: prices are exact two-place decimals. */
  type Cents = int

  datatype CartRow = CartRow(cartId: nat, customer: CustomerId, food: FoodId, quantity: int)

  /** The row belongs to customer `c` and names food `f`. */
  predicate IsFor(r: CartRow, c: CustomerId, f: FoodId) {
    r.customer == c && r.food == f
  }

  // ---------------------------------------------------------------------------
  // Invariants of the table
  // ---------------------------------------------------------------------------

  /** At most one row per (customer, food) pair. */
  ghost predicate UniquePairs(rows: seq<CartRow>) {
    forall i, j :: 0 <= i < j < |rows| ==> !IsFor(rows[j], rows[i].customer, rows[i].food)
  }

  /** Every row holds at least one unit. */
  predicate QuantitiesPositive(rows: seq<CartRow>) {
    forall i :: 0 <= i < |rows| ==> rows[i].quantity >= 1
  }

  /** Keys strictly increase along the table and are all below the next key to hand out. */
  ghost predicate KeyOrdered(rows: seq<CartRow>, nextId: nat) {
    && (forall i, j :: 0 <= i < j < |rows| ==> rows[i].cartId < rows[j].cartId)
    && (forall i :: 0 <= i < |rows| ==> rows[i].cartId < nextId)
  }

  ghost predicate TableInvariant(rows: seq<CartRow>, nextId: nat) {
    UniquePairs(rows) && QuantitiesPositive(rows) && KeyOrdered(rows, nextId)
  }

  // ---------------------------------------------------------------------------
  // Queries
  // ---------------------------------------------------------------------------

  /**
   * `Cart.objects.filter(customer=c, food=f).first()`: the position of the
   * first matching row in primary-key order, or None when there is none.
   */
  function FindFirst(rows: seq<CartRow>, c: CustomerId, f: FoodId): (r: Option<nat>)
    ensures r.Some? ==> r.value < |rows| && IsFor(rows[r.value], c, f)
    ensures r.Some? ==> forall j :: 0 <= j < r.value ==> !IsFor(rows[j], c, f)
    ensures r.None? <==> forall j :: 0 <= j < |rows| ==> !IsFor(rows[j], c, f)
  {
    if rows == [] then None
    else if IsFor(rows[0], c, f) then Some(0)
    else match FindFirst(rows[1..], c, f)
      case None => None
      case Some(i) => Some(i + 1)
  }

  /** `Cart.objects.filter(customer=c)`: the customer's rows, in key order. */
  function Owned(rows: seq<CartRow>, c: CustomerId): (r: seq<CartRow>)
    ensures |r| <= |rows|
    ensures forall x :: x in r <==> x in rows && x.customer == c
  {
    if rows == [] then []
    else (if rows[0].customer == c then [rows[0]] else []) + Owned(rows[1..], c)
  }

  /** `Cart.objects.filter(customer=c, food=f)`: the rows for one pair, in key order. */
  function Matching(rows: seq<CartRow>, c: CustomerId, f: FoodId): (r: seq<CartRow>)
    ensures |r| <= |rows|
    ensures forall x :: x in r <==> x in rows && IsFor(x, c, f)
  {
    if rows == [] then []
    else (if IsFor(rows[0], c, f) then [rows[0]] else []) + Matching(rows[1..], c, f)
  }

  /**
   * What is left of the table after `Cart.objects.filter(customer=c, food=f).delete()`:
   * every other row, in its original order.
   */
  function Without(rows: seq<CartRow>, c: CustomerId, f: FoodId): (r: seq<CartRow>)
    ensures |r| + |Matching(rows, c, f)| == |rows|
    ensures forall x :: x in r <==> x in rows && !IsFor(x, c, f)
  {
    if rows == [] then []
    else (if IsFor(rows[0], c, f) then [] else [rows[0]]) + Without(rows[1..], c, f)
  }

  /** `sum(item.quantity for item in rows)`. */
  function QuantitySum(rows: seq<CartRow>): (n: int)
    ensures QuantitiesPositive(rows) ==> n >= |rows|
  {
    if rows == [] then 0 else rows[0].quantity + QuantitySum(rows[1..])
  }

  /** Every row's food has a price: the foreign key from a row to its food item. */
  ghost predicate Priced(rows: seq<CartRow>, prices: map<FoodId, Cents>) {
    forall x :: x in rows ==> x.food in prices
  }

  /** `sum(item.food.price * item.quantity for item in rows)`. */
  function ValueSum(rows: seq<CartRow>, prices: map<FoodId, Cents>): (v: Cents)
    requires Priced(rows, prices)
    ensures QuantitiesPositive(rows) && (forall f :: f in prices ==> prices[f] >= 0) ==> v >= 0
  {
    if rows == [] then 0
    else prices[rows[0].food] * rows[0].quantity + ValueSum(rows[1..], prices)
  }

  /** Units of food `f` in customer `c`'s cart, summed over however many rows hold them. */
  function QuantityOf(rows: seq<CartRow>, c: CustomerId, f: FoodId): int {
    QuantitySum(Matching(rows, c, f))
  }

  // ---------------------------------------------------------------------------
  // Helper lemmas: the queries distribute over concatenation
  // ---------------------------------------------------------------------------

  /** The tail of a concatenation with a non-empty front. */
  lemma TailOfAppend<T>(a: seq<T>, b: seq<T>)
    requires a != []
    ensures (a + b)[0] == a[0] && (a + b)[1..] == a[1..] + b
  {
  }

  lemma AppendAssociates<T>(a: seq<T>, b: seq<T>, c: seq<T>)
    ensures a + (b + c) == (a + b) + c
  {
  }

  lemma {:induction false} OwnedAppend(a: seq<CartRow>, b: seq<CartRow>, c: CustomerId)
    ensures Owned(a + b, c) == Owned(a, c) + Owned(b, c)
  {
    if a == [] {
      assert a + b == b;
    } else {
      TailOfAppend(a, b);
      OwnedAppend(a[1..], b, c);
    }
  }

  lemma {:induction false} MatchingAppend(a: seq<CartRow>, b: seq<CartRow>, c: CustomerId, f: FoodId)
    ensures Matching(a + b, c, f) == Matching(a, c, f) + Matching(b, c, f)
  {
    if a == [] {
      assert a + b == b;
    } else {
      TailOfAppend(a, b);
      MatchingAppend(a[1..], b, c, f);
    }
  }

  lemma {:induction false} WithoutAppend(a: seq<CartRow>, b: seq<CartRow>, c: CustomerId, f: FoodId)
    ensures Without(a + b, c, f) == Without(a, c, f) + Without(b, c, f)
  {
    if a == [] {
      assert a + b == b;
    } else {
      TailOfAppend(a, b);
      WithoutAppend(a[1..], b, c, f);
      AppendAssociates(if IsFor(a[0], c, f) then [] else [a[0]], Without(a[1..], c, f), Without(b, c, f));
    }
  }

  lemma {:induction false} QuantitySumAppend(a: seq<CartRow>, b: seq<CartRow>)
    ensures QuantitySum(a + b) == QuantitySum(a) + QuantitySum(b)
  {
    if a == [] {
      assert a + b == b;
    } else {
      TailOfAppend(a, b);
      QuantitySumAppend(a[1..], b);
    }
  }

  lemma {:induction false} ValueSumAppend(a: seq<CartRow>, b: seq<CartRow>, prices: map<FoodId, Cents>)
    requires Priced(a, prices) && Priced(b, prices)
    ensures Priced(a + b, prices)
    ensures ValueSum(a + b, prices) == ValueSum(a, prices) + ValueSum(b, prices)
  {
    if a == [] {
      assert a + b == b;
    } else {
      TailOfAppend(a, b);
      ValueSumAppend(a[1..], b, prices);
    }
  }

  // ---------------------------------------------------------------------------
  // Properties of the queries
  // ---------------------------------------------------------------------------

  /**
   * `.first()` orders by primary key: on a key-ordered table the row FindFirst
   * picks has the smallest key among the rows for the pair, and it is the head
   * of the pair's filtered rows.
   */
  lemma FirstIsLowestKey(rows: seq<CartRow>, nextId: nat, c: CustomerId, f: FoodId)
    requires KeyOrdered(rows, nextId)
    requires FindFirst(rows, c, f).Some?
    ensures forall j :: 0 <= j < |rows| && IsFor(rows[j], c, f) ==>
      rows[FindFirst(rows, c, f).value].cartId <= rows[j].cartId
  {
  }

  /** The row FindFirst picks is the first of the pair's rows. */
  lemma {:induction false} FirstHeadsMatching(rows: seq<CartRow>, c: CustomerId, f: FoodId)
    ensures FindFirst(rows, c, f).None? <==> Matching(rows, c, f) == []
    ensures FindFirst(rows, c, f).Some? ==> Matching(rows, c, f)[0] == rows[FindFirst(rows, c, f).value]
  {
    if rows != [] && !IsFor(rows[0], c, f) {
      FirstHeadsMatching(rows[1..], c, f);
    }
  }

  /** With unique pairs a customer has at most one row for a food. */
  lemma {:induction false} UniqueMatchesAtMostOne(rows: seq<CartRow>, c: CustomerId, f: FoodId)
    requires UniquePairs(rows)
    ensures |Matching(rows, c, f)| <= 1
  {
    if rows != [] {
      var rest := rows[1..];
      assert UniquePairs(rest) by {
        forall i, j | 0 <= i < j < |rest|
          ensures !IsFor(rest[j], rest[i].customer, rest[i].food)
        {
          assert rest[i] == rows[i + 1] && rest[j] == rows[j + 1];
        }
      }
      UniqueMatchesAtMostOne(rest, c, f);
      if IsFor(rows[0], c, f) {
        forall k | 0 <= k < |rest| ensures !IsFor(rest[k], c, f) {
          assert rest[k] == rows[k + 1];
        }
        FirstHeadsMatching(rest, c, f);
      }
    }
  }

  /**
   * Splitting a customer's cart at one food: the customer's units are those of
   * the other foods plus those of the food.
   */
  lemma {:induction false} SplitQuantity(rows: seq<CartRow>, c: CustomerId, f: FoodId)
    ensures QuantitySum(Owned(rows, c)) == QuantitySum(Owned(Without(rows, c, f), c)) + QuantityOf(rows, c, f)
  {
    if rows != [] {
      var head, rest := rows[0], rows[1..];
      SplitQuantity(rest, c, f);
      var hOwned := if head.customer == c then [head] else [];
      var hWithout := if IsFor(head, c, f) then [] else [head];
      var hMatching := if IsFor(head, c, f) then [head] else [];
      QuantitySumAppend(hOwned, Owned(rest, c));
      QuantitySumAppend(hMatching, Matching(rest, c, f));
      OwnedAppend(hWithout, Without(rest, c, f), c);
      QuantitySumAppend(Owned(hWithout, c), Owned(Without(rest, c, f), c));
      assert Owned(hWithout, c) == if IsFor(head, c, f) || head.customer != c then [] else [head];
    }
  }

  /** The same split for the money value of the cart. */
  lemma {:induction false} SplitValue(rows: seq<CartRow>, c: CustomerId, f: FoodId, prices: map<FoodId, Cents>)
    requires Priced(rows, prices)
    ensures Priced(Owned(rows, c), prices) && Priced(Owned(Without(rows, c, f), c), prices)
    ensures Priced(Matching(rows, c, f), prices)
    ensures ValueSum(Owned(rows, c), prices)
         == ValueSum(Owned(Without(rows, c, f), c), prices) + ValueSum(Matching(rows, c, f), prices)
  {
    if rows != [] {
      var head, rest := rows[0], rows[1..];
      SplitValue(rest, c, f, prices);
      var hOwned := if head.customer == c then [head] else [];
      var hWithout := if IsFor(head, c, f) then [] else [head];
      var hMatching := if IsFor(head, c, f) then [head] else [];
      ValueSumAppend(hOwned, Owned(rest, c), prices);
      ValueSumAppend(hMatching, Matching(rest, c, f), prices);
      OwnedAppend(hWithout, Without(rest, c, f), c);
      assert Owned(hWithout, c) == if IsFor(head, c, f) || head.customer != c then [] else [head];
      ValueSumAppend(Owned(hWithout, c), Owned(Without(rest, c, f), c), prices);
    }
  }

  lemma Distribute(p: int, a: int, b: int, sum: int)
    requires sum == a + b
    ensures p * sum == p * a + p * b
  {
  }

  /** All of a pair's rows share one food, so their value is that food's price times their units. */
  lemma {:induction false} MatchingValue(rows: seq<CartRow>, c: CustomerId, f: FoodId, prices: map<FoodId, Cents>)
    requires f in prices
    ensures Priced(Matching(rows, c, f), prices)
    ensures ValueSum(Matching(rows, c, f), prices) == prices[f] * QuantityOf(rows, c, f)
  {
    if rows != [] {
      var head, rest := rows[0], rows[1..];
      MatchingValue(rest, c, f, prices);
      if IsFor(head, c, f) {
        var m := Matching(rest, c, f);
        var p, hq, rq := prices[f], head.quantity, QuantitySum(m);
        assert Matching(rows, c, f) == [head] + m;
        assert ([head] + m)[0] == head && ([head] + m)[1..] == m;
        assert ValueSum([head] + m, prices) == p * hq + ValueSum(m, prices);
        assert QuantitySum([head] + m) == hq + rq;
        Distribute(p, hq, rq, hq + rq);
      } else {
        assert Matching(rows, c, f) == Matching(rest, c, f);
      }
    }
  }

  /** One step of QuantityOf: the head row counts when it is for the pair. */
  lemma QuantityOfUnfold(rows: seq<CartRow>, c: CustomerId, f: FoodId)
    requires rows != []
    ensures QuantityOf(rows, c, f) == (if IsFor(rows[0], c, f) then rows[0].quantity else 0) + QuantityOf(rows[1..], c, f)
  {
    QuantitySumAppend(if IsFor(rows[0], c, f) then [rows[0]] else [], Matching(rows[1..], c, f));
  }

  /**
   * Overwriting one of the pair's rows with another row for the pair leaves
   * the other pairs' rows alone and changes the pair's units by the difference.
   */
  lemma {:induction false} ReplaceRowOfPair(rows: seq<CartRow>, i: nat, y: CartRow, c: CustomerId, f: FoodId)
    requires i < |rows| && IsFor(rows[i], c, f) && IsFor(y, c, f)
    ensures Without(rows[i := y], c, f) == Without(rows, c, f)
    ensures QuantityOf(rows[i := y], c, f) == QuantityOf(rows, c, f) - rows[i].quantity + y.quantity
  {
    var after := rows[i := y];
    QuantityOfUnfold(rows, c, f);
    QuantityOfUnfold(after, c, f);
    if i == 0 {
      assert after[1..] == rows[1..];
    } else {
      assert after[1..] == rows[1..][i - 1 := y];
      ReplaceRowOfPair(rows[1..], i - 1, y, c, f);
    }
  }

  /**
   * Deleting one of the pair's rows leaves the other pairs' rows alone and
   * takes that row's units off the pair's.
   */
  lemma DropRowOfPair(rows: seq<CartRow>, i: nat, c: CustomerId, f: FoodId)
    requires i < |rows| && IsFor(rows[i], c, f)
    ensures Without(rows[..i] + rows[i + 1..], c, f) == Without(rows, c, f)
    ensures QuantityOf(rows[..i] + rows[i + 1..], c, f) == QuantityOf(rows, c, f) - rows[i].quantity
  {
    var pre, x, post := rows[..i], rows[i], rows[i + 1..];
    assert rows == pre + ([x] + post);
    assert Without([x], c, f) == [] && Matching([x], c, f) == [x] by {
      assert [x][1..] == [];
    }
    assert Without(rows, c, f) == Without(pre, c, f) + Without(post, c, f) by {
      WithoutAppend(pre, [x] + post, c, f);
      WithoutAppend([x], post, c, f);
    }
    WithoutAppend(pre, post, c, f);
    var mpre, mpost := Matching(pre, c, f), Matching(post, c, f);
    assert QuantityOf(rows, c, f) == QuantitySum(mpre) + x.quantity + QuantitySum(mpost) by {
      MatchingAppend(pre, [x] + post, c, f);
      MatchingAppend([x], post, c, f);
      QuantitySumAppend(mpre, [x] + mpost);
      QuantitySumAppend([x], mpost);
    }
    assert QuantityOf(pre + post, c, f) == QuantitySum(mpre) + QuantitySum(mpost) by {
      MatchingAppend(pre, post, c, f);
      QuantitySumAppend(mpre, mpost);
    }
  }

  /** Appending a row for the pair leaves the other pairs' rows alone and adds its units to the pair's. */
  lemma AppendRowOfPair(rows: seq<CartRow>, y: CartRow, c: CustomerId, f: FoodId)
    requires IsFor(y, c, f)
    ensures Without(rows + [y], c, f) == Without(rows, c, f)
    ensures Matching(rows + [y], c, f) == Matching(rows, c, f) + [y]
    ensures QuantityOf(rows + [y], c, f) == QuantityOf(rows, c, f) + y.quantity
  {
    WithoutAppend(rows, [y], c, f);
    MatchingAppend(rows, [y], c, f);
    QuantitySumAppend(Matching(rows, c, f), [y]);
  }

  /** Removing one pair's rows leaves every other customer's rows as they were. */
  lemma {:induction false} OwnedIgnoresOtherCustomers(rows: seq<CartRow>, c: CustomerId, f: FoodId, other: CustomerId)
    requires other != c
    ensures Owned(Without(rows, c, f), other) == Owned(rows, other)
  {
    if rows != [] {
      OwnedIgnoresOtherCustomers(rows[1..], c, f, other);
      var head := rows[0];
      OwnedAppend(if IsFor(head, c, f) then [] else [head], Without(rows[1..], c, f), other);
    }
  }
}
