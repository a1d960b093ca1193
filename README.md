# Shopping cart of the food-ordering site, in Dafny

This project models the per-customer shopping cart of a Django food-ordering
web application. The cart is the `Cart` table: rows of
`(cart_id, customer, food, quantity)`. Three views change it in place:

- `add_to_cart` adds one unit of a food. It raises the quantity of the pair's
  first row, or creates a row of one unit.
- `remove_from_cart` takes one unit off. It decrements the pair's first row,
  or deletes the row when it holds one unit or less.
- `delete_from_cart` deletes every row of the pair.

Two aggregates read the table:

- the `cart` page's total, which is the sum of price × quantity over the customer's rows;
- the `cart_count` badge, which is the sum of quantities over the customer's rows, or 0 for an anonymous visitor.

Files:

- `wrappers.dfy` holds `Option` and `Result`.
- `cart_table.dfy` (module `CartTable`) holds the row type, the table
  invariants and the ORM queries the views run. The queries are
  `.filter(...)`, `.first()`, `.filter(...).delete()` and the generator sums.
  It also holds the lemmas that relate them.
- `views.dfy` (module `Views`) holds the `Cart` class.
  - Its fields are `rows`, kept in primary-key order, and `nextId`, the next auto-numbered key.
  - Its methods `AddToCart`, `RemoveFromCart` and `DeleteFromCart` update the rows in place.
  - The module also has the functions that specify those methods (`AddRow`, `RemoveRow`, `Without`), the cart total, and the lemmas about them.
- `context_processors.dfy` (module `ContextProcessors`) holds the badge count
  and how each view moves it.

Modelling choices:

- The session is an `Option<CustomerId>`. The customers and the food items
  that exist are a `Catalog`: a set of customer ids and a map from food id
  to its price.
- Prices are integer cents, because the price column is an exact two-place decimal.
- A view's answer is a `Response`:
  - `RedirectSignIn` when the session has no customer;
  - `ServerError` when `Customer.objects.get` or `FoodItem.objects.get` raises `DoesNotExist`, which nothing catches;
  - `NotFound` when `get_object_or_404` raises;
  - `RedirectReferer` or `RedirectCart` on success.
- Django's `.first()` on an unordered queryset orders by primary key. The
  table is kept in key order, so `FindFirst` returns the first match in the sequence.
  `FirstIsLowestKey` shows that this match has the lowest key.
- The schema does not declare `(customer, food)` unique, and it sets no lower
  bound on `quantity`. So the methods do not assume these properties.
  - `TableInvariant` combines unique pairs, quantities of at least one and increasing keys below `nextId`.
  - Each view is proved to preserve it: `ensures old(Valid()) ==> Valid()`, backed by lemmas on the specification functions.
  - The sequence is always read as the table in key order: that is what makes
    `FindFirst` the row `.first()` picks. Apart from that order, the views are
    modelled on any rows, where pairs may repeat and quantities may be below 1,
    and there they behave as the code does. For example, `remove_from_cart`
    acts only on the first of several rows for a pair.

Behaviour of the views that the model keeps:

- `add_to_cart` always adds exactly one unit; it takes no quantity.
- Nothing in the schema makes `(customer, food)` unique. Uniqueness is an
  invariant the views keep, because `add_to_cart` raises the first matching
  row instead of creating another.
- `delete_from_cart` deletes every row for the pair, not only one.
- The three views fail in different ways.
  - A missing session redirects to sign-in.
  - A missing customer record is an unhandled `DoesNotExist` in all three views.
  - A missing food is an unhandled `DoesNotExist` in `add_to_cart` (`.get`) and a 404 in the other two views (`get_object_or_404`).

## Model

| member | source | states |
|---|---|---|
| CartTable.FindFirst | food/views.py:159 | the position `.filter(customer, food).first()` picks: a row for the pair with no row for the pair before it, or None exactly when no row is for the pair |
| CartTable.FirstIsLowestKey | food/views.py:177 | on a key-ordered table the picked row has the smallest primary key among the pair's rows, as `.first()` promises |
| CartTable.FirstHeadsMatching | food/views.py:159 | `.first()` finds nothing exactly when the pair's filter is empty, and otherwise returns the filter's first row |
| CartTable.Owned | food/context_processors.py:9 | `Cart.objects.filter(customer=c)` holds exactly the rows of customer `c` and no more rows than the table |
| CartTable.Matching | food/views.py:196 | `Cart.objects.filter(customer=c, food=f)` holds exactly the rows for the pair |
| CartTable.Without | food/views.py:196 | after `.filter(customer, food).delete()` exactly the rows not for the pair remain, and the table shrinks by the number of rows the filter held |
| CartTable.QuantitySum | food/context_processors.py:10 | the sum of quantities is at least the number of rows when every row holds a unit or more |
| CartTable.ValueSum | food/views.py:139 | the sum of price × quantity is non-negative when prices are non-negative and quantities positive |
| CartTable.UniqueMatchesAtMostOne | food/models.py:66-70 | with unique pairs, a customer has at most one row per food |
| CartTable.SplitQuantity | food/context_processors.py:10 | a customer's units are the units of one food plus the units of the rows that remain after deleting that food |
| CartTable.OwnedIgnoresOtherCustomers | food/views.py:196 | deleting one customer's rows for a food leaves every other customer's rows exactly as they were |
| Views.Authenticate | food/views.py:151-157 | a cart view proceeds exactly when the session holds a customer id, that customer exists and the food exists. No session gives the sign-in redirect. A missing customer is a server error. A missing food gives the view's own error |
| Views.AddRow | food/views.py:159-165 | the table after `add_to_cart`: either the same length, or one row longer with the new last row `(id, customer, food, 1)`. Every existing row stays in place, either unchanged or, for a row of the pair, with one more unit |
| Views.KeyAfterAdd | food/views.py:159-165 | the key counter after `add_to_cart` advances by one exactly when `add_to_cart` created a row, and otherwise stays |
| Views.RemoveRow | food/views.py:177-184 | the table after `remove_from_cart`: when its length is kept, every row stays in place, either unchanged or, for a row of the pair holding more than one unit, with one unit fewer. When the length changes, exactly one row of the pair that held one unit or less was deleted and the others keep their order |
| Views.Cart.constructor | food/models.py:66-70 | the empty table satisfies the invariant, and the first key handed out is 1 |
| Views.Cart.AddToCart | food/views.py:151-167 | without a session, customer or food, the view gives that error and the rows and key counter stay unchanged. Otherwise the rows become `AddRow` of the old rows, the counter advances only when a row is created, the response is the referer redirect, and the invariant is preserved |
| Views.Cart.RemoveFromCart | food/views.py:169-186 | without a session, customer or food, the view gives that error and changes nothing. Otherwise the rows become `RemoveRow` of the old rows and the response is the cart redirect. The invariant is preserved and the key counter does not move |
| Views.Cart.DeleteFromCart | food/views.py:188-198 | without a session, customer or food, the view gives that error and changes nothing. Otherwise the rows become `Without` of the old rows, the response is the cart redirect, and the invariant is preserved |
| Views.AddRowEffect | food/views.py:159-165 | add raises the pair's units by exactly 1 and leaves every other row alone. On an existing row it creates no row. Without a row it creates exactly one row, of one unit |
| Views.RemoveRowEffect | food/views.py:177-184 | remove without a row changes nothing. Otherwise it keeps the row exactly when the row held more than one unit, and deletes it otherwise. A row of at least one unit loses exactly one unit. Other rows are untouched |
| Views.DeleteEffect | food/views.py:196 | delete leaves no row for the pair, whatever the quantities, and leaves every other pair's rows as they were |
| Views.AddLeavesOneRow | food/views.py:159-165 | on a valid table, add leaves exactly one row for the pair, holding one unit more than the pair held before |
| Views.AddThenRemoveRestores | food/views.py:159-184 | when every row holds at least one unit, add followed by remove of the same pair restores the rows exactly |
| Views.AddKeepsInvariant | food/views.py:159-165 | add keeps pairs unique, quantities at least 1 and keys increasing below the counter |
| Views.RemoveKeepsInvariant | food/views.py:177-184 | remove keeps pairs unique, quantities at least 1 and keys increasing |
| Views.DeleteKeepsInvariant | food/views.py:196 | delete keeps pairs unique, quantities at least 1 and keys increasing |
| Views.CartTotal | food/views.py:138-139 | the cart page's total is 0 for a customer with no rows, and it is non-negative for non-negative prices and positive quantities |
| Views.CartTotalOnlyCustomerRows | food/views.py:138-139 | the total equals the sum of price × quantity over all rows, where other customers' rows count 0 |
| Views.CartTotalAfterAdd | food/views.py:159-165 | after add, the customer's total rises by exactly the food's price |
| Views.CartTotalAfterRemove | food/views.py:177-184 | after remove on a row of at least one unit, the customer's total falls by exactly the food's price |
| Views.CartTotalAfterDelete | food/views.py:196 | after delete, the customer's total falls by the food's price times the units the deleted rows held |
| ContextProcessors.CartCount | food/context_processors.py:4-11 | `total_items` is 0 for an anonymous session and 0 for an empty cart. It fails exactly when the session's customer does not exist. With positive quantities it is at least the customer's number of rows |
| ContextProcessors.CartCountOnlyCustomerRows | food/context_processors.py:8-10 | for a signed-in customer, `total_items` equals the sum of quantities over all rows, where other customers' rows count 0 |
| ContextProcessors.CartCountAfterAdd | food/views.py:159-165 | after add, the customer's `total_items` rises by exactly 1, and no other customer's `total_items` moves |
| ContextProcessors.CartCountAfterRemove | food/views.py:179-184 | after remove on a row of at least one unit, `total_items` falls by exactly 1. On a food with no row it does not move. Other customers' `total_items` do not move |
| ContextProcessors.CartCountAfterDelete | food/views.py:196 | after delete, `total_items` falls by the units the deleted rows held, and no other customer's `total_items` moves |

## Left out

- Sign-in, sign-up and logout (`food/views.py:13-57`, `249-252`): raw SQL, password hashing and session storage are foreign calls. The session is only an optional customer id.
- Browsing and profile views (`search`, `menu`, `restaurant_menu_view`, `restaurant_list`, `profile`, `update_profile`, `order_details`) and every username lookup: these are ORM searches and template rendering with no cart logic.
- The rest of the `cart` view (`food/views.py:131-149`): only its total (lines 138-139) is modelled. Its sign-in redirect, customer lookup, username query and rendering are not.
- The redirect target of `add_to_cart` (`HTTP_REFERER`, `food/views.py:167`) is reduced to the response `RedirectReferer`. The URL itself is request plumbing.
- `food/urls.py`, `food/admin.py` and `food/forms.py`: routing, admin configuration and form metadata.
- Order placement, the order total and address snapshots are not part of this model. No code for them appears among the modelled files.
- Tables stored out of key order: `FindFirst` takes the first match of the sequence, which is the row of lowest key only when the sequence is in key order (`KeyOrdered`, part of `TableInvariant`). On a sequence out of key order the model's choice of row can differ from `.first()`'s.
- Concurrency: the model runs one view at a time. Double submits rely on the database's transactions, which are not modelled.
- Views.Cart.AddToCart: does not model the bound of the integer `quantity` column, because database integer overflow is outside the model. Quantities are unbounded.
- Views.CartTotal: does not model the `max_digits=10` bound of the price column. Prices are unbounded integers of cents.
