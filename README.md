# Session-backed shopping cart

This project models the shopping cart of a Django storefront (class `Cart` in
`store/cart.py`). The cart is a dict kept in the request's session under
`CART_SESSION_ID` (`"cart"`). It maps `str(variant.id)` to a record
`{quantity, price}` and is updated in place.

The model has four modules:

- `Variants` (`variants.dfy`): a product variant (id and sale price in cents),
  and `str(variant.id)` as the canonical decimal numeral, with its inverse
  `int(...)`. It proves that two variants share a cart key exactly when they
  share an id.
- `CartTable` (`cart_table.dfy`): the cart dict as a value, `Entries`. It holds
  the keys in insertion order plus a map from key to record, because Python's
  `sum` and iteration walk a dict in insertion order. `Added`, `Removed`,
  `Quantity` (`len`), `Total` (`get_total_price`) and `LinesOf` (`__iter__`)
  are functions on that value. The lemmas say how an add or a remove changes
  the record of its own key, the other records, the length and the total.
- `SessionCart` (`session_cart.dfy`): the mutable objects. `Table` is the dict
  the session and the cart share by reference. `Session` has `data` and
  `modified`. `Cart` has the `__init__`, `add`, `save`, `remove`, `__iter__`,
  `__len__`, `get_total_price` and `clear` operations. Each mutating method's
  postcondition gives the new dict as `Added`/`Removed` of the old one, and
  says exactly what happens to the session.
- `CartTests` (`cart_tests.dfy`): the three unit tests of `store/tests.py`,
  written as clients of the class. Each postcondition is what the test
  asserts, proved from the class contracts and the lemmas alone.

Prices are integer cents. `sale_price` is a `DecimalField` with two decimal
places (`store/models.py:134`), so cents are exact. `str(Decimal)` and back
is taken as the identity on cents.

Storing or deleting a session key sets `session.modified`. That is Django's
session behaviour, not code of this repository, and `Session.Store` and
`Session.Delete` model it. So `Cart(request)` marks the session modified when
it installs a fresh cart. `clear()` deletes the key with `del`, which raises
`KeyError` when the session holds no cart; the model returns that as
`keyError == true`, and in that case `save()` is never reached.

`Cart.Len` (`__len__`) and `Cart.TotalPrice` are `CartTable.Quantity` and
`CartTable.Total` of the cart's dict. `add` does not check its quantity, so
`__len__` can return a negative sum. Python's built-in `len(cart)` then raises
`ValueError`, and it raises `OverflowError` above `sys.maxsize`.
`CartTable.LenOf` models that call; the tests' `len(cart)` uses it.

## Model

| member | source | states |
|---|---|---|
| Variants.DecimalString | store/cart.py:32 | `str(id)` is a non-empty string of digits that starts with '0' only for id 0 |
| Variants.DecimalRoundTrip | store/cart.py:32 | reading the key back as a number gives the variant id again |
| Variants.KeyOf | store/cart.py:32 | a variant's cart key `str(variant.id)` is a string of digits that reads back as the variant's id |
| Variants.KeyInjective | store/cart.py:52 | two variants have the same cart key if and only if they have the same id |
| CartTable.Added | store/cart.py:28-40 | add keeps the dict well formed, adds the key to its keys, appends the key to the order only when it is new, and leaves every other record unchanged |
| CartTable.Without | store/cart.py:54 | deleting a key removes it from the insertion order, keeps every other key, adds none and keeps the order free of duplicates |
| CartTable.WithoutKeepsOrder | store/cart.py:54 | in a duplicate-free order, deleting the key at position i gives exactly the keys before it followed by the keys after it |
| CartTable.RemoveKeepsOrder | store/cart.py:52-54 | removing a present key leaves the other keys in their previous insertion order, which is the order iteration shows |
| CartTable.Removed | store/cart.py:48-55 | remove drops the key's record, keeps every other record and keeps the dict well formed; if the key is absent the dict is unchanged |
| CartTable.LinesOf | store/cart.py:69-72 | iteration yields one line per entry, in order, each with the entry's quantity and price and `total_price == price * quantity` |
| CartTable.AddNewKey | store/cart.py:33-39 | adding a variant that is not in the cart creates one record holding the added quantity and the variant's sale price, with or without override |
| CartTable.AddExistingKey | store/cart.py:38-39 | adding a present variant without override raises its quantity by exactly the added amount and keeps its stored price and the key order |
| CartTable.AddOverride | store/cart.py:36-37 | with override the quantity becomes exactly the given value, whatever it was; the price is the stored one if there was one |
| CartTable.OtherVariantsUnchanged | store/cart.py:32-55 | add and remove of a variant leave the presence and record of every variant with a different id unchanged |
| CartTable.RemoveIdempotent | store/cart.py:52-54 | removing twice equals removing once |
| CartTable.Quantity | store/cart.py:74-78 | `__len__` is 0 for an empty cart and never negative while no quantity is negative |
| CartTable.Total | store/cart.py:80-84 | `get_total_price()` is 0 for an empty cart and never negative while no quantity or price is negative |
| CartTable.LenOf | store/cart.py:74-78 | `len(cart)` raises ValueError exactly when the quantities sum to a negative number, raises OverflowError exactly above `sys.maxsize`, and otherwise gives the sum |
| CartTable.NegativeAddMakesLenRaise | store/cart.py:39 | a single add of a negative quantity to an empty cart makes `len(cart)` raise ValueError |
| CartTable.SumNonNegative | store/cart.py:78 | a sum over the dict whose terms are all non-negative is non-negative |
| CartTable.EmptyTotals | store/cart.py:74-84 | an empty cart has length 0, total 0 and yields no lines |
| CartTable.SumAdded | store/cart.py:28-40 | under an add, any per-record sum loses the key's old term (if any) and gains its new one |
| CartTable.SumRemoved | store/cart.py:48-55 | under a remove, any per-record sum loses the removed key's term |
| CartTable.SumOrderIndependent | store/cart.py:78 | a sum over the dict does not depend on the order its keys were inserted in |
| CartTable.AddedQuantity | store/cart.py:74-78 | `len` after add grows by the added quantity, or with override has the key's old quantity replaced by the new one |
| CartTable.AddedTotal | store/cart.py:80-84 | the total after add grows by kept price times added quantity, or with override has the key's old line total replaced |
| CartTable.RemovedQuantity | store/cart.py:74-78 | `len` after remove drops by the removed entry's quantity (0 if absent) |
| CartTable.RemovedTotal | store/cart.py:80-84 | the total after remove drops by the removed entry's `price * quantity` (0 if absent) |
| CartTable.TotalsDependOnlyOnRecords | store/cart.py:74-84 | two carts with the same records have the same length and total |
| CartTable.LinesTotal | store/cart.py:57-72 | iteration yields as many lines as entries, and their `total_price` values add up to `get_total_price()` |
| SessionCart.Session.Store | store/cart.py:25 | storing a session key sets that key and marks the session modified |
| SessionCart.Session.Delete | store/cart.py:90 | deleting a present key removes it and marks the session modified; an absent key raises KeyError and changes nothing |
| SessionCart.Cart.constructor | store/cart.py:17-26 | the session holds the cart's own dict under `CART_SESSION_ID` afterwards; a missing or empty cart is replaced by a fresh empty dict (session marked modified), and a non-empty one is adopted as is |
| SessionCart.Cart.Add | store/cart.py:28-40 | the dict becomes `Added` of the old one, the session still holds it, and the session is marked modified |
| SessionCart.Cart.Save | store/cart.py:42-46 | the session is marked modified |
| SessionCart.Cart.Remove | store/cart.py:48-55 | the dict becomes `Removed` of the old one; the session is marked modified exactly when the key was present, otherwise its flag is untouched |
| SessionCart.Cart.Len | store/cart.py:74-78 | the cart's `__len__` is 0 when the cart is empty and never negative while no quantity is negative |
| SessionCart.Cart.TotalPrice | store/cart.py:80-84 | the cart's total is 0 when it is empty and equals the sum of the `total_price` values that iteration yields |
| SessionCart.Cart.Iterate | store/cart.py:57-72 | the lines yielded are `Lines` of the current dict (one per entry, in insertion order) |
| SessionCart.Cart.Clear | store/cart.py:86-91 | the cart key is removed from the session and the session is marked modified; without a cart key a KeyError leaves the session unchanged |
| CartTests.AddItemToCart | store/tests.py:50-72 | adding 2 units at 10.00 to a fresh cart gives `len(cart)` 2, total 20.00, and quantity 2 in the session's cart |
| CartTests.UpdateItemQuantity | store/tests.py:74-92 | an add of 1 followed by an override of 5 gives length 5, total 50.00 and quantity 5 |
| CartTests.RemoveItemFromCart | store/tests.py:94-111 | adding 3 and then removing the variant gives length 0, total 0 and no record |

## Left out

- The database lookup in `__iter__` (`store/cart.py:63-67`) is not modelled. It attaches the `variant` object to each record, and only line quantities, prices and totals are modelled.
- SessionCart.Cart.Iterate: does not model the write-back that the shallow copy in `__iter__` causes. Because of it, the source stores a `Decimal` price, `total_price` and `variant` into the session's own records. That is a Python object-identity and serialisation artefact, not cart behaviour. The model's iteration leaves the dict unchanged.
- SessionCart.Cart.Iterate: returns all lines at once. The source is a lazy generator, and its laziness is not modelled.
- Conversions between `str` and `Decimal` for prices are taken as exact round trips on integer cents. Arithmetic is exact, so rounding by Python's 28-digit decimal context, which only matters for enormous quantities, is not modelled.
- `sys.maxsize` is taken to be that of a 64-bit build (2^63 - 1).
- Default arguments (`quantity=1`, `override_quantity=False`) are not modelled: callers pass both.
- The session's values are modelled as cart dicts only. Other session keys, persistence to the session store, the `accessed` flag and the HTTP request are not modelled. `Cart` takes the session object itself instead of `request`.
- Multi-tenancy, the search index, the admin dashboard, forms, views and URL routing are framework configuration or foreign library calls, and are not part of this model.
