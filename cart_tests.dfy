/** The unit tests of the cart, written as clients of the `Cart` class: each
    starts from a fresh session and a variant priced 10.00 (1000 cents), and
    its postcondition is what the test asserts; `len` is the result of the
    built-in `len(cart)`. */
module CartTests {
  import opened Variants
  import opened CartTable
  import opened SessionCart

  /** Adding 2 units to an empty cart: length 2, total 20.00, and the
      session's own cart holds the variant with quantity 2. */
  method AddItemToCart(variant: Variant) returns (len: LenResult, total: int, inSession: bool, quantity: int)
    requires variant.salePrice == 1000
    ensures len == Length(2) && total == 2000
    ensures inSession && quantity == 2
  {
    var session := new Session(map[]);
    var cart := new Cart(session);
    cart.Add(variant, 2, false);
    AddedQuantity(Empty, KeyOf(variant), 1000, 2, false);
    AddedTotal(Empty, KeyOf(variant), 1000, 2, false);
    len := LenOf(cart.cart.Contents());
    total := cart.TotalPrice();
    inSession := KeyOf(variant) in session.data[CartSessionId].records;
    quantity := cart.cart.records[KeyOf(variant)].quantity;
  }

  /** Adding 1 and then overriding with 5 leaves 5, not 6. */
  method UpdateItemQuantity(variant: Variant) returns (len: LenResult, total: int, quantity: int)
    requires variant.salePrice == 1000
    ensures len == Length(5) && total == 5000 && quantity == 5
  {
    var session := new Session(map[]);
    var cart := new Cart(session);
    cart.Add(variant, 1, false);
    ghost var once := cart.cart.Contents();
    AddedQuantity(Empty, KeyOf(variant), 1000, 1, false);
    AddedTotal(Empty, KeyOf(variant), 1000, 1, false);
    cart.Add(variant, 5, true);
    AddedQuantity(once, KeyOf(variant), 1000, 5, true);
    AddedTotal(once, KeyOf(variant), 1000, 5, true);
    len := LenOf(cart.cart.Contents());
    total := cart.TotalPrice();
    quantity := cart.cart.records[KeyOf(variant)].quantity;
  }

  /** Adding 3 and removing the variant empties the cart. */
  method RemoveItemFromCart(variant: Variant) returns (len: LenResult, total: int, present: bool)
    requires variant.salePrice == 1000
    ensures len == Length(0) && total == 0 && !present
  {
    var session := new Session(map[]);
    var cart := new Cart(session);
    cart.Add(variant, 3, false);
    ghost var added := cart.cart.Contents();
    AddedQuantity(Empty, KeyOf(variant), 1000, 3, false);
    AddedTotal(Empty, KeyOf(variant), 1000, 3, false);
    cart.Remove(variant);
    RemovedQuantity(added, KeyOf(variant));
    RemovedTotal(added, KeyOf(variant));
    len := LenOf(cart.cart.Contents());
    total := cart.TotalPrice();
    present := KeyOf(variant) in cart.cart.records;
  }
}
