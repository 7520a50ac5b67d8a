/** The session-backed shopping cart: the session object, the dict stored in
    it, and the `Cart` that wraps both and updates the dict in place. */
module SessionCart {
  import opened Variants
  import opened CartTable

  /** `settings.CART_SESSION_ID`: the session key the cart table lives under. */
  const CartSessionId: string := "cart"

  /** A Python dict of cart records, updated in place and shared by reference
      between the session and the cart. */
  class Table {
    var order: seq<Key>
    var records: map<Key, Item>

    /** `{}` */
    constructor ()
      ensures order == [] && records == map[]
    {
      order := [];
      records := map[];
    }

    function Contents(): Entries
      reads this
    {
      Entries(order, records)
    }

    predicate Valid()
      reads this
    {
      WellFormed(Contents())
    }
  }

  /** The request's session: its key/value store and its `modified` flag.
      Storing or deleting a key marks the session modified, as Django's
      session does. */
  class Session {
    var data: map<string, Table>
    var modified: bool

    constructor (data: map<string, Table>)
      ensures this.data == data && !modified
    {
      this.data := data;
      modified := false;
    }

    /** `session[key] = value` */
    method Store(key: string, value: Table)
      modifies this
      ensures data == old(data)[key := value] && modified
    {
      data := data[key := value];
      modified := true;
    }

    /** `del session[key]`; `keyError` reports the KeyError raised when the
        key is absent, in which case nothing changes. */
    method Delete(key: string) returns (keyError: bool)
      modifies this
      ensures keyError == (key !in old(data))
      ensures !keyError ==> data == old(data) - {key} && modified
      ensures keyError ==> data == old(data) && modified == old(modified)
    {
      keyError := key !in data;
      if !keyError {
        data := data - {key};
        modified := true;
      }
    }
  }

  class Cart {
    const session: Session
    /** `self.cart`: the very dict stored in the session at construction. */
    const cart: Table

    /** The session still holds this cart's dict under `CART_SESSION_ID`. */
    predicate Attached()
      reads session
    {
      CartSessionId in session.data && session.data[CartSessionId] == cart
    }

    /** `Cart(request)`: adopt the session's cart, or store a fresh empty one
        when there is none or the stored one is empty. */
    constructor (session: Session)
      requires CartSessionId in session.data ==> session.data[CartSessionId].Valid()
      modifies session
      ensures this.session == session
      ensures Attached() && cart.Valid()
      ensures old(CartSessionId in session.data && session.data[CartSessionId].records != map[]) ==>
                cart == old(session.data[CartSessionId]) &&
                session.data == old(session.data) && session.modified == old(session.modified)
      ensures old(CartSessionId !in session.data || session.data[CartSessionId].records == map[]) ==>
                fresh(cart) && cart.Contents() == Empty &&
                session.data == old(session.data)[CartSessionId := cart] && session.modified
    {
      var found: Table;
      if CartSessionId in session.data && session.data[CartSessionId].records != map[] {
        found := session.data[CartSessionId];
      } else {
        found := new Table();
        session.Store(CartSessionId, found);
      }
      this.session := session;
      this.cart := found;
    }

    /** `add(variant, quantity=1, override_quantity=False)` */
    method Add(variant: Variant, quantity: int, overrideQuantity: bool)
      requires cart.Valid()
      modifies cart, session`modified
      ensures cart.Valid()
      ensures cart.Contents() == Added(old(cart.Contents()), KeyOf(variant), variant.salePrice, quantity, overrideQuantity)
      ensures session.data == old(session.data) && session.modified
    {
      var variantId := KeyOf(variant);
      if variantId !in cart.records {
        cart.records := cart.records[variantId := Item(0, variant.salePrice)];
        cart.order := cart.order + [variantId];
      }
      var rec := cart.records[variantId];
      if overrideQuantity {
        cart.records := cart.records[variantId := rec.(quantity := quantity)];
      } else {
        cart.records := cart.records[variantId := rec.(quantity := rec.quantity + quantity)];
      }
      Save();
    }

    /** `save()`: mark the session modified so that it is written back. */
    method Save()
      modifies session`modified
      ensures session.modified
    {
      session.modified := true;
    }

    /** `remove(variant)`: delete the variant's record if it is there; only
        then is the session marked modified. */
    method Remove(variant: Variant)
      requires cart.Valid()
      modifies cart, session`modified
      ensures cart.Valid()
      ensures cart.Contents() == Removed(old(cart.Contents()), KeyOf(variant))
      ensures session.data == old(session.data)
      ensures session.modified == (old(session.modified) || KeyOf(variant) in old(cart.records))
    {
      var variantId := KeyOf(variant);
      if variantId in cart.records {
        cart.records := cart.records - {variantId};
        cart.order := Without(cart.order, variantId);
        Save();
      }
    }

    /** `__iter__`: walk the records in insertion order, yielding each with
        its `total_price`. */
    method Iterate() returns (lines: seq<Line>)
      requires cart.Valid()
      ensures lines == Lines(cart.Contents())
    {
      lines := [];
      var i := 0;
      while i < |cart.order|
        invariant 0 <= i <= |cart.order|
        invariant |lines| == i
        invariant forall j :: 0 <= j < i ==>
                    lines[j] == Line(cart.records[cart.order[j]].quantity, cart.records[cart.order[j]].price,
                                     LineTotal(cart.records[cart.order[j]]))
      {
        var item := cart.records[cart.order[i]];
        lines := lines + [Line(item.quantity, item.price, item.price * item.quantity)];
        i := i + 1;
      }
    }

    /** `__len__`: 0 for an empty cart, never negative while no quantity is. */
    function Len(): (n: int)
      reads cart
      requires cart.Valid()
      ensures cart.records == map[] ==> n == 0
      ensures QuantitiesNonNegative(cart.Contents()) ==> n >= 0
    {
      Quantity(cart.Contents())
    }

    /** `get_total_price()`: the sum of the `total_price` of the lines that
        iteration yields. */
    function TotalPrice(): (t: int)
      reads cart
      requires cart.Valid()
      ensures cart.records == map[] ==> t == 0
      ensures t == SumOfLineTotals(Lines(cart.Contents()))
    {
      LinesTotal(cart.Contents());
      Total(cart.Contents())
    }

    /** `clear()`: drop the cart from the session, then mark it modified.
        `keyError` reports the KeyError raised when the session holds no
        cart; `save()` is then never reached.  The cart's own dict keeps its
        records. */
    method Clear() returns (keyError: bool)
      modifies session
      ensures keyError == (CartSessionId !in old(session.data))
      ensures !keyError ==> session.data == old(session.data) - {CartSessionId} && session.modified
      ensures keyError ==> session.data == old(session.data) && session.modified == old(session.modified)
      ensures !Attached()
    {
      keyError := session.Delete(CartSessionId);
      if !keyError {
        Save();
      }
    }
  }
}
