/** The cart table as a value: a Python dict from variant keys to records
    `{'quantity': q, 'price': p}`, kept in insertion order because Python's
    `sum` and iteration visit a dict in that order.  The operations of the
    session cart are specified here as functions on that value. */
module CartTable {
  import opened Variants

  type Key = string

  /** One record of the table; the price is the variant's sale price in cents. */
  datatype Item = Item(quantity: int, price: int)

  /** A dict: its keys in insertion order and the record under each key. */
  datatype Entries = Entries(order: seq<Key>, records: map<Key, Item>)

  /** What iteration yields for one record: its fields and `total_price`. */
  datatype Line = Line(quantity: int, price: int, totalPrice: int)

  predicate Distinct(s: seq<Key>) {
    forall i, j :: 0 <= i < j < |s| ==> s[i] != s[j]
  }

  /** Every key of `order` has a record. */
  predicate Covers(order: seq<Key>, records: map<Key, Item>) {
    forall k :: k in order ==> k in records
  }

  /** A dict lists each of its keys exactly once. */
  predicate WellFormed(e: Entries) {
    Distinct(e.order) && Covers(e.order, e.records) && forall k :: k in e.records ==> k in e.order
  }

  const Empty: Entries := Entries([], map[])

  /** The quantity stored under `key`, 0 when there is none. */
  function QuantityAt(e: Entries, key: Key): int {
    if key in e.records then e.records[key].quantity else 0
  }

  /** The price a record under `key` carries after an add offering `price`:
      a stored price is kept, the offered one is used only for a new key. */
  function PriceAfterAdd(e: Entries, key: Key, price: int): int {
    if key in e.records then e.records[key].price else price
  }

  function QuantityOf(it: Item): int {
    it.quantity
  }

  /** `price * quantity` of one record. */
  function LineTotal(it: Item): int {
    it.price * it.quantity
  }

  function LineTotalAt(e: Entries, key: Key): int {
    if key in e.records then LineTotal(e.records[key]) else 0
  }

  // ---------------------------------------------------------------------
  // add and remove

  /** `Cart.add`: insert `{quantity: 0, price}` when the key is absent, then
      overwrite the quantity (override) or increase it by `quantity`. */
  function Added(e: Entries, key: Key, price: int, quantity: int, overrideQuantity: bool): (r: Entries)
    ensures WellFormed(e) ==> WellFormed(r)
    ensures r.records.Keys == e.records.Keys + {key}
    ensures r.order == if key in e.records then e.order else e.order + [key]
    ensures forall k :: k in e.records && k != key ==> k in r.records && r.records[k] == e.records[k]
  {
    var placed := if key in e.records then e else Entries(e.order + [key], e.records[key := Item(0, price)]);
    var rec := placed.records[key];
    var q := if overrideQuantity then quantity else rec.quantity + quantity;
    Entries(placed.order, placed.records[key := rec.(quantity := q)])
  }

  /** `order` with `key` taken out. */
  function Without(s: seq<Key>, key: Key): (r: seq<Key>)
    ensures key !in r
    ensures forall x :: x in r <==> x in s && x != key
    ensures Distinct(s) ==> Distinct(r)
    ensures key !in s ==> r == s
  {
    if s == [] then []
    else
      DistinctTail(s);
      if s[0] == key then Without(s[1..], key) else [s[0]] + Without(s[1..], key)
  }

  /** The tail of a duplicate-free sequence is duplicate-free and lacks the head. */
  lemma DistinctTail(s: seq<Key>)
    requires |s| > 0
    ensures Distinct(s) ==> Distinct(s[1..]) && s[0] !in s[1..]
  {
    if Distinct(s) {
      forall i, j | 0 <= i < j < |s[1..]| ensures s[1..][i] != s[1..][j] {
        assert s[1..][i] == s[i + 1] && s[1..][j] == s[j + 1];
      }
      forall i | 0 <= i < |s[1..]| ensures s[1..][i] != s[0] {
        assert s[1..][i] == s[i + 1];
      }
    }
  }

  /** Taking a key out of a duplicate-free order keeps every other key in place. */
  lemma {:induction false} WithoutKeepsOrder(s: seq<Key>, key: Key, i: nat)
    requires Distinct(s) && i < |s| && s[i] == key
    ensures Without(s, key) == s[..i] + s[i + 1..]
  {
    DistinctTail(s);
    var t := s[1..];
    if i == 0 {
      assert s[..0] + s[1..] == t;
    } else {
      assert t[i - 1] == key;
      assert s[0] != key by { assert s[0] == s[..i][0]; }
      WithoutKeepsOrder(t, key, i - 1);
      assert Without(s, key) == [s[0]] + Without(t, key);
      assert t[..i - 1] == s[1..i] && t[i..] == s[i + 1..];
      assert [s[0]] + s[1..i] == s[..i];
    }
  }

  /** `Cart.remove`: delete the key when present, otherwise leave the dict as it is. */
  function Removed(e: Entries, key: Key): (r: Entries)
    ensures WellFormed(e) ==> WellFormed(r)
    ensures key !in r.records
    ensures r.records == e.records - {key}
    ensures key !in e.records ==> r == e
  {
    if key in e.records then Entries(Without(e.order, key), e.records - {key}) else e
  }

  // ---------------------------------------------------------------------
  // sums, as in `sum(f(item) for item in self.cart.values())`

  function Sum(order: seq<Key>, records: map<Key, Item>, f: Item -> int): int
    requires Covers(order, records)
  {
    if order == [] then 0 else f(records[order[0]]) + Sum(order[1..], records, f)
  }

  predicate QuantitiesNonNegative(e: Entries) {
    forall k :: k in e.records ==> e.records[k].quantity >= 0
  }

  predicate PricesNonNegative(e: Entries) {
    forall k :: k in e.records ==> e.records[k].price >= 0
  }

  /** `Cart.__len__`: the sum of all quantities.  It is 0 for an empty dict,
      and never negative while no quantity is. */
  function Quantity(e: Entries): (n: int)
    requires WellFormed(e)
    ensures e.records == map[] ==> n == 0
    ensures QuantitiesNonNegative(e) ==> n >= 0
  {
    SumNonNegative(e.order, e.records, QuantityOf);
    Sum(e.order, e.records, QuantityOf)
  }

  /** `cart.get_total_price()`: the sum of `price * quantity` over all
      records.  It is 0 for an empty dict, and never negative while no
      quantity and no price is. */
  function Total(e: Entries): (t: int)
    requires WellFormed(e)
    ensures e.records == map[] ==> t == 0
    ensures QuantitiesNonNegative(e) && PricesNonNegative(e) ==> t >= 0
  {
    assert QuantitiesNonNegative(e) && PricesNonNegative(e) ==>
           forall k :: k in e.order ==> LineTotal(e.records[k]) >= 0;
    SumNonNegative(e.order, e.records, LineTotal);
    Sum(e.order, e.records, LineTotal)
  }

  /** `sys.maxsize` on a 64-bit build. */
  const MaxSize: int := 0x7FFF_FFFF_FFFF_FFFF

  /** What Python's built-in `len()` gives back: a length, or the exception
      it raises when `__len__` returns a negative number or one above
      `sys.maxsize`. */
  datatype LenResult = Length(n: nat) | ValueError | OverflowError

  /** `len(cart)`: the built-in `len()` applied to what `__len__` returns. */
  function LenOf(e: Entries): (r: LenResult)
    requires WellFormed(e)
    ensures r == ValueError <==> Quantity(e) < 0
    ensures r == OverflowError <==> Quantity(e) > MaxSize
    ensures r.Length? ==> r.n == Quantity(e)
    ensures QuantitiesNonNegative(e) && Quantity(e) <= MaxSize ==> r == Length(Quantity(e))
  {
    var n := Quantity(e);
    if n < 0 then ValueError else if n > MaxSize then OverflowError else Length(n)
  }

  /** `__iter__`: one line per key, in insertion order. */
  function LinesOf(order: seq<Key>, records: map<Key, Item>): (r: seq<Line>)
    requires Covers(order, records)
    ensures |r| == |order|
    ensures forall i :: 0 <= i < |r| ==>
              r[i].quantity == records[order[i]].quantity && r[i].price == records[order[i]].price &&
              r[i].totalPrice == r[i].price * r[i].quantity
  {
    if order == [] then []
    else
      var it := records[order[0]];
      [Line(it.quantity, it.price, LineTotal(it))] + LinesOf(order[1..], records)
  }

  function Lines(e: Entries): seq<Line>
    requires WellFormed(e)
  {
    LinesOf(e.order, e.records)
  }

  function SumOfLineTotals(lines: seq<Line>): int {
    if lines == [] then 0 else lines[0].totalPrice + SumOfLineTotals(lines[1..])
  }

  // ---------------------------------------------------------------------
  // lemmas about sums

  /** A sum of terms that are all non-negative is non-negative. */
  lemma {:induction false} SumNonNegative(order: seq<Key>, records: map<Key, Item>, f: Item -> int)
    requires Covers(order, records)
    ensures (forall k :: k in order ==> f(records[k]) >= 0) ==> Sum(order, records, f) >= 0
  {
    if order != [] {
      assert forall k :: k in order[1..] ==> k in order;
      SumNonNegative(order[1..], records, f);
    }
  }

  /** A sum reads only the records of the keys it visits. */
  lemma {:induction false} SumAgree(order: seq<Key>, r1: map<Key, Item>, r2: map<Key, Item>, f: Item -> int)
    requires Covers(order, r1) && Covers(order, r2)
    requires forall k :: k in order ==> r1[k] == r2[k]
    ensures Sum(order, r1, f) == Sum(order, r2, f)
  {
    if order != [] {
      assert forall k :: k in order[1..] ==> k in order;
      SumAgree(order[1..], r1, r2, f);
    }
  }

  lemma {:induction false} SumAppend(order: seq<Key>, records: map<Key, Item>, key: Key, f: Item -> int)
    requires Covers(order + [key], records)
    ensures Covers(order, records)
    ensures Sum(order + [key], records, f) == Sum(order, records, f) + f(records[key])
  {
    assert forall k :: k in order ==> k in order + [key];
    if order == [] {
      assert (order + [key])[1..] == [];
    } else {
      assert (order + [key])[1..] == order[1..] + [key];
      SumAppend(order[1..], records, key, f);
    }
  }

  /** Taking one key out of the visiting order takes its term out of the sum. */
  lemma {:induction false} SumWithout(order: seq<Key>, records: map<Key, Item>, key: Key, f: Item -> int)
    requires Covers(order, records) && Distinct(order) && key in order
    ensures Covers(Without(order, key), records)
    ensures Sum(order, records, f) == f(records[key]) + Sum(Without(order, key), records, f)
  {
    DistinctTail(order);
    if order[0] != key {
      assert key in order[1..] by {
        var i :| 0 <= i < |order| && order[i] == key;
        assert order[1..][i - 1] == key;
      }
      SumWithout(order[1..], records, key, f);
    }
  }

  /** Replacing the record of one listed key changes the sum by the difference of its terms. */
  lemma SumUpdate(order: seq<Key>, records: map<Key, Item>, key: Key, item: Item, f: Item -> int)
    requires Covers(order, records) && Distinct(order) && key in order
    ensures Sum(order, records[key := item], f) == Sum(order, records, f) - f(records[key]) + f(item)
  {
    SumWithout(order, records, key, f);
    SumWithout(order, records[key := item], key, f);
    SumAgree(Without(order, key), records, records[key := item], f);
  }

  /** The sum over a dict does not depend on the order its keys were inserted in. */
  lemma {:induction false} SumOrderIndependent(o1: seq<Key>, o2: seq<Key>, records: map<Key, Item>, f: Item -> int)
    requires Distinct(o1) && Distinct(o2) && Covers(o1, records)
    requires forall k :: k in o1 <==> k in o2
    ensures Covers(o2, records)
    ensures Sum(o1, records, f) == Sum(o2, records, f)
    decreases |o1|
  {
    if o1 != [] {
      var k := o1[0];
      DistinctTail(o1);
      assert forall x :: x in o1[1..] <==> x in o1 && x != k;
      SumWithout(o2, records, k, f);
      SumOrderIndependent(o1[1..], Without(o2, k), records, f);
    }
  }

  /** How an add changes any sum: the old term of the key (if any) is replaced by the new one. */
  lemma SumAdded(e: Entries, key: Key, price: int, quantity: int, overrideQuantity: bool, f: Item -> int)
    requires WellFormed(e)
    ensures var r := Added(e, key, price, quantity, overrideQuantity);
            Sum(r.order, r.records, f)
            == Sum(e.order, e.records, f) - (if key in e.records then f(e.records[key]) else 0) + f(r.records[key])
  {
    var r := Added(e, key, price, quantity, overrideQuantity);
    if key in e.records {
      SumUpdate(e.order, e.records, key, r.records[key], f);
    } else {
      SumAppend(e.order, r.records, key, f);
      SumAgree(e.order, e.records, r.records, f);
    }
  }

  /** How a remove changes any sum: the term of the key (if any) drops out. */
  lemma SumRemoved(e: Entries, key: Key, f: Item -> int)
    requires WellFormed(e)
    ensures var r := Removed(e, key);
            Sum(r.order, r.records, f)
            == Sum(e.order, e.records, f) - (if key in e.records then f(e.records[key]) else 0)
  {
    if key in e.records {
      SumWithout(e.order, e.records, key, f);
      SumAgree(Without(e.order, key), e.records, e.records - {key}, f);
    }
  }

  // ---------------------------------------------------------------------
  // what add does to the record of its own key

  /** A variant not yet in the cart gets one record holding the added
      quantity and the offered price, with or without override. */
  lemma AddNewKey(e: Entries, key: Key, price: int, quantity: int, overrideQuantity: bool)
    requires key !in e.records
    ensures var r := Added(e, key, price, quantity, overrideQuantity);
            r.records[key] == Item(quantity, price) && r.order == e.order + [key]
  {
  }

  /** Without override, an add on a present key raises its quantity by
      exactly the added amount, keeps its stored price and keeps the order. */
  lemma AddExistingKey(e: Entries, key: Key, price: int, quantity: int)
    requires key in e.records
    ensures var r := Added(e, key, price, quantity, false);
            r.records[key] == Item(e.records[key].quantity + quantity, e.records[key].price) && r.order == e.order
  {
  }

  /** With override, the quantity becomes exactly the given value whatever it was. */
  lemma AddOverride(e: Entries, key: Key, price: int, quantity: int)
    ensures var r := Added(e, key, price, quantity, true);
            r.records[key] == Item(quantity, PriceAfterAdd(e, key, price))
  {
  }

  /** Add and remove leave the record of every other variant as it was. */
  lemma OtherVariantsUnchanged(e: Entries, v: Variant, w: Variant, quantity: int, overrideQuantity: bool)
    requires v.id != w.id
    ensures var a := Added(e, KeyOf(v), v.salePrice, quantity, overrideQuantity);
            (KeyOf(w) in a.records <==> KeyOf(w) in e.records) &&
            (KeyOf(w) in e.records ==> a.records[KeyOf(w)] == e.records[KeyOf(w)])
    ensures var d := Removed(e, KeyOf(v));
            (KeyOf(w) in d.records <==> KeyOf(w) in e.records) &&
            (KeyOf(w) in e.records ==> d.records[KeyOf(w)] == e.records[KeyOf(w)])
  {
    KeyInjective(v, w);
  }

  /** Removing a present key keeps every other key where it was in the
      insertion order, so iteration shows them in the same order as before. */
  lemma RemoveKeepsOrder(e: Entries, key: Key, i: nat)
    requires WellFormed(e) && i < |e.order| && e.order[i] == key
    ensures Removed(e, key).order == e.order[..i] + e.order[i + 1..]
  {
    WithoutKeepsOrder(e.order, key, i);
  }

  /** Removing twice is removing once. */
  lemma RemoveIdempotent(e: Entries, key: Key)
    ensures Removed(Removed(e, key), key) == Removed(e, key)
  {
  }

  // ---------------------------------------------------------------------
  // len(cart) and get_total_price()

  lemma EmptyTotals()
    ensures WellFormed(Empty) && Quantity(Empty) == 0 && Total(Empty) == 0 && Lines(Empty) == []
  {
  }

  /** `len(cart)` after an add: up by `quantity`, or, with override, the old
      quantity of the key replaced by `quantity`. */
  lemma AddedQuantity(e: Entries, key: Key, price: int, quantity: int, overrideQuantity: bool)
    requires WellFormed(e)
    ensures Quantity(Added(e, key, price, quantity, overrideQuantity))
            == Quantity(e) - (if overrideQuantity then QuantityAt(e, key) else 0) + quantity
  {
    SumAdded(e, key, price, quantity, overrideQuantity, QuantityOf);
  }

  /** `get_total_price()` after an add: up by `quantity` times the kept price,
      or, with override, the old line total of the key replaced. */
  lemma AddedTotal(e: Entries, key: Key, price: int, quantity: int, overrideQuantity: bool)
    requires WellFormed(e)
    ensures Total(Added(e, key, price, quantity, overrideQuantity))
            == Total(e) - (if overrideQuantity then LineTotalAt(e, key) else 0) + PriceAfterAdd(e, key, price) * quantity
  {
    SumAdded(e, key, price, quantity, overrideQuantity, LineTotal);
    if key in e.records && !overrideQuantity {
      var p, q := e.records[key].price, e.records[key].quantity;
      assert Added(e, key, price, quantity, false).records[key] == Item(q + quantity, p);
      assert p * (q + quantity) == p * q + p * quantity;
    }
  }

  /** `len(cart)` after a remove: down by the removed quantity (0 if absent). */
  lemma RemovedQuantity(e: Entries, key: Key)
    requires WellFormed(e)
    ensures Quantity(Removed(e, key)) == Quantity(e) - QuantityAt(e, key)
  {
    SumRemoved(e, key, QuantityOf);
  }

  /** `get_total_price()` after a remove: down by the removed line total. */
  lemma RemovedTotal(e: Entries, key: Key)
    requires WellFormed(e)
    ensures Total(Removed(e, key)) == Total(e) - LineTotalAt(e, key)
  {
    SumRemoved(e, key, LineTotal);
  }

  /** `add` does not check its quantity, so one negative add makes
      `len(cart)` raise ValueError. */
  lemma NegativeAddMakesLenRaise(key: Key, price: int, quantity: int, overrideQuantity: bool)
    requires quantity < 0
    ensures LenOf(Added(Empty, key, price, quantity, overrideQuantity)) == ValueError
  {
    AddedQuantity(Empty, key, price, quantity, overrideQuantity);
  }

  /** Two dicts with the same records have the same length and total, in
      whatever order their keys were inserted. */
  lemma TotalsDependOnlyOnRecords(e1: Entries, e2: Entries)
    requires WellFormed(e1) && WellFormed(e2) && e1.records == e2.records
    ensures Quantity(e1) == Quantity(e2) && Total(e1) == Total(e2)
  {
    SumOrderIndependent(e1.order, e2.order, e1.records, QuantityOf);
    SumOrderIndependent(e1.order, e2.order, e1.records, LineTotal);
  }

  /** The line totals that iteration yields add up to `get_total_price()`. */
  lemma {:induction false} LinesSumToTotal(order: seq<Key>, records: map<Key, Item>)
    requires Covers(order, records)
    ensures SumOfLineTotals(LinesOf(order, records)) == Sum(order, records, LineTotal)
  {
    if order != [] {
      assert forall k :: k in order[1..] ==> k in order;
      var ls := LinesOf(order, records);
      assert ls[1..] == LinesOf(order[1..], records);
      LinesSumToTotal(order[1..], records);
    }
  }

  lemma LinesTotal(e: Entries)
    requires WellFormed(e)
    ensures |Lines(e)| == |e.order|
    ensures SumOfLineTotals(Lines(e)) == Total(e)
  {
    LinesSumToTotal(e.order, e.records);
  }
}
