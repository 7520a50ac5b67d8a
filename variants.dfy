/** Product variants as the cart sees them, and the key a variant is filed under.

    The cart table is keyed by `str(variant.id)`: the decimal numeral of the
    variant's database id.  This module defines that numeral, its inverse, and
    proves that two variants share a key exactly when they share an id. */
module Variants {

  /** A purchasable variant: its database id and its sale price in cents
      (`sale_price` is a decimal with two places, so cents are exact). */
  datatype Variant = Variant(id: nat, salePrice: int)

  predicate IsDigit(c: char) {
    '0' <= c <= '9'
  }

  predicate AllDigits(s: string) {
    forall i :: 0 <= i < |s| ==> IsDigit(s[i])
  }

  function DigitChar(d: nat): (c: char)
    requires d < 10
    ensures IsDigit(c)
  {
    (('0' as int) + d) as char
  }

  function DigitValue(c: char): (d: nat)
    requires IsDigit(c)
    ensures d < 10
  {
    (c as int) - ('0' as int)
  }

  /** Python's `str(n)` for a non-negative integer: the shortest decimal
      numeral, which has no leading zero unless it is "0" itself. */
  function DecimalString(n: nat): (s: string)
    ensures 1 <= |s|
    ensures AllDigits(s)
    ensures s[0] == '0' <==> n == 0
    decreases n
  {
    if n < 10 then [DigitChar(n)] else DecimalString(n / 10) + [DigitChar(n % 10)]
  }

  /** Python's `int(s)` for a string of digits. */
  function DecimalValue(s: string): nat
    requires AllDigits(s)
    decreases |s|
  {
    if s == [] then 0 else DecimalValue(s[..|s| - 1]) * 10 + DigitValue(s[|s| - 1])
  }

  /** Reading the numeral back gives the number: `int(str(n)) == n`. */
  lemma {:induction false} DecimalRoundTrip(n: nat)
    ensures DecimalValue(DecimalString(n)) == n
    decreases n
  {
    var s := DecimalString(n);
    if n < 10 {
      assert s[..|s| - 1] == [];
    } else {
      assert s[..|s| - 1] == DecimalString(n / 10);
      DecimalRoundTrip(n / 10);
    }
  }

  /** The key of a variant in the cart table: `str(variant.id)`. */
  function KeyOf(v: Variant): (k: string)
    ensures AllDigits(k) && DecimalValue(k) == v.id
  {
    DecimalRoundTrip(v.id);
    DecimalString(v.id)
  }

  /** Two variants are filed under the same key exactly when their ids agree. */
  lemma KeyInjective(v: Variant, w: Variant)
    ensures KeyOf(v) == KeyOf(w) <==> v.id == w.id
  {
    DecimalRoundTrip(v.id);
    DecimalRoundTrip(w.id);
  }
}
