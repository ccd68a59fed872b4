/** The transaction records and the store's retrieval by predicate. */
module Store {
  import opened Text

  /** Hundredths of the currency unit in one unit: prices are kept exactly,
      in hundredths, instead of as floating-point numbers. */
  const Unit: int := 100

  /** One sale record, with the fields of the transaction schema. `price` is
      in hundredths of the currency unit; `dateOfSale` is the text of the
      sale date as the month pattern is matched against it. */
  datatype Transaction = Transaction(
    id: int,
    title: string,
    price: int,
    description: string,
    dateOfSale: string,
    category: string,
    sold: bool)

  /** The text of a price as JavaScript writes a number with at most two
      decimals: no trailing zeros in the fraction, no point for a whole
      number, a leading '-' for a negative one. */
  function PriceText(price: int): (text: string)
    ensures |text| >= 1 && (text[0] == '-' <==> price < 0)
    ensures IsDigit(text[|text| - 1])
  {
    if price < 0 then "-" + UnsignedPriceText(-price) else UnsignedPriceText(price)
  }

  function UnsignedPriceText(magnitude: nat): (text: string)
    ensures |text| >= 1 && IsDigit(text[0]) && IsDigit(text[|text| - 1])
  {
    NatText(magnitude / Unit) + Decimals(magnitude % Unit)
  }

  /** The fraction part of a price in hundredths: nothing for a whole price,
      else a point and one or two digits, without a trailing zero. */
  function Decimals(fraction: nat): (text: string)
    requires fraction < Unit
    ensures text == [] <==> fraction == 0
    ensures text != [] ==> |text| >= 2 && text[0] == '.' && IsDigit(text[|text| - 1])
  {
    if fraction == 0 then ""
    else if fraction % 10 == 0 then "." + [DigitChar(fraction / 10)]
    else "." + [DigitChar(fraction / 10), DigitChar(fraction % 10)]
  }

  /** A fraction of one significant decimal is written with that decimal
      only: 12.50 is written "12.5". */
  lemma OneDecimal(tenths: nat)
    requires 1 <= tenths <= 9
    ensures Decimals(10 * tenths) == "." + [DigitChar(tenths)]
  {
    assert (10 * tenths) / 10 == tenths;
  }

  /** A fraction whose hundredths digit is not zero is written with two decimals. */
  lemma TwoDecimals(tenths: nat, hundredths: nat)
    requires tenths <= 9 && 1 <= hundredths <= 9
    ensures Decimals(10 * tenths + hundredths) == "." + [DigitChar(tenths), DigitChar(hundredths)]
  {
    var fraction := 10 * tenths + hundredths;
    assert fraction / 10 == tenths && fraction % 10 == hundredths;
  }

  /** A price in hundredths is written as its whole units, then its
      fraction: a whole price (fraction 0) as its integer digits alone. */
  lemma SplitPrice(n: nat, fraction: nat)
    requires fraction < Unit
    ensures PriceText(n * Unit + fraction) == NatText(n) + Decimals(fraction)
  {
    var p := n * Unit + fraction;
    var q, r := p / Unit, p % Unit;
    assert p >= 0;
    assert p == q * Unit + r && 0 <= r < Unit;
    assert (q - n) * Unit == fraction - r;
    assert q == n && r == fraction;
  }

  /** A negative price is the text of its magnitude after a minus sign. */
  lemma PriceTextNegative(price: int)
    requires price > 0
    ensures PriceText(-price) == "-" + PriceText(price)
  {
  }

  /** The records of `store` that satisfy `p`, in the store's natural order:
      what `find` returns for a query. */
  function Find(store: seq<Transaction>, p: Transaction -> bool): (found: seq<Transaction>)
    ensures |found| <= |store|
    ensures forall t :: t in found <==> t in store && p(t)
  {
    if store == [] then []
    else
      var rest := Find(store[..|store| - 1], p);
      var last := store[|store| - 1];
      assert store == store[..|store| - 1] + [last];
      if p(last) then rest + [last] else rest
  }

  /** Retrieval keeps the store's order: the matches of two consecutive parts
      of the store are the matches of the first followed by those of the second. */
  lemma {:induction false} FindAppend(s1: seq<Transaction>, s2: seq<Transaction>, p: Transaction -> bool)
    ensures Find(s1 + s2, p) == Find(s1, p) + Find(s2, p)
    decreases |s2|
  {
    if s2 != [] {
      var init, last := s2[..|s2| - 1], s2[|s2| - 1];
      assert (s1 + s2)[..|s1 + s2| - 1] == s1 + init;
      assert (s1 + s2)[|s1 + s2| - 1] == last;
      FindAppend(s1, init, p);
      if p(last) {
        assert Find(s1, p) + Find(init, p) + [last] == Find(s1, p) + (Find(init, p) + [last]);
      }
    } else {
      assert s1 + s2 == s1;
    }
  }

  /** Two queries that agree on every stored record retrieve the same records. */
  lemma {:induction false} FindCongruent(store: seq<Transaction>, p: Transaction -> bool, q: Transaction -> bool)
    requires forall t :: t in store ==> p(t) == q(t)
    ensures Find(store, p) == Find(store, q)
    decreases |store|
  {
    if store != [] {
      var init := store[..|store| - 1];
      assert forall t :: t in init ==> t in store;
      FindCongruent(init, p, q);
    }
  }

  /** Retrieving with `q` from what `p` retrieved is retrieving with both. */
  lemma {:induction false} FindFind(store: seq<Transaction>, p: Transaction -> bool, q: Transaction -> bool)
    ensures Find(Find(store, p), q) == Find(store, t => p(t) && q(t))
    decreases |store|
  {
    if store != [] {
      var init := store[..|store| - 1];
      var last := store[|store| - 1];
      FindFind(init, p, q);
      if p(last) {
        var inner := Find(init, p);
        assert (inner + [last])[..|inner + [last]| - 1] == inner;
      }
    }
  }
}
