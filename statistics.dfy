/** The sales statistics of one month: revenue from sold records, and the
    sold and unsold counts. */
module Statistics {
  import opened Store
  import opened Query

  datatype Statistics = Statistics(totalSaleAmount: int, totalSoldItems: nat, totalNotSoldItems: nat)

  predicate IsSold(t: Transaction) { t.sold }

  predicate IsNotSold(t: Transaction) { !t.sold }

  /** The revenue reduction: a running sum from the left, starting at 0, that
      adds a record's price only when the record is sold. */
  function SaleAmount(s: seq<Transaction>): (total: int)
    ensures (forall t :: t in s ==> !t.sold) ==> total == 0
  {
    if s == [] then 0
    else
      var sum := SaleAmount(s[..|s| - 1]);
      var item := s[|s| - 1];
      assert forall t :: t in s[..|s| - 1] ==> t in s;
      if item.sold then sum + item.price else sum
  }

  /** Independent reference: the number of sold records. */
  function CountSold(s: seq<Transaction>): nat
  {
    if s == [] then 0 else CountSold(s[..|s| - 1]) + (if s[|s| - 1].sold then 1 else 0)
  }

  /** Independent reference: the number of unsold records. */
  function CountUnsold(s: seq<Transaction>): nat
  {
    if s == [] then 0 else CountUnsold(s[..|s| - 1]) + (if s[|s| - 1].sold then 0 else 1)
  }

  /** Independent reference: the plain sum of the prices of a sequence. */
  function SumPrices(s: seq<Transaction>): int
  {
    if s == [] then 0 else s[0].price + SumPrices(s[1..])
  }

  /** The statistics of the records of `month` (the search never applies). */
  function GetStatistics(store: seq<Transaction>, month: string): (r: Statistics)
    ensures r.totalSoldItems == CountSold(MonthSet(store, month))
    ensures r.totalNotSoldItems == CountUnsold(MonthSet(store, month))
    ensures r.totalSoldItems + r.totalNotSoldItems == |MonthSet(store, month)|
    ensures r.totalSaleAmount == SumPrices(Find(MonthSet(store, month), IsSold))
    ensures MonthSet(store, month) == [] ==> r == Statistics(0, 0, 0)
  {
    var transactions := MonthSet(store, month);
    SoldSplit(transactions);
    SoldCountsAreCounts(transactions);
    SaleAmountIsSoldPrices(transactions);
    Statistics(
      SaleAmount(transactions),
      |Find(transactions, IsSold)|,
      |Find(transactions, IsNotSold)|)
  }

  /** Every record is either sold or unsold: the two counts add up to the
      size of the set. */
  lemma {:induction false} SoldSplit(s: seq<Transaction>)
    ensures |Find(s, IsSold)| + |Find(s, IsNotSold)| == |s|
  {
    if s != [] {
      SoldSplit(s[..|s| - 1]);
    }
  }

  /** The two filters of the handler count the sold and the unsold records. */
  lemma {:induction false} SoldCountsAreCounts(s: seq<Transaction>)
    ensures |Find(s, IsSold)| == CountSold(s)
    ensures |Find(s, IsNotSold)| == CountUnsold(s)
  {
    if s != [] {
      SoldCountsAreCounts(s[..|s| - 1]);
    }
  }

  lemma {:induction false} SumPricesAppend(s1: seq<Transaction>, s2: seq<Transaction>)
    ensures SumPrices(s1 + s2) == SumPrices(s1) + SumPrices(s2)
  {
    if s1 != [] {
      assert (s1 + s2)[1..] == s1[1..] + s2;
      SumPricesAppend(s1[1..], s2);
    } else {
      assert s1 + s2 == s2;
    }
  }

  /** The revenue is the sum of the prices of the sold records and of no
      others. */
  lemma {:induction false} SaleAmountIsSoldPrices(s: seq<Transaction>)
    ensures SaleAmount(s) == SumPrices(Find(s, IsSold))
  {
    if s != [] {
      var init, last := s[..|s| - 1], s[|s| - 1];
      SaleAmountIsSoldPrices(init);
      if last.sold {
        SumPricesAppend(Find(init, IsSold), [last]);
      }
    }
  }

  /** Unsold records add nothing wherever they stand: the revenue of two
      parts of a sequence joined around an unsold record is that of the two
      parts. */
  lemma UnsoldAddsNothing(s1: seq<Transaction>, t: Transaction, s2: seq<Transaction>)
    requires !t.sold
    ensures SaleAmount(s1 + [t] + s2) == SaleAmount(s1 + s2)
  {
    SaleAmountIsSoldPrices(s1 + [t] + s2);
    SaleAmountIsSoldPrices(s1 + s2);
    FindAppend(s1 + [t], s2, IsSold);
    FindAppend(s1, [t], IsSold);
    FindAppend(s1, s2, IsSold);
    assert Find([t], IsSold) == [];
  }

  /** With non-negative prices the revenue is never negative and never
      exceeds the sum of all prices. */
  lemma {:induction false} SaleAmountBounds(s: seq<Transaction>)
    requires forall t :: t in s ==> t.price >= 0
    ensures 0 <= SaleAmount(s) <= SumPrices(s)
  {
    if s != [] {
      var init, last := s[..|s| - 1], s[|s| - 1];
      assert forall t :: t in init ==> t in s;
      SaleAmountBounds(init);
      assert s == init + [last];
      SumPricesAppend(init, [last]);
    }
  }
}
