/** A worked example: two May records of different years, one sold for 50
    in category "A", one unsold for 150 in category "B". */
module Scenario {
  import opened Store
  import opened Query
  import opened Pagination
  import opened Listing
  import opened Statistics
  import opened BarChart
  import opened PieChart

  function SoldInMay(): Transaction
  {
    Transaction(1, "Shirt", 50 * Unit, "cotton", "2024-05-01", "A", true)
  }

  function UnsoldInMay(): Transaction
  {
    Transaction(2, "Jacket", 150 * Unit, "wool", "2023-05-10", "B", false)
  }

  function Example(): seq<Transaction>
  {
    [SoldInMay(), UnsoldInMay()]
  }

  lemma SaleDatesAreIso()
    ensures IsIsoDate(SoldInMay().dateOfSale) && SoldInMay().dateOfSale[5..7] == "05"
    ensures IsIsoDate(UnsoldInMay().dateOfSale) && UnsoldInMay().dateOfSale[5..7] == "05"
  {
  }

  lemma MaySelectsBoth()
    ensures MonthSet(Example(), "05") == Example()
  {
    SaleDatesAreIso();
    IsoDateMonth(SoldInMay(), "05");
    IsoDateMonth(UnsoldInMay(), "05");
    assert Example()[..1] == [SoldInMay()];
    assert [SoldInMay()][..0] == [];
  }

  /** For month "05" the statistics count one sold and one unsold record and
      50 of revenue. */
  lemma MayStatistics()
    ensures GetStatistics(Example(), "05") == Statistics(50 * Unit, 1, 1)
  {
    MaySelectsBoth();
    assert Example()[..1] == [SoldInMay()];
    assert [SoldInMay()][..0] == [];
    assert Find(Example(), IsSold) == [SoldInMay()];
  }

  /** Each of the two lowest price bands counts one record, the others none. */
  lemma MayBands()
    ensures forall k :: 0 <= k < BandCount ==>
      CountInBand(MonthSet(Example(), "05"), k) == if k < 2 then 1 else 0
  {
    MaySelectsBoth();
    assert Example()[..1] == [SoldInMay()];
    assert Band(SoldInMay().price) == 0 && Band(UnsoldInMay().price) == 1;
    forall k | 0 <= k < BandCount
      ensures CountInBand(Example(), k) == if k < 2 then 1 else 0
    {
      assert CountInBand([SoldInMay()], k) == if k == 0 then 1 else 0;
    }
  }

  /** Each category counts one record. */
  lemma MayCategories()
    ensures CategoryCounts(MonthSet(Example(), "05")) == map["A" := 1, "B" := 1]
  {
    MaySelectsBoth();
    assert Categories(Example()) == {"A", "B"};
    assert CategoryCount(Example(), "A") == 1;
    assert CategoryCount(Example(), "B") == 1;
  }

  /** The first page of one record holds the sold one, of two pages. */
  lemma MayFirstPage()
    ensures GetTransactions(Example(), "05", "", 1, 1) == Ok(Page([SoldInMay()], 2))
  {
    MaySelectsBoth();
    EmptySearchListsMonthSet(Example(), "05");
  }

  /** The month written "5" matches none of the example's dates: the
      statistics are all zero. */
  lemma SingleDigitMonthSelectsNothing()
    ensures MonthSet(Example(), "5") == []
    ensures GetStatistics(Example(), "5") == Statistics(0, 0, 0)
  {
    SaleDatesAreIso();
    IsoDatesNeedTwoDigitMonth(Example(), "5");
  }
}
