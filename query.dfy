/** The month filter and the free-text search of the transaction queries. */
module Query {
  import opened Text
  import opened Store

  /** The pattern every query matches the sale date against: the month
      between dashes. */
  function MonthPattern(month: string): string
  {
    "-" + month + "-"
  }

  /** Month filter of the statistics and chart views: the sale date's text
      contains the month between dashes, in whatever year. */
  predicate InMonth(t: Transaction, month: string): (selected: bool)
    ensures selected <==> Occurs(t.dateOfSale, "-" + month + "-")
  {
    Contains(t.dateOfSale, MonthPattern(month))
  }

  /** Month filter of the listing, which matches the same pattern ignoring case. */
  predicate InMonthIgnoringCase(t: Transaction, month: string): (selected: bool)
    ensures selected <==> Occurs(Lower(t.dateOfSale), Lower("-" + month + "-"))
  {
    ContainsIgnoringCase(t.dateOfSale, MonthPattern(month))
  }

  /** Search of the listing: the text occurs, ignoring case, in the title,
      in the description or in the price's text. */
  predicate MatchesSearch(t: Transaction, search: string): (matched: bool)
    ensures matched <==>
      || Occurs(Lower(t.title), Lower(search))
      || Occurs(Lower(t.description), Lower(search))
      || Occurs(Lower(PriceText(t.price)), Lower(search))
  {
    || ContainsIgnoringCase(t.title, search)
    || ContainsIgnoringCase(t.description, search)
    || ContainsIgnoringCase(PriceText(t.price), search)
  }

  /** The records the statistics and both charts reduce: the month filter only. */
  function MonthSet(store: seq<Transaction>, month: string): (selected: seq<Transaction>)
    ensures |selected| <= |store|
    ensures forall t :: t in selected <==> t in store && InMonth(t, month)
  {
    Find(store, t => InMonth(t, month))
  }

  /** The records the listing counts and pages: month filter and search together. */
  function Listed(store: seq<Transaction>, month: string, search: string): (listed: seq<Transaction>)
    ensures |listed| <= |store|
    ensures forall t :: t in listed <==> t in store && InMonthIgnoringCase(t, month) && MatchesSearch(t, search)
  {
    Find(store, t => InMonthIgnoringCase(t, month) && MatchesSearch(t, search))
  }

  /** The empty search, the default, matches every record. */
  lemma EmptySearchMatchesAll(t: Transaction)
    ensures MatchesSearch(t, "")
  {
  }

  /** A month written without letters ("05") selects the same records in the
      listing as in the aggregate views, even though only the listing ignores case. */
  lemma LetterFreeMonthIgnoresCase(t: Transaction, month: string)
    requires forall k :: 0 <= k < |month| ==> !IsLetter(month[k])
    ensures InMonthIgnoringCase(t, month) == InMonth(t, month)
  {
    var pattern := MonthPattern(month);
    forall k | 0 <= k < |pattern|
      ensures !IsLetter(pattern[k])
    {
      if 0 < k < |pattern| - 1 {
        assert pattern[k] == month[k - 1];
      }
    }
    LetterFreeIgnoresCase(t.dateOfSale, pattern);
  }

  /** For a month without letters, the listing is the month set narrowed by
      the search, in the same order. */
  lemma {:induction false} ListedIsSearchWithinMonth(store: seq<Transaction>, month: string, search: string)
    requires forall k :: 0 <= k < |month| ==> !IsLetter(month[k])
    ensures Listed(store, month, search) == Find(MonthSet(store, month), t => MatchesSearch(t, search))
  {
    var inMonth := t => InMonth(t, month);
    var bySearch := t => MatchesSearch(t, search);
    FindFind(store, inMonth, bySearch);
    forall t | t in store
      ensures (InMonthIgnoringCase(t, month) && MatchesSearch(t, search)) == (inMonth(t) && bySearch(t))
    {
      LetterFreeMonthIgnoresCase(t, month);
    }
    FindCongruent(store, t => InMonthIgnoringCase(t, month) && MatchesSearch(t, search), t => inMonth(t) && bySearch(t));
  }

  /** For a month without letters and the default empty search, the listing
      pages through exactly the records the aggregate views reduce. */
  lemma {:induction false} EmptySearchListsMonthSet(store: seq<Transaction>, month: string)
    requires forall k :: 0 <= k < |month| ==> !IsLetter(month[k])
    ensures Listed(store, month, "") == MonthSet(store, month)
  {
    forall t | t in store
      ensures (InMonthIgnoringCase(t, month) && MatchesSearch(t, "")) == InMonth(t, month)
    {
      LetterFreeMonthIgnoresCase(t, month);
      EmptySearchMatchesAll(t);
    }
    FindCongruent(store, t => InMonthIgnoringCase(t, month) && MatchesSearch(t, ""), t => InMonth(t, month));
  }

  /** A sale date written "YYYY-MM-DD" followed by a time without dashes. */
  predicate IsIsoDate(text: string)
  {
    && |text| >= 10
    && (forall k :: 0 <= k < 4 ==> IsDigit(text[k]))
    && text[4] == '-' && IsDigit(text[5]) && IsDigit(text[6])
    && text[7] == '-' && IsDigit(text[8]) && IsDigit(text[9])
    && (forall k :: 10 <= k < |text| ==> text[k] != '-')
  }

  /** On such a date the month filter selects exactly the records sold in
      the given month, of any year, and only a two-character month can match:
      "5" selects nothing, "05" selects May. */
  lemma IsoDateMonth(t: Transaction, month: string)
    requires IsIsoDate(t.dateOfSale)
    ensures InMonth(t, month) <==> |month| == 2 && t.dateOfSale[5..7] == month
  {
    var text, pattern := t.dateOfSale, MonthPattern(month);
    var n := |pattern|;
    if Occurs(text, pattern) {
      var i :| OccursAt(text, pattern, i);
      var found := text[i..i + n];
      assert found == pattern;
      assert text[i] == found[0] == '-';
      assert text[i + n - 1] == found[n - 1] == '-';
      IsoDateDashes(text, i);
      IsoDateDashes(text, i + n - 1);
      assert month == pattern[1..3] == found[1..3] == text[5..7];
    }
    if |month| == 2 && text[5..7] == month {
      assert text[4..8] == pattern;
      assert OccursAt(text, pattern, 4);
    }
  }

  /** The only dashes of such a date are the two around the month. */
  lemma IsoDateDashes(text: string, j: int)
    requires IsIsoDate(text) && 0 <= j < |text| && text[j] == '-'
    ensures j == 4 || j == 7
  {
  }

  /** Where every sale date is written "YYYY-MM-DD", a month that is not two
      characters long ("5" for May) selects no record at all. */
  lemma IsoDatesNeedTwoDigitMonth(store: seq<Transaction>, month: string)
    requires forall t :: t in store ==> IsIsoDate(t.dateOfSale)
    requires |month| != 2
    ensures MonthSet(store, month) == []
  {
    var selected := MonthSet(store, month);
    if selected != [] {
      var t := selected[0];
      assert t in selected;
      IsoDateMonth(t, month);
    }
  }
}
