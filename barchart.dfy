/** The price histogram of one month: ten fixed bands with inclusive upper
    bounds, counted by incrementing one counter per record. */
module BarChart {
  import opened Store
  import opened Query

  /** The band labels, in the order the chart lists them. */
  const Labels: seq<string> := [
    "0-100", "101-200", "201-300", "301-400", "401-500",
    "501-600", "601-700", "701-800", "801-900", "901-above"]

  const BandCount: nat := 10

  /** Inclusive upper bound of each band but the last, in hundredths:
      100, 200, ... 900 currency units. */
  function UpperBound(band: nat): int
  {
    (band + 1) * 100 * Unit
  }

  /** The band a price falls in: the first whose upper bound it does not
      exceed, and the open last band above 900. */
  function Band(price: int): (band: nat)
    ensures band < BandCount
    ensures band < BandCount - 1 ==> price <= UpperBound(band)
    ensures band > 0 ==> price > UpperBound(band - 1)
  {
    if price <= 100 * Unit then 0
    else if price <= 200 * Unit then 1
    else if price <= 300 * Unit then 2
    else if price <= 400 * Unit then 3
    else if price <= 500 * Unit then 4
    else if price <= 600 * Unit then 5
    else if price <= 700 * Unit then 6
    else if price <= 800 * Unit then 7
    else if price <= 900 * Unit then 8
    else 9
  }

  /** A higher price never falls in a lower band. */
  lemma BandMonotone(p: int, q: int)
    requires p <= q
    ensures Band(p) <= Band(q)
  {
  }

  /** The bands are disjoint: a price lies within the bounds of one band only,
      the one `Band` names. */
  lemma BandUnique(price: int, band: nat)
    requires band < BandCount
    requires band < BandCount - 1 ==> price <= UpperBound(band)
    requires band > 0 ==> price > UpperBound(band - 1)
    ensures Band(price) == band
  {
  }

  lemma LabelsDistinct()
    ensures forall j, k :: 0 <= j < k < BandCount ==> Labels[j] != Labels[k]
  {
  }

  /** The keys of `chart` are exactly the band labels. */
  ghost predicate HasLabels(chart: map<string, nat>)
  {
    forall name :: name in chart <==> name in Labels
  }

  /** Every label of `chart` holds the number of records of `s` in its band. */
  predicate HoldsCounts(chart: map<string, nat>, s: seq<Transaction>)
  {
    forall k :: 0 <= k < BandCount ==> Labels[k] in chart && chart[Labels[k]] == CountInBand(s, k)
  }

  /** Incrementing the counter of a record's band turns the counts of `s`
      into those of `s` followed by the record. */
  lemma CountStep(chart: map<string, nat>, s: seq<Transaction>, t: Transaction)
    requires HoldsCounts(chart, s)
    ensures HoldsCounts(chart[Labels[Band(t.price)] := chart[Labels[Band(t.price)]] + 1], s + [t])
  {
    var band := Band(t.price);
    LabelsDistinct();
    assert (s + [t])[..|s + [t]| - 1] == s;
    forall k | 0 <= k < BandCount
      ensures CountInBand(s + [t], k) == CountInBand(s, k) + (if k == band then 1 else 0)
    {
    }
  }

  /** The loop step of the histogram: counting record `i` extends the
      counts of the records before it to the records up to it. */
  lemma CountNext(before: map<string, nat>, after: map<string, nat>, s: seq<Transaction>, i: nat)
    requires i < |s| && HasLabels(before) && HoldsCounts(before, s[..i])
    requires after == before[Labels[Band(s[i].price)] := before[Labels[Band(s[i].price)]] + 1]
    ensures HasLabels(after) && HoldsCounts(after, s[..i + 1])
  {
    assert s[..i + 1] == s[..i] + [s[i]];
    CountStep(before, s[..i], s[i]);
  }

  /** Number of records of `s` whose price falls in `band`. */
  function CountInBand(s: seq<Transaction>, band: nat): nat
  {
    if s == [] then 0
    else CountInBand(s[..|s| - 1], band) + (if Band(s[|s| - 1].price) == band then 1 else 0)
  }

  /** Sum of the counts of bands 0 to `n` - 1. */
  function SumBands(s: seq<Transaction>, n: nat): nat
  {
    if n == 0 then 0 else SumBands(s, n - 1) + CountInBand(s, n - 1)
  }

  /** Sum of the counters of the chart for the first `n` labels. */
  function ChartTotal(chart: map<string, nat>, n: nat): nat
    requires n <= BandCount
    requires forall k :: 0 <= k < BandCount ==> Labels[k] in chart
  {
    if n == 0 then 0 else ChartTotal(chart, n - 1) + chart[Labels[n - 1]]
  }

  /** The histogram before any record is counted: every label at 0. */
  function ZeroChart(): (chart: map<string, nat>)
    ensures HasLabels(chart)
    ensures forall name :: name in chart ==> chart[name] == 0
  {
    map[
      "0-100" := 0, "101-200" := 0, "201-300" := 0, "301-400" := 0, "401-500" := 0,
      "501-600" := 0, "601-700" := 0, "701-800" := 0, "801-900" := 0, "901-above" := 0]
  }

  /** The zero chart holds the counts of no record. */
  lemma ZeroChartCountsNothing(chart: map<string, nat>, s: seq<Transaction>)
    requires chart == ZeroChart()
    ensures HoldsCounts(chart, s[..0])
  {
    assert s[..0] == [];
  }

  /** The histogram of the records of `month` (the search never applies):
      every label present, each counting the records priced in its band, and
      the counts together counting every record once. */
  method GetBarChartData(store: seq<Transaction>, month: string) returns (priceRanges: map<string, nat>)
    ensures HasLabels(priceRanges)
    ensures forall k :: 0 <= k < BandCount ==> priceRanges[Labels[k]] == CountInBand(MonthSet(store, month), k)
    ensures ChartTotal(priceRanges, BandCount) == |MonthSet(store, month)|
  {
    priceRanges := ZeroChart();
    var transactions := MonthSet(store, month);
    ZeroChartCountsNothing(priceRanges, transactions);
    for i := 0 to |transactions|
      invariant HasLabels(priceRanges)
      invariant HoldsCounts(priceRanges, transactions[..i])
    {
      ghost var before := priceRanges;
      priceRanges := CountPrice(priceRanges, transactions[i].price);
      CountNext(before, priceRanges, transactions, i);
    }
    assert transactions[..|transactions|] == transactions;
    ChartTotalIsSize(priceRanges, transactions);
  }

  /** The per-record step of the histogram: increment the counter of the
      band the price falls in, and no other. */
  method CountPrice(priceRanges: map<string, nat>, price: int) returns (next: map<string, nat>)
    requires forall name :: name in Labels ==> name in priceRanges
    ensures next == priceRanges[Labels[Band(price)] := priceRanges[Labels[Band(price)]] + 1]
  {
    if price <= 100 * Unit { next := priceRanges["0-100" := priceRanges["0-100"] + 1]; }
    else if price <= 200 * Unit { next := priceRanges["101-200" := priceRanges["101-200"] + 1]; }
    else if price <= 300 * Unit { next := priceRanges["201-300" := priceRanges["201-300"] + 1]; }
    else if price <= 400 * Unit { next := priceRanges["301-400" := priceRanges["301-400"] + 1]; }
    else if price <= 500 * Unit { next := priceRanges["401-500" := priceRanges["401-500"] + 1]; }
    else if price <= 600 * Unit { next := priceRanges["501-600" := priceRanges["501-600"] + 1]; }
    else if price <= 700 * Unit { next := priceRanges["601-700" := priceRanges["601-700"] + 1]; }
    else if price <= 800 * Unit { next := priceRanges["701-800" := priceRanges["701-800"] + 1]; }
    else if price <= 900 * Unit { next := priceRanges["801-900" := priceRanges["801-900"] + 1]; }
    else { next := priceRanges["901-above" := priceRanges["901-above"] + 1]; }
  }

  lemma {:induction false} SumBandsAppend(s: seq<Transaction>, t: Transaction, n: nat)
    ensures SumBands(s + [t], n) == SumBands(s, n) + (if Band(t.price) < n then 1 else 0)
  {
    if n > 0 {
      SumBandsAppend(s, t, n - 1);
      assert (s + [t])[..|s + [t]| - 1] == s;
    }
  }

  /** Every record increments exactly one band: the ten counts sum to the
      number of records. */
  lemma {:induction false} BandsSumToSize(s: seq<Transaction>)
    ensures SumBands(s, BandCount) == |s|
  {
    if s != [] {
      var init, last := s[..|s| - 1], s[|s| - 1];
      BandsSumToSize(init);
      assert s == init + [last];
      SumBandsAppend(init, last, BandCount);
    } else {
      SumBandsEmpty(s, BandCount);
    }
  }

  lemma {:induction false} SumBandsEmpty(s: seq<Transaction>, n: nat)
    requires s == []
    ensures SumBands(s, n) == 0
  {
    if n > 0 {
      SumBandsEmpty(s, n - 1);
    }
  }

  lemma {:induction false} ChartTotalIsSumBands(chart: map<string, nat>, s: seq<Transaction>, n: nat)
    requires n <= BandCount
    requires HoldsCounts(chart, s)
    ensures ChartTotal(chart, n) == SumBands(s, n)
  {
    if n > 0 {
      ChartTotalIsSumBands(chart, s, n - 1);
    }
  }

  /** A chart holding the band counts of `s` totals the size of `s`. */
  lemma ChartTotalIsSize(chart: map<string, nat>, s: seq<Transaction>)
    requires HoldsCounts(chart, s)
    ensures ChartTotal(chart, BandCount) == |s|
  {
    ChartTotalIsSumBands(chart, s, BandCount);
    BandsSumToSize(s);
  }

  /** A band no record's price falls in counts 0. */
  lemma {:induction false} EmptyBandCountsZero(s: seq<Transaction>, band: nat)
    requires forall t :: t in s ==> Band(t.price) != band
    ensures CountInBand(s, band) == 0
  {
    if s != [] {
      assert forall t :: t in s[..|s| - 1] ==> t in s;
      EmptyBandCountsZero(s[..|s| - 1], band);
    }
  }
}
