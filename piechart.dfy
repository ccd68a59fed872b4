/** The category breakdown of one month: a dictionary from each category
    seen to the number of its records, built by updating it record by record. */
module PieChart {
  import opened Store
  import opened Query

  /** The categories carried by the records of `s`. */
  function Categories(s: seq<Transaction>): set<string>
  {
    set t | t in s :: t.category
  }

  /** Number of records of `s` of category `c`. */
  function CategoryCount(s: seq<Transaction>, c: string): nat
  {
    if s == [] then 0
    else CategoryCount(s[..|s| - 1], c) + (if s[|s| - 1].category == c then 1 else 0)
  }

  /** The dictionary the breakdown should produce, as a value. */
  function CategoryCounts(s: seq<Transaction>): map<string, nat>
  {
    map c | c in Categories(s) :: CategoryCount(s, c)
  }

  /** Sum of the values of a dictionary. */
  ghost function MapSum<K>(m: map<K, nat>): nat
    decreases |m|
  {
    if m == map[] then 0
    else
      var k :| k in m;
      assert m.Keys == (m - {k}).Keys + {k};
      m[k] + MapSum(m - {k})
  }

  /** The sum does not depend on which key is taken out first. */
  lemma {:induction false} MapSumRemove<K>(m: map<K, nat>, k: K)
    requires k in m
    ensures MapSum(m) == m[k] + MapSum(m - {k})
    decreases |m|
  {
    var j :| j in m && MapSum(m) == m[j] + MapSum(m - {j});
    if j != k {
      assert m.Keys == (m - {j}).Keys + {j};
      assert m.Keys == (m - {k}).Keys + {k};
      MapSumRemove(m - {j}, k);
      MapSumRemove(m - {k}, j);
      assert m - {j} - {k} == m - {k} - {j};
    }
  }

  /** Adding a new key adds its value to the sum. */
  lemma MapSumInsert<K>(m: map<K, nat>, k: K, v: nat)
    requires k !in m
    ensures MapSum(m[k := v]) == MapSum(m) + v
  {
    MapSumRemove(m[k := v], k);
    assert m[k := v] - {k} == m;
  }

  /** Incrementing one value increments the sum. */
  lemma MapSumIncrement<K>(m: map<K, nat>, k: K)
    requires k in m
    ensures MapSum(m[k := m[k] + 1]) == MapSum(m) + 1
  {
    MapSumRemove(m[k := m[k] + 1], k);
    MapSumRemove(m, k);
    assert m[k := m[k] + 1] - {k} == m - {k};
  }

  /** Counting one more record: its category gains one, the others keep
      their counts. */
  lemma CountAppend(s: seq<Transaction>, t: Transaction)
    ensures Categories(s + [t]) == Categories(s) + {t.category}
    ensures forall c :: CategoryCount(s + [t], c) == CategoryCount(s, c) + (if t.category == c then 1 else 0)
  {
  }

  /** A category is observed exactly when at least one record carries it. */
  lemma {:induction false} CountPositiveIffObserved(s: seq<Transaction>, c: string)
    ensures CategoryCount(s, c) > 0 <==> c in Categories(s)
  {
    if s != [] {
      var init, last := s[..|s| - 1], s[|s| - 1];
      CountPositiveIffObserved(init, c);
      assert s == init + [last];
      CountAppend(init, last);
    }
  }

  /** `m` is the breakdown of `s`: exactly the observed categories, each
      with its number of records, the counts summing to the size of `s`. */
  ghost predicate Tallies(m: map<string, nat>, s: seq<Transaction>)
  {
    && m.Keys == Categories(s)
    && (forall c :: c in m ==> m[c] == CategoryCount(s, c) >= 1)
    && MapSum(m) == |s|
  }

  /** The update the breakdown makes for one record of category `c`: a new
      category starts at 1, a known one is incremented. */
  function Tally(m: map<string, nat>, c: string): map<string, nat>
  {
    if c !in m then m[c := 1] else m[c := m[c] + 1]
  }

  lemma TallyStep(m: map<string, nat>, s: seq<Transaction>, t: Transaction)
    requires Tallies(m, s)
    ensures Tallies(Tally(m, t.category), s + [t])
  {
    TallyCounts(m, s, t);
    TallySum(m, t.category);
  }

  /** The loop step of the breakdown: tallying record `i` extends the
      breakdown of the records before it to the records up to it. */
  lemma TallyNext(before: map<string, nat>, after: map<string, nat>, s: seq<Transaction>, i: nat)
    requires i < |s| && Tallies(before, s[..i])
    requires after == Tally(before, s[i].category)
    ensures Tallies(after, s[..i + 1])
  {
    assert s[..i + 1] == s[..i] + [s[i]];
    TallyStep(before, s[..i], s[i]);
  }

  lemma TallyCounts(m: map<string, nat>, s: seq<Transaction>, t: Transaction)
    requires m.Keys == Categories(s)
    requires forall c :: c in m ==> m[c] == CategoryCount(s, c) >= 1
    ensures Tally(m, t.category).Keys == Categories(s + [t])
    ensures forall d :: d in Tally(m, t.category) ==> Tally(m, t.category)[d] == CategoryCount(s + [t], d) >= 1
  {
    var c, next := t.category, Tally(m, t.category);
    CountAppend(s, t);
    if c !in m {
      CountPositiveIffObserved(s, c);
    }
    assert next.Keys == m.Keys + {c};
    forall d | d in next
      ensures next[d] == CategoryCount(s + [t], d) >= 1
    {
      if d != c {
        assert next[d] == m[d];
      }
    }
  }

  lemma TallySum(m: map<string, nat>, c: string)
    ensures MapSum(Tally(m, c)) == MapSum(m) + 1
  {
    if c !in m {
      MapSumInsert(m, c, 1);
    } else {
      MapSumIncrement(m, c);
    }
  }

  /** The breakdown of the records of `month` (the search never applies):
      the categories observed, each with the number of its records, and the
      counts together counting every record once. */
  method GetPieChartData(store: seq<Transaction>, month: string) returns (categoryCounts: map<string, nat>)
    ensures categoryCounts.Keys == Categories(MonthSet(store, month))
    ensures forall c :: c in categoryCounts ==> categoryCounts[c] == CategoryCount(MonthSet(store, month), c) >= 1
    ensures MapSum(categoryCounts) == |MonthSet(store, month)|
  {
    var transactions := MonthSet(store, month);
    categoryCounts := map[];
    for i := 0 to |transactions|
      invariant Tallies(categoryCounts, transactions[..i])
    {
      var category := transactions[i].category;
      ghost var before := categoryCounts;
      if category !in categoryCounts {
        categoryCounts := categoryCounts[category := 1];
      } else {
        categoryCounts := categoryCounts[category := categoryCounts[category] + 1];
      }
      TallyNext(before, categoryCounts, transactions, i);
    }
    assert transactions[..|transactions|] == transactions;
    assert Tallies(categoryCounts, transactions);
  }

  /** A breakdown of `s` is the one `CategoryCounts` describes. */
  lemma TalliesAreCategoryCounts(m: map<string, nat>, s: seq<Transaction>)
    requires Tallies(m, s)
    ensures m == CategoryCounts(s)
  {
  }

  /** The breakdown as a value: its counts sum to the number of records. */
  lemma {:induction false} CategoryCountsTotal(s: seq<Transaction>)
    ensures Tallies(CategoryCounts(s), s)
  {
    if s == [] {
      assert CategoryCounts(s) == map[];
    } else {
      var init, last := s[..|s| - 1], s[|s| - 1];
      CategoryCountsTotal(init);
      CategoryCountsExtend(init, last);
      assert s == init + [last];
    }
  }

  lemma CategoryCountsExtend(s: seq<Transaction>, t: Transaction)
    requires Tallies(CategoryCounts(s), s)
    ensures Tallies(CategoryCounts(s + [t]), s + [t])
  {
    TallyStep(CategoryCounts(s), s, t);
    TalliesAreCategoryCounts(Tally(CategoryCounts(s), t.category), s + [t]);
  }

  /** The breakdown of a sequence extended by one record is the breakdown
      of the sequence with that record tallied. */
  lemma CategoryCountsAppend(s: seq<Transaction>, t: Transaction)
    ensures CategoryCounts(s + [t]) == Tally(CategoryCounts(s), t.category)
    ensures forall c :: c in CategoryCounts(s) ==> CategoryCounts(s)[c] >= 1
  {
    CategoryCountsTotal(s);
    TallyStep(CategoryCounts(s), s, t);
    TalliesAreCategoryCounts(Tally(CategoryCounts(s), t.category), s + [t]);
  }
}
