# Transaction query and aggregation layer, modelled in Dafny

The backend keeps product sale records (`id`, `title`, `price`, `description`,
`dateOfSale`, `category`, `sold`). A dashboard reads them through five views.
This project models the logic of the four read handlers of
`controllers/transactionController.js` over an in-memory store
`seq<Transaction>`, and proves what those handlers promise.

- **Month filter**: a record belongs to a month when the text of its sale date
  contains `-<month>-`, in any year. The listing matches this pattern ignoring
  case. The statistics and the two charts match it exactly.
- **Search**: the listing keeps a record when the search text occurs, ignoring
  case, in its title, its description or the text of its price. The empty
  search, the default, keeps everything.
- **Listing** (`getTransactions`): month filter AND search. It skips
  `(page - 1) * perPage` records and returns at most `perPage` of them, with
  `totalPages = ceil(total / perPage)`.
- **Statistics** (`getStatistics`): the revenue of the sold records, the sold
  count and the unsold count.
- **Bar chart** (`getBarChartData`): ten fixed price bands with inclusive upper
  bounds. A map from band label to counter is incremented record by record.
- **Pie chart** (`getPieChartData`): a map from each category seen to its
  count, updated record by record.

The statistics and both charts use the month filter only; the search never
applies to them.

Modules, one file each: `Text` (case folding, literal substring search, digits),
`Store` (the record, the price's text, retrieval by predicate), `Query` (the
month and search predicates), `Pagination`, `Listing`, `Statistics`,
`BarChart`, `PieChart`, `PieChartAsWritten` (see Findings) and `Scenario` (a
worked example with two May records).

Representation choices:
- Prices are integers counted in hundredths of the currency unit (`Store.Unit`).
  The band bounds are therefore `100 * Unit`, `200 * Unit`, and so on.
  `PriceText` writes a price the way JavaScript writes a number with at most two
  decimals, for magnitudes below 10^21 (see Left out).
- The sale date is its text.
- The two map-building handlers are methods with `for` loops over a `map`.
  Each is proved against a specification function (`CountInBand`,
  `CategoryCount`). The pure reductions and predicates are functions.

Two behaviours of the code that a reader might not expect:
- **Month "5"**: with the sale date read as its `YYYY-MM-DD` text, as the
  model reads it (see Left out), a month number written without a leading
  zero selects nothing. The pattern is the text `-5-`, which no date written
  `YYYY-MM-DD` contains. Only "05" selects May. See `Query.IsoDateMonth`, `Query.IsoDatesNeedTwoDigitMonth`
  and `Scenario.SingleDigitMonthSelectsNothing`.
- **`perPage` = 0**: the code has no guard against it and divides by zero
  when computing `totalPages`, so `perPage >= 1` is a precondition of
  `Listing.GetTransactions`.

## Model

| member | source | states |
|---|---|---|
| `Text.Contains` | controllers/transactionController.js:24-28 | literal unanchored search: true exactly when the pattern occurs at some position of the text |
| `Text.EmptyPatternMatches` | controllers/transactionController.js:18-19 | the default empty search pattern matches every text, ignoring case |
| `Text.LetterFreeIgnoresCase` | controllers/transactionController.js:24 | for a pattern without letters, matching with the 'i' option is the same as matching exactly |
| `Text.LetterFreeOccursAt` | controllers/transactionController.js:24 | at a given position, a pattern without letters occurs in the case-folded text exactly when it occurs in the text |
| `Text.NatText` | controllers/transactionController.js:28 | the whole part of a price's text: at least one character, all decimal digits, and a leading '0' only for zero |
| `Text.NatTextValue` | controllers/transactionController.js:28 | the digits `NatText` writes denote the number written |
| `Store.Find` | controllers/transactionController.js:32-33 | retrieval returns exactly the stored records satisfying the query, and no more records than the store has |
| `Store.FindAppend` | controllers/transactionController.js:33 | retrieval keeps the store's natural order: it distributes over concatenation |
| `Store.FindCongruent` | controllers/transactionController.js:23-30 | two queries that agree on every stored record retrieve the same sequence |
| `Store.FindFind` | controllers/transactionController.js:23-30 | narrowing a result by a second condition is the same as querying with both conditions |
| `Store.PriceText` | controllers/transactionController.js:28 | the text the search is matched against for the price: it starts with '-' exactly for a negative price and ends with a digit |
| `Store.UnsignedPriceText` | controllers/transactionController.js:28 | the text of a non-negative price starts and ends with a digit |
| `Store.Decimals` | controllers/transactionController.js:28 | the fraction part is empty exactly for a whole price, and otherwise a point followed by digits ending in a digit |
| `Store.SplitPrice` | controllers/transactionController.js:28 | a price is written as the digits of its whole units followed by the text of its fraction; a whole price therefore as its integer digits alone, without a point |
| `Store.OneDecimal` | controllers/transactionController.js:28 | a fraction with one significant decimal is written with that decimal only ("12.5" for 12.50) |
| `Store.TwoDecimals` | controllers/transactionController.js:28 | a fraction whose hundredths digit is not zero is written with two decimals |
| `Store.PriceTextNegative` | controllers/transactionController.js:28 | a negative price is written as a minus sign followed by the text of its magnitude |
| `Query.EmptySearchMatchesAll` | controllers/transactionController.js:25-29 | with the empty search, the title/description/price alternative accepts every record |
| `Query.InMonth` | controllers/transactionController.js:50 | a record is in the aggregates' month exactly when `-<month>-` occurs literally in its sale date's text |
| `Query.InMonthIgnoringCase` | controllers/transactionController.js:24 | a record is in the listing's month exactly when `-<month>-` occurs in the sale date's text, both case-folded |
| `Query.MatchesSearch` | controllers/transactionController.js:25-29 | a record matches the search exactly when the case-folded search occurs in the case-folded title, description or price text |
| `Query.MonthSet` | controllers/transactionController.js:50 | the aggregates retrieve exactly the stored records of the month, and no more records than the store has |
| `Query.Listed` | controllers/transactionController.js:23-30 | the listing retrieves exactly the stored records that pass both the month filter and the search |
| `Query.LetterFreeMonthIgnoresCase` | controllers/transactionController.js:24 | for a month without letters, the listing's case-insensitive month filter equals the aggregates' exact one |
| `Query.ListedIsSearchWithinMonth` | controllers/transactionController.js:23-30 | for a month without letters (such as "05"), the listing is the month set of the aggregate views narrowed by the search, in store order |
| `Query.EmptySearchListsMonthSet` | controllers/transactionController.js:23-30 | for a month without letters and the empty search, the listing pages through exactly the records that the statistics and charts reduce |
| `Query.IsoDateMonth` | controllers/transactionController.js:50 | on a date written `YYYY-MM-DD` plus a time without dashes, a record matches exactly when the month text has two characters equal to the date's month, for any year |
| `Query.IsoDateDashes` | controllers/transactionController.js:50 | a date written `YYYY-MM-DD` plus a time without dashes has dashes only at positions 4 and 7 |
| `Query.IsoDatesNeedTwoDigitMonth` | controllers/transactionController.js:50 | over a store whose dates are all written that way, a month text whose length is not 2 (such as "5") selects no record |
| `Pagination.Slice` | controllers/transactionController.js:33-35 | a page has length `min(limit, max(0, total - offset))` and is the contiguous run of records from the offset, in order |
| `Pagination.TotalPages` | controllers/transactionController.js:39 | `ceil(total / perPage)`: the pages cover all records, and one page fewer would not |
| `Pagination.Offset` | controllers/transactionController.js:34 | the skip `(page - 1) * perPage` is never negative for a page number from 1, and is negative for a page number below 1 when `perPage >= 1` |
| `Pagination.PagesArePrefix` | controllers/transactionController.js:33-35 | pages 1 to n, concatenated, are the first `n * perPage` records, or all of them if there are fewer |
| `Pagination.WindowExtendsPrefix` | controllers/transactionController.js:33-35 | the records before an offset, followed by the window at that offset, are the records before the offset plus the limit |
| `Pagination.PagesCoverAll` | controllers/transactionController.js:33-39 | reading pages 1 to `totalPages` in turn yields every record exactly once, in order |
| `Pagination.PageNonEmptyIffInRange` | controllers/transactionController.js:33-39 | a page numbered from 1 holds records exactly when its number is at most `totalPages` |
| `Listing.GetTransactions` | controllers/transactionController.js:17-43 | a page number below 1 fails, because the database refuses a negative skip; otherwise the page is the window of the month-and-search result at the page's offset, and `totalPages` is the ceiling of its size over `perPage` |
| `Statistics.GetStatistics` | controllers/transactionController.js:47-56 | over the month set only: `totalSoldItems` is the number of its sold records and `totalNotSoldItems` the number of its unsold ones, the two summing to its size; the revenue is the price sum of its sold records; an empty set gives zeros |
| `Statistics.SoldSplit` | controllers/transactionController.js:53-54 | `totalSoldItems + totalNotSoldItems` equals the number of records |
| `Statistics.SoldCountsAreCounts` | controllers/transactionController.js:53-54 | the lengths of the two filters are the numbers of sold and of unsold records, counted independently by a running count |
| `Statistics.SaleAmount` | controllers/transactionController.js:52 | the revenue reduce gives 0 when no record is sold |
| `Statistics.SaleAmountIsSoldPrices` | controllers/transactionController.js:52 | the reduce that adds a price only when `sold` equals the plain price sum of the sold records |
| `Statistics.UnsoldAddsNothing` | controllers/transactionController.js:52 | inserting an unsold record anywhere leaves the revenue unchanged |
| `Statistics.SaleAmountBounds` | controllers/transactionController.js:52 | with non-negative prices, the revenue lies between 0 and the sum of all prices |
| `BarChart.Band` | controllers/transactionController.js:82-91 | the band is one of ten; the price is at most the band's inclusive upper bound and above the previous band's bound |
| `BarChart.BandMonotone` | controllers/transactionController.js:82-91 | a higher price never falls in a lower band |
| `BarChart.BandUnique` | controllers/transactionController.js:82-91 | the bands are disjoint: a price within a band's bounds is in that band and no other |
| `BarChart.LabelsDistinct` | controllers/transactionController.js:66-77 | the ten labels are pairwise distinct |
| `BarChart.ZeroChart` | controllers/transactionController.js:66-77 | the initial chart has exactly the ten labels as keys, each at 0 |
| `BarChart.ZeroChartCountsNothing` | controllers/transactionController.js:66-77 | the initial chart holds the band counts of no record |
| `BarChart.CountPrice` | controllers/transactionController.js:81-91 | one record's step increments the counter of its price's band and no other |
| `BarChart.CountStep` | controllers/transactionController.js:80-92 | that step turns the band counts of a sequence into the counts of the sequence extended by the record |
| `BarChart.CountNext` | controllers/transactionController.js:80-92 | the loop step keeps exactly the ten labels as keys and extends the band counts from the records before it to the records up to it |
| `BarChart.GetBarChartData` | controllers/transactionController.js:63-94 | over the month set only: exactly the ten labels are keys, each counts the records priced in its band, and the counters sum to the number of records |
| `BarChart.BandsSumToSize` | controllers/transactionController.js:80-92 | every record increments exactly one band, so the ten counts sum to the number of records |
| `BarChart.ChartTotalIsSize` | controllers/transactionController.js:80-92 | a chart holding the band counts of a sequence totals its size |
| `BarChart.EmptyBandCountsZero` | controllers/transactionController.js:66-77 | a band into which no price falls keeps count 0 |
| `PieChart.CountAppend` | controllers/transactionController.js:106-114 | one more record adds its category to the observed ones and adds one to its category's count only |
| `PieChart.CountPositiveIffObserved` | controllers/transactionController.js:108-112 | a category has a positive count exactly when some record carries it |
| `PieChart.TallyStep` | controllers/transactionController.js:106-114 | the reducer's update (a new category starts at 1, a known one is incremented) keeps the map the exact breakdown of the records seen |
| `PieChart.TallyNext` | controllers/transactionController.js:106-114 | the loop step extends the breakdown of the records before it to the records up to it |
| `PieChart.TallyCounts` | controllers/transactionController.js:108-112 | after the update, the keys are the observed categories and each value is that category's count |
| `PieChart.TallySum` | controllers/transactionController.js:108-112 | the update raises the sum of the counts by one |
| `PieChart.MapSumRemove` | controllers/transactionController.js:106-114 | the sum of a dictionary's counts does not depend on the order in which its keys are taken |
| `PieChart.MapSumInsert` | controllers/transactionController.js:109 | setting a new category to a count adds that count to the sum |
| `PieChart.MapSumIncrement` | controllers/transactionController.js:111 | incrementing one category's count increments the sum |
| `PieChart.GetPieChartData` | controllers/transactionController.js:101-116 | over the month set only: the keys are exactly the observed categories, each maps to its number of records (at least 1), and the counts sum to the number of records |
| `PieChart.TalliesAreCategoryCounts` | controllers/transactionController.js:106-114 | a map that is the breakdown of a sequence is unique |
| `PieChart.CategoryCountsTotal` | controllers/transactionController.js:106-114 | the breakdown as a value sends each observed category to its count, and absent categories are not keys; the counts sum to the number of records |
| `PieChart.CategoryCountsExtend` | controllers/transactionController.js:106-114 | the breakdown as a value stays the exact breakdown when the sequence is extended by one record |
| `PieChart.CategoryCountsAppend` | controllers/transactionController.js:106-114 | the breakdown of a sequence extended by one record is the previous breakdown with that record tallied |
| `PieChartAsWritten.JsTallyMirrorsTally` | controllers/transactionController.js:108-112 | for a category not named like an `Object.prototype` member, the handler's step on a plain object equals the intended step |
| `PieChartAsWritten.JsTally` | controllers/transactionController.js:107-113 | the handler's step on a plain object: it adds the record's category as a key unless it is "__proto__", and leaves every other key as it was. A falsy current value becomes 1; a truthy one becomes what `++` stores, one more for a number and NaN for an inherited member |
| `PieChartAsWritten.CategoryCountsAsWritten` | controllers/transactionController.js:106-114 | the handler's reduction has only observed categories as keys, and never "__proto__" |
| `PieChartAsWritten.AsWrittenAgreesOffPrototype` | controllers/transactionController.js:106-114 | when no category is named like an `Object.prototype` member, the handler's reduction gives exactly the intended breakdown |
| `PieChartAsWritten.AsWrittenStep` | controllers/transactionController.js:107-113 | one record whose category is not named like an `Object.prototype` member keeps the handler's reduction equal to the intended breakdown |
| `PieChartAsWritten.ConstructorCategoryMiscounted` | controllers/transactionController.js:106-114 | one record of category "constructor" is counted NaN and two are counted 1, where the intended breakdown counts 1 and 2 |
| `PieChartAsWritten.PrototypeNameMiscounted` | controllers/transactionController.js:106-114 | for every category named like an `Object.prototype` member other than "__proto__", after k records of it the handler holds no key for k = 0, NaN for k = 1 and k - 1 for k >= 2 |
| `PieChartAsWritten.MiscountStep` | controllers/transactionController.js:107-113 | one record keeps that pattern: an inherited member goes to NaN, NaN to 1, and a number n to n + 1 |
| `PieChartAsWritten.ProtoCategoryDropped` | controllers/transactionController.js:106-114 | the category "__proto__" never appears in the handler's breakdown |
| `Scenario.MaySelectsBoth` | controllers/transactionController.js:50 | month "05" selects both May records, from 2024 and from 2023 |
| `Scenario.MayStatistics` | controllers/transactionController.js:47-56 | for the two May records and month "05": revenue 50, one sold and one unsold record |
| `Scenario.MayBands` | controllers/transactionController.js:63-94 | for the same month: the two lowest bands count 1 each and the other bands 0 |
| `Scenario.MayCategories` | controllers/transactionController.js:101-116 | for the same month: categories A and B count 1 each |
| `Scenario.MayFirstPage` | controllers/transactionController.js:17-43 | for the same month and the empty search: page 1 of size 1 holds the sold record, with 2 pages in all |
| `Scenario.SingleDigitMonthSelectsNothing` | controllers/transactionController.js:50 | with dates matched as their `YYYY-MM-DD` text, month "5" selects neither May record, and the statistics are zero |

## Left out

- `initializeData` (controllers/transactionController.js:5-14) is left out. It fetches the seed document over the network, then deletes and bulk-inserts into the database: I/O only. The store is the `seq<Transaction>` passed to every view.
- `getCombinedData` (controllers/transactionController.js:123-144) is left out. It makes loopback HTTP calls, run concurrently, and bundles the four views for the same month, search, page and `perPage`. That is network plumbing; each of the four views is modelled on its own.
- `server.js`, `routes/transactionRoutes.js` and the schema in `models/transactionModels.js` are wiring and a schema declaration. The schema only shapes `Store.Transaction`.
- The search is a literal substring with ASCII case folding. The regular-expression language of `new RegExp(search, 'i')` is not modelled. A search text with special characters means something else to the source, and an invalid pattern throws before the `try` block.
- How Mongoose and MongoDB treat `$regex` on the Number field `price` and the Date field `dateOfSale` (models/transactionModels.js:7, 9) is not modelled. As written, Mongoose cannot cast a `$regex` filter on those fields, so the query is rejected and the handler answers its 500 error (controllers/transactionController.js:41-42, 57-58, 95-96, 117-118). The model instead matches each value's text: `PriceText` for the price (line 28) and the sale date's `YYYY-MM-DD` text for the month clauses (lines 24, 50, 79, 104).
- The month is itself a regular expression in the source (`$regex` on `-${month}-` at controllers/transactionController.js:24, 50, 79 and 104). The model matches it as literal text. A month such as `..` matches every `YYYY-MM-DD` date in the source and none in the model; `0[1-5]` selects January to May in the source and nothing in the model.
- No schema field is required (models/transactionModels.js:4-12), but `Store.Transaction` makes every field present. A sold record without a `price` turns the source's revenue into NaN and falls into "901-above", because every comparison with undefined is false. A record without a `category` is counted under the key "undefined". None of this is modelled.
- A missing `month` is not modelled. The source then matches the text `-undefined-`. In the model, the month is always a given text.
- The defaults `page = 1` and `perPage = 10` of controllers/transactionController.js:18 are not modelled. `Listing.GetTransactions` takes both as explicit arguments, and the search default `''` is likewise passed explicitly.
- `page` and `perPage` are integers, with `perPage >= 1`. Non-numeric values are not modelled. Neither is `perPage` 0 or negative, for which the source divides by zero and the database's `limit(0)` means "no limit".
- Listing.GetTransactions: the only database failure modelled is the refused negative skip. Other database errors, HTTP status codes and the JSON error bodies are not modelled.
- JavaScript floating-point arithmetic is not modelled. Prices are exact hundredths, so prices with more than two decimals, and rounding in the revenue sum, are not represented.
- `Store.PriceText` agrees with JavaScript's number-to-text conversion only for magnitudes below 10^21. From there JavaScript writes exponent notation ("1e+21"), while `PriceText` writes every digit.
- The order of the keys in the JSON output of the two charts is not modelled; the charts are maps.
- Repeating a view on an unchanged store gives the same answer. The listing and the statistics are functions of the store; the two chart methods have `ensures` clauses that determine their result entirely. No separate lemma states this.

## Findings

| source | as written | input that shows it | evidently intended | confidence | as-written member | corrected member |
|---|---|---|---|---|---|---|
| controllers/transactionController.js:106-114 | the accumulator is a plain object `{}`, so `acc[category]` also finds members inherited from `Object.prototype`: `!acc[category]` is false for a category such as "constructor", and `acc[category]++` then stores NaN | one record of category "constructor" gives `{"constructor": NaN}`; two such records give `{"constructor": 1}`; category "__proto__" never appears | every category counted from zero, whatever its name | high, not executed | `PieChartAsWritten.ConstructorCategoryMiscounted` | `PieChart.GetPieChartData` |
