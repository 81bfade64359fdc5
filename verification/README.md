# Pricing report, modelled in Dafny

This project models the core of a small Swift command-line program,
`designerbrandsworksample.swift`. The program reads comma-separated
product data and prints one summary line per price category.

- **Input.** The input is split on newlines. A line whose first
  comma-separated field is `Type` declares a price type. Any other line
  is a product: a normal price, a clearance price, a quantity in stock
  and a "price is hidden" flag, in fields 1–4.
- **Classification.** Each product falls into exactly one category:
  - *Price In Cart* when its price is hidden;
  - otherwise *Clearance Price* when the normal price is strictly above
    the clearance price;
  - otherwise *Normal Price*.
- **Report.**
  - Only products with more than 3 units in stock are kept.
  - For each category, in declaration order, the report records how many
    kept products it has, plus the lowest and highest clearance price
    after an ascending sort. The range is `(0, 0)` for an empty category.
  - The three rows are then ordered by non-increasing count.
- **Printing.** Each row prints in one of three shapes:
  - the count alone, when both ends of the range are 0;
  - the count and a single price, when both ends are equal;
  - the count and a `low-high` range otherwise.

The modules follow the program's stages:

| file | module | contents |
|---|---|---|
| `wrappers.dfy` | `Wrappers` | `Option`, standing in for Swift optionals |
| `seqs.dfy` | `Seqs` | Swift's `filter` and `sorted(by:)` as `FilterBy` and `SortBy` (an insertion sort on a real-valued key) with their contracts |
| `text.dfy` | `Text` | `components(separatedBy:)` for a one-character separator, its inverse `JoinWith`, and their laws |
| `products.dfy` | `Products` | the categories, their display names, the product record and its classifier |
| `report.dfy` | `Report`, `ReportProperties` | `generateReport` up to the sorted rows, and the properties of the whole report |
| `format.dfy` | `Format` | the choice of print shape for a row |
| `parse.dfy` | `Parse` | `parseContents`: splitting, per-line dispatch, crash on a malformed line |
| `pipeline.dfy` | `Pipeline` | parse, report and print composed into one run |

Decisions about how the model represents the Swift code:

- Swift `Double` prices are modelled as `real`, and `Int` quantities as
  `int`.
- Text-to-number conversion is not modelled; it is a parameter.
  `Double(_:)` and `Int(_:)` are passed in as a `Converters` value:
  functions from text to `Option<real>` and `Option<int>`.
- `Bool(_:)` is modelled exactly. It accepts only `true` and `false`.
- A force-unwrap of `nil`, or an out-of-range field index, crashes the
  program. The model returns this as `Fatal(n)`, where `n` is the index
  of the first line that fails.

## Model

| member | source | states |
|---|---|---|
| Products.DisplayNameInjective | designerbrandsworksample.swift:4-8 | the three raw values are pairwise different, so a printed heading identifies its category |
| Products.Classify | designerbrandsworksample.swift:24-32 | the chosen category satisfies the classification rule: Price In Cart exactly when hidden, Clearance exactly when visible and normal > clearance, Normal exactly when visible and normal <= clearance |
| Products.ClassifyUnique | designerbrandsworksample.swift:24-32 | the rule picks exactly one category: a category satisfies it if and only if it is the classifier's answer |
| Products.HiddenIsPriceInCart | designerbrandsworksample.swift:26-27 | a hidden price always gives Price In Cart, whatever the two prices are |
| Products.TieIsNormalPrice | designerbrandsworksample.swift:28-31 | a visible product whose normal and clearance prices are equal is Normal Price, not Clearance |
| Products.MakeProduct | designerbrandsworksample.swift:24-40 | the constructed product keeps the four given fields and its category is consistent with them |
| Seqs.FilterBy | designerbrandsworksample.swift:114 | an element is in the filtered sequence if and only if it is in the input and passes the predicate; the sequence never grows |
| Seqs.FilterByCounts | designerbrandsworksample.swift:114 | a filter keeps each passing element exactly as often as it occurs and drops every other element entirely |
| Seqs.FilterByConcat | designerbrandsworksample.swift:114 | filtering distributes over concatenation, so relative order is preserved |
| Seqs.FilterByLengthOfPermutation | designerbrandsworksample.swift:117 | filtering two permutations of each other gives permutations of each other, of equal length |
| Seqs.InsertBy | designerbrandsworksample.swift:117 | inserting into a sorted sequence adds exactly that element and keeps the sequence sorted by the key |
| Seqs.SortBy | designerbrandsworksample.swift:117 | the sort result is a permutation of its input (same multiset) whose keys are non-decreasing |
| Seqs.SortedEnds | designerbrandsworksample.swift:118 | in a sorted non-empty sequence, the first key is the minimum and the last key the maximum |
| Seqs.SortedPermutationsShareEnds | designerbrandsworksample.swift:117-118 | two sorted permutations of each other have the same first key and the same last key, whatever order ties fall in |
| Report.KeepInStock | designerbrandsworksample.swift:114 | a product is kept if and only if it is in the input with more than 3 units in stock |
| Report.KeepInStockCounts | designerbrandsworksample.swift:114 | a product with more than 3 units is kept as many times as it occurs in the input, any other product not at all |
| Report.KeepInStockConcat | designerbrandsworksample.swift:114 | the stock filter works line by line: filtering a concatenation concatenates the filtered parts |
| Report.LowStockIsInvisible | designerbrandsworksample.swift:114-122 | inserting a product with at most 3 units anywhere changes neither the kept products nor the report |
| Report.Members | designerbrandsworksample.swift:117 | a product belongs to a category's members if and only if it is kept and has that category |
| Report.Summarize | designerbrandsworksample.swift:117-118 | a row carries its category and the number of kept products in it, and an empty category gets the range (0, 0) |
| Report.SummarizeBounds | designerbrandsworksample.swift:117-118 | a count is 0 exactly when no kept product has the category; otherwise low <= high, every member's clearance price lies in [low, high], and both ends are some member's clearance price |
| Report.SummarizeAll | designerbrandsworksample.swift:116-120 | the loop over categories appends one row per category, in order |
| Report.CategoryRows | designerbrandsworksample.swift:116-120 | before sorting there are three rows, one for each category, in declaration order |
| Report.SortByCount | designerbrandsworksample.swift:122 | the sorted rows are a permutation of the unsorted rows, with counts non-increasing |
| Report.GenerateReport | designerbrandsworksample.swift:113-122 | the report is a permutation of the per-category rows of the kept products, ordered by non-increasing count |
| Report.CategoryCountsPartition | designerbrandsworksample.swift:116-119 | the three categories' member counts add up to the number of kept products |
| ReportProperties.PermutationOfThree | designerbrandsworksample.swift:122 | a permutation of three distinct rows has three rows, each one of the originals, with the same set of categories and the same count total, and distinct categories stay distinct |
| ReportProperties.CategoryRowsInOrder | designerbrandsworksample.swift:116-120 | the unsorted rows are the Normal, Clearance and Price In Cart summaries, in that order |
| ReportProperties.ReportReordersCategoryRows | designerbrandsworksample.swift:116-122 | the report holds exactly the three category summaries, reordered |
| ReportProperties.ReportCoversEachCategoryOnce | designerbrandsworksample.swift:116-122 | the report has three rows whose categories are pairwise distinct and cover all three categories |
| ReportProperties.SummaryOfOwnCategory | designerbrandsworksample.swift:117-118 | a row that is one of the three summaries is the summary of its own category |
| ReportProperties.ReportRowsAreCategorySummaries | designerbrandsworksample.swift:116-122 | every report row is the summary of its own category over the kept products |
| ReportProperties.ReportCountsSumToKept | designerbrandsworksample.swift:114-122 | the counts in the report add up to the number of products with more than 3 in stock |
| ReportProperties.KeepInStockOfPermutation | designerbrandsworksample.swift:114 | permuting the input permutes the kept products |
| ReportProperties.SummarizeOfPermutation | designerbrandsworksample.swift:117-118 | a category's row depends only on the multiset of kept products, not on their order |
| ReportProperties.ReportIgnoresOrder | designerbrandsworksample.swift:113-122 | two inputs that are permutations of each other give the same report |
| Format.ShapeOf | designerbrandsworksample.swift:126-131 | the shape shows exactly the row's range; a single price is never 0; a range always has two different ends |
| Format.ShapeOfShownRange | designerbrandsworksample.swift:126-131 | the three shapes are chosen exactly by the range: NoPrice if and only if both ends are 0, SinglePrice if and only if the ends are equal and non-zero, PriceRange otherwise |
| Format.FormatLine | designerbrandsworksample.swift:126-131 | a printed line carries the category's display name, the row's count, and a shape showing the row's range; that shape is the one the source picks for that range: a single price is never 0 and a range never has equal ends |
| Format.FormatLineUnique | designerbrandsworksample.swift:126-131 | a line with the row's heading and count and a canonical shape showing the row's range is the formatted line, so the printed shape is the one the source picks |
| Format.FormatReport | designerbrandsworksample.swift:124-133 | one printed line per row, in the report's order |
| Format.HeadingsDistinct | designerbrandsworksample.swift:124-133 | rows with pairwise distinct categories print pairwise distinct headings |
| Format.EmptyCategoryPrintsNoPrice | designerbrandsworksample.swift:118-127 | a category with no kept products prints its count of 0 without a price |
| Format.SingleProductPrintsItsPrice | designerbrandsworksample.swift:117-129 | a category with one kept product prints that product's clearance price, unless that price is 0 |
| Format.RangeNeedsTwoPrices | designerbrandsworksample.swift:117-131 | a printed range has low < high, and both ends are clearance prices of kept products in the category |
| Format.ZeroPricesPrintNoPrice | designerbrandsworksample.swift:117-127 | a non-empty category whose kept products all cost 0 prints like an empty one |
| Text.SplitOn | designerbrandsworksample.swift:89 | splitting always yields at least one piece, and no piece contains the separator |
| Text.SplitCount | designerbrandsworksample.swift:89 | there is one more piece than separators in the text |
| Text.JoinWith | designerbrandsworksample.swift:89 | joining n pieces gives text at least n-1 characters long, room for the separators |
| Text.JoinHead | designerbrandsworksample.swift:89 | joining after a first piece is that piece, the separator, and the joined rest |
| Text.JoinSplit | designerbrandsworksample.swift:89 | joining the pieces with the separator gives back the original text |
| Text.SplitJoin | designerbrandsworksample.swift:89 | splitting a join of separator-free pieces gives back those pieces |
| Text.SplitNoSeparator | designerbrandsworksample.swift:98 | text without the separator splits into the single piece itself |
| Text.SplitAtSeparator | designerbrandsworksample.swift:98 | a separator-free prefix followed by the separator becomes the first piece |
| Text.FirstPiece | designerbrandsworksample.swift:92 | the first piece is the longest separator-free prefix of the text |
| Text.FirstPieceEmpty | designerbrandsworksample.swift:92 | the first piece is empty if and only if the text is empty or starts with the separator |
| Text.SplitTrailingSeparator | designerbrandsworksample.swift:89 | a trailing separator adds one empty last piece |
| Parse.ParseBool | designerbrandsworksample.swift:103 | the flag parses to b if and only if the field is exactly the text of b |
| Parse.IsTypeLineByPrefix | designerbrandsworksample.swift:98-99 | a line declares a type if and only if it is exactly `Type` or begins with `Type,` |
| Parse.ParseLine | designerbrandsworksample.swift:98-105 | a line that parses as a product gives a product whose category is consistent with its fields |
| Parse.ParseLineFields | designerbrandsworksample.swift:98-104 | a type line succeeds if and only if it has at least 3 fields, and takes fields 1 and 2. Any other line succeeds if and only if it has at least 5 fields and fields 1–4 all convert; it then builds the product from them |
| Parse.TypeLineRoundTrip | designerbrandsworksample.swift:99-100 | a type line written from a comma-free id and name parses back to that price type |
| Parse.ProductLineRoundTrip | designerbrandsworksample.swift:102-104 | a product line with convertible fields parses back to the product built from those values |
| Parse.ParseEach | designerbrandsworksample.swift:97-98 | every line is parsed on its own, in order, one result per line |
| Parse.ParseEachConcat | designerbrandsworksample.swift:97-98 | parsing a concatenation of lines concatenates the results |
| Parse.Collect | designerbrandsworksample.swift:97-106 | collection succeeds if and only if every line parsed. On failure it names the first bad line. On success every line yields one type or one product |
| Parse.CollectConcat | designerbrandsworksample.swift:97-106 | when two blocks of parse results both succeed, collecting them together appends their types and their products |
| Parse.CollectProductsFromRecords | designerbrandsworksample.swift:102-104 | every collected product comes from some successfully parsed product line |
| Parse.CollectTypesInOrder | designerbrandsworksample.swift:99-101 | the collected price types are exactly the parsed type records, one for one and in input order |
| Parse.CollectProductsInOrder | designerbrandsworksample.swift:102-104 | the collected products are exactly the parsed product records, one for one and in input order |
| Parse.ParseEachByKind | designerbrandsworksample.swift:98-104 | when every line parses, the type records are the parses of the `Type` lines and the product records the parses of the other lines, each in input order |
| Parse.ParsedTypesInOrder | designerbrandsworksample.swift:97-101 | the i-th parsed price type is what the i-th `Type` line parses to, and there is one per `Type` line |
| Parse.ParsedProductsInOrder | designerbrandsworksample.swift:97-104 | the i-th parsed product is what the i-th non-`Type` line parses to, and there is one per such line |
| Parse.ParseLines | designerbrandsworksample.swift:97-106 | the loop yields a result if and only if every line parses. Otherwise the crash names the first failing line. On success every line contributes exactly one record |
| Parse.ParseLinesConcat | designerbrandsworksample.swift:97-106 | when two blocks of lines both parse, parsing them together appends their types and their products |
| Parse.ParsedProductsWellFormed | designerbrandsworksample.swift:103-104 | every parsed product's category agrees with its prices and flag |
| Parse.ParseContents | designerbrandsworksample.swift:89-106 | "no data" if and only if the input is empty or starts with a newline. Otherwise it parses if and only if every newline-separated line parses, a crash names the first failing line, and a success yields one record per line |
| Parse.EmptyLineIsFatal | designerbrandsworksample.swift:98-103 | an empty line has a single field and is not a type line, so it crashes the product parse |
| Parse.TrailingNewlineIsFatal | designerbrandsworksample.swift:89-103 | non-empty input that ends with a newline always crashes; the crash is at the first line that does not parse |
| Parse.TrailingNewlineCrashesAfterData | designerbrandsworksample.swift:89-103 | data whose lines all parse, followed by a newline, crashes exactly at the empty line after that newline |
| Pipeline.Run | designerbrandsworksample.swift:83-133 | a run prints "no data" if and only if the input is empty or starts with a newline, crashes if and only if some line does not parse, and then at the first such line. Otherwise it prints three lines with pairwise distinct headings, ordered by non-increasing count. Each line is the formatted summary of one category over the parsed products in stock, and the counts add up to the number of those products |

## Left out

- Argument handling and input reading (lines 51-81) are left out: the
  program's standard input, the `~` path, the `.txt` file and the invalid
  argument message. The model starts from the text handed to
  `parseContents`. This also omits the `" "` check on standard input and
  the silent exit when a file cannot be read.
- `Double(_:)` and `Int(_:)` are not modelled. Swift's numeric literal
  grammars are outside the model, so the two conversions are parameters.
  Every property holds for any conversion functions.
- How Swift renders a `Double` in the printed text is not modelled, and
  neither are the literal surrounding words. `Format` models only which
  of the three shapes is printed, with which heading, count and prices.
- `exit(0)` is not modelled; the three outcomes of `Pipeline.Run` stand
  in for it.
- Floating point is modelled as exact reals. NaN, infinities and
  rounding are not represented.
- The `delimiter` fields (`"Type"`, `"Product"`, `"Product Type"`) are
  left out, because nothing reads them.
- The collected price types are never used after parsing. The model
  collects them in order, but no report property depends on them.
- Sort stability is not stated. The model does not rely on it. Its
  insertion sort places an element before later elements with an equal
  key, so it keeps ties in input order, but no lemma states that.
  - Equal clearance prices cannot change a row:
    `ReportProperties.SummarizeOfPermutation` shows only the first and
    last keys matter.
  - The report properties do not fix the order of rows with equal
    counts. They state a permutation ordered by count.
- Report.GenerateReport: its own contract states the permutation and
  the ordering, but not the row count. The row count of 3 and the one
  row per category are stated separately by
  `ReportProperties.ReportCoversEachCategoryOnce`.
- A product line needs five comma fields. The code reads fields 1–4
  (line 103) and ignores field 0, which can be anything other than
  `Type`. So a four-field line `<normal>,<clearance>,<stock>,<hidden>`
  is a `Fatal` outcome.
