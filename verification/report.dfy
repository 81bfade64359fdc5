/** The report builder (`generateReport`): keep the products with more than
    three in stock, summarize each category, and order the summaries by
    descending product count. */
module Report {
  import opened Seqs
  import opened Products

  /** One summary line before formatting (the source's `Output`): a
      category, how many kept products it has, and the lowest and highest
      clearance price among them, with (0, 0) when there are none. */
  datatype Row = Row(category: Category, count: nat, low: real, high: real)

  /** Products with stock at or below this are left out of the report. */
  const StockThreshold := 3

  predicate HasStock(p: Product) {
    p.quantityInStock > StockThreshold
  }

  /** The products that reach the report, in their original order. */
  function KeepInStock(products: seq<Product>): (kept: seq<Product>)
    ensures forall p :: p in kept <==> p in products && p.quantityInStock > StockThreshold
  {
    FilterBy(products, HasStock)
  }

  /** Each product in stock is kept as many times as it occurs; the others
      not at all. */
  lemma KeepInStockCounts(products: seq<Product>)
    ensures forall p :: multiset(KeepInStock(products))[p]
                     == if p.quantityInStock > StockThreshold then multiset(products)[p] else 0
  {
    FilterByCounts(products, HasStock);
  }

  /** Filtering keeps relative order: it distributes over concatenation. */
  lemma KeepInStockConcat(a: seq<Product>, b: seq<Product>)
    ensures KeepInStock(a + b) == KeepInStock(a) + KeepInStock(b)
  {
    FilterByConcat(a, b, HasStock);
  }

  /** A product with stock at or below the threshold changes nothing,
      wherever it sits in the input. */
  lemma LowStockIsInvisible(a: seq<Product>, p: Product, b: seq<Product>)
    requires p.quantityInStock <= StockThreshold
    ensures KeepInStock(a + [p] + b) == KeepInStock(a + b)
    ensures GenerateReport(a + [p] + b) == GenerateReport(a + b)
  {
    KeepInStockConcat(a + [p], b);
    KeepInStockConcat(a, [p]);
    KeepInStockConcat(a, b);
    assert KeepInStock([p]) == [] by {
      assert [p][1..] == [];
    }
    assert KeepInStock(a + [p]) == KeepInStock(a) + [] == KeepInStock(a);
  }

  function InCategory(c: Category): Product -> bool {
    (p: Product) => p.category == c
  }

  /** The kept products of category `c`, in their original order. */
  function Members(kept: seq<Product>, c: Category): (m: seq<Product>)
    ensures forall p :: p in m <==> p in kept && p.category == c
  {
    FilterBy(kept, InCategory(c))
  }

  function ClearanceKey(p: Product): real {
    p.clearancePrice
  }

  /** The summary of category `c`: its size, and the first and last
      clearance price after sorting its members by ascending clearance price,
      or (0, 0) when it has no members. */
  function Summarize(kept: seq<Product>, c: Category): (row: Row)
    ensures row.category == c
    ensures row.count == |Members(kept, c)|
    ensures row.count == 0 ==> row.low == 0.0 && row.high == 0.0
  {
    var sorted := SortBy(Members(kept, c), ClearanceKey);
    if |sorted| == 0 then Row(c, 0, 0.0, 0.0)
    else Row(c, |sorted|, sorted[0].clearancePrice, sorted[|sorted| - 1].clearancePrice)
  }

  /** The first and last sorted prices are the least and the greatest
      clearance price of the category, and a category is empty exactly when
      no kept product belongs to it. */
  lemma SummarizeBounds(kept: seq<Product>, c: Category)
    ensures var row := Summarize(kept, c);
      && (row.count == 0 <==> forall p :: p in kept ==> p.category != c)
      && row.low <= row.high
      && (forall p :: p in kept && p.category == c ==> row.low <= p.clearancePrice <= row.high)
      && (row.count > 0 ==> exists p :: p in kept && p.category == c && p.clearancePrice == row.low)
      && (row.count > 0 ==> exists p :: p in kept && p.category == c && p.clearancePrice == row.high)
  {
    var members := Members(kept, c);
    var sorted := SortBy(members, ClearanceKey);
    if |sorted| > 0 {
      SortedEnds(sorted, ClearanceKey);
      assert forall p :: p in members <==> p in sorted by {
        forall p ensures p in members <==> p in sorted {
          assert p in members <==> p in multiset(members);
        }
      }
      assert sorted[0] in sorted && sorted[|sorted| - 1] in sorted;
    }
  }

  /** One summary row per category of `cats`, in the order of `cats`. */
  function SummarizeAll(kept: seq<Product>, cats: seq<Category>): (rows: seq<Row>)
    ensures |rows| == |cats|
    ensures forall i :: 0 <= i < |cats| ==> rows[i] == Summarize(kept, cats[i])
  {
    if |cats| == 0 then [] else [Summarize(kept, cats[0])] + SummarizeAll(kept, cats[1..])
  }

  /** The three category rows, in category declaration order. */
  function CategoryRows(kept: seq<Product>): (rows: seq<Row>)
    ensures |rows| == |AllCategories|
    ensures forall i :: 0 <= i < |rows| ==> rows[i].category == AllCategories[i]
  {
    SummarizeAll(kept, AllCategories)
  }

  function CountKey(row: Row): real {
    -(row.count as real)
  }

  /** The rows reordered by descending count. */
  function SortByCount(rows: seq<Row>): (sorted: seq<Row>)
    ensures |sorted| == |rows|
    ensures multiset(sorted) == multiset(rows)
    ensures forall i, j :: 0 <= i < j < |sorted| ==> sorted[i].count >= sorted[j].count
  {
    var sorted := SortBy(rows, CountKey);
    assert forall i, j :: 0 <= i < j < |sorted| ==> CountKey(sorted[i]) <= CountKey(sorted[j]);
    sorted
  }

  /** The whole report: the category rows of the kept products, reordered
      so that counts never increase. */
  function GenerateReport(products: seq<Product>): (rows: seq<Row>)
    ensures multiset(rows) == multiset(CategoryRows(KeepInStock(products)))
    ensures forall i, j :: 0 <= i < j < |rows| ==> rows[i].count >= rows[j].count
  {
    SortByCount(CategoryRows(KeepInStock(products)))
  }

  /** Every category's members are counted exactly once: the three counts
      add up to the number of kept products. */
  lemma {:induction false} CategoryCountsPartition(kept: seq<Product>)
    ensures |Members(kept, NormalPrice)| + |Members(kept, ClearancePrice)|
          + |Members(kept, PriceInCart)| == |kept|
  {
    if |kept| > 0 {
      CategoryCountsPartition(kept[1..]);
    }
  }
}

/** Properties of the whole report: it is a reordering of the three
    category rows, covers every category once, and depends only on which
    products are given, not on their order. */
module ReportProperties {
  import opened Seqs
  import opened Products
  import opened Report

  /** What a reordering of three distinct rows keeps: the rows themselves,
      their categories and their total count. */
  lemma PermutationOfThree(rows: seq<Row>, x: Row, y: Row, z: Row)
    requires x != y && y != z && x != z
    requires multiset(rows) == multiset([x, y, z])
    ensures |rows| == 3
    ensures forall i :: 0 <= i < 3 ==> rows[i] == x || rows[i] == y || rows[i] == z
    ensures {rows[0].category, rows[1].category, rows[2].category} == {x.category, y.category, z.category}
    ensures rows[0].count + rows[1].count + rows[2].count == x.count + y.count + z.count
    ensures x.category != y.category && y.category != z.category && x.category != z.category ==>
      forall i, j :: 0 <= i < j < 3 ==> rows[i].category != rows[j].category
  {
    assert |rows| == |multiset(rows)| == 3;
    forall i | 0 <= i < 3 ensures rows[i] == x || rows[i] == y || rows[i] == z {
      assert rows[i] in multiset(rows);
    }
    assert x in multiset(rows) && y in multiset(rows) && z in multiset(rows);
  }

  /** The category rows are the summaries of the three categories, in
      declaration order. */
  lemma CategoryRowsInOrder(kept: seq<Product>)
    ensures CategoryRows(kept)
         == [Summarize(kept, NormalPrice), Summarize(kept, ClearancePrice), Summarize(kept, PriceInCart)]
  {
    var rows := CategoryRows(kept);
    assert rows[0] == Summarize(kept, AllCategories[0]);
    assert rows[1] == Summarize(kept, AllCategories[1]);
    assert rows[2] == Summarize(kept, AllCategories[2]);
  }

  /** The report is a reordering of the three category rows. */
  lemma ReportReordersCategoryRows(products: seq<Product>)
    ensures var kept := KeepInStock(products);
      var n, c, h := Summarize(kept, NormalPrice), Summarize(kept, ClearancePrice), Summarize(kept, PriceInCart);
      multiset(GenerateReport(products)) == multiset([n, c, h])
  {
    CategoryRowsInOrder(KeepInStock(products));
  }

  /** The report has exactly one row for each category. */
  lemma ReportCoversEachCategoryOnce(products: seq<Product>)
    ensures var rows := GenerateReport(products);
      && {rows[0].category, rows[1].category, rows[2].category} == {NormalPrice, ClearancePrice, PriceInCart}
      && forall i, j :: 0 <= i < j < |rows| ==> rows[i].category != rows[j].category
  {
    var kept := KeepInStock(products);
    ReportReordersCategoryRows(products);
    PermutationOfThree(GenerateReport(products),
      Summarize(kept, NormalPrice), Summarize(kept, ClearancePrice), Summarize(kept, PriceInCart));
  }

  /** A row that is one of the three category summaries is the summary of
      its own category. */
  lemma SummaryOfOwnCategory(kept: seq<Product>, r: Row)
    requires || r == Summarize(kept, NormalPrice) || r == Summarize(kept, ClearancePrice)
             || r == Summarize(kept, PriceInCart)
    ensures r == Summarize(kept, r.category)
  {
  }

  /** Each report row is the summary of its own category. */
  lemma ReportRowsAreCategorySummaries(products: seq<Product>)
    ensures var rows := GenerateReport(products);
      forall i :: 0 <= i < |rows| ==> rows[i] == Summarize(KeepInStock(products), rows[i].category)
  {
    var kept := KeepInStock(products);
    var rows := GenerateReport(products);
    ReportReordersCategoryRows(products);
    PermutationOfThree(rows,
      Summarize(kept, NormalPrice), Summarize(kept, ClearancePrice), Summarize(kept, PriceInCart));
    forall i | 0 <= i < |rows| ensures rows[i] == Summarize(kept, rows[i].category) {
      SummaryOfOwnCategory(kept, rows[i]);
    }
  }

  /** The report's counts add up to the number of kept products. */
  lemma ReportCountsSumToKept(products: seq<Product>)
    ensures var rows := GenerateReport(products);
      rows[0].count + rows[1].count + rows[2].count == |KeepInStock(products)|
  {
    var kept := KeepInStock(products);
    ReportReordersCategoryRows(products);
    PermutationOfThree(GenerateReport(products),
      Summarize(kept, NormalPrice), Summarize(kept, ClearancePrice), Summarize(kept, PriceInCart));
    CategoryCountsPartition(kept);
  }

  /** Reordering the input reorders the kept products the same way. */
  lemma KeepInStockOfPermutation(a: seq<Product>, b: seq<Product>)
    requires multiset(a) == multiset(b)
    ensures multiset(KeepInStock(a)) == multiset(KeepInStock(b))
  {
    var ka, kb := KeepInStock(a), KeepInStock(b);
    KeepInStockCounts(a);
    KeepInStockCounts(b);
    assert forall p :: multiset(ka)[p] == multiset(kb)[p];
  }

  /** A category summary depends only on which products are kept, not on
      their order. */
  lemma SummarizeOfPermutation(ka: seq<Product>, kb: seq<Product>, c: Category)
    requires multiset(ka) == multiset(kb)
    ensures Summarize(ka, c) == Summarize(kb, c)
  {
    FilterByLengthOfPermutation(ka, kb, InCategory(c));
    var sa := SortBy(Members(ka, c), ClearanceKey);
    var sb := SortBy(Members(kb, c), ClearanceKey);
    if |sa| > 0 {
      SortedPermutationsShareEnds(sa, sb, ClearanceKey);
    }
  }

  /** The report does not depend on the order of the input products. */
  lemma ReportIgnoresOrder(a: seq<Product>, b: seq<Product>)
    requires multiset(a) == multiset(b)
    ensures GenerateReport(a) == GenerateReport(b)
  {
    var ka, kb := KeepInStock(a), KeepInStock(b);
    KeepInStockOfPermutation(a, b);
    SummarizeOfPermutation(ka, kb, NormalPrice);
    SummarizeOfPermutation(ka, kb, ClearancePrice);
    SummarizeOfPermutation(ka, kb, PriceInCart);
    CategoryRowsInOrder(ka);
    CategoryRowsInOrder(kb);
  }
}
