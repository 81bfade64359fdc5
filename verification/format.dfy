/** The formatter: which of the three line shapes each report row prints
    in. The digits of the printed prices are not modelled. */
module Format {
  import opened Products
  import opened Report

  /** The price part of a report line: none, one price, or a low-high range. */
  datatype Shape = NoPrice | SinglePrice(price: real) | PriceRange(low: real, high: real)

  /** A formatted report line: the category label, the product count and
      the price part. */
  datatype Line = Line(heading: string, count: nat, shape: Shape)

  /** The (low, high) pair a shape shows; a missing price reads as (0, 0). */
  function ShownRange(s: Shape): (real, real) {
    match s
    case NoPrice => (0.0, 0.0)
    case SinglePrice(p) => (p, p)
    case PriceRange(l, h) => (l, h)
  }

  /** The shape of a row: (0, 0) prints no price, equal bounds one price,
      anything else the range. The shape always shows the row's range back. */
  function ShapeOf(row: Row): (s: Shape)
    ensures ShownRange(s) == (row.low, row.high)
    ensures s.SinglePrice? ==> s.price != 0.0
    ensures s.PriceRange? ==> s.low != s.high
  {
    if row.low == 0.0 && row.high == 0.0 then NoPrice
    else if row.low == row.high then SinglePrice(row.low)
    else PriceRange(row.low, row.high)
  }

  /** The three shapes are told apart by the range alone: each canonical
      shape is the shape of any row showing its range. */
  lemma ShapeOfShownRange(s: Shape, row: Row)
    requires s.SinglePrice? ==> s.price != 0.0
    requires s.PriceRange? ==> s.low != s.high
    requires (row.low, row.high) == ShownRange(s)
    ensures ShapeOf(row) == s
  {
  }

  /** A printed line: the category's display name, the row's count, and
      the shape that shows the row's range (none for (0, 0), one price for
      equal ends, the range otherwise). */
  function FormatLine(row: Row): (line: Line)
    ensures line.heading == DisplayName(row.category) && line.count == row.count
    ensures ShownRange(line.shape) == (row.low, row.high)
    ensures line.shape.SinglePrice? ==> line.shape.price != 0.0
    ensures line.shape.PriceRange? ==> line.shape.low != line.shape.high
  {
    Line(DisplayName(row.category), row.count, ShapeOf(row))
  }

  /** The contract of `FormatLine` leaves no choice: a line with the row's
      heading and count whose shape is canonical and shows the row's range
      is the formatted line. */
  lemma FormatLineUnique(row: Row, line: Line)
    requires line.heading == DisplayName(row.category) && line.count == row.count
    requires ShownRange(line.shape) == (row.low, row.high)
    requires line.shape.SinglePrice? ==> line.shape.price != 0.0
    requires line.shape.PriceRange? ==> line.shape.low != line.shape.high
    ensures line == FormatLine(row)
  {
    ShapeOfShownRange(line.shape, row);
  }

  /** One formatted line per row, in the same order. */
  function FormatReport(rows: seq<Row>): (lines: seq<Line>)
    ensures |lines| == |rows|
    ensures forall i :: 0 <= i < |rows| ==> lines[i] == FormatLine(rows[i])
  {
    if |rows| == 0 then [] else [FormatLine(rows[0])] + FormatReport(rows[1..])
  }

  /** Rows of different categories print under different headings. */
  lemma HeadingsDistinct(rows: seq<Row>)
    requires forall i, j :: 0 <= i < j < |rows| ==> rows[i].category != rows[j].category
    ensures forall i, j :: 0 <= i < j < |rows| ==> FormatReport(rows)[i].heading != FormatReport(rows)[j].heading
  {
    DisplayNameInjective();
  }

  /** A category with no kept products prints a count of 0 without a price. */
  lemma EmptyCategoryPrintsNoPrice(kept: seq<Product>, c: Category)
    requires forall p :: p in kept ==> p.category != c
    ensures Summarize(kept, c).count == 0
    ensures ShapeOf(Summarize(kept, c)) == NoPrice
  {
    SummarizeBounds(kept, c);
  }

  /** A category with one kept product prints that product's clearance
      price, unless the price is 0. */
  lemma SingleProductPrintsItsPrice(kept: seq<Product>, p: Product)
    requires p in kept
    requires forall q :: q in kept && q.category == p.category ==> q == p
    ensures Summarize(kept, p.category).count > 0
    ensures ShapeOf(Summarize(kept, p.category))
         == if p.clearancePrice == 0.0 then NoPrice else SinglePrice(p.clearancePrice)
  {
    var row := Summarize(kept, p.category);
    SummarizeBounds(kept, p.category);
    var q :| q in kept && q.category == p.category && q.clearancePrice == row.low;
    var q' :| q' in kept && q'.category == p.category && q'.clearancePrice == row.high;
  }

  /** A range is printed only for a category with at least two products of
      different clearance prices, and its ends are those two prices, low
      strictly below high. */
  lemma RangeNeedsTwoPrices(kept: seq<Product>, c: Category)
    requires ShapeOf(Summarize(kept, c)).PriceRange?
    ensures Summarize(kept, c).low < Summarize(kept, c).high
    ensures exists p, q :: p in kept && q in kept && p.category == c && q.category == c
                        && p.clearancePrice == Summarize(kept, c).low
                        && q.clearancePrice == Summarize(kept, c).high
  {
    var row := Summarize(kept, c);
    SummarizeBounds(kept, c);
    var p :| p in kept && p.category == c && p.clearancePrice == row.low;
    var q :| q in kept && q.category == c && q.clearancePrice == row.high;
  }

  /** A category whose kept products all have clearance price 0 prints like
      an empty one, without a price, although its count is not 0. */
  lemma ZeroPricesPrintNoPrice(kept: seq<Product>, c: Category)
    requires exists p :: p in kept && p.category == c
    requires forall p :: p in kept && p.category == c ==> p.clearancePrice == 0.0
    ensures Summarize(kept, c).count > 0
    ensures ShapeOf(Summarize(kept, c)) == NoPrice
  {
    var row := Summarize(kept, c);
    SummarizeBounds(kept, c);
    var p :| p in kept && p.category == c && p.clearancePrice == row.low;
    var q :| q in kept && q.category == c && q.clearancePrice == row.high;
  }
}
