/** The whole run after the text has been obtained: parse it, build the
    report from the products, and format one line per category. */
module Pipeline {
  import opened Text
  import opened Products
  import opened Report
  import opened ReportProperties
  import opened Format
  import opened Parse

  /** How a run ends: the "no data" message, a fatal fault on a line, or the
      printed report. */
  datatype RunOutcome = NoDataMessage | Crash(line: nat) | Printed(lines: seq<Line>)

  /** A run prints "no data", crashes at the first line that does not
      parse, or prints one line per category: that category's count and
      price range over the parsed products in stock, busiest first. */
  function Run(contents: string, conv: Converters): (r: RunOutcome)
    ensures r.NoDataMessage? <==> |contents| == 0 || contents[0] == '\n'
    ensures r.Crash? <==> ParseContents(contents, conv).Fatal?
    ensures r.Crash? ==> ParseContents(contents, conv) == Fatal(r.line)
    ensures r.Printed? ==> ParseContents(contents, conv).Parsed? && |r.lines| == 3
    ensures r.Printed? ==> forall i, j :: 0 <= i < j < 3 ==> r.lines[i].count >= r.lines[j].count
    ensures r.Printed? ==> forall i, j :: 0 <= i < j < 3 ==> r.lines[i].heading != r.lines[j].heading
    ensures r.Printed? ==>
      var kept := KeepInStock(ParseContents(contents, conv).products);
      && r.lines[0].count + r.lines[1].count + r.lines[2].count == |kept|
      && forall i :: 0 <= i < 3 ==> exists c :: r.lines[i] == FormatLine(Summarize(kept, c))
  {
    match ParseContents(contents, conv)
    case NoData => NoDataMessage
    case Fatal(line) => Crash(line)
    case Parsed(_, products) =>
      var rows := GenerateReport(products);
      ReportCoversEachCategoryOnce(products);
      ReportCountsSumToKept(products);
      ReportRowsAreCategorySummaries(products);
      HeadingsDistinct(rows);
      Printed(FormatReport(rows))
  }
}
