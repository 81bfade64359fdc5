/** The line parser (`parseContents`): split the text into lines, split
    each line into comma fields, and turn each line into a price-type label
    or a product. Text-to-number conversion is supplied from outside. */
module Parse {
  import opened Wrappers
  import opened Seqs
  import opened Text
  import opened Products

  /** A declared price-type label (the source's `PriceType`). */
  datatype PriceType = PriceType(idKey: string, displayName: string)

  /** What one line parses to. */
  datatype Record = TypeRecord(priceType: PriceType) | ProductRecord(product: Product)

  /** The number conversions the parser relies on, `Double(_:)` and
      `Int(_:)`: each yields no value for text it does not accept. */
  datatype Converters = Converters(toReal: string -> Option<real>, toInt: string -> Option<int>)

  /** How a run over a whole text ends: no data, a fatal fault on the line
      with the given index (an unchecked conversion or a missing field), or
      the parsed records. */
  datatype Outcome =
    | NoData
    | Fatal(line: nat)
    | Parsed(types: seq<PriceType>, products: seq<Product>)

  /** The text form of a boolean. */
  function BoolText(b: bool): string {
    if b then "true" else "false"
  }

  /** Boolean conversion (`Bool(_:)`): exactly "true" and "false" convert. */
  function ParseBool(s: string): (r: Option<bool>)
    ensures forall b :: r == Some(b) <==> s == BoolText(b)
  {
    if s == "true" then Some(true)
    else if s == "false" then Some(false)
    else None
  }

  /** A line declares a price type when its first comma field is "Type". */
  predicate IsTypeLine(line: string) {
    SplitOn(line, ',')[0] == "Type"
  }

  /** The first field is "Type" exactly when the line is "Type" or starts
      with "Type,". */
  lemma IsTypeLineByPrefix(line: string)
    ensures IsTypeLine(line) <==> line == "Type" || (|line| >= 5 && line[..5] == "Type,")
  {
    if line == "Type" {
      SplitNoSeparator(line, ',');
    } else if |line| >= 5 && line[..5] == "Type," {
      assert line == "Type" + [','] + line[5..];
      SplitAtSeparator("Type", line[5..], ',');
    } else {
      FirstPiece(line, ',');
    }
  }

  /** One line: a "Type" line gives a label, any other line a product;
      `None` stands for the fatal fault of a missing field or a failed
      conversion. */
  function ParseLine(line: string, conv: Converters): (r: Option<Record>)
    ensures r.Some? && r.value.ProductRecord? ==> WellFormed(r.value.product)
  {
    var f := SplitOn(line, ',');
    if f[0] == "Type" then
      if |f| < 3 then None else Some(TypeRecord(PriceType(f[1], f[2])))
    else if |f| < 5 then None
    else
      match (conv.toReal(f[1]), conv.toReal(f[2]), conv.toInt(f[3]), ParseBool(f[4]))
      case (Some(normal), Some(clearance), Some(stock), Some(hidden)) =>
        Some(ProductRecord(MakeProduct(normal, clearance, stock, hidden)))
      case _ => None
  }

  /** What a line parses to, field by field. A "Type" line needs fields 1
      and 2, the identifier and the display name. Any other line needs fields
      1 to 4 to convert: normal price, clearance price, stock and hidden flag;
      its field 0 is ignored. */
  lemma ParseLineFields(line: string, conv: Converters)
    ensures var r := ParseLine(line, conv);
      var f := SplitOn(line, ',');
      && (r.Some? && r.value.TypeRecord? <==> IsTypeLine(line) && |f| >= 3)
      && (r.Some? && r.value.TypeRecord? ==> r.value.priceType == PriceType(f[1], f[2]))
      && (r.Some? && r.value.ProductRecord? <==>
            && !IsTypeLine(line) && |f| >= 5
            && conv.toReal(f[1]).Some? && conv.toReal(f[2]).Some?
            && conv.toInt(f[3]).Some? && ParseBool(f[4]).Some?)
      && (r.Some? && r.value.ProductRecord? ==>
            && r.value.product.normalPrice == conv.toReal(f[1]).value
            && r.value.product.clearancePrice == conv.toReal(f[2]).value
            && r.value.product.quantityInStock == conv.toInt(f[3]).value
            && BoolText(r.value.product.priceIsHidden) == f[4])
  {
  }

  /** The text of a price-type line. */
  function TypeLineText(t: PriceType): string
    requires ',' !in t.idKey && ',' !in t.displayName
  {
    JoinWith(["Type", t.idKey, t.displayName], ',')
  }

  /** A price-type line parses back to the price type it was written from. */
  lemma TypeLineRoundTrip(t: PriceType, conv: Converters)
    requires ',' !in t.idKey && ',' !in t.displayName
    ensures ParseLine(TypeLineText(t), conv) == Some(TypeRecord(t))
  {
    SplitJoin(["Type", t.idKey, t.displayName], ',');
  }

  /** A five-field product line whose fields convert parses to the product
      those values build. */
  lemma ProductLineRoundTrip(fields: seq<string>, conv: Converters,
                             normal: real, clearance: real, stock: int, hidden: bool)
    requires |fields| == 5 && fields[0] != "Type"
    requires forall i :: 0 <= i < 5 ==> ',' !in fields[i]
    requires conv.toReal(fields[1]) == Some(normal) && conv.toReal(fields[2]) == Some(clearance)
    requires conv.toInt(fields[3]) == Some(stock) && fields[4] == BoolText(hidden)
    ensures ParseLine(JoinWith(fields, ','), conv)
         == Some(ProductRecord(MakeProduct(normal, clearance, stock, hidden)))
  {
    SplitJoin(fields, ',');
  }

  /** Each line parsed on its own, in order. */
  function ParseEach(lines: seq<string>, conv: Converters): (parsed: seq<Option<Record>>)
    ensures |parsed| == |lines|
    ensures forall i :: 0 <= i < |lines| ==> parsed[i] == ParseLine(lines[i], conv)
  {
    if |lines| == 0 then [] else [ParseLine(lines[0], conv)] + ParseEach(lines[1..], conv)
  }

  lemma {:induction false} ParseEachConcat(a: seq<string>, b: seq<string>, conv: Converters)
    ensures ParseEach(a + b, conv) == ParseEach(a, conv) + ParseEach(b, conv)
  {
    if |a| == 0 {
      assert a + b == b;
    } else {
      assert (a + b)[0] == a[0];
      assert (a + b)[1..] == a[1..] + b;
      ParseEachConcat(a[1..], b, conv);
    }
  }

  /** Gathers parsed lines in order: the first line that could not be parsed
      is fatal for the whole run; otherwise the labels and the products are
      collected in input order. */
  function Collect(parsed: seq<Option<Record>>): (r: Outcome)
    ensures !r.NoData?
    ensures r.Parsed? <==> forall i :: 0 <= i < |parsed| ==> parsed[i].Some?
    ensures r.Fatal? ==> r.line < |parsed| && parsed[r.line].None?
    ensures r.Fatal? ==> forall i :: 0 <= i < r.line ==> parsed[i].Some?
    ensures r.Parsed? ==> |r.types| + |r.products| == |parsed|
  {
    if |parsed| == 0 then Parsed([], [])
    else
      match parsed[0]
      case None => Fatal(0)
      case Some(record) =>
        var rest := Collect(parsed[1..]);
        assert forall i :: 1 <= i < |parsed| ==> parsed[i] == parsed[1..][i - 1];
        if rest.Fatal? then Fatal(rest.line + 1)
        else if record.TypeRecord? then Parsed([record.priceType] + rest.types, rest.products)
        else Parsed(rest.types, [record.product] + rest.products)
  }

  /** Collecting a concatenation of fault-free parts concatenates the
      results: labels and products keep their input order. */
  lemma {:induction false} CollectConcat(a: seq<Option<Record>>, b: seq<Option<Record>>)
    requires Collect(a).Parsed? && Collect(b).Parsed?
    ensures Collect(a + b)
         == Parsed(Collect(a).types + Collect(b).types, Collect(a).products + Collect(b).products)
  {
    if |a| == 0 {
      assert a + b == b;
    } else {
      assert (a + b)[0] == a[0];
      assert (a + b)[1..] == a[1..] + b;
      CollectConcat(a[1..], b);
      var ra, rb := Collect(a[1..]), Collect(b);
      var record := a[0].value;
      if record.TypeRecord? {
        assert [record.priceType] + (ra.types + rb.types) == ([record.priceType] + ra.types) + rb.types;
      } else {
        assert [record.product] + (ra.products + rb.products) == ([record.product] + ra.products) + rb.products;
      }
    }
  }

  /** Every collected product comes from a parsed product record. */
  lemma {:induction false} CollectProductsFromRecords(parsed: seq<Option<Record>>)
    requires Collect(parsed).Parsed?
    ensures forall p :: p in Collect(parsed).products ==> Some(ProductRecord(p)) in parsed
  {
    if |parsed| > 0 {
      CollectProductsFromRecords(parsed[1..]);
      assert forall e :: e in parsed[1..] ==> e in parsed;
    }
  }

  /** The collected labels are exactly the parsed label records, in input
      order. */
  lemma {:induction false} CollectTypesInOrder(parsed: seq<Option<Record>>)
    requires Collect(parsed).Parsed?
    ensures var f := FilterBy(parsed, IsTypeEntry);
      && |Collect(parsed).types| == |f|
      && forall i :: 0 <= i < |f| ==> f[i] == Some(TypeRecord(Collect(parsed).types[i]))
  {
    if |parsed| > 0 {
      CollectTypesInOrder(parsed[1..]);
    }
  }

  /** The collected products are exactly the parsed product records, in
      input order. */
  lemma {:induction false} CollectProductsInOrder(parsed: seq<Option<Record>>)
    requires Collect(parsed).Parsed?
    ensures var f := FilterBy(parsed, IsProductEntry);
      && |Collect(parsed).products| == |f|
      && forall i :: 0 <= i < |f| ==> f[i] == Some(ProductRecord(Collect(parsed).products[i]))
  {
    if |parsed| > 0 {
      CollectProductsInOrder(parsed[1..]);
    }
  }

  predicate IsTypeEntry(entry: Option<Record>) {
    entry.Some? && entry.value.TypeRecord?
  }

  predicate IsProductEntry(entry: Option<Record>) {
    entry.Some? && entry.value.ProductRecord?
  }

  /** The lines in order: each parsed on its own, then collected. */
  function ParseLines(lines: seq<string>, conv: Converters): (r: Outcome)
    ensures !r.NoData?
    ensures r.Parsed? <==> forall i :: 0 <= i < |lines| ==> ParseLine(lines[i], conv).Some?
    ensures r.Fatal? ==> r.line < |lines| && ParseLine(lines[r.line], conv).None?
    ensures r.Fatal? ==> forall i :: 0 <= i < r.line ==> ParseLine(lines[i], conv).Some?
    ensures r.Parsed? ==> |r.types| + |r.products| == |lines|
  {
    Collect(ParseEach(lines, conv))
  }

  /** Parsed text joined line after line gives labels and products in the
      same order. */
  lemma ParseLinesConcat(a: seq<string>, b: seq<string>, conv: Converters)
    requires ParseLines(a, conv).Parsed? && ParseLines(b, conv).Parsed?
    ensures ParseLines(a + b, conv)
         == Parsed(ParseLines(a, conv).types + ParseLines(b, conv).types,
                   ParseLines(a, conv).products + ParseLines(b, conv).products)
  {
    ParseEachConcat(a, b, conv);
    CollectConcat(ParseEach(a, conv), ParseEach(b, conv));
  }

  predicate IsProductLine(line: string) {
    !IsTypeLine(line)
  }

  /** When every line parses, the label records are the parses of the
      "Type" lines and the product records the parses of the other lines,
      each in input order. */
  lemma {:induction false} ParseEachByKind(lines: seq<string>, conv: Converters)
    requires forall i :: 0 <= i < |lines| ==> ParseLine(lines[i], conv).Some?
    ensures FilterBy(ParseEach(lines, conv), IsTypeEntry) == ParseEach(FilterBy(lines, IsTypeLine), conv)
    ensures FilterBy(ParseEach(lines, conv), IsProductEntry) == ParseEach(FilterBy(lines, IsProductLine), conv)
  {
    if |lines| > 0 {
      ParseEachByKind(lines[1..], conv);
      assert ParseEach(lines, conv)[1..] == ParseEach(lines[1..], conv);
    }
  }

  /** The parsed labels come from the "Type" lines, one each, in order. */
  lemma ParsedTypesInOrder(lines: seq<string>, conv: Converters)
    requires ParseLines(lines, conv).Parsed?
    ensures var t := FilterBy(lines, IsTypeLine);
      && |ParseLines(lines, conv).types| == |t|
      && forall i :: 0 <= i < |t| ==> ParseLine(t[i], conv) == Some(TypeRecord(ParseLines(lines, conv).types[i]))
  {
    CollectTypesInOrder(ParseEach(lines, conv));
    ParseEachByKind(lines, conv);
  }

  /** The parsed products come from the other lines, one each, in order. */
  lemma ParsedProductsInOrder(lines: seq<string>, conv: Converters)
    requires ParseLines(lines, conv).Parsed?
    ensures var t := FilterBy(lines, IsProductLine);
      && |ParseLines(lines, conv).products| == |t|
      && forall i :: 0 <= i < |t| ==> ParseLine(t[i], conv) == Some(ProductRecord(ParseLines(lines, conv).products[i]))
  {
    CollectProductsInOrder(ParseEach(lines, conv));
    ParseEachByKind(lines, conv);
  }

  /** Every parsed product is well formed: its category is the one its
      prices and flag determine. */
  lemma ParsedProductsWellFormed(lines: seq<string>, conv: Converters)
    requires ParseLines(lines, conv).Parsed?
    ensures forall p :: p in ParseLines(lines, conv).products ==> WellFormed(p)
  {
    var parsed := ParseEach(lines, conv);
    CollectProductsFromRecords(parsed);
    forall p | p in ParseLines(lines, conv).products ensures WellFormed(p) {
      var i :| 0 <= i < |parsed| && parsed[i] == Some(ProductRecord(p));
    }
  }

  /** The whole text: no data when the first line is empty, else every line
      parsed, failing at the first line that cannot be. */
  function ParseContents(contents: string, conv: Converters): (r: Outcome)
    ensures r.NoData? <==> |contents| == 0 || contents[0] == '\n'
    ensures r.Parsed? <==> !r.NoData? && forall line :: line in SplitOn(contents, '\n') ==> ParseLine(line, conv).Some?
    ensures r.Fatal? ==> r.line < |SplitOn(contents, '\n')| && ParseLine(SplitOn(contents, '\n')[r.line], conv).None?
    ensures r.Fatal? ==> forall i :: 0 <= i < r.line ==> ParseLine(SplitOn(contents, '\n')[i], conv).Some?
    ensures r.Parsed? ==> |r.types| + |r.products| == |SplitOn(contents, '\n')|
  {
    var lines := SplitOn(contents, '\n');
    FirstPieceEmpty(contents, '\n');
    if lines[0] == "" then NoData else ParseLines(lines, conv)
  }

  /** An empty line cannot be parsed: it is not a "Type" line and has too
      few fields for a product. */
  lemma EmptyLineIsFatal(conv: Converters)
    ensures ParseLine("", conv).None?
  {
  }

  /** Text with data that ends in a newline always ends in a fatal fault:
      the empty last line is read as a product. */
  lemma TrailingNewlineIsFatal(contents: string, conv: Converters)
    requires |contents| > 0 && contents[0] != '\n' && contents[|contents| - 1] == '\n'
    ensures ParseContents(contents, conv).Fatal?
  {
    var body := contents[..|contents| - 1];
    assert contents == body + ['\n'];
    SplitTrailingSeparator(body, '\n');
    var lines := SplitOn(contents, '\n');
    assert lines[|lines| - 1] == "";
    EmptyLineIsFatal(conv);
  }

  /** Well-formed data followed by a newline crashes exactly at the empty
      line after that newline. */
  lemma TrailingNewlineCrashesAfterData(data: string, conv: Converters)
    requires |data| > 0 && data[0] != '\n'
    requires forall line :: line in SplitOn(data, '\n') ==> ParseLine(line, conv).Some?
    ensures ParseContents(data + ['\n'], conv) == Fatal(|SplitOn(data, '\n')|)
  {
    var contents := data + ['\n'];
    SplitTrailingSeparator(data, '\n');
    TrailingNewlineIsFatal(contents, conv);
    var lines := SplitOn(contents, '\n');
    assert forall i :: 0 <= i < |lines| - 1 ==> lines[i] in SplitOn(data, '\n');
  }
}
