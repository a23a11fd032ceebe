/**
 * The text `exportCSV` builds in components/QuoteGenerator.tsx: a header
 * row, then one row per displayed line, cells joined by a bare comma and rows
 * by a newline, with no quoting of any kind.
 */
module CsvExport {
  import opened Types
  import opened Strings
  import opened Cart

  /** The five columns every document has. */
  function BaseHeaders(language: Language): (r: seq<string>)
    ensures |r| == 5
  {
    if language == Zh then ["类型", "型号/规格", "详情", "颜色", "单价"]
    else ["Type", "Model/Spec", "Details", "Color", "Unit Price"]
  }

  /** The header row: a quotation adds quantity and total after the five common columns. */
  function Headers(language: Language, docType: DocumentType): (r: seq<string>)
    ensures |r| == if docType == Quotation then 7 else 5
    ensures r[..5] == BaseHeaders(language)
    ensures docType == Quotation ==> r[5..] == (if language == Zh then ["数量", "总价"] else ["Qty", "Total"])
  {
    BaseHeaders(language) +
      (if docType == Quotation then (if language == Zh then ["数量", "总价"] else ["Qty", "Total"]) else [])
  }

  /**
   * The cells of one line. Every row is exactly as wide as the header; the
   * numbers are written as bare decimal numbers (no currency sign, no
   * grouping, no leading zero) and read back as the line's price, quantity
   * and quantity times price.
   */
  function Row(item: CartItem, docType: DocumentType): (r: seq<string>)
    ensures forall language :: |r| == |Headers(language, docType)|
    ensures r[0] == item.TypeTag()
    ensures r[4] == IntToString(item.Price()) && ParseInt(r[4]) == item.Price()
    ensures docType == Quotation ==>
              && r[5] == IntToString(item.quantity) && ParseInt(r[5]) == item.quantity
              && r[6] == IntToString(item.quantity * item.Price()) && ParseInt(r[6]) == item.quantity * item.Price()
    ensures item.VehicleLine? ==> r[1] == item.product.model && r[2] == item.product.name
    ensures item.VehicleLine? && docType == PriceList ==> r[3] == Join(item.product.colors, "; ")
    ensures item.VehicleLine? && docType == Quotation ==> r[3] == item.selectedColor
    ensures item.AccessoryLine? ==>
              && r[1] == item.accessory.voltage + " " + item.accessory.capacity
              && r[2] == (if item.accessory.category == Battery then "Battery" else "Charger")
              && r[3] == ""
  {
    var spec := if item.VehicleLine? then item.product.model
                else item.accessory.voltage + " " + item.accessory.capacity;
    var details := if item.VehicleLine? then item.product.name
                   else if item.accessory.category == Battery then "Battery" else "Charger";
    var color := if item.AccessoryLine? then ""
                 else if docType == PriceList then Join(item.product.colors, "; ")
                 else item.selectedColor;
    IntToStringRoundTrip(item.Price());
    IntToStringRoundTrip(item.quantity);
    IntToStringRoundTrip(item.quantity * item.Price());
    [item.TypeTag(), spec, details, color, IntToString(item.Price())] +
      (if docType == Quotation
       then [IntToString(item.quantity), IntToString(item.quantity * item.Price())]
       else [])
  }

  /** The lines of the file: the header row, then one row per line of `items`, in order. */
  function CsvLines(language: Language, docType: DocumentType, items: seq<CartItem>): (r: seq<string>)
    ensures |r| == |items| + 1
    ensures r[0] == Join(Headers(language, docType), ",")
    ensures forall i :: 0 <= i < |items| ==> r[i + 1] == Join(Row(items[i], docType), ",")
  {
    [Join(Headers(language, docType), ",")] +
      seq(|items|, i requires 0 <= i < |items| => Join(Row(items[i], docType), ","))
  }

  /** The scheme, media type and byte-order mark in front of the file's text. */
  const DataUriPrefix: string := "data:text/csv;charset=utf-8,\U{FEFF}"

  /**
   * The string handed to the download link: the data URI prefix, then the
   * lines of the file separated by newlines.
   */
  function CsvContent(language: Language, docType: DocumentType, items: seq<CartItem>): (r: string)
    ensures |r| > |DataUriPrefix| && r[..|DataUriPrefix|] == DataUriPrefix
    ensures r[|DataUriPrefix|..] == Join(CsvLines(language, docType, items), "\n")
  {
    var lines := CsvLines(language, docType, items);
    JoinFirstLength(lines, "\n");
    DataUriPrefix + Join(lines, "\n")
  }

  lemma JoinFirstLength(parts: seq<string>, sep: string)
    requires |parts| >= 1
    ensures |Join(parts, sep)| >= |parts[0]|
  {
    if |parts| >= 2 {
      JoinFirst(parts, sep);
    }
  }

  predicate NoCellHolds(cells: seq<string>, c: char) {
    forall k :: 0 <= k < |cells| ==> c !in cells[k]
  }

  /**
   * A data row splits back into its cells, one per header column, as long as
   * no cell contains a comma.
   */
  lemma RowReadsBack(language: Language, docType: DocumentType, items: seq<CartItem>, i: int)
    requires 0 <= i < |items|
    requires NoCellHolds(Row(items[i], docType), ',')
    ensures Split(CsvLines(language, docType, items)[i + 1], ',') == Row(items[i], docType)
    ensures |Split(CsvLines(language, docType, items)[i + 1], ',')| == |Headers(language, docType)|
  {
    SplitJoin(Row(items[i], docType), ',');
  }

  /**
   * The file splits back into its lines, header first, as long as no cell
   * contains a newline.
   */
  lemma LinesReadBack(language: Language, docType: DocumentType, items: seq<CartItem>)
    requires NoCellHolds(Headers(language, docType), '\n')
    requires forall i :: 0 <= i < |items| ==> NoCellHolds(Row(items[i], docType), '\n')
    ensures Split(Join(CsvLines(language, docType, items), "\n"), '\n') == CsvLines(language, docType, items)
  {
    var lines := CsvLines(language, docType, items);
    forall j | 0 <= j < |lines| ensures '\n' !in lines[j] {
      if j == 0 {
        JoinAvoids(Headers(language, docType), ",", '\n');
      } else {
        JoinAvoids(Row(items[j - 1], docType), ",", '\n');
      }
    }
    SplitJoin(lines, '\n');
  }

  /**
   * Without quoting, a comma inside a cell adds a column: a quotation row for
   * a vehicle whose model is "A,B" reads back as eight cells under a
   * seven-column header.
   */
  lemma CommaInCellAddsColumn(p: Product, language: Language)
    requires p.model == "A,B"
    requires ',' !in p.name
    ensures var line := CsvLines(language, Quotation, [VehicleLine(p, 1, "Red")])[1];
            |Split(line, ',')| == |Headers(language, Quotation)| + 1
  {
    var row := Row(VehicleLine(p, 1, "Red"), Quotation);
    assert CsvLines(language, Quotation, [VehicleLine(p, 1, "Red")])[1] == Join(row, ",");
    var rest := [p.name, "Red", IntToString(p.price), IntToString(1), IntToString(1 * p.price)];
    assert row == ["vehicle"] + (["A,B"] + rest);
    NoCommaInNumber(p.price);
    NoCommaInNumber(1);
    NoCommaInNumber(1 * p.price);
    var pieces := ["vehicle"] + (["A"] + (["B"] + rest));
    assert forall k :: 0 <= k < |pieces| ==> ',' !in pieces[k];
    assert "A,B" == "A" + "," + "B";
    SeparatorSplitsCell("vehicle", "A", "B", rest, ",");
    SplitJoin(pieces, ',');
  }

  /** Joined with `sep`, a cell `x + sep + y` reads the same as the two cells `x` and `y`. */
  lemma SeparatorSplitsCell(first: string, x: string, y: string, rest: seq<string>, sep: string)
    requires |rest| >= 1
    ensures Join([first] + ([x + sep + y] + rest), sep) == Join([first] + ([x] + ([y] + rest)), sep)
  {
    var t := Join(rest, sep);
    calc {
      Join([first] + ([x + sep + y] + rest), sep);
    == { JoinCons(first, [x + sep + y] + rest, sep); }
      first + sep + Join([x + sep + y] + rest, sep);
    == { JoinCons(x + sep + y, rest, sep); }
      first + sep + (x + sep + y + sep + t);
    == { ConcatAssoc(x + sep, y, sep + t); }
      first + sep + (x + sep + (y + sep + t));
    == { JoinCons(y, rest, sep); }
      first + sep + (x + sep + Join([y] + rest, sep));
    == { JoinCons(x, [y] + rest, sep); }
      first + sep + Join([x] + ([y] + rest), sep);
    == { JoinCons(first, [x] + ([y] + rest), sep); }
      Join([first] + ([x] + ([y] + rest)), sep);
    }
  }

  lemma ConcatAssoc(a: string, b: string, c: string)
    ensures a + b + c == a + (b + c)
  {
  }

  lemma NoCommaInNumber(n: int)
    ensures ',' !in IntToString(n)
  {
    var s := IntToString(n);
    if n >= 0 {
      assert forall k :: 0 <= k < |s| ==> IsDigit(s[k]);
    } else {
      var d := NatToString(-n);
      assert s == "-" + d;
      assert forall k :: 0 <= k < |d| ==> IsDigit(d[k]);
    }
  }
}
