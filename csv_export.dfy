/**
 * The CSV side of report export: the generic `convertToCSV` serialiser, the
 * line-by-line assembly of the report CSV, and the report file name.
 *
 * A JavaScript record becomes a sequence of (key, value) pairs in key order,
 * and a value is a string, a number or absent. How a number is written
 * (`String(n)`) and how `toFixed(2)` writes one are parameters: this model
 * does no floating-point formatting.
 */
module CsvExport {
  import opened Strings
  import Analytics

  /** A value of a record: a string, a number, or nothing (`undefined`). */
  datatype Cell = Text(s: string) | Number(n: real) | Missing

  /** A plain object, its keys in `Object.keys` order. */
  type Record = seq<(string, Cell)>

  /** `Object.keys(r)`. */
  function Keys(r: Record): (ks: seq<string>)
    ensures |ks| == |r|
    ensures forall i :: 0 <= i < |r| ==> ks[i] == r[i].0
  {
    if r == [] then [] else [r[0].0] + Keys(r[1..])
  }

  /** `r[key]`: the value stored under `key`, or `Missing` when `r` has no such key. */
  function Lookup(r: Record, key: string): (c: Cell)
    ensures key !in Keys(r) ==> c == Missing
    ensures key in Keys(r) ==> exists i :: 0 <= i < |r| && r[i] == (key, c)
  {
    if r == [] then Missing
    else if r[0].0 == key then r[0].1
    else Lookup(r[1..], key)
  }

  /** Entries after the keys asked for do not change what a lookup finds. */
  lemma {:induction false} LookupAppend(r: Record, extra: Record, key: string)
    requires key !in Keys(extra)
    ensures Lookup(r + extra, key) == Lookup(r, key)
  {
    if r == [] {
      assert r + extra == extra;
    } else {
      assert (r + extra)[1..] == r[1..] + extra;
      LookupAppend(r[1..], extra, key);
    }
  }

  /** `s.replace(/"/g, '""')`: every double quote doubled. */
  function Double(s: string): (d: string)
    ensures forall c :: c in d <==> c in s
    ensures |d| == |s| + Count(s, '"')
  {
    if s == [] then ""
    else (if s[0] == '"' then "\"\"" else [s[0]]) + Double(s[1..])
  }

  /** What a CSV reader does inside a quoted field: each doubled quote back to one. */
  function Undouble(d: string): string
  {
    if d == [] then ""
    else if |d| >= 2 && d[0] == '"' && d[1] == '"' then "\"" + Undouble(d[2..])
    else [d[0]] + Undouble(d[1..])
  }

  lemma {:induction false} UndoubleDouble(s: string)
    ensures Undouble(Double(s)) == s
  {
    if s != [] {
      var d := Double(s);
      UndoubleDouble(s[1..]);
      if s[0] == '"' {
        assert d[2..] == Double(s[1..]);
      } else {
        assert d[1..] == Double(s[1..]);
      }
      assert [s[0]] + s[1..] == s;
    }
  }

  /** A string value is quoted exactly when it holds a comma or a double quote. */
  predicate NeedsQuotes(s: string)
  {
    ',' in s || '"' in s
  }

  /**
   * One field of a CSV line. A string with a comma or a quote is wrapped in
   * quotes with its inner quotes doubled; any other value is written as it
   * is, numbers through `num`; an absent value joins as "".
   */
  function RenderCell(c: Cell, num: real -> string): (f: string)
    ensures c.Missing? ==> f == ""
    ensures c.Text? && !NeedsQuotes(c.s) ==> f == c.s
    ensures c.Text? && NeedsQuotes(c.s) ==>
      |f| == |c.s| + Count(c.s, '"') + 2 && f[0] == '"' && f[|f| - 1] == '"'
  {
    match c
    case Text(s) => if NeedsQuotes(s) then "\"" + Double(s) + "\"" else s
    case Number(n) => num(n)
    case Missing => ""
  }

  /** How a CSV reader takes one field back: a quoted field loses its quotes and doubled quotes. */
  function ReadField(f: string): string
  {
    if |f| >= 2 && f[0] == '"' && f[|f| - 1] == '"' then Undouble(f[1..|f| - 1]) else f
  }

  /** Every string value survives rendering and reading back. */
  lemma TextRoundTrip(s: string, num: real -> string)
    ensures ReadField(RenderCell(Text(s), num)) == s
  {
    var f := RenderCell(Text(s), num);
    if NeedsQuotes(s) {
      assert f[1..|f| - 1] == Double(s);
      UndoubleDouble(s);
    } else if |s| >= 2 {
      assert s[0] in s;
    }
  }

  /** A string value is written unchanged exactly when it needs no quoting. */
  lemma TextUnchangedIff(s: string, num: real -> string)
    ensures RenderCell(Text(s), num) == s <==> !NeedsQuotes(s)
  {
    if NeedsQuotes(s) {
      assert |RenderCell(Text(s), num)| == |s| + Count(s, '"') + 2;
    }
  }

  /** Quoting neither adds nor removes line breaks. */
  lemma TextLineBreaks(s: string, num: real -> string)
    ensures '\n' in RenderCell(Text(s), num) <==> '\n' in s
  {
    if NeedsQuotes(s) {
      var f := RenderCell(Text(s), num);
      assert f == "\"" + Double(s) + "\"";
      assert '\n' in f <==> '\n' in Double(s);
    }
  }

  /** The fields of one data line: for each header, the rendering of the row's value under it. */
  function RowFields(r: Record, headers: seq<string>, num: real -> string): (fs: seq<string>)
    ensures |fs| == |headers|
  {
    seq(|headers|, j requires 0 <= j < |headers| => RenderCell(Lookup(r, headers[j]), num))
  }

  function RowLine(r: Record, headers: seq<string>, num: real -> string): string
  {
    Join(RowFields(r, headers, num), ",")
  }

  /** The lines of a non-empty table: the first row's keys, then one line per row under those keys. */
  function CsvLines(data: seq<Record>, num: real -> string): (ls: seq<string>)
    requires data != []
    ensures |ls| == |data| + 1
  {
    [Join(Keys(data[0]), ",")]
      + seq(|data|, i requires 0 <= i < |data| => RowLine(data[i], Keys(data[0]), num))
  }

  /** `convertToCSV`: "" for no rows, otherwise the header line and the row lines joined by "\n". */
  function ConvertToCSV(data: seq<Record>, num: real -> string): (csv: string)
    ensures csv == "" <==> data == []
  {
    if data == [] then ""
    else
      var ls := CsvLines(data, num);
      assert ls == [ls[0]] + ls[1..];
      ls[0] + "\n" + Join(ls[1..], "\n")
  }

  /** A value that writes out without a line break. */
  predicate NoBreak(c: Cell, num: real -> string)
  {
    match c
    case Text(s) => '\n' !in s
    case Number(n) => '\n' !in num(n)
    case Missing => true
  }

  /** No header and no value of any row holds a line break. */
  predicate LineFree(data: seq<Record>, num: real -> string)
  {
    data != []
    && (forall j :: 0 <= j < |Keys(data[0])| ==> '\n' !in Keys(data[0])[j])
    && (forall i, k :: 0 <= i < |data| && 0 <= k < |data[i]| ==> NoBreak(data[i][k].1, num))
  }

  lemma RenderNoBreak(c: Cell, num: real -> string)
    requires NoBreak(c, num)
    ensures '\n' !in RenderCell(c, num)
  {
    if c.Text? {
      TextLineBreaks(c.s, num);
    }
  }

  lemma {:induction false} JoinLines(ls: seq<string>)
    requires |ls| >= 1
    ensures Join(ls, "\n") == ls[0] + (if |ls| == 1 then "" else "\n" + Join(ls[1..], "\n"))
  {
  }

  /**
   * Without line breaks in the data, the output splits on "\n" into exactly
   * the header line and one line per row: rows + 1 lines.
   */
  lemma ConvertLines(data: seq<Record>, num: real -> string)
    requires LineFree(data, num)
    ensures SplitOn(ConvertToCSV(data, num), '\n') == CsvLines(data, num)
    ensures |SplitOn(ConvertToCSV(data, num), '\n')| == |data| + 1
  {
    var ls := CsvLines(data, num);
    JoinLines(ls);
    assert ConvertToCSV(data, num) == Join(ls, "\n");
    CsvLinesFree(data, num);
    SplitJoin(ls, '\n');
    SplitAllWithout(ls, '\n');
  }

  /** Without line breaks in the data, no line of the output holds one. */
  lemma CsvLinesFree(data: seq<Record>, num: real -> string)
    requires LineFree(data, num)
    ensures forall m :: 0 <= m < |CsvLines(data, num)| ==> '\n' !in CsvLines(data, num)[m]
  {
    forall m | 0 <= m < |data| + 1 {
      CsvLineFree(data, num, m);
    }
  }

  lemma CsvLineFree(data: seq<Record>, num: real -> string, m: int)
    requires LineFree(data, num) && 0 <= m < |data| + 1
    ensures '\n' !in CsvLines(data, num)[m]
  {
    if m == 0 {
      HeaderLineFree(data, num);
    } else {
      RowLineFree(data, num, m - 1);
    }
  }

  /** Without line breaks in the keys, the header line holds none. */
  lemma HeaderLineFree(data: seq<Record>, num: real -> string)
    requires LineFree(data, num)
    ensures '\n' !in Join(Keys(data[0]), ",")
  {
    JoinWithout(Keys(data[0]), ",", '\n');
  }

  /** Without line breaks in the data, no data line holds one. */
  lemma RowLineFree(data: seq<Record>, num: real -> string, i: int)
    requires LineFree(data, num) && 0 <= i < |data|
    ensures '\n' !in RowLine(data[i], Keys(data[0]), num)
  {
    var headers := Keys(data[0]);
    var fs := RowFields(data[i], headers, num);
    forall j | 0 <= j < |fs|
      ensures '\n' !in fs[j]
    {
      var c := Lookup(data[i], headers[j]);
      if headers[j] in Keys(data[i]) {
        var k :| 0 <= k < |data[i]| && data[i][k] == (headers[j], c);
        assert NoBreak(data[i][k].1, num);
      }
      RenderNoBreak(c, num);
    }
    JoinWithout(fs, ",", '\n');
  }

  /** A header the row does not have gives an empty field. */
  lemma MissingKeyEmptyField(r: Record, headers: seq<string>, num: real -> string, j: int)
    requires 0 <= j < |headers| && headers[j] !in Keys(r)
    ensures RowFields(r, headers, num)[j] == ""
  {
  }

  /** Keys that only later rows have are dropped: they never reach a line. */
  lemma ExtraKeysDropped(r: Record, extra: Record, headers: seq<string>, num: real -> string)
    requires forall j :: 0 <= j < |headers| ==> headers[j] !in Keys(extra)
    ensures RowLine(r + extra, headers, num) == RowLine(r, headers, num)
  {
    forall j | 0 <= j < |headers|
      ensures Lookup(r + extra, headers[j]) == Lookup(r, headers[j])
    {
      LookupAppend(r, extra, headers[j]);
    }
    assert RowFields(r + extra, headers, num) == RowFields(r, headers, num);
  }

  /**
   * When no value of the row renders with a comma, a data line splits on ","
   * into exactly one field per header, in header order.
   */
  lemma RowColumns(r: Record, headers: seq<string>, num: real -> string)
    requires |headers| >= 1
    requires forall j :: 0 <= j < |headers| ==> ',' !in RenderCell(Lookup(r, headers[j]), num)
    ensures SplitOn(RowLine(r, headers, num), ',') == RowFields(r, headers, num)
    ensures |SplitOn(RowLine(r, headers, num), ',')| == |headers|
  {
    var fs := RowFields(r, headers, num);
    assert forall j :: 0 <= j < |fs| ==> ',' !in fs[j];
    SplitJoin(fs, ',');
    SplitAllWithout(fs, ',');
  }

  // ---------------------------------------------------------------------
  // The report CSV.
  // ---------------------------------------------------------------------

  /** The parts of a report the CSV export reads. */
  datatype Report = Report(period: string, startDate: string, endDate: string,
                           totalOrders: int, totalRevenue: int, totalCustomers: int,
                           averageOrderValue: real,
                           topProducts: seq<Analytics.TopProduct>,
                           categoryBreakdown: seq<Analytics.CategoryBreakdown>)

  /** The seven "Metric,Value" lines, written without any quoting. */
  function SummaryLines(rep: Report, num: real -> string, fixed2: real -> string): (ls: seq<string>)
    ensures |ls| == 7
  {
    [ "Period," + rep.period,
      "Start Date," + rep.startDate,
      "End Date," + rep.endDate,
      "Total Orders," + num(rep.totalOrders as real),
      "Total Revenue," + num(rep.totalRevenue as real),
      "Total Customers," + num(rep.totalCustomers as real),
      "Average Order Value," + fixed2(rep.averageOrderValue) ]
  }

  function ProductRecord(p: Analytics.TopProduct, fixed2: real -> string): Record
  {
    [ ("Product", Text(p.name)),
      ("Category", Text(p.category)),
      ("Units Sold", Number(p.totalSales as real)),
      ("Revenue", Text(fixed2(p.totalRevenue as real))),
      ("Order Count", Number(p.orderCount as real)) ]
  }

  function CategoryRecord(c: Analytics.CategoryBreakdown, fixed2: real -> string): Record
  {
    [ ("Category", Text(c.category)),
      ("Units Sold", Number(c.totalSales as real)),
      ("Revenue", Text(fixed2(c.totalRevenue as real))),
      ("Order Count", Number(c.orderCount as real)),
      ("Percentage", Text(fixed2(c.percentage))) ]
  }

  function ProductRecords(rep: Report, fixed2: real -> string): (rs: seq<Record>)
    ensures |rs| == |rep.topProducts|
  {
    seq(|rep.topProducts|, i requires 0 <= i < |rep.topProducts| => ProductRecord(rep.topProducts[i], fixed2))
  }

  function CategoryRecords(rep: Report, fixed2: real -> string): (rs: seq<Record>)
    ensures |rs| == |rep.categoryBreakdown|
  {
    seq(|rep.categoryBreakdown|, i requires 0 <= i < |rep.categoryBreakdown| => CategoryRecord(rep.categoryBreakdown[i], fixed2))
  }

  /** "SUMMARY", the metric lines, a blank line and the "TOP PRODUCTS" title. */
  function ReportHead(rep: Report, num: real -> string, fixed2: real -> string): (ls: seq<string>)
    ensures |ls| == 10 && ls[0] == "SUMMARY"
  {
    ["SUMMARY"] + SummaryLines(rep, num, fixed2) + ["", "TOP PRODUCTS"]
  }

  /** The whole report CSV: summary, products and categories, joined by "\n". */
  function ReportCsv(rep: Report, num: real -> string, fixed2: real -> string): (r: string)
    ensures |r| >= 8 && r[..8] == "SUMMARY\n"
    ensures var c := ConvertToCSV(CategoryRecords(rep, fixed2), num);
      |r| > |c| && r[|r| - |c| - 1..] == "\n" + c
  {
    var head := ReportHead(rep, num, fixed2);
    var p := ConvertToCSV(ProductRecords(rep, fixed2), num);
    var c := ConvertToCSV(CategoryRecords(rep, fixed2), num);
    ReportEnds(head, p, c);
    Join(head + [p] + ["", "CATEGORY BREAKDOWN"] + [c], "\n")
  }

  /** The report opens with the "SUMMARY" line and closes with the category table. */
  lemma ReportEnds(head: seq<string>, p: string, c: string)
    requires |head| >= 1 && head[0] == "SUMMARY"
    ensures var r := Join(head + [p] + ["", "CATEGORY BREAKDOWN"] + [c], "\n");
      |r| >= 8 && r[..8] == "SUMMARY\n" && |r| > |c| && r[|r| - |c| - 1..] == "\n" + c
  {
    var front := head + [p] + ["", "CATEGORY BREAKDOWN"];
    assert front[0] == "SUMMARY";
    JoinSnoc(front, "\n", c);
  }

  /** The lines a table contributes: one empty line when it has no rows. */
  function Section(data: seq<Record>, num: real -> string): (ls: seq<string>)
    ensures |ls| == |data| + 1 || (data == [] && |ls| == 1)
  {
    if data == [] then [""] else CsvLines(data, num)
  }

  /** No report string and no formatted number holds a line break. */
  ghost predicate ReportLineFree(rep: Report, num: real -> string, fixed2: real -> string)
  {
    '\n' !in rep.period && '\n' !in rep.startDate && '\n' !in rep.endDate
    && (forall x :: '\n' !in num(x))
    && (forall x :: '\n' !in fixed2(x))
    && (forall i :: 0 <= i < |rep.topProducts| ==>
          '\n' !in rep.topProducts[i].name && '\n' !in rep.topProducts[i].category)
    && (forall i :: 0 <= i < |rep.categoryBreakdown| ==> '\n' !in rep.categoryBreakdown[i].category)
  }

  lemma SectionLines(data: seq<Record>, num: real -> string)
    requires data == [] || LineFree(data, num)
    ensures SplitOn(ConvertToCSV(data, num), '\n') == Section(data, num)
  {
    if data != [] {
      ConvertLines(data, num);
    }
  }

  lemma ProductsLineFree(rep: Report, num: real -> string, fixed2: real -> string)
    requires ReportLineFree(rep, num, fixed2) && rep.topProducts != []
    ensures LineFree(ProductRecords(rep, fixed2), num)
  {
    var data: seq<Record> := ProductRecords(rep, fixed2);
    ProductRecordFree(rep.topProducts[0], num, fixed2);
    forall i | 0 <= i < |data|
      ensures forall k :: 0 <= k < |data[i]| ==> NoBreak(data[i][k].1, num)
    {
      var p := rep.topProducts[i];
      ProductRecordFree(p, num, fixed2);
    }
  }

  lemma ProductRecordFree(p: Analytics.TopProduct, num: real -> string, fixed2: real -> string)
    requires '\n' !in p.name && '\n' !in p.category && '\n' !in fixed2(p.totalRevenue as real)
    requires '\n' !in num(p.totalSales as real) && '\n' !in num(p.orderCount as real)
    ensures forall k :: 0 <= k < |ProductRecord(p, fixed2)| ==> NoBreak(ProductRecord(p, fixed2)[k].1, num)
    ensures forall j :: 0 <= j < |ProductRecord(p, fixed2)| ==> '\n' !in Keys(ProductRecord(p, fixed2))[j]
  {
    assert Keys(ProductRecord(p, fixed2)) == ["Product", "Category", "Units Sold", "Revenue", "Order Count"];
  }

  lemma CategoriesLineFree(rep: Report, num: real -> string, fixed2: real -> string)
    requires ReportLineFree(rep, num, fixed2) && rep.categoryBreakdown != []
    ensures LineFree(CategoryRecords(rep, fixed2), num)
  {
    var data: seq<Record> := CategoryRecords(rep, fixed2);
    CategoryRecordFree(rep.categoryBreakdown[0], num, fixed2);
    forall i | 0 <= i < |data|
      ensures forall k :: 0 <= k < |data[i]| ==> NoBreak(data[i][k].1, num)
    {
      var c := rep.categoryBreakdown[i];
      CategoryRecordFree(c, num, fixed2);
    }
  }

  lemma CategoryRecordFree(c: Analytics.CategoryBreakdown, num: real -> string, fixed2: real -> string)
    requires '\n' !in c.category && '\n' !in fixed2(c.totalRevenue as real) && '\n' !in fixed2(c.percentage)
    requires '\n' !in num(c.totalSales as real) && '\n' !in num(c.orderCount as real)
    ensures forall k :: 0 <= k < |CategoryRecord(c, fixed2)| ==> NoBreak(CategoryRecord(c, fixed2)[k].1, num)
    ensures forall j :: 0 <= j < |CategoryRecord(c, fixed2)| ==> '\n' !in Keys(CategoryRecord(c, fixed2))[j]
  {
    assert Keys(CategoryRecord(c, fixed2)) == ["Category", "Units Sold", "Revenue", "Order Count", "Percentage"];
  }

  lemma HeadLineFree(rep: Report, num: real -> string, fixed2: real -> string)
    requires ReportLineFree(rep, num, fixed2)
    ensures forall i :: 0 <= i < |ReportHead(rep, num, fixed2)| ==> '\n' !in ReportHead(rep, num, fixed2)[i]
  {
    assert '\n' !in num(rep.totalOrders as real);
    assert '\n' !in num(rep.totalRevenue as real);
    assert '\n' !in num(rep.totalCustomers as real);
    assert '\n' !in fixed2(rep.averageOrderValue);
  }

  lemma {:induction false} SplitAllOne(s: string, c: char)
    ensures SplitAll([s], c) == SplitOn(s, c)
  {
    assert [s][1..] == [];
  }

  /** Splitting the joined report parts: the plain lines stay, each table splits into its own lines. */
  lemma {:induction false} SplitParts(head: seq<string>, p: string, mid: seq<string>, c: string)
    requires forall i :: 0 <= i < |head| ==> '\n' !in head[i]
    requires forall i :: 0 <= i < |mid| ==> '\n' !in mid[i]
    requires |head| >= 1
    ensures SplitOn(Join(head + [p] + mid + [c], "\n"), '\n')
         == head + SplitOn(p, '\n') + mid + SplitOn(c, '\n')
  {
    SplitJoin(head + [p] + mid + [c], '\n');
    SplitAllAppend(head + [p] + mid, [c], '\n');
    SplitAllAppend(head + [p], mid, '\n');
    SplitAllAppend(head, [p], '\n');
    SplitAllWithout(head, '\n');
    SplitAllWithout(mid, '\n');
    SplitAllOne(p, '\n');
    SplitAllOne(c, '\n');
  }

  /**
   * The report's line layout: "SUMMARY", the seven metric lines, a blank line,
   * "TOP PRODUCTS" and the product table, a blank line, "CATEGORY BREAKDOWN"
   * and the category table; an empty table leaves one empty line.
   */
  lemma ReportLayout(rep: Report, num: real -> string, fixed2: real -> string)
    requires ReportLineFree(rep, num, fixed2)
    ensures SplitOn(ReportCsv(rep, num, fixed2), '\n')
         == ReportHead(rep, num, fixed2)
            + Section(ProductRecords(rep, fixed2), num)
            + ["", "CATEGORY BREAKDOWN"]
            + Section(CategoryRecords(rep, fixed2), num)
  {
    var products := ProductRecords(rep, fixed2);
    var categories := CategoryRecords(rep, fixed2);
    var p := ConvertToCSV(products, num);
    var c := ConvertToCSV(categories, num);
    var head := ReportHead(rep, num, fixed2);
    HeadLineFree(rep, num, fixed2);
    TitleLinesFree();
    SplitParts(head, p, ["", "CATEGORY BREAKDOWN"], c);
    if products != [] {
      ProductsLineFree(rep, num, fixed2);
    }
    if categories != [] {
      CategoriesLineFree(rep, num, fixed2);
    }
    SectionLines(products, num);
    SectionLines(categories, num);
  }

  lemma TitleLinesFree()
    ensures forall i :: 0 <= i < |["", "CATEGORY BREAKDOWN"]| ==> '\n' !in ["", "CATEGORY BREAKDOWN"][i]
  {
  }

  /** With at least one product, the product table's header names its five columns in this order. */
  lemma ProductHeader(rep: Report, num: real -> string, fixed2: real -> string)
    requires rep.topProducts != []
    ensures Keys(ProductRecords(rep, fixed2)[0]) == ["Product", "Category", "Units Sold", "Revenue", "Order Count"]
  {
  }

  /** With at least one category, the category table's header names its five columns in this order. */
  lemma CategoryHeader(rep: Report, num: real -> string, fixed2: real -> string)
    requires rep.categoryBreakdown != []
    ensures Keys(CategoryRecords(rep, fixed2)[0]) == ["Category", "Units Sold", "Revenue", "Order Count", "Percentage"]
  {
  }

  // ---------------------------------------------------------------------
  // The report file name.
  // ---------------------------------------------------------------------

  /** The characters the `\s` class of a JavaScript regular expression matches. */
  predicate IsJsSpace(c: char)
  {
    var n := c as int;
    (9 <= n <= 13) || n == 32 || n == 0xA0 || n == 0x1680 || (0x2000 <= n <= 0x200A)
    || n == 0x2028 || n == 0x2029 || n == 0x202F || n == 0x205F || n == 0x3000 || n == 0xFEFF
  }

  /** `s` without its leading characters of class `space`. */
  function DropSpaces(s: string, space: char -> bool): (r: string)
    ensures |r| <= |s|
  {
    if s != [] && space(s[0]) then DropSpaces(s[1..], space) else s
  }

  /**
   * `s.replace(/\s+/g, "_")` for the character class `space`: every maximal
   * run of its characters becomes one "_".
   */
  function CollapseSpaces(s: string, space: char -> bool): (r: string)
    ensures |r| <= |s|
    decreases |s|
  {
    if s == [] then ""
    else if space(s[0]) then "_" + CollapseSpaces(DropSpaces(s[1..], space), space)
    else [s[0]] + CollapseSpaces(s[1..], space)
  }

  /** Nothing of the class is left after collapsing, as long as "_" is not in it. */
  lemma {:induction false} CollapseNoSpaces(s: string, space: char -> bool)
    requires !space('_')
    ensures forall i :: 0 <= i < |CollapseSpaces(s, space)| ==> !space(CollapseSpaces(s, space)[i])
    decreases |s|
  {
    if s != [] {
      if space(s[0]) {
        CollapseNoSpaces(DropSpaces(s[1..], space), space);
      } else {
        CollapseNoSpaces(s[1..], space);
      }
    }
  }

  /** A name without whitespace is kept as it is. */
  lemma {:induction false} CollapseKeepsPlain(s: string, space: char -> bool)
    requires forall i :: 0 <= i < |s| ==> !space(s[i])
    ensures CollapseSpaces(s, space) == s
  {
    if s != [] {
      CollapseKeepsPlain(s[1..], space);
      assert [s[0]] + s[1..] == s;
    }
  }

  /** Leading whitespace of `x` stops before its last character when that is not a space, also in `x + y`. */
  lemma {:induction false} DropSpacesAppend(x: string, y: string, space: char -> bool)
    requires x != [] && !space(x[|x| - 1])
    ensures DropSpaces(x + y, space) == DropSpaces(x, space) + y
    ensures DropSpaces(x, space) != [] && DropSpaces(x, space)[|DropSpaces(x, space)| - 1] == x[|x| - 1]
  {
    if space(x[0]) {
      assert (x + y)[1..] == x[1..] + y;
      DropSpacesAppend(x[1..], y, space);
    }
  }

  /** A whitespace run followed by a non-space is dropped whole. */
  lemma {:induction false} DropSpacesRun(w: string, b: string, space: char -> bool)
    requires forall i :: 0 <= i < |w| ==> space(w[i])
    requires b == [] || !space(b[0])
    ensures DropSpaces(w + b, space) == b
  {
    if w == [] {
      assert w + b == b;
    } else {
      assert (w + b)[1..] == w[1..] + b;
      DropSpacesRun(w[1..], b, space);
    }
  }

  /**
   * A maximal run of whitespace between `a` and `b` becomes exactly one "_",
   * and each side is collapsed on its own.
   */
  lemma {:induction false} CollapseRun(a: string, w: string, b: string, space: char -> bool)
    requires |w| > 0 && forall i :: 0 <= i < |w| ==> space(w[i])
    requires a == [] || !space(a[|a| - 1])
    requires b == [] || !space(b[0])
    ensures CollapseSpaces(a + w + b, space) == CollapseSpaces(a, space) + "_" + CollapseSpaces(b, space)
    decreases |a|, 1
  {
    if a == [] {
      CollapseRunFront(a, w, b, space);
    } else if space(a[0]) {
      CollapseRunAfterSpace(a, w, b, space);
    } else {
      CollapseRunAfterChar(a, w, b, space);
    }
  }

  lemma {:induction false} CollapseRunFront(a: string, w: string, b: string, space: char -> bool)
    requires a == []
    requires |w| > 0 && forall i :: 0 <= i < |w| ==> space(w[i])
    requires b == [] || !space(b[0])
    ensures CollapseSpaces(a + w + b, space) == CollapseSpaces(a, space) + "_" + CollapseSpaces(b, space)
  {
    assert a + w + b == w + b;
    var s := w + b;
    assert s[0] == w[0];
    assert s[1..] == w[1..] + b;
    DropSpacesRun(w[1..], b, space);
  }

  lemma {:induction false} CollapseRunAfterSpace(a: string, w: string, b: string, space: char -> bool)
    requires |w| > 0 && forall i :: 0 <= i < |w| ==> space(w[i])
    requires a != [] && space(a[0]) && !space(a[|a| - 1])
    requires b == [] || !space(b[0])
    ensures CollapseSpaces(a + w + b, space) == CollapseSpaces(a, space) + "_" + CollapseSpaces(b, space)
    decreases |a|, 0
  {
    var d := DropSpaces(a[1..], space);
    var cd := CollapseSpaces(d, space);
    var cb := CollapseSpaces(b, space);
    DropAfterSpace(a, w + b, space);
    calc {
      CollapseSpaces(a + w + b, space);
    == { AppendAssoc(a, w, b); }
      CollapseSpaces(a + (w + b), space);
    == // the leading run of `a` ends inside `a`
      "_" + CollapseSpaces(d + (w + b), space);
    == { AppendAssoc(d, w, b); }
      "_" + CollapseSpaces(d + w + b, space);
    == { CollapseRun(d, w, b, space); }
      "_" + ((cd + "_") + cb);
    == { AppendAssoc("_", cd + "_", cb); AppendAssoc("_", cd, "_"); }
      ("_" + cd) + "_" + cb;
    == // and `a` alone collapses the same way
      CollapseSpaces(a, space) + "_" + cb;
    }
  }

  /** After a leading space of `a`, the run it starts ends inside `a`, also when more text follows. */
  lemma {:induction false} DropAfterSpace(a: string, y: string, space: char -> bool)
    requires a != [] && space(a[0]) && !space(a[|a| - 1])
    ensures CollapseSpaces(a + y, space) == "_" + CollapseSpaces(DropSpaces(a[1..], space) + y, space)
    ensures CollapseSpaces(a, space) == "_" + CollapseSpaces(DropSpaces(a[1..], space), space)
    ensures DropSpaces(a[1..], space) != []
    ensures !space(DropSpaces(a[1..], space)[|DropSpaces(a[1..], space)| - 1])
  {
    var s := a + y;
    assert s[0] == a[0];
    assert s[1..] == a[1..] + y;
    DropSpacesAppend(a[1..], y, space);
  }

  lemma {:induction false} CollapseRunAfterChar(a: string, w: string, b: string, space: char -> bool)
    requires |w| > 0 && forall i :: 0 <= i < |w| ==> space(w[i])
    requires a != [] && !space(a[0]) && !space(a[|a| - 1])
    requires b == [] || !space(b[0])
    ensures CollapseSpaces(a + w + b, space) == CollapseSpaces(a, space) + "_" + CollapseSpaces(b, space)
    decreases |a|, 0
  {
    var t := a[1..] + w + b;
    assert a + w + b == [a[0]] + t;
    assert a == [a[0]] + a[1..];
    CollapseCons(a[0], t, space);
    CollapseCons(a[0], a[1..], space);
    CollapseRun(a[1..], w, b, space);
    AppendAssoc([a[0]], CollapseSpaces(a[1..], space) + "_", CollapseSpaces(b, space));
    AppendAssoc([a[0]], CollapseSpaces(a[1..], space), "_");
  }

  /** A leading character outside the class is kept as it is. */
  lemma CollapseCons(x: char, t: string, space: char -> bool)
    requires !space(x)
    ensures CollapseSpaces([x] + t, space) == [x] + CollapseSpaces(t, space)
  {
    assert ([x] + t)[1..] == t;
  }

  /** The CSV report's file name; `date` is today's date as "yyyy-MM-dd". */
  function ReportFileName(storeName: string, period: string, date: string): (name: string)
    ensures |name| == |CollapseSpaces(storeName, IsJsSpace)| + |period| + |date| + 13
    ensures forall i :: 0 <= i < |CollapseSpaces(storeName, IsJsSpace)| ==> !IsJsSpace(name[i])
    ensures var k := |CollapseSpaces(storeName, IsJsSpace)|;
            && name[..k] == CollapseSpaces(storeName, IsJsSpace)
            && name[k] == '_'
            && name[k + 1..k + 1 + |period|] == period
            && name[k + 1 + |period|..k + 9 + |period|] == "_report_"
            && name[k + 9 + |period|..|name| - 4] == date
            && name[|name| - 4..] == ".csv"
  {
    CollapseNoSpaces(storeName, IsJsSpace);
    CollapseSpaces(storeName, IsJsSpace) + "_" + period + "_report_" + date + ".csv"
  }
}
