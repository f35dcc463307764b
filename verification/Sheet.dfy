/** The worksheet writer of frontend/src/lib/simpleXlsx.ts and the worksheet
    reader of frontend/src/lib/attachmentExcel.ts. */
module Sheet {
  import opened Text
  import opened Xml
  import opened XmlScan

  /** A number is carried as the digits JavaScript prints for it; a number that
      is not finite is written as the word it prints. */
  datatype Cell = Empty | Words(text: string) | Number(digits: string)

  type Row = seq<Cell>

  predicate NumeralChar(c: char) {
    IsDigit(c) || c == '-' || c == '+' || c == '.' || c == 'e'
  }

  predicate Printable(c: Cell) {
    c.Number? ==> c.digits != "" && forall i :: 0 <= i < |c.digits| ==> NumeralChar(c.digits[i])
  }

  // ------------------------------------------------------------------- columns

  function Letters(v: nat): string {
    if v == 0 then "" else Letters((v - 1) / 26) + [('A' as int + (v - 1) % 26) as char]
  }

  method ColumnName(index: nat) returns (result: string)
    ensures result == Letters(index + 1)
  {
    var value: nat := index + 1;
    result := "";
    while value > 0
      invariant Letters(value) + result == Letters(index + 1)
    {
      ghost var before, tail := value, result;
      value := value - 1;
      var letter := ('A' as int + value % 26) as char;
      assert Letters(before) == Letters(value / 26) + [letter];
      assert Letters(value / 26) + [letter] + tail == Letters(value / 26) + ([letter] + tail);
      result := [letter] + result;
      value := value / 26;
    }
  }

  predicate Capital(c: char) {
    'A' <= c <= 'Z'
  }

  function LettersValue(ref: string, n: nat): nat {
    if ref == "" || !Capital(ref[0]) then n else LettersValue(ref[1..], n * 26 + (ref[0] as int - 64))
  }

  function IndexOfColumn(ref: string): nat {
    if LettersValue(ref, 0) == 0 then 0 else LettersValue(ref, 0) - 1
  }

  method ColumnIndex(ref: string) returns (index: nat)
    ensures index == IndexOfColumn(ref)
  {
    var n: nat := 0;
    for i := 0 to |ref|
      invariant LettersValue(ref[i..], n) == LettersValue(ref, 0)
    {
      if !Capital(ref[i]) {
        break;
      }
      n := n * 26 + (ref[i] as int - 64);
    }
    index := if n == 0 then 0 else n - 1;
  }

  /** Where the names get longer: A to Z, AA to ZZ, AAA on. */
  lemma NamesGrow()
    ensures Letters(1) == "A" && Letters(2) == "B" && Letters(26) == "Z"
    ensures Letters(27) == "AA" && Letters(28) == "AB" && Letters(53) == "BA" && Letters(702) == "ZZ" && Letters(703) == "AAA"
  {
    assert Letters(1) == Letters(0) + "A" && Letters(26) == Letters(0) + "Z";
    assert Letters(27) == Letters(1) + "A" && Letters(702) == Letters(26) + "Z" && Letters(703) == Letters(27) + "A";
  }

  // ------------------------------------------------------------------ the writer

  function Printed(c: Cell): string {
    match c
    case Empty => ""
    case Words(text) => text
    case Number(digits) => digits
  }

  function WidthOf(s: string): nat {
    if s == "" then 0 else (if s[0] > '\U{00FF}' then 2 else 1) + WidthOf(s[1..])
  }

  function Widest(rows: seq<Row>, column: nat): nat {
    if rows == [] then 8
    else
      var w := if column < |rows[0]| then WidthOf(Printed(rows[0][column])) else 0;
      var rest := Widest(rows[1..], column);
      if w > rest then w else rest
  }

  function ColumnWidth(rows: seq<Row>, column: nat): nat {
    if Widest(rows, column) + 2 < 48 then Widest(rows, column) + 2 else 48
  }

  function ColumnCount(rows: seq<Row>): nat {
    if rows == [] then 1
    else
      var rest := ColumnCount(rows[1..]);
      if |rows[0]| > rest then |rows[0]| else rest
  }

  function ColumnPieces(rows: seq<Row>, n: nat): seq<Piece> {
    if n == 0 then []
    else
      ColumnPieces(rows, n - 1)
      + [Open("col", Att("min", Decimal(n)) + Att("max", Decimal(n)) + Att("width", Decimal(ColumnWidth(rows, n - 1)))
                     + Att("customWidth", "1") + "/")]
  }

  function Reference(row: nat, column: nat): string {
    Letters(column + 1) + Decimal(row + 1)
  }

  function CellAttrs(row: nat, column: nat, c: Cell): string {
    match c
    case Number(_) => Att("r", Reference(row, column)) + Att("s", if row == 0 then "1" else "2")
    case _ => Att("r", Reference(row, column)) + Att("t", "inlineStr") + Att("s", if row == 0 then "1" else "0")
  }

  function CellContent(c: Cell): seq<Piece> {
    match c
    case Number(digits) => [Open("v", ""), Chars(digits), Shut("v")]
    case _ => [Open("is", ""), Open("t", Att("xml:space", "preserve")), Chars(EscapeXml(Printed(c))), Shut("t"), Shut("is")]
  }

  /** A cell is left out when it has nothing to show. */
  predicate IsWritten(c: Cell) {
    Printed(c) != ""
  }

  function CellPieces(row: nat, column: nat, c: Cell): seq<Piece> {
    if IsWritten(c) then [Open("c", CellAttrs(row, column, c))] + CellContent(c) + [Shut("c")] else []
  }

  function CellsPieces(row: nat, cells: Row): seq<Piece> {
    if cells == [] then []
    else CellsPieces(row, cells[..|cells| - 1]) + CellPieces(row, |cells| - 1, cells[|cells| - 1])
  }

  function RowPieces(row: nat, cells: Row): seq<Piece> {
    [Open("row", Att("r", Decimal(row + 1)))] + CellsPieces(row, cells) + [Shut("row")]
  }

  function RowsPieces(rows: seq<Row>): seq<Piece> {
    if rows == [] then [] else RowsPieces(rows[..|rows| - 1]) + RowPieces(|rows| - 1, rows[|rows| - 1])
  }

  const NAMESPACE := "http://schemas." + "openxmlformats.org/" + "spreadsheetml/2006/main"

  function Head(rows: seq<Row>): seq<Piece> {
    [ Open("", "?xml" + Att("version", "1.0") + Att("encoding", "UTF-8") + Att("standalone", "yes") + "?"),
      Open("worksheet", Att("xmlns", NAMESPACE)),
      Open("sheetViews", ""),
      Open("sheetView", Att("workbookViewId", "0")),
      Open("pane", Att("ySplit", "1") + Att("topLeftCell", "A2") + Att("activePane", "bottomLeft") + Att("state", "frozen") + "/"),
      Shut("sheetView"),
      Shut("sheetViews"),
      Open("cols", "")]
    + ColumnPieces(rows, ColumnCount(rows))
    + [Shut("cols"), Open("sheetData", "")]
  }

  function LastCell(rows: seq<Row>): string {
    Letters(ColumnCount(rows)) + Decimal(if |rows| > 1 then |rows| else 1)
  }

  function Tail(rows: seq<Row>): seq<Piece> {
    [Shut("sheetData"), Open("autoFilter", Att("ref", "A1:" + LastCell(rows)) + "/"), Shut("worksheet")]
  }

  function WorksheetXml(rows: seq<Row>): string {
    Render(Head(rows) + RowsPieces(rows) + Tail(rows))
  }

  // ------------------------------------------------------------------ the reader

  const ROW := Kind("row", false, false)
  const CELL := Kind("c", false, true)
  const TEXT := Kind("t", true, false)
  const VALUE := Kind("v", true, false)

  /** What the reader looks up elsewhere: numeric character references, the
      shared strings, and how a value is shown under a cell style. */
  datatype Lookups = Lookups(numeric: string -> string, shared: string -> string, shown: (string, string) -> string)

  function Joined(es: seq<Element>): string {
    if es == [] then "" else Joined(es[..|es| - 1]) + es[|es| - 1].body
  }

  function CollectText(xml: string, look: Lookups): string {
    XmlUnescape(Joined(Elements(TEXT, xml)), look.numeric)
  }

  function FirstValue(xml: string, look: Lookups): string {
    var found := Elements(VALUE, xml);
    if found == [] then "" else XmlUnescape(found[0].body, look.numeric)
  }

  function CellValue(e: Element, look: Lookups): string {
    var kind := XmlAttr(e.attrs, "t", look.numeric);
    if kind == "s" then look.shared(FirstValue(e.body, look))
    else if kind == "inlineStr" then CollectText(e.body, look)
    else
      var value := FirstValue(e.body, look);
      if value == "" then "" else look.shown(XmlAttr(e.attrs, "s", look.numeric), value)
  }

  function CellColumn(e: Element, taken: nat, look: Lookups): nat {
    var ref := XmlAttr(e.attrs, "r", look.numeric);
    if ref == "" then taken else IndexOfColumn(ref)
  }

  function Blanks(n: nat): (s: seq<string>)
    ensures |s| == n && forall i :: 0 <= i < n ==> s[i] == ""
  {
    seq(n, i => "")
  }

  function Placed(cells: seq<string>, index: nat, value: string): seq<string> {
    if index < |cells| then cells[index := value] else cells + Blanks(index - |cells|) + [value]
  }

  function CellsOf(es: seq<Element>, look: Lookups): seq<string> {
    if es == [] then []
    else
      var cells, e := CellsOf(es[..|es| - 1], look), es[|es| - 1];
      Placed(cells, CellColumn(e, |cells|, look), CellValue(e, look))
  }

  /** Rows past the header and `keep` more are counted, not read. `None` keeps
      everything. */
  function RowAt(k: nat, body: string, look: Lookups, keep: Option<nat>): seq<string> {
    if keep.Some? && k > keep.value then [] else CellsOf(Elements(CELL, body), look)
  }

  function RowsOf(es: seq<Element>, look: Lookups, keep: Option<nat>): (rows: seq<seq<string>>)
    ensures |rows| == |es|
  {
    seq(|es|, k requires 0 <= k < |es| => RowAt(k, es[k].body, look, keep))
  }

  method CollectTextOf(xml: string, look: Lookups) returns (text: string)
    ensures text == CollectText(xml, look)
  {
    var out, es := "", Elements(TEXT, xml);
    for i := 0 to |es|
      invariant out == Joined(es[..i])
    {
      assert es[..i + 1][..i] == es[..i];
      out := out + es[i].body;
    }
    assert es[..|es|] == es;
    text := XmlUnescape(out, look.numeric);
  }

  method Put(cells: seq<string>, index: nat, value: string) returns (r: seq<string>)
    ensures r == Placed(cells, index, value)
  {
    r := cells;
    while |r| < index
      invariant |cells| <= |r| && (|r| <= index || r == cells)
      invariant r == cells + Blanks(|r| - |cells|)
    {
      r := r + [""];
    }
    if index < |r| {
      r := r[index := value];
    } else {
      r := r + [value];
    }
  }

  /** `worksheetRows`. */
  method WorksheetRows(xml: string, look: Lookups, keep: Option<nat>) returns (rows: seq<seq<string>>)
    ensures rows == RowsOf(Elements(ROW, xml), look, keep)
  {
    hide Elements, XmlAttr;
    rows := [];
    var seen, found := 0, Elements(ROW, xml);
    for k := 0 to |found|
      invariant seen == k && |rows| == k
      invariant forall j :: 0 <= j < k ==> rows[j] == RowAt(j, found[j].body, look, keep)
    {
      seen := seen + 1;
      if keep.Some? && seen > keep.value + 1 {
        rows := rows + [[]];
        continue;
      }
      var cells := ReadCells(found[k].body, look);
      rows := rows + [cells];
    }
  }

  method ReadCells(body: string, look: Lookups) returns (cells: seq<string>)
    ensures cells == CellsOf(Elements(CELL, body), look)
  {
    hide Elements, XmlAttr, XmlUnescape, Placed;
    cells := [];
    var found := Elements(CELL, body);
    for i := 0 to |found|
      invariant cells == CellsOf(found[..i], look)
    {
      var e := found[i];
      assert found[..i + 1][..i] == found[..i];
      var ref := XmlAttr(e.attrs, "r", look.numeric);
      var index := |cells|;
      if ref != "" {
        index := ColumnIndex(ref);
      }
      var kind := XmlAttr(e.attrs, "t", look.numeric);
      var value := "";
      if kind == "s" {
        value := look.shared(FirstValue(e.body, look));
      } else if kind == "inlineStr" {
        value := CollectTextOf(e.body, look);
      } else {
        value := FirstValue(e.body, look);
        if value != "" {
          value := look.shown(XmlAttr(e.attrs, "s", look.numeric), value);
        }
      }
      cells := Put(cells, index, value);
    }
    assert found[..|found|] == found;
  }
}
