/** The worksheet reader gives back what the worksheet writer was given. */
module SheetProof {
  import opened Text
  import opened Xml
  import opened XmlScan
  import opened Sheet

  // --------------------------------------------------------------------- columns

  lemma {:induction false} LettersRead(v: nat, t: string)
    ensures LettersValue(Letters(v) + t, 0) == LettersValue(t, v)
  {
    if v == 0 {
      assert Letters(v) + t == t;
    } else {
      var q, c := (v - 1) / 26, ('A' as int + (v - 1) % 26) as char;
      assert Letters(v) + t == Letters(q) + ([c] + t);
      LettersRead(q, [c] + t);
      assert ([c] + t)[1..] == t;
    }
  }

  /** Every column's name, in front of a row number or alone, reads back as the
      column's index. */
  lemma ColumnRoundTrip(column: nat, rest: string)
    requires rest == "" || !Capital(rest[0])
    ensures IndexOfColumn(Letters(column + 1) + rest) == column
  {
    LettersRead(column + 1, rest);
  }

  lemma {:induction false} LettersAreCapital(v: nat)
    ensures forall i :: 0 <= i < |Letters(v)| ==> Capital(Letters(v)[i])
  {
    if v > 0 {
      LettersAreCapital((v - 1) / 26);
    }
  }

  // -------------------------------------------------------------------- safe text

  /** Text that can stand in an attribute and needs no escaping. */
  predicate Tame(s: string) {
    forall i :: 0 <= i < |s| ==> TameChar(s[i])
  }

  predicate TameChar(c: char) {
    WordChar(c) || c == '.' || c == '-' || c == ':' || c == '/'  || c == '+'
  }

  lemma ReferenceIsTame(row: nat, column: nat)
    ensures Tame(Reference(row, column)) && Reference(row, column) != ""
  {
    LettersAreCapital(column + 1);
    DecimalIsTame(row + 1);
    hide Letters, Decimal;
  }

  lemma DecimalIsTame(n: nat)
    ensures Tame(Decimal(n))
  {
    var d := Decimal(n);
    hide Decimal;
    assert forall i :: 0 <= i < |d| ==> IsDigit(d[i]);
  }

  lemma TameIsPlain(s: string)
    requires Tame(s)
    ensures Inside(s) && Dense(s) && Without(s, '"') && Without(s, '&') && Without(s, '=')
  {
    assert forall i :: 0 <= i < |s| ==> TameChar(s[i]);
  }

  lemma AttIsPlain(n: string, v: string)
    requires Tame(n) && Tame(v)
    ensures Inside(Att(n, v)) && PlainAttrs(Att(n, v)) && Stops(Att(n, v) + ">")
  {
    TameIsPlain(n);
    TameIsPlain(v);
  }

  lemma AttsArePlain(n: string, v: string, more: string)
    requires Tame(n) && Tame(v) && Inside(more)
    ensures Inside(Att(n, v) + more) && Stops(Att(n, v) + more) && IsSpace((Att(n, v) + more)[0]) && Stops(Att(n, v) + more + ">")
    ensures more != "" && more[|more| - 1] != '/' ==> PlainAttrs(Att(n, v) + more)
  {
    AttIsPlain(n, v);
  }

  // ------------------------------------------------------------------------ pieces

  lemma NamespaceIsTame()
    ensures Tame(NAMESPACE)
  {
    assert Tame("http://schemas.") && Tame("openxmlformats.org/") && Tame("spreadsheetml/2006/main");
  }

  lemma TameNames()
    ensures Tame("version") && Tame("encoding") && Tame("standalone") && Tame("ySplit") && Tame("topLeftCell")
    ensures Tame("activePane") && Tame("state") && Tame("min") && Tame("max") && Tame("width") && Tame("customWidth")
    ensures Tame("xmlns") && Tame("workbookViewId") && Tame("ref")
  {
  }

  lemma TameCellNames()
    ensures Tame("r") && Tame("s") && Tame("t") && Tame("xml:space")
  {
  }

  lemma TameValues()
    ensures Tame("1.0") && Tame("UTF-8") && Tame("yes") && Tame("0") && Tame("1") && Tame("2") && Tame("A2")
    ensures Tame("bottomLeft") && Tame("frozen") && Tame("inlineStr") && Tame("preserve")
  {
  }

  lemma DeclarationIsValid()
    ensures ValidPiece(Open("", "?xml" + Att("version", "1.0") + Att("encoding", "UTF-8") + Att("standalone", "yes") + "?"))
  {
    hide Att, Tame;
    TameNames();
    TameValues();
    AttIsPlain("version", "1.0");
    AttIsPlain("encoding", "UTF-8");
    AttIsPlain("standalone", "yes");
    assert Inside("?xml") && Inside("?");
  }

  /** A self-closing tag with four attributes. */
  lemma FourAttsAreValid(name: string, a: string, x: string, b: string, c: string, d: string)
    requires Word(name) && name != "" && Tame(a) && Tame(x) && Inside(b) && Inside(c) && Inside(d)
    ensures ValidPiece(Open(name, Att(a, x) + b + c + d + "/"))
  {
    hide Att, Tame;
    assert Inside(b + c + d + "/");
    AttsArePlain(a, x, b + c + d + "/");
    assert Att(a, x) + (b + c + d + "/") == Att(a, x) + b + c + d + "/";
  }

  lemma PaneIsValid()
    ensures ValidPiece(Open("pane", Att("ySplit", "1") + Att("topLeftCell", "A2") + Att("activePane", "bottomLeft")
                                    + Att("state", "frozen") + "/"))
  {
    hide Att, Tame, ValidPiece;
    TameNames();
    TameValues();
    AttIsPlain("topLeftCell", "A2");
    AttIsPlain("activePane", "bottomLeft");
    AttIsPlain("state", "frozen");
    FourAttsAreValid("pane", "ySplit", "1", Att("topLeftCell", "A2"), Att("activePane", "bottomLeft"), Att("state", "frozen"));
  }

  lemma ColumnIsValid(n: nat, w: nat)
    ensures ValidPiece(Open("col", Att("min", Decimal(n)) + Att("max", Decimal(n)) + Att("width", Decimal(w))
                                   + Att("customWidth", "1") + "/"))
  {
    hide Att, Tame, ValidPiece, Decimal;
    TameNames();
    TameValues();
    DecimalIsTame(n);
    DecimalIsTame(w);
    AttIsPlain("max", Decimal(n));
    AttIsPlain("width", Decimal(w));
    AttIsPlain("customWidth", "1");
    FourAttsAreValid("col", "min", Decimal(n), Att("max", Decimal(n)), Att("width", Decimal(w)), Att("customWidth", "1"));
  }

  lemma {:induction false} ColumnsAreValid(rows: seq<Row>, n: nat)
    ensures Valid(ColumnPieces(rows, n)) && NeverOpens(ColumnPieces(rows, n), "row")
  {
    if n > 0 {
      ColumnsAreValid(rows, n - 1);
      ColumnIsValid(n, ColumnWidth(rows, n - 1));
      hide ValidPiece, Att, Decimal;
    }
  }

  lemma OneAttIsValid(name: string, n: string, v: string)
    requires Word(name) && name != "" && Tame(n) && Tame(v)
    ensures ValidPiece(Open(name, Att(n, v)))
  {
    hide Att, Tame;
    AttIsPlain(n, v);
  }

  lemma BareTagIsValid(name: string)
    requires Word(name) && name != ""
    ensures ValidPiece(Open(name, "")) && ValidPiece(Shut(name))
  {
  }

  lemma WordNames()
    ensures Word("worksheet") && Word("sheetViews") && Word("sheetView") && Word("cols") && Word("sheetData")
    ensures Word("autoFilter") && Word("row") && Word("c") && Word("v") && Word("is") && Word("t")
  {
  }

  lemma HeadIsValid(rows: seq<Row>)
    ensures Valid(Head(rows)) && NeverOpens(Head(rows), "row")
  {
    hide ValidPiece, Att, ColumnPieces, Tame, Word, NAMESPACE;
    TameNames();
    TameValues();
    WordNames();
    NamespaceIsTame();
    DeclarationIsValid();
    PaneIsValid();
    OneAttIsValid("worksheet", "xmlns", NAMESPACE);
    OneAttIsValid("sheetView", "workbookViewId", "0");
    BareTagIsValid("sheetViews");
    BareTagIsValid("sheetView");
    BareTagIsValid("cols");
    BareTagIsValid("sheetData");
    ColumnsAreValid(rows, ColumnCount(rows));
  }

  lemma LastCellIsTame(rows: seq<Row>)
    ensures Tame("A1:" + LastCell(rows))
  {
    LettersAreCapital(ColumnCount(rows));
    DecimalIsTame(if |rows| > 1 then |rows| else 1);
    hide Letters, Decimal, ColumnCount;
  }

  lemma TailIsValid(rows: seq<Row>)
    ensures Valid(Tail(rows)) && NeverOpens(Tail(rows), "row")
  {
    hide Att, Tame, LastCell, Word;
    TameNames();
    WordNames();
    LastCellIsTame(rows);
    AttsArePlain("ref", "A1:" + LastCell(rows), "/");
    assert ValidPiece(Open("autoFilter", Att("ref", "A1:" + LastCell(rows)) + "/"));
    hide ValidPiece;
    BareTagIsValid("sheetData");
    BareTagIsValid("worksheet");
  }

  lemma AttEnds(n: string, v: string)
    ensures Att(n, v) != "" && Att(n, v)[|Att(n, v)| - 1] == '"'
  {
  }

  lemma CellAttrsArePlain(row: nat, column: nat, c: Cell)
    ensures PlainAttrs(CellAttrs(row, column, c)) && Stops(CellAttrs(row, column, c) + ">")
  {
    hide Att, Tame, Reference;
    TameCellNames();
    TameValues();
    ReferenceIsTame(row, column);
    var ref, style := Reference(row, column), if row == 0 then "1" else if c.Number? then "2" else "0";
    AttIsPlain("s", style);
    AttIsPlain("t", "inlineStr");
    AttEnds("s", style);
    if c.Number? {
      AttsArePlain("r", ref, Att("s", style));
    } else {
      AttsArePlain("r", ref, Att("t", "inlineStr") + Att("s", style));
      assert Att("r", ref) + (Att("t", "inlineStr") + Att("s", style)) == Att("r", ref) + Att("t", "inlineStr") + Att("s", style);
    }
    hide PlainAttrs, Stops;
  }

  lemma TextIsValid(text: string)
    ensures ValidPiece(Chars(EscapeXml(text)))
  {
    PassesAgree(CleanXmlText(text));
    EscapedIsSafe(CleanXmlText(text));
    hide EscapedAll, ReplaceAll, CleanXmlText;
  }

  lemma ContentIsValid(c: Cell)
    requires Printable(c)
    ensures Valid(CellContent(c)) && NeverShuts(CellContent(c), "row") && NeverShuts(CellContent(c), "c")
  {
    hide Tame, Att, EscapeXml;
    WordNames();
    if c.Number? {
      assert ValidPiece(Chars(c.digits));
      hide ValidPiece, Word;
      BareTagIsValid("v");
    } else {
      hide ValidPiece, Word;
      TameCellNames();
      TameValues();
      TextIsValid(Printed(c));
      OneAttIsValid("t", "xml:space", "preserve");
      BareTagIsValid("t");
      BareTagIsValid("is");
    }
  }

  lemma CellIsValid(row: nat, column: nat, c: Cell)
    requires Printable(c)
    ensures Valid(CellPieces(row, column, c)) && NeverShuts(CellPieces(row, column, c), "row")
  {
    hide CellAttrs, CellContent, Word;
    WordNames();
    CellAttrsArePlain(row, column, c);
    ContentIsValid(c);
    assert ValidPiece(Open("c", CellAttrs(row, column, c)));
    BareTagIsValid("c");
    hide ValidPiece;
  }

  predicate PrintableRow(cells: Row) {
    forall i :: 0 <= i < |cells| ==> Printable(cells[i])
  }

  lemma {:induction false} CellsAreValid(row: nat, cells: Row)
    requires PrintableRow(cells)
    ensures Valid(CellsPieces(row, cells)) && NeverShuts(CellsPieces(row, cells), "row")
    decreases |cells|
  {
    if cells != [] {
      CellsAreValid(row, cells[..|cells| - 1]);
      CellIsValid(row, |cells| - 1, cells[|cells| - 1]);
      hide ValidPiece, CellPieces;
    }
  }

  // ------------------------------------------------------------- finding the rows

  function RowElement(row: nat, cells: Row): Element {
    Element(Att("r", Decimal(row + 1)), Render(CellsPieces(row, cells)))
  }

  function RowElements(rows: seq<Row>): seq<Element> {
    if rows == [] then [] else RowElements(rows[..|rows| - 1]) + [RowElement(|rows| - 1, rows[|rows| - 1])]
  }

  predicate PrintableRows(rows: seq<Row>) {
    forall k :: 0 <= k < |rows| ==> PrintableRow(rows[k])
  }

  lemma RenderElement(open: Piece, inner: seq<Piece>, shut: Piece)
    ensures Render([open] + inner + [shut]) == Render1(open) + Render(inner) + Render1(shut)
  {
    RenderConcat([open] + inner, [shut]);
    RenderConcat([open], inner);
    RenderOne(open);
    RenderOne(shut);
    hide Render, Render1;
  }

  lemma RenderOne(p: Piece)
    ensures Render([p]) == Render1(p)
  {
    assert [p][1..] == [];
    hide Render1;
    assert Render([p]) == Render1(p) + "";
  }

  lemma RowFound(row: nat, cells: Row, s: string)
    requires PrintableRow(cells)
    ensures Elements(ROW, Render(RowPieces(row, cells)) + s) == [RowElement(row, cells)] + Elements(ROW, s)
  {
    hide Elements, Render, CellsPieces, Decimal, Valid, NeverShuts, PlainAttrs, Tame, Word, Att;
    var attrs, inner := Att("r", Decimal(row + 1)), CellsPieces(row, cells);
    TameCellNames();
    WordNames();
    DecimalIsTame(row + 1);
    AttIsPlain("r", Decimal(row + 1));
    CellsAreValid(row, cells);
    RenderElement(Open("row", attrs), inner, Shut("row"));
    assert Render(RowPieces(row, cells)) + s == "<" + "row" + attrs + ">" + Render(inner) + "</" + "row" + ">" + s;
    ElementFound(ROW, attrs, inner, s);
  }

  lemma {:induction false} RowsFound(rows: seq<Row>, s: string)
    requires PrintableRows(rows)
    ensures Elements(ROW, Render(RowsPieces(rows)) + s) == RowElements(rows) + Elements(ROW, s)
    decreases |rows|
  {
    hide Elements, Render, RowPieces, RowElement, PrintableRow;
    if rows == [] {
      assert Render([]) == "" by { RenderNothing(); }
      assert Render(RowsPieces(rows)) + s == s;
    } else {
      var before, last := rows[..|rows| - 1], RowPieces(|rows| - 1, rows[|rows| - 1]);
      RenderConcat(RowsPieces(before), last);
      assert Render(RowsPieces(rows)) + s == Render(RowsPieces(before)) + (Render(last) + s);
      RowsFound(before, Render(last) + s);
      RowFound(|rows| - 1, rows[|rows| - 1], s);
    }
  }

  lemma RenderNothing()
    ensures Render([]) == ""
  {
  }

  /** The reader's row scan over a whole worksheet finds the written rows, in
      order, and nothing in the parts around them. */
  lemma WorksheetRowsFound(rows: seq<Row>)
    requires PrintableRows(rows)
    ensures Elements(ROW, WorksheetXml(rows)) == RowElements(rows)
  {
    hide Elements, Render, Head, Tail, RowsPieces, RowElements, PrintableRows, Valid, NeverOpens, Word;
    RenderConcat(Head(rows) + RowsPieces(rows), Tail(rows));
    RenderConcat(Head(rows), RowsPieces(rows));
    var middle, end := Render(RowsPieces(rows)), Render(Tail(rows));
    assert WorksheetXml(rows) == Render(Head(rows)) + (middle + (end + ""));
    WordNames();
    HeadIsValid(rows);
    TailIsValid(rows);
    SkipPieces(ROW, Head(rows), middle + (end + ""));
    RowsFound(rows, end + "");
    SkipPieces(ROW, Tail(rows), "");
    NoElements(ROW);
  }

  lemma NoElements(k: Kind)
    ensures Elements(k, "") == []
  {
  }

  // ------------------------------------------------------------ finding the cells

  function CellElement(row: nat, column: nat, c: Cell): Element {
    Element(CellAttrs(row, column, c), Render(CellContent(c)))
  }

  function CellElements(row: nat, cells: Row): seq<Element> {
    if cells == [] then []
    else
      var column, c := |cells| - 1, cells[|cells| - 1];
      CellElements(row, cells[..column]) + if IsWritten(c) then [CellElement(row, column, c)] else []
  }

  lemma CellFound(row: nat, column: nat, c: Cell, s: string)
    requires Printable(c) && IsWritten(c)
    ensures Elements(CELL, Render(CellPieces(row, column, c)) + s) == [CellElement(row, column, c)] + Elements(CELL, s)
  {
    hide Elements, Render, CellContent, CellAttrs, Valid, NeverShuts, PlainAttrs, Word;
    var attrs, inner := CellAttrs(row, column, c), CellContent(c);
    WordNames();
    CellAttrsArePlain(row, column, c);
    ContentIsValid(c);
    RenderElement(Open("c", attrs), inner, Shut("c"));
    assert Render(CellPieces(row, column, c)) + s == "<" + "c" + attrs + ">" + Render(inner) + "</" + "c" + ">" + s;
    ElementFound(CELL, attrs, inner, s);
  }

  lemma {:induction false} CellsFound(row: nat, cells: Row, s: string)
    requires PrintableRow(cells)
    ensures Elements(CELL, Render(CellsPieces(row, cells)) + s) == CellElements(row, cells) + Elements(CELL, s)
    decreases |cells|
  {
    hide Elements, Render, CellElement, Printable;
    if cells == [] {
      RenderNothing();
      assert Render(CellsPieces(row, cells)) + s == s;
    } else {
      var column, c := |cells| - 1, cells[|cells| - 1];
      var before, last := cells[..column], CellPieces(row, column, c);
      RenderConcat(CellsPieces(row, before), last);
      assert Render(CellsPieces(row, cells)) + s == Render(CellsPieces(row, before)) + (Render(last) + s);
      CellsFound(row, before, Render(last) + s);
      if IsWritten(c) {
        CellFound(row, column, c, s);
      } else {
        RenderNothing();
        assert Render(last) + s == s;
      }
    }
  }

  // -------------------------------------------------------------- reading one cell

  /** What a cell shows: its text without control characters, or its digits. */
  function Shown(c: Cell): string {
    match c
    case Empty => ""
    case Words(text) => CleanXmlText(text)
    case Number(digits) => digits
  }

  lemma NoAttr(name: string)
    requires name != ""
    ensures RawAttr("", name, false) == None
  {
  }

  lemma AttrOf(s: string, name: string, value: string, numeric: string -> string)
    requires RawAttr(s, name, true) == Some(value) && Tame(value)
    ensures XmlAttr(s, name, numeric) == value
  {
    TameIsPlain(value);
    UnescapePlain(value, numeric);
    hide XmlUnescape, RawAttr, Tame;
  }

  /** The reference, type and style of a written cell read back. */
  lemma AttrsRead(row: nat, column: nat, c: Cell, numeric: string -> string)
    ensures var a := CellAttrs(row, column, c);
            && XmlAttr(a, "r", numeric) == Reference(row, column)
            && XmlAttr(a, "t", numeric) == (if c.Number? then "" else "inlineStr")
            && (c.Number? ==> XmlAttr(a, "s", numeric) == if row == 0 then "1" else "2")
  {
    hide RawAttr, Att, Reference, XmlAttr, Tame, Dense, Without;
    ReferenceIsTame(row, column);
    TameValues();
    TameCellNames();
    TameIsPlain("r");
    TameIsPlain("t");
    TameIsPlain("s");
    TameIsPlain("1");
    TameIsPlain("2");
    TameIsPlain("0");
    TameIsPlain("inlineStr");
    var ref, a := Reference(row, column), CellAttrs(row, column, c);
    TameIsPlain(ref);
    var style := if row == 0 then "1" else if c.Number? then "2" else "0";
    assert Att("s", style) + "" == Att("s", style);
    if c.Number? {
      AttrFound("r", ref, Att("s", style), true);
      AttrPassed("r", ref, Att("s", style), "t", true);
      AttrPassed("s", style, "", "t", false);
      NoAttr("t");
      assert XmlAttr(a, "t", numeric) == "" by { NoValue(a, "t", numeric); }
      AttrPassed("r", ref, Att("s", style), "s", true);
      AttrFound("s", style, "", false);
      AttrOf(a, "s", style, numeric);
    } else {
      var more := Att("t", "inlineStr") + Att("s", style);
      assert a == Att("r", ref) + more;
      AttrFound("r", ref, more, true);
      AttrPassed("r", ref, more, "t", true);
      AttrFound("t", "inlineStr", Att("s", style), false);
      AttrOf(a, "t", "inlineStr", numeric);
    }
    AttrOf(a, "r", ref, numeric);
  }

  lemma NoValue(s: string, name: string, numeric: string -> string)
    requires RawAttr(s, name, true) == None
    ensures XmlAttr(s, name, numeric) == ""
  {
    hide RawAttr;
  }

  lemma RenderChars(text: string)
    ensures Render([Chars(text)]) == text
  {
    RenderOne(Chars(text));
    hide Render;
  }

  lemma DigitsFound(digits: string)
    requires Printable(Number(digits))
    ensures Elements(VALUE, Render(CellContent(Number(digits)))) == [Element("", digits)]
  {
    hide Elements, Render, Word;
    WordNames();
    RenderElement(Open("v", ""), [Chars(digits)], Shut("v"));
    RenderChars(digits);
    assert [Open("v", "")] + [Chars(digits)] + [Shut("v")] == CellContent(Number(digits));
    assert Without(digits, '<');
    ElementFound(VALUE, "", [Chars(digits)], "");
    NoElements(VALUE);
    assert "<" + "v" + "" + ">" + digits + "</" + "v" + ">" + "" == Render(CellContent(Number(digits)));
  }

  lemma TextFound(c: Cell)
    requires !c.Number?
    ensures Elements(TEXT, Render(CellContent(c))) == [Element(Att("xml:space", "preserve"), EscapeXml(Printed(c)))]
  {
    hide Elements, Render, Word, Tame, Att, PlainAttrs, EscapeXml, Valid, NeverOpens;
    WordNames();
    TameCellNames();
    TameValues();
    AttIsPlain("xml:space", "preserve");
    var attrs, text := Att("xml:space", "preserve"), EscapeXml(Printed(c));
    TextIsValid(Printed(c));
    var inner, middle := [Chars(text)], [Open("t", attrs)] + [Chars(text)] + [Shut("t")];
    assert Valid(inner) by { ValidOne(Chars(text)); }
    RenderElement(Open("t", attrs), inner, Shut("t"));
    RenderChars(text);
    assert CellContent(c) == [Open("is", "")] + (middle + [Shut("is")]);
    RenderConcat([Open("is", "")], middle + [Shut("is")]);
    RenderConcat(middle, [Shut("is")]);
    var end := Render([Shut("is")]);
    assert Render(middle) + (end + "") == "<" + "t" + attrs + ">" + Render(inner) + "</" + "t" + ">" + (end + "");
    BareTagIsValid("is");
    ValidOne(Open("is", ""));
    ValidOne(Shut("is"));
    SkipPieces(TEXT, [Open("is", "")], Render(middle) + (end + ""));
    ElementFound(TEXT, attrs, inner, end + "");
    SkipPieces(TEXT, [Shut("is")], "");
    NoElements(TEXT);
    assert Render(CellContent(c)) == Render([Open("is", "")]) + (Render(middle) + (end + ""));
  }

  lemma ValidOne(p: Piece)
    requires ValidPiece(p)
    ensures Valid([p]) && (p != Open("t", if p.Open? then p.attrs else "") ==> NeverOpens([p], "t"))
  {
    hide ValidPiece;
  }

  /** The look-ups leave plain numbers alone: styles 1 and 2, which the writer
      uses, are not date formats. */
  ghost predicate PlainStyles(look: Lookups) {
    forall v :: look.shown("1", v) == v && look.shown("2", v) == v
  }

  lemma CellReads(row: nat, column: nat, c: Cell, look: Lookups, taken: nat)
    requires Printable(c) && IsWritten(c) && PlainStyles(look)
    ensures CellValue(CellElement(row, column, c), look) == Shown(c)
    ensures CellColumn(CellElement(row, column, c), taken, look) == column
  {
    hide Elements, Render, CellAttrs, XmlAttr, XmlUnescape, EscapeXml, CleanXmlText, CellContent, LettersValue, Letters;
    AttrsRead(row, column, c, look.numeric);
    ReferenceIsTame(row, column);
    DecimalStarts(row + 1);
    ColumnRoundTrip(column, Decimal(row + 1));
    match c
    case Number(digits) =>
      DigitsFound(digits);
      UnescapePlain(digits, look.numeric);
    case Words(text) =>
      TextFound(c);
      UnescapeUndoesEscape(text, look.numeric);
      JoinedOne(Element(Att("xml:space", "preserve"), EscapeXml(text)));
  }

  lemma JoinedOne(e: Element)
    ensures Joined([e]) == e.body
  {
    assert Joined([e][..0]) == "";
  }

  lemma DecimalStarts(n: nat)
    ensures Decimal(n) != "" && !Capital(Decimal(n)[0])
  {
    hide Decimal;
    assert IsDigit(Decimal(n)[0]);
  }

  // ------------------------------------------------------------------ whole rows

  /** One more than the column of the last written cell. */
  function LastWritten(cells: Row): (n: nat)
    ensures n <= |cells|
    ensures n > 0 ==> IsWritten(cells[n - 1])
    ensures forall j :: n <= j < |cells| ==> !IsWritten(cells[j])
  {
    if cells == [] then 0
    else if IsWritten(cells[|cells| - 1]) then |cells|
    else LastWritten(cells[..|cells| - 1])
  }

  /** The row holds every cell's text at its own column, up to the last written one. */
  predicate SameCells(got: seq<string>, cells: Row) {
    |got| == LastWritten(cells) && forall j :: 0 <= j < |got| ==> got[j] == Shown(cells[j])
  }

  lemma CellsGrow(got: seq<string>, cells: Row)
    requires cells != [] && SameCells(got, cells[..|cells| - 1]) && IsWritten(cells[|cells| - 1])
    ensures SameCells(Placed(got, |cells| - 1, Shown(cells[|cells| - 1])), cells)
  {
    var column, before := |cells| - 1, cells[..|cells| - 1];
    var r := Placed(got, column, Shown(cells[column]));
    BlankShown(before);
    assert LastWritten(cells) == |cells| && |got| <= column;
    hide Shown, LastWritten, IsWritten;
    assert |r| == |cells|;
    forall j | 0 <= j < |r| ensures r[j] == Shown(cells[j]) {
      if j < column {
        assert before[j] == cells[j];
      }
    }
  }

  lemma CellsStay(got: seq<string>, cells: Row)
    requires cells != [] && SameCells(got, cells[..|cells| - 1]) && !IsWritten(cells[|cells| - 1])
    ensures SameCells(got, cells)
  {
    hide Shown;
  }

  lemma {:induction false} CellsRead(row: nat, cells: Row, look: Lookups)
    requires PrintableRow(cells) && PlainStyles(look)
    ensures SameCells(CellsOf(CellElements(row, cells), look), cells)
    decreases |cells|
  {
    hide CellValue, CellColumn, CellElement, Shown, Printable, PlainStyles, Placed, LastWritten, SameCells;
    if cells != [] {
      var column, c := |cells| - 1, cells[|cells| - 1];
      var before := cells[..column];
      CellsRead(row, before, look);
      var es, got := CellElements(row, before), CellsOf(CellElements(row, before), look);
      if IsWritten(c) {
        CellsGrow(got, cells);
        var e := CellElement(row, column, c);
        CellReads(row, column, c, look, |got|);
        assert (es + [e])[..|es|] == es;
        assert CellsOf(CellElements(row, cells), look) == Placed(got, column, Shown(c));
      } else {
        CellsStay(got, cells);
        assert CellElements(row, cells) == es;
      }
    } else {
      NothingWritten();
    }
  }

  lemma NothingWritten()
    ensures SameCells([], [])
  {
  }

  lemma BlankShown(cells: Row)
    ensures forall j :: LastWritten(cells) <= j < |cells| ==> Shown(cells[j]) == ""
  {
    forall j | LastWritten(cells) <= j < |cells| ensures Shown(cells[j]) == "" {
      assert !IsWritten(cells[j]);
    }
  }

  lemma RowReads(row: nat, cells: Row, look: Lookups)
    requires PrintableRow(cells) && PlainStyles(look)
    ensures SameCells(CellsOf(Elements(CELL, RowElement(row, cells).body), look), cells)
  {
    hide Elements, Render, CellsPieces, CellsOf, SameCells, PrintableRow, PlainStyles;
    CellsFound(row, cells, "");
    NoElements(CELL);
    assert Render(CellsPieces(row, cells)) + "" == RowElement(row, cells).body;
    assert CellElements(row, cells) + [] == CellElements(row, cells);
    CellsRead(row, cells, look);
  }

  lemma {:induction false} RowElementAt(rows: seq<Row>, k: nat)
    requires k < |rows|
    ensures |RowElements(rows)| == |rows| && RowElements(rows)[k] == RowElement(k, rows[k])
    decreases |rows|
  {
    hide RowElement;
    if k < |rows| - 1 {
      RowElementAt(rows[..|rows| - 1], k);
    } else if |rows| > 1 {
      RowElementAt(rows[..|rows| - 1], 0);
    }
  }

  /** Row `k` as the reader reports it. */
  predicate SameRow(got: seq<string>, cells: Row, k: nat, keep: Option<nat>) {
    if keep == None || k <= keep.value then SameCells(got, cells) else got == []
  }

  lemma RowAtReads(k: nat, cells: Row, look: Lookups, keep: Option<nat>)
    requires PrintableRow(cells) && PlainStyles(look)
    ensures SameRow(RowAt(k, RowElement(k, cells).body, look, keep), cells, k, keep)
  {
    hide Elements, RowElement, SameCells, PrintableRow, PlainStyles, CellsOf;
    RowReads(k, cells, look);
  }

  /** Sheet round trip: reading the written worksheet gives one row for each
      row, with every cell's text (control characters removed) at its own row
      and column; rows past the header and `keep` more are counted as empty. */
  lemma SheetRoundTrip(rows: seq<Row>, look: Lookups, keep: Option<nat>)
    requires PrintableRows(rows) && PlainStyles(look)
    ensures var got := RowsOf(Elements(ROW, WorksheetXml(rows)), look, keep);
            |got| == |rows| && forall k :: 0 <= k < |rows| ==> SameRow(got[k], rows[k], k, keep)
  {
    hide Elements, WorksheetXml, RowElement, RowElements, SameRow, PrintableRow, PlainStyles, RowAt;
    WorksheetRowsFound(rows);
    if rows != [] {
      RowElementAt(rows, 0);
    } else {
      NoRowElements();
    }
    var got := RowsOf(RowElements(rows), look, keep);
    forall k | 0 <= k < |rows| ensures SameRow(got[k], rows[k], k, keep) {
      RowElementAt(rows, k);
      RowAtReads(k, rows[k], look, keep);
    }
  }

  lemma NoRowElements()
    ensures RowElements([]) == []
  {
  }
}
