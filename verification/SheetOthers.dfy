/** The worksheet reader on sheets as other programs write them: shared strings,
    rich text, formulas with their last value, empty cells and rows in short
    form, in any mix of markup the reader does not look at. */
module SheetOthers {
  import opened Text
  import opened Xml
  import opened XmlScan
  import opened Sheet
  import opened SheetProof

  // ------------------------------------------------------------------ attributes

  /** Attributes in the order they are written. */
  type Atts = seq<(string, string)>

  function AttsText(a: Atts): string {
    if a == [] then "" else Att(a[0].0, a[0].1) + AttsText(a[1..])
  }

  predicate PlainAtts(a: Atts) {
    forall i :: 0 <= i < |a| ==> a[i].0 != "" && Tame(a[i].0) && Tame(a[i].1)
  }

  /** The value of the first attribute with a name, or nothing. */
  function ValueOf(a: Atts, name: string): string {
    if a == [] then "" else if a[0].0 == name then a[0].1 else ValueOf(a[1..], name)
  }

  predicate Has(a: Atts, name: string) {
    exists i :: 0 <= i < |a| && a[i].0 == name
  }

  lemma {:induction false} AttsFound(a: Atts, name: string, first: bool)
    requires PlainAtts(a) && name != "" && Tame(name)
    ensures RawAttr(AttsText(a), name, first) == if Has(a, name) then Some(ValueOf(a, name)) else None
  {
    hide RawAttr, Att, Tame, Dense, Without;
    TameIsPlain(name);
    TameStarts(name);
    if a == [] {
      NoAttrs(name, first);
    } else {
      TameIsPlain(a[0].0);
      TameIsPlain(a[0].1);
      assert PlainAtts(a[1..]);
      assert Has(a, name) <==> a[0].0 == name || Has(a[1..], name) by {
        assert forall i :: 0 <= i < |a[1..]| ==> a[1..][i] == a[i + 1];
      }
      if a[0].0 == name {
        AttrFound(name, a[0].1, AttsText(a[1..]), first);
      } else {
        AttrPassed(a[0].0, a[0].1, AttsText(a[1..]), name, first);
        AttsFound(a[1..], name, false);
      }
    }
  }

  lemma NoAttrs(name: string, first: bool)
    requires name != ""
    ensures RawAttr("", name, first) == None
  {
  }

  lemma TameStarts(name: string)
    requires name != "" && Tame(name)
    ensures !IsSpace(name[0])
  {
    assert TameChar(name[0]);
  }

  /** Whatever other attributes there are, and in any order, the reader finds the
      one it asks for. */
  lemma AttsRead(a: Atts, name: string, numeric: string -> string)
    requires PlainAtts(a) && name != "" && Tame(name)
    ensures XmlAttr(AttsText(a), name, numeric) == ValueOf(a, name)
  {
    AttsFound(a, name, true);
    hide RawAttr, XmlUnescape;
    if Has(a, name) {
      ValueIsTame(a, name);
      TameIsPlain(ValueOf(a, name));
      UnescapePlain(ValueOf(a, name), numeric);
    } else {
      ValueOfNone(a, name);
    }
  }

  lemma {:induction false} ValueIsTame(a: Atts, name: string)
    requires PlainAtts(a)
    ensures Tame(ValueOf(a, name))
  {
    hide Tame;
    if a == [] {
      TameNothing();
    } else {
      assert PlainAtts(a[1..]);
      ValueIsTame(a[1..], name);
    }
  }

  lemma TameNothing()
    ensures Tame("")
  {
  }

  lemma {:induction false} ValueOfNone(a: Atts, name: string)
    requires !Has(a, name)
    ensures ValueOf(a, name) == ""
  {
    if a != [] {
      assert a[0].0 != name;
      assert forall i :: 0 <= i < |a[1..]| ==> a[1..][i] == a[i + 1];
      ValueOfNone(a[1..], name);
    }
  }

  lemma {:induction false} AttsAreInside(a: Atts)
    requires PlainAtts(a)
    ensures Inside(AttsText(a)) && (a != [] ==> IsSpace(AttsText(a)[0]) && AttsText(a)[|AttsText(a)| - 1] == '"')
  {
    hide Tame, Att, Inside;
    if a == [] {
      NothingInside();
    } else {
      assert PlainAtts(a[1..]);
      AttsAreInside(a[1..]);
      AttIsPlain(a[0].0, a[0].1);
      AttEnds(a[0].0, a[0].1);
      AttsArePlain(a[0].0, a[0].1, AttsText(a[1..]));
    }
  }

  lemma NothingInside()
    ensures Inside("")
  {
  }

  lemma AttsArePlainAttrs(a: Atts)
    requires PlainAtts(a)
    ensures PlainAttrs(AttsText(a)) && Stops(AttsText(a) + ">") && Stops(AttsText(a) + "/" + ">")
    ensures ValidPiece(Open("c", AttsText(a))) && ValidPiece(Open("c", AttsText(a) + "/"))
  {
    AttsAreInside(a);
    WordNames();
    hide AttsText;
  }

  // ----------------------------------------------------------------------- cells

  /** One piece of rich text, behind markup without text of its own. */
  datatype Run = Run(markup: seq<Piece>, attrs: string, text: string)

  /** What stands between the tags of a cell: nothing, a value among other
      elements such as its formula, or text in one or more runs. */
  datatype Content =
    | Nothing
    | ValueIn(before: seq<Piece>, text: string, after: seq<Piece>)
    | Runs(runs: seq<Run>, after: seq<Piece>)

  /** A cell with whatever markup precedes it. `place` is the column and the rest
      of its reference, if it has one. */
  datatype Written = Written(lead: seq<Piece>, atts: Atts, place: Option<(nat, string)>, short: bool, content: Content)

  function RunPieces(r: Run): seq<Piece> {
    r.markup + ([Open("t", r.attrs)] + [Chars(EscapeXml(r.text))] + [Shut("t")])
  }

  function RunsPieces(rs: seq<Run>): seq<Piece> {
    if rs == [] then [] else RunPieces(rs[0]) + RunsPieces(rs[1..])
  }

  function ContentPieces(c: Content): seq<Piece> {
    match c
    case Nothing => []
    case ValueIn(before, text, after) => before + ([Open("v", "")] + [Chars(EscapeXml(text))] + [Shut("v")] + after)
    case Runs(runs, after) => RunsPieces(runs) + after
  }

  function TagPieces(w: Written): seq<Piece> {
    if w.short then [Open("c", AttsText(w.atts) + "/")]
    else [Open("c", AttsText(w.atts))] + ContentPieces(w.content) + [Shut("c")]
  }

  function WrittenPieces(ws: seq<Written>): seq<Piece> {
    if ws == [] then [] else ws[0].lead + (TagPieces(ws[0]) + WrittenPieces(ws[1..]))
  }

  predicate ValidRun(r: Run) {
    Valid(r.markup) && NeverOpens(r.markup, "t") && PlainAttrs(r.attrs)
    && NeverShuts(r.markup, "c") && NeverShuts(r.markup, "row") && ValidPiece(Open("t", r.attrs))
  }

  predicate ValidRuns(rs: seq<Run>) {
    forall i :: 0 <= i < |rs| ==> ValidRun(rs[i])
  }

  predicate ValidAround(ps: seq<Piece>) {
    Valid(ps) && NeverShuts(ps, "c") && NeverShuts(ps, "row")
  }

  predicate ValidContent(c: Content) {
    match c
    case Nothing => true
    case ValueIn(before, _, after) => ValidAround(before) && ValidAround(after) && NeverOpens(before, "v")
    case Runs(runs, after) => ValidRuns(runs) && ValidAround(after) && NeverOpens(after, "t")
  }

  /** The cell's type goes with what it holds. */
  predicate Fits(w: Written) {
    match w.content
    case Nothing => true
    case ValueIn(_, _, _) => ValueOf(w.atts, "t") != "inlineStr"
    case Runs(_, _) => ValueOf(w.atts, "t") == "inlineStr"
  }

  predicate ValidWritten(w: Written) {
    && ValidAround(w.lead) && NeverOpens(w.lead, "c") && PlainAtts(w.atts) && ValidContent(w.content) && Fits(w)
    && (w.short ==> w.content == Nothing)
    && (match w.place
        case None => ValueOf(w.atts, "r") == ""
        case Some((column, rest)) => ValueOf(w.atts, "r") == Letters(column + 1) + rest && (rest == "" || !Capital(rest[0])))
  }

  predicate ValidCells(ws: seq<Written>) {
    forall i :: 0 <= i < |ws| ==> ValidWritten(ws[i])
  }

  // ------------------------------------------------------------ what a cell means

  function AllText(rs: seq<Run>): string {
    if rs == [] then "" else rs[0].text + AllText(rs[1..])
  }

  /** What a reader of the sheet is to see, but for control characters: the shared
      string with that number, the runs of text one after the other, or the value
      as its style shows it. A cell without a value is blank, unless it claims to
      be a shared string: then it is looked up without a number. */
  function Meaning(w: Written, look: Lookups): string {
    match w.content
    case Nothing => if ValueOf(w.atts, "t") == "s" then look.shared("") else ""
    case ValueIn(_, text, _) =>
      var value := CleanXmlText(text);
      if ValueOf(w.atts, "t") == "s" then look.shared(value)
      else if value == "" then ""
      else look.shown(ValueOf(w.atts, "s"), value)
    case Runs(runs, _) => CleanXmlText(AllText(runs))
  }

  lemma {:induction false} CleanConcat(a: string, b: string)
    ensures CleanXmlText(a + b) == CleanXmlText(a) + CleanXmlText(b)
  {
    if a == "" {
      assert a + b == b;
    } else {
      assert (a + b)[1..] == a[1..] + b;
      CleanConcat(a[1..], b);
    }
  }

  lemma EscapeConcat(a: string, b: string)
    ensures EscapeXml(a + b) == EscapeXml(a) + EscapeXml(b)
  {
    CleanConcat(a, b);
    ReplacedConcat(CleanXmlText(a), CleanXmlText(b));
    hide ReplaceAll, CleanXmlText;
  }

  // ------------------------------------------------------------ finding the pieces

  function RunElements(rs: seq<Run>): seq<Element> {
    if rs == [] then [] else [Element(rs[0].attrs, EscapeXml(rs[0].text))] + RunElements(rs[1..])
  }

  lemma RunFound(r: Run, s: string)
    requires ValidRun(r)
    ensures Elements(TEXT, Render(RunPieces(r)) + s) == [Element(r.attrs, EscapeXml(r.text))] + Elements(TEXT, s)
  {
    hide Elements, Render, Word, Valid, NeverOpens, NeverShuts, PlainAttrs, EscapeXml, ValidPiece;
    WordNames();
    TextIsValid(r.text);
    var inner, tags := [Chars(EscapeXml(r.text))], [Open("t", r.attrs)] + [Chars(EscapeXml(r.text))] + [Shut("t")];
    OneIsValid(Chars(EscapeXml(r.text)), "t");
    RenderConcat(r.markup, tags);
    RenderElement(Open("t", r.attrs), inner, Shut("t"));
    RenderChars(EscapeXml(r.text));
    assert Render(RunPieces(r)) + s == Render(r.markup) + (Render(tags) + s);
    SkipPieces(TEXT, r.markup, Render(tags) + s);
    assert Render(tags) + s == "<" + "t" + r.attrs + ">" + Render(inner) + "</" + "t" + ">" + s;
    ElementFound(TEXT, r.attrs, inner, s);
  }

  lemma OneIsValid(p: Piece, name: string)
    requires ValidPiece(p) && p.Chars?
    ensures Valid([p]) && NeverShuts([p], name) && NeverOpens([p], name)
  {
  }

  lemma {:induction false} RunsFound(rs: seq<Run>, s: string)
    requires ValidRuns(rs)
    ensures Elements(TEXT, Render(RunsPieces(rs)) + s) == RunElements(rs) + Elements(TEXT, s)
  {
    hide Elements, Render, RunPieces, ValidRun;
    if rs == [] {
      RenderNothing();
      assert Render(RunsPieces(rs)) + s == s;
    } else {
      RenderConcat(RunPieces(rs[0]), RunsPieces(rs[1..]));
      assert Render(RunsPieces(rs)) + s == Render(RunPieces(rs[0])) + (Render(RunsPieces(rs[1..])) + s);
      RunFound(rs[0], Render(RunsPieces(rs[1..])) + s);
      RunsFound(rs[1..], s);
    }
  }

  lemma {:induction false} JoinedConcat(a: seq<Element>, b: seq<Element>)
    ensures Joined(a + b) == Joined(a) + Joined(b)
    decreases |b|
  {
    if b == [] {
      assert a + b == a;
    } else {
      assert (a + b)[..|a + b| - 1] == a + b[..|b| - 1];
      JoinedConcat(a, b[..|b| - 1]);
    }
  }

  lemma {:induction false} RunsJoin(rs: seq<Run>)
    ensures Joined(RunElements(rs)) == EscapeXml(AllText(rs))
  {
    hide EscapeXml;
    if rs == [] {
      NothingEscaped();
    } else {
      var e := Element(rs[0].attrs, EscapeXml(rs[0].text));
      JoinedConcat([e], RunElements(rs[1..]));
      JoinedOne(e);
      RunsJoin(rs[1..]);
      EscapeConcat(rs[0].text, AllText(rs[1..]));
    }
  }

  lemma NothingEscaped()
    ensures EscapeXml("") == ""
  {
  }

  lemma RunsRead(rs: seq<Run>, after: seq<Piece>, look: Lookups)
    requires ValidRuns(rs) && ValidAround(after) && NeverOpens(after, "t")
    ensures CollectText(Render(RunsPieces(rs) + after), look) == CleanXmlText(AllText(rs))
  {
    hide Elements, Render, EscapeXml, XmlUnescape, CleanXmlText, RunElements, Valid, NeverOpens, Word, ValidRuns;
    WordNames();
    RenderConcat(RunsPieces(rs), after);
    RunsFound(rs, Render(after) + "");
    SkipPieces(TEXT, after, "");
    NoElements(TEXT);
    assert Render(RunsPieces(rs) + after) == Render(RunsPieces(rs)) + (Render(after) + "");
    assert RunElements(rs) + [] == RunElements(rs);
    RunsJoin(rs);
    UnescapeUndoesEscape(AllText(rs), look.numeric);
  }

  lemma ValueRead(before: seq<Piece>, text: string, after: seq<Piece>, look: Lookups)
    requires ValidAround(before) && ValidAround(after) && NeverOpens(before, "v")
    ensures FirstValue(Render(ContentPieces(ValueIn(before, text, after))), look) == CleanXmlText(text)
  {
    hide Elements, Render, EscapeXml, XmlUnescape, CleanXmlText, Valid, NeverOpens, NeverShuts, Word, ValidPiece;
    WordNames();
    TextIsValid(text);
    var inner, tags := [Chars(EscapeXml(text))], [Open("v", "")] + [Chars(EscapeXml(text))] + [Shut("v")];
    OneIsValid(Chars(EscapeXml(text)), "v");
    RenderConcat(before, tags + after);
    RenderConcat(tags, after);
    RenderElement(Open("v", ""), inner, Shut("v"));
    RenderChars(EscapeXml(text));
    var s := Render(tags) + Render(after);
    assert Render(ContentPieces(ValueIn(before, text, after))) == Render(before) + s;
    SkipPieces(VALUE, before, s);
    assert s == "<" + "v" + "" + ">" + Render(inner) + "</" + "v" + ">" + Render(after);
    ElementFound(VALUE, "", inner, Render(after));
    UnescapeUndoesEscape(text, look.numeric);
  }

  // ------------------------------------------------------------- finding the cells

  function Found(w: Written): Element {
    Element(AttsText(w.atts), Render(ContentPieces(w.content)))
  }

  function FoundAll(ws: seq<Written>): seq<Element> {
    if ws == [] then [] else [Found(ws[0])] + FoundAll(ws[1..])
  }

  lemma {:induction false} RunsAreValid(rs: seq<Run>)
    requires ValidRuns(rs)
    ensures ValidAround(RunsPieces(rs))
  {
    hide ValidPiece, EscapeXml, Word;
    if rs != [] {
      RunsAreValid(rs[1..]);
      assert ValidRun(rs[0]);
      TextIsValid(rs[0].text);
      WordNames();
      BareTagIsValid("t");
    }
  }

  lemma ContentIsAround(c: Content)
    requires ValidContent(c)
    ensures ValidAround(ContentPieces(c))
  {
    hide ValidPiece, EscapeXml, Word, RunsPieces;
    match c
    case Nothing =>
    case ValueIn(before, text, after) =>
      TextIsValid(text);
      WordNames();
      BareTagIsValid("v");
    case Runs(runs, after) =>
      RunsAreValid(runs);
  }

  /** A tag that closes itself is an element without content. */
  lemma ShortFound(a: Atts, s: string)
    requires PlainAtts(a)
    ensures Elements(CELL, Render1(Open("c", AttsText(a) + "/")) + s) == [Element(AttsText(a), "")] + Elements(CELL, s)
  {
    hide Elements, Until, Body;
    AttsAreInside(a);
    WordNames();
    var attrs := AttsText(a) + "/";
    var t := attrs + ['>'] + s;
    var all := Render1(Open("c", attrs)) + s;
    assert all == "<" + "c" + t && all[1..] == "c" + t;
    assert t[0] == if a == [] then '/' else AttsText(a)[0];
    assert Stops(t);
    hide AttsText;
    OpeningLoose(CELL, t);
    UntilFirst(attrs, '>', s);
    assert attrs[..|attrs| - 1] == AttsText(a);
    hide Opening;
    ShortHere(all, t, attrs, s);
  }

  lemma ShortHere(all: string, t: string, attrs: string, s: string)
    requires all == "<" + "c" + t && Opening(CELL, "c" + t) == Some(t) && Until(t, '>') == Some((attrs, s))
    requires attrs != "" && attrs[|attrs| - 1] == '/'
    ensures Elements(CELL, all) == [Element(attrs[..|attrs| - 1], "")] + Elements(CELL, s)
  {
    hide Opening, Until, Body;
    assert all[1..] == "c" + t;
  }

  lemma OpeningLoose(k: Kind, t: string)
    requires KnownKind(k) && !k.spaced && Stops(t)
    ensures Opening(k, k.name + t) == Some(t)
  {
    NotPrefixed(k.name, t);
    assert (k.name + t)[|k.name|..] == t && k.name <= k.name + t;
  }

  lemma WrittenFound(w: Written, s: string)
    requires ValidWritten(w)
    ensures Elements(CELL, Render(w.lead) + (Render(TagPieces(w)) + s)) == [Found(w)] + Elements(CELL, s)
  {
    hide Elements, Render, ContentPieces, AttsText, Valid, NeverOpens, NeverShuts, PlainAttrs, Word, Stops, Render1;
    WordNames();
    var tags := TagPieces(w);
    SkipPieces(CELL, w.lead, Render(tags) + s);
    AttsArePlainAttrs(w.atts);
    if w.short {
      RenderOne(Open("c", AttsText(w.atts) + "/"));
      ShortFound(w.atts, s);
      NoContent();
    } else {
      ContentIsAround(w.content);
      RenderElement(Open("c", AttsText(w.atts)), ContentPieces(w.content), Shut("c"));
      TagsRendered("c", AttsText(w.atts), Render(ContentPieces(w.content)), s);
      ElementFound(CELL, AttsText(w.atts), ContentPieces(w.content), s);
    }
  }

  lemma TagsRendered(name: string, attrs: string, inner: string, s: string)
    ensures Render1(Open(name, attrs)) + inner + Render1(Shut(name)) + s == "<" + name + attrs + ">" + inner + "</" + name + ">" + s
  {
  }

  lemma NoContent()
    ensures Render(ContentPieces(Nothing)) == ""
  {
  }

  lemma {:induction false} AllFound(ws: seq<Written>, s: string)
    requires ValidCells(ws)
    ensures Elements(CELL, Render(WrittenPieces(ws)) + s) == FoundAll(ws) + Elements(CELL, s)
  {
    hide Elements, Render, TagPieces, Found, ValidWritten;
    if ws == [] {
      RenderNothing();
      assert Render(WrittenPieces(ws)) + s == s;
    } else {
      var rest := Render(WrittenPieces(ws[1..]));
      RenderConcat(ws[0].lead, TagPieces(ws[0]) + WrittenPieces(ws[1..]));
      RenderConcat(TagPieces(ws[0]), WrittenPieces(ws[1..]));
      assert Render(WrittenPieces(ws)) + s == Render(ws[0].lead) + (Render(TagPieces(ws[0])) + (rest + s));
      WrittenFound(ws[0], rest + s);
      AllFound(ws[1..], s);
    }
  }

  /** The value and the column that the reader takes from a written cell. */
  lemma WrittenReads(w: Written, look: Lookups, taken: nat)
    requires ValidWritten(w)
    ensures CellValue(Found(w), look) == Meaning(w, look)
    ensures CellColumn(Found(w), taken, look) == if w.place.Some? then w.place.value.0 else taken
  {
    hide Elements, Render, XmlAttr, XmlUnescape, AttsText, CleanXmlText, ContentPieces, LettersValue, Letters, Valid, NeverOpens,
      NeverShuts;
    TameCellNames();
    AttsRead(w.atts, "t", look.numeric);
    AttsRead(w.atts, "r", look.numeric);
    AttsRead(w.atts, "s", look.numeric);
    if w.place.Some? {
      ColumnRoundTrip(w.place.value.0, w.place.value.1);
      LettersStart(w.place.value.0);
    }
    match w.content
    case Nothing =>
      NoContent();
      NothingRead(look);
    case ValueIn(before, text, after) =>
      ValueRead(before, text, after, look);
    case Runs(runs, after) =>
      RunsRead(runs, after, look);
      RunsContent(runs, after);
  }

  lemma RunsContent(runs: seq<Run>, after: seq<Piece>)
    ensures ContentPieces(Runs(runs, after)) == RunsPieces(runs) + after
  {
  }

  lemma LettersStart(column: nat)
    ensures Letters(column + 1) != ""
  {
  }

  lemma NothingRead(look: Lookups)
    ensures FirstValue("", look) == "" && CollectText("", look) == ""
  {
  }

  // ------------------------------------------------------------------- whole rows

  /** How far a row reaches behind some of its cells. */
  function Reach(ws: seq<Written>): nat
    decreases |ws|, 1
  {
    if ws == [] then 0
    else
      var before := Reach(ws[..|ws| - 1]);
      var column := ColumnOf(ws, |ws| - 1);
      if column < before then before else column + 1
  }

  /** The column of a cell: the one it names, or the next one. */
  function ColumnOf(ws: seq<Written>, n: nat): nat
    requires n < |ws|
    decreases n + 1, 0
  {
    if ws[n].place.Some? then ws[n].place.value.0 else Reach(ws[..n])
  }

  /** What stands at a column: the last cell written there, or nothing. */
  function ShownAt(ws: seq<Written>, look: Lookups, column: nat): string {
    if ws == [] then ""
    else if ColumnOf(ws, |ws| - 1) == column then Meaning(ws[|ws| - 1], look)
    else ShownAt(ws[..|ws| - 1], look, column)
  }

  /** Where every cell names its column in ascending order or none, one without a
      name follows the one before it. */
  lemma NextColumn(ws: seq<Written>, n: nat)
    requires 0 < n < |ws| && ws[n].place == None && ColumnOf(ws, n - 1) >= Reach(ws[..n - 1])
    ensures ColumnOf(ws, n) == ColumnOf(ws, n - 1) + 1
  {
    assert ws[..n][..n - 1] == ws[..n - 1];
    ColumnOfPrefix(ws, n, n - 1);
  }

  lemma ColumnOfPrefix(ws: seq<Written>, m: nat, n: nat)
    requires n < m <= |ws|
    ensures ColumnOf(ws[..m], n) == ColumnOf(ws, n)
  {
    assert ws[..m][..n] == ws[..n];
  }

  predicate RowReadsAs(got: seq<string>, ws: seq<Written>, look: Lookups) {
    |got| == Reach(ws) && forall j :: 0 <= j < |got| ==> got[j] == ShownAt(ws, look, j)
  }

  lemma {:induction false} NothingBehind(ws: seq<Written>, look: Lookups, column: nat)
    requires column >= Reach(ws)
    ensures ShownAt(ws, look, column) == ""
    decreases |ws|
  {
    if ws != [] {
      NothingBehind(ws[..|ws| - 1], look, column);
    }
  }

  lemma {:induction false} FoundSnoc(ws: seq<Written>)
    requires ws != []
    ensures FoundAll(ws) == FoundAll(ws[..|ws| - 1]) + [Found(ws[|ws| - 1])]
  {
    hide Found;
    if |ws| > 1 {
      FoundSnoc(ws[1..]);
      assert ws[1..][..|ws| - 2] == ws[..|ws| - 1][1..];
    }
  }

  lemma {:induction false} CellsReadAs(ws: seq<Written>, look: Lookups)
    requires ValidCells(ws)
    ensures RowReadsAs(CellsOf(FoundAll(ws), look), ws, look)
    decreases |ws|
  {
    hide Found, CellValue, CellColumn, Meaning, ValidWritten;
    if ws != [] {
      var n := |ws| - 1;
      var before, got := ws[..n], CellsOf(FoundAll(ws[..n]), look);
      CellsReadAs(before, look);
      FoundSnoc(ws);
      assert FoundAll(ws)[..|FoundAll(ws)| - 1] == FoundAll(before);
      WrittenReads(ws[n], look, |got|);
      var column := ColumnOf(ws, n);
      assert CellsOf(FoundAll(ws), look) == Placed(got, column, Meaning(ws[n], look));
      PlacedReadsAs(got, ws, look);
    }
  }

  lemma PlacedReadsAs(got: seq<string>, ws: seq<Written>, look: Lookups)
    requires ws != [] && RowReadsAs(got, ws[..|ws| - 1], look)
    ensures RowReadsAs(Placed(got, ColumnOf(ws, |ws| - 1), Meaning(ws[|ws| - 1], look)), ws, look)
  {
    hide Meaning, ColumnOf;
    var column := ColumnOf(ws, |ws| - 1);
    var r := Placed(got, column, Meaning(ws[|ws| - 1], look));
    forall j | 0 <= j < |r| ensures r[j] == ShownAt(ws, look, j) {
      if j >= |got| && j != column {
        NothingBehind(ws[..|ws| - 1], look, j);
      }
    }
  }

  /** A row of another program reads cell by cell as what it means, each cell at
      its own column. */
  lemma OthersRowReads(ws: seq<Written>, trail: seq<Piece>, look: Lookups)
    requires ValidCells(ws) && ValidAround(trail) && NeverOpens(trail, "c")
    ensures RowReadsAs(CellsOf(Elements(CELL, Render(WrittenPieces(ws) + trail)), look), ws, look)
  {
    hide Elements, Render, WrittenPieces, FoundAll, CellsOf, RowReadsAs, ValidCells, Valid, NeverOpens, NeverShuts, Word;
    WordNames();
    RenderConcat(WrittenPieces(ws), trail);
    AllFound(ws, Render(trail) + "");
    SkipPieces(CELL, trail, "");
    NoElements(CELL);
    assert Render(WrittenPieces(ws) + trail) == Render(WrittenPieces(ws)) + (Render(trail) + "");
    assert FoundAll(ws) + [] == FoundAll(ws);
    CellsReadAs(ws, look);
  }

  // ----------------------------------------------------------------- whole sheets

  datatype Line = Line(lead: seq<Piece>, attrs: string, cells: seq<Written>, trail: seq<Piece>)

  function LineBody(l: Line): seq<Piece> {
    WrittenPieces(l.cells) + l.trail
  }

  function LinesPieces(ls: seq<Line>): seq<Piece> {
    if ls == [] then []
    else ls[0].lead + (([Open("row", ls[0].attrs)] + LineBody(ls[0]) + [Shut("row")]) + LinesPieces(ls[1..]))
  }

  predicate ValidLine(l: Line) {
    && Valid(l.lead) && NeverOpens(l.lead, "row") && PlainAttrs(l.attrs)
    && ValidCells(l.cells) && ValidAround(l.trail) && NeverOpens(l.trail, "c")
  }

  predicate ValidLines(ls: seq<Line>) {
    forall i :: 0 <= i < |ls| ==> ValidLine(ls[i])
  }

  function LineElements(ls: seq<Line>): (es: seq<Element>)
    ensures |es| == |ls| && forall k :: 0 <= k < |ls| ==> es[k] == Element(ls[k].attrs, Render(LineBody(ls[k])))
  {
    if ls == [] then [] else [Element(ls[0].attrs, Render(LineBody(ls[0])))] + LineElements(ls[1..])
  }

  lemma TagsAreValid(w: Written)
    requires ValidWritten(w)
    ensures Valid(TagPieces(w)) && NeverShuts(TagPieces(w), "row")
  {
    hide ValidPiece, ContentPieces, AttsText, Word, PlainAttrs;
    AttsArePlainAttrs(w.atts);
    ContentIsAround(w.content);
    WordNames();
    BareTagIsValid("c");
  }

  lemma {:induction false} BodyIsValid(ws: seq<Written>)
    requires ValidCells(ws)
    ensures Valid(WrittenPieces(ws)) && NeverShuts(WrittenPieces(ws), "row")
  {
    hide ValidPiece, TagPieces;
    if ws != [] {
      assert ValidWritten(ws[0]);
      TagsAreValid(ws[0]);
      BodyIsValid(ws[1..]);
    }
  }

  lemma LineFound(l: Line, s: string)
    requires ValidLine(l)
    ensures Elements(ROW, Render(l.lead) + (Render([Open("row", l.attrs)] + LineBody(l) + [Shut("row")]) + s)) ==
            [Element(l.attrs, Render(LineBody(l)))] + Elements(ROW, s)
  {
    hide Elements, Render, Render1, WrittenPieces, Valid, NeverOpens, NeverShuts, PlainAttrs, Word, ValidCells;
    WordNames();
    BodyIsValid(l.cells);
    var body := LineBody(l);
    assert Valid(body) && NeverShuts(body, "row") by { AroundConcat(WrittenPieces(l.cells), l.trail); }
    var tags := [Open("row", l.attrs)] + body + [Shut("row")];
    SkipPieces(ROW, l.lead, Render(tags) + s);
    RenderElement(Open("row", l.attrs), body, Shut("row"));
    TagsRendered("row", l.attrs, Render(body), s);
    ElementFound(ROW, l.attrs, body, s);
  }

  lemma AroundConcat(a: seq<Piece>, b: seq<Piece>)
    requires Valid(a) && NeverShuts(a, "row") && ValidAround(b)
    ensures Valid(a + b) && NeverShuts(a + b, "row")
  {
  }

  lemma {:induction false} LinesFound(ls: seq<Line>, s: string)
    requires ValidLines(ls)
    ensures Elements(ROW, Render(LinesPieces(ls)) + s) == LineElements(ls) + Elements(ROW, s)
  {
    hide Elements, Render, LineBody, ValidLine;
    if ls == [] {
      RenderNothing();
      assert Render(LinesPieces(ls)) + s == s;
    } else {
      var tags, rest := [Open("row", ls[0].attrs)] + LineBody(ls[0]) + [Shut("row")], LinesPieces(ls[1..]);
      RenderConcat(ls[0].lead, tags + rest);
      RenderConcat(tags, rest);
      assert Render(LinesPieces(ls)) + s == Render(ls[0].lead) + (Render(tags) + (Render(rest) + s));
      LineFound(ls[0], Render(rest) + s);
      LinesFound(ls[1..], s);
    }
  }

  /** Row `k` as the reader reports it. */
  predicate LineReadsAs(got: seq<string>, l: Line, look: Lookups, k: nat, keep: Option<nat>) {
    if keep == None || k <= keep.value then RowReadsAs(got, l.cells, look) else got == []
  }

  lemma LineReads(l: Line, look: Lookups, k: nat, keep: Option<nat>)
    requires ValidLine(l)
    ensures LineReadsAs(RowAt(k, Render(LineBody(l)), look, keep), l, look, k, keep)
  {
    OthersRowReads(l.cells, l.trail, look);
    hide Elements, Render, CellsOf, RowReadsAs, WrittenPieces;
  }

  /** A sheet of another program, with any markup around its rows: one row for
      each row written with an opening and a closing tag, and in each, up to the
      header and `keep` more, every cell as what it means. */
  lemma OthersSheetReads(before: seq<Piece>, ls: seq<Line>, after: seq<Piece>, look: Lookups, keep: Option<nat>)
    requires Valid(before) && NeverOpens(before, "row") && Valid(after) && NeverOpens(after, "row") && ValidLines(ls)
    ensures var got := RowsOf(Elements(ROW, Render(before + (LinesPieces(ls) + after))), look, keep);
            |got| == |ls| && forall k :: 0 <= k < |ls| ==> LineReadsAs(got[k], ls[k], look, k, keep)
  {
    hide Elements, Render, LinesPieces, LineBody, RowAt, LineReadsAs, ValidLine, Valid, NeverOpens, Word, LineElements;
    WordNames();
    RenderConcat(before, LinesPieces(ls) + after);
    RenderConcat(LinesPieces(ls), after);
    var end := Render(after) + "";
    assert Render(before + (LinesPieces(ls) + after)) == Render(before) + (Render(LinesPieces(ls)) + end);
    SkipPieces(ROW, before, Render(LinesPieces(ls)) + end);
    LinesFound(ls, end);
    SkipPieces(ROW, after, "");
    NoElements(ROW);
    assert LineElements(ls) + [] == LineElements(ls);
    forall k | 0 <= k < |ls| ensures LineReadsAs(RowAt(k, Render(LineBody(ls[k])), look, keep), ls[k], look, k, keep) {
      LineReads(ls[k], look, k, keep);
    }
  }

  // --------------------------------------------------------------- rows in short form

  /** An opening tag is taken for one even where it closes itself, by a kind of
      element that knows no short form. */
  lemma SlashFound(k: Kind, attrs: string, ps: seq<Piece>, s: string)
    requires KnownKind(k) && !k.selfCloses && !k.spaced && Inside(attrs) && Stops(attrs + ">") && Valid(ps) && NeverShuts(ps, k.name)
    ensures Elements(k, "<" + k.name + attrs + ">" + Render(ps) + "</" + k.name + ">" + s) ==
            [Element(attrs, Render(ps))] + Elements(k, s)
  {
    hide Opening, Until, Body, Render, Elements;
    var after := Render(ps) + ("</" + k.name + ">" + s);
    var t := attrs + ['>'] + after;
    var all := "<" + k.name + attrs + ">" + Render(ps) + "</" + k.name + ">" + s;
    assert all == "<" + k.name + t && t[0] == (attrs + ">")[0];
    OpeningLoose(k, t);
    UntilFirst(attrs, '>', after);
    BodyPieces(k.name, ps, s);
    SlashHere(k, all, t, attrs, after, Render(ps), s);
  }

  lemma SlashHere(k: Kind, all: string, t: string, attrs: string, after: string, body: string, s: string)
    requires !k.selfCloses && all == "<" + k.name + t && Opening(k, k.name + t) == Some(t) && Until(t, '>') == Some((attrs, after))
    requires Body(k.name, after) == Some((body, s))
    ensures Elements(k, all) == [Element(attrs, body)] + Elements(k, s)
  {
    hide Opening, Until, Body;
    assert all[1..] == k.name + t;
  }

  /** The row pattern has no short form. An empty row written as one tag swallows
      the row behind it: the two come out as one, with the cells of the second,
      so that every later row moves up. */
  lemma ShortRowMerges(attrs: string, l: Line, look: Lookups, s: string)
    requires PlainAttrs(attrs) && ValidLine(l) && NeverOpens(l.lead, "c") && NeverShuts(l.lead, "row")
    requires ValidPiece(Open("row", l.attrs))
    ensures var one := "<row" + attrs + "/>";
            var next := Render(l.lead + ([Open("row", l.attrs)] + LineBody(l) + [Shut("row")]));
            exists e: Element :: Elements(ROW, one + next + s) == [e] + Elements(ROW, s)
                                 && RowReadsAs(CellsOf(Elements(CELL, e.body), look), l.cells, look)
  {
    hide Elements, Render, WrittenPieces, ValidCells, PlainAttrs, CellsOf, RowReadsAs, Word;
    WordNames();
    BodyIsValid(l.cells);
    AroundConcat(WrittenPieces(l.cells), l.trail);
    var head, body := l.lead + [Open("row", l.attrs)], LineBody(l);
    var ps := head + body;
    SlashIsPlain(attrs);
    HeadFits(l);
    AroundBoth(head, body);
    SlashFound(ROW, attrs + "/", ps, s);
    assert l.lead + ([Open("row", l.attrs)] + LineBody(l) + [Shut("row")]) == ps + [Shut("row")];
    RenderConcat(ps, [Shut("row")]);
    RenderOne(Shut("row"));
    MergedText(attrs, Render(ps), s);
    var e := Element(attrs + "/", Render(ps));
    RenderConcat(head, body);
    SkipPieces(CELL, head, Render(body));
    OthersRowReads(l.cells, l.trail, look);
    assert Elements(CELL, e.body) == Elements(CELL, Render(body));
  }

  lemma MergedText(attrs: string, inner: string, s: string)
    ensures "<row" + attrs + "/>" + (inner + Render1(Shut("row"))) + s == "<" + "row" + (attrs + "/") + ">" + inner + "</" + "row" + ">" + s
  {
  }

  lemma SlashIsPlain(attrs: string)
    requires PlainAttrs(attrs)
    ensures Inside(attrs + "/") && Stops(attrs + "/" + ">")
  {
  }

  lemma HeadFits(l: Line)
    requires Valid(l.lead) && NeverOpens(l.lead, "c") && NeverShuts(l.lead, "row") && ValidPiece(Open("row", l.attrs))
    ensures Valid(l.lead + [Open("row", l.attrs)]) && NeverShuts(l.lead + [Open("row", l.attrs)], "row")
    ensures NeverOpens(l.lead + [Open("row", l.attrs)], "c")
  {
    hide ValidPiece;
  }

  lemma AroundBoth(a: seq<Piece>, b: seq<Piece>)
    requires Valid(a) && NeverShuts(a, "row") && Valid(b) && NeverShuts(b, "row")
    ensures Valid(a + b) && NeverShuts(a + b, "row")
  {
  }
}
