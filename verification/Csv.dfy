/** The delimited-text reader of frontend/src/lib/attachmentExcel.ts, against the
    written form of section 2 of RFC 4180. */
module Csv {
  import opened Text

  type Table = seq<seq<string>>

  // ------------------------------------------------------------------ the reader

  /** The reader's variables between two characters. */
  datatype State = State(rows: Table, row: seq<string>, field: string, inQuotes: bool)

  const FRESH := State([], [], "", false)

  function Scan(s: string, d: char, st: State): State
    decreases |s|
  {
    if s == "" then st
    else if st.inQuotes then
      if s[0] != '"' then Scan(s[1..], d, st.(field := st.field + [s[0]]))
      else if |s| > 1 && s[1] == '"' then Scan(s[2..], d, st.(field := st.field + "\""))
      else Scan(s[1..], d, st.(inQuotes := false))
    else if s[0] == '"' && st.field == "" then Scan(s[1..], d, st.(inQuotes := true))
    else if s[0] == d then Scan(s[1..], d, st.(row := st.row + [st.field], field := ""))
    else if s[0] == '\n' || s[0] == '\r' then
      Scan(if "\r\n" <= s then s[2..] else s[1..], d, State(st.rows + [st.row + [st.field]], [], "", false))
    else Scan(s[1..], d, st.(field := st.field + [s[0]]))
  }

  /** What is left without a line end becomes a record if there is anything of it. */
  function Finish(st: State): Table {
    if st.field != "" || st.row != [] then st.rows + [st.row + [st.field]] else st.rows
  }

  function Parsed(s: string, d: char): Table {
    Finish(Scan(s, d, FRESH))
  }

  /** `parseDelimited`. */
  method ParseDelimited(text: string, delimiter: char) returns (rows: Table)
    ensures rows == Parsed(text, delimiter)
  {
    rows := [];
    var row: seq<string>, field, inQuotes := [], "", false;
    var i := 0;
    while i < |text|
      invariant 0 <= i <= |text|
      invariant Scan(text[i..], delimiter, State(rows, row, field, inQuotes)) == Scan(text, delimiter, FRESH)
    {
      var ch := text[i];
      ghost var rest := text[i..];
      assert rest[1..] == text[i + 1..];
      assert i + 1 < |text| ==> rest[1] == text[i + 1] && rest[2..] == text[i + 2..];
      if inQuotes {
        if ch == '"' {
          if i + 1 < |text| && text[i + 1] == '"' {
            field := field + "\"";
            i := i + 2;
            continue;
          }
          inQuotes := false;
          i := i + 1;
          continue;
        }
        field := field + [ch];
        i := i + 1;
        continue;
      }
      if ch == '"' && field == "" {
        inQuotes := true;
        i := i + 1;
        continue;
      }
      if ch == delimiter {
        row := row + [field];
        field := "";
        i := i + 1;
        continue;
      }
      if ch == '\n' || ch == '\r' {
        if ch == '\r' && i + 1 < |text| && text[i + 1] == '\n' {
          i := i + 1;
        }
        row := row + [field];
        field := "";
        rows := rows + [row];
        row := [];
        i := i + 1;
        continue;
      }
      field := field + [ch];
      i := i + 1;
    }
    if field != "" || row != [] {
      row := row + [field];
      rows := rows + [row];
    }
  }

  // ------------------------------------------------------------- the written form

  /** `Continued` is a quoted part somebody wrote on behind: `"a"b`. */
  datatype Field = Quoted(text: string) | Plain(text: string) | Continued(quoted: string, more: string)

  datatype End = LF | CR | CRLF

  datatype Record = Record(fields: seq<Field>, end: End)

  function Doubled(t: string): string {
    if t == "" then "" else (if t[0] == '"' then "\"\"" else [t[0]]) + Doubled(t[1..])
  }

  function FieldText(f: Field): string {
    match f
    case Quoted(t) => "\"" + Doubled(t) + "\""
    case Plain(t) => t
    case Continued(t, more) => "\"" + Doubled(t) + "\"" + more
  }

  /** What a field stands for. */
  function TextOf(f: Field): string {
    match f
    case Quoted(t) => t
    case Plain(t) => t
    case Continued(t, more) => t + more
  }

  function FieldsText(fs: seq<Field>, d: char): string {
    if fs == [] then ""
    else if |fs| == 1 then FieldText(fs[0])
    else FieldText(fs[0]) + [d] + FieldsText(fs[1..], d)
  }

  function EndText(e: End): string {
    match e case LF => "\n" case CR => "\r" case CRLF => "\r\n"
  }

  function Written(rs: seq<Record>, d: char): string {
    if rs == [] then "" else FieldsText(rs[0].fields, d) + EndText(rs[0].end) + Written(rs[1..], d)
  }

  predicate Separator(c: char, d: char) {
    c == d || c == '\n' || c == '\r'
  }

  predicate ValidDelimiter(d: char) {
    d != '"' && d != '\n' && d != '\r'
  }

  /** Text outside quotes: no separator, and no quote in front. */
  predicate Unquoted(t: string, d: char) {
    (t == "" || t[0] != '"') && forall i :: 0 <= i < |t| ==> !Separator(t[i], d)
  }

  predicate ValidField(f: Field, d: char) {
    match f
    case Quoted(_) => true
    case Plain(t) => Unquoted(t, d)
    case Continued(_, more) => more != "" && Unquoted(more, d)
  }

  predicate ValidFields(fs: seq<Field>, d: char) {
    fs != [] && forall i :: 0 <= i < |fs| ==> ValidField(fs[i], d)
  }

  predicate ValidRecords(rs: seq<Record>, d: char) {
    forall i :: 0 <= i < |rs| ==> ValidFields(rs[i].fields, d)
  }

  function Texts(fs: seq<Field>): seq<string> {
    if fs == [] then [] else [TextOf(fs[0])] + Texts(fs[1..])
  }

  function Contents(rs: seq<Record>): Table {
    if rs == [] then [] else [Texts(rs[0].fields)] + Contents(rs[1..])
  }

  /** A record that is written as nothing but a line feed. */
  predicate BareLineFeed(r: Record) {
    r == Record([Plain("")], LF)
  }

  /** The records the reader tells apart: a bare line feed right after a record
      ended by CR is taken for the other half of its line end. */
  function Told(rs: seq<Record>): seq<Record>
    decreases |rs|
  {
    if rs == [] then []
    else if rs[0].end == CR && |rs| > 1 && BareLineFeed(rs[1]) then [rs[0]] + Told(rs[2..])
    else [rs[0]] + Told(rs[1..])
  }

  predicate NoneSwallowed(rs: seq<Record>) {
    forall k :: 0 < k < |rs| ==> !(rs[k - 1].end == CR && BareLineFeed(rs[k]))
  }

  // ------------------------------------------------------------------- one field

  /** What may follow a field. */
  predicate FieldEnds(r: string, d: char) {
    r == "" || Separator(r[0], d)
  }

  lemma {:induction false} PlainScans(t: string, r: string, d: char, st: State)
    requires ValidDelimiter(d) && !st.inQuotes && (st.field != "" || t == "" || t[0] != '"')
    requires forall i :: 0 <= i < |t| ==> !Separator(t[i], d)
    ensures Scan(t + r, d, st) == Scan(r, d, st.(field := st.field + t))
    decreases |t|
  {
    if t == "" {
      assert t + r == r && st.field + t == st.field;
    } else {
      assert (t + r)[1..] == t[1..] + r;
      PlainScans(t[1..], r, d, st.(field := st.field + [t[0]]));
      assert st.field + [t[0]] + t[1..] == st.field + t;
    }
  }

  /** Inside quotes every character counts, a quote when it comes twice. */
  lemma CharScans(c: char, r: string, d: char, st: State)
    requires st.inQuotes
    ensures Scan((if c == '"' then "\"\"" else [c]) + r, d, st) == Scan(r, d, st.(field := st.field + [c]))
  {
    var s := (if c == '"' then "\"\"" else [c]) + r;
    assert if c == '"' then s[2..] == r else s[1..] == r;
  }

  lemma {:induction false} QuotedScans(t: string, r: string, d: char, st: State)
    requires ValidDelimiter(d) && st.inQuotes && (r == "" || r[0] != '"')
    ensures Scan(Doubled(t) + "\"" + r, d, st) == Scan(r, d, st.(field := st.field + t, inQuotes := false))
    decreases |t|
  {
    var s := Doubled(t) + "\"" + r;
    if t == "" {
      assert s[1..] == r && st.field + t == st.field;
    } else {
      var tail := Doubled(t[1..]) + "\"" + r;
      assert s == (if t[0] == '"' then "\"\"" else [t[0]]) + tail;
      CharScans(t[0], tail, d, st);
      hide Scan;
      QuotedScans(t[1..], r, d, st.(field := st.field + [t[0]]));
      assert st.field + [t[0]] + t[1..] == st.field + t;
    }
  }

  lemma QuoteOpens(s: string, d: char, st: State)
    requires !st.inQuotes && st.field == ""
    ensures Scan(['"'] + s, d, st) == Scan(s, d, st.(inQuotes := true))
  {
    assert (['"'] + s)[1..] == s;
  }

  lemma FieldScans(f: Field, r: string, d: char, rows: Table, row: seq<string>)
    requires ValidDelimiter(d) && ValidField(f, d) && FieldEnds(r, d)
    ensures Scan(FieldText(f) + r, d, State(rows, row, "", false)) == Scan(r, d, State(rows, row, TextOf(f), false))
  {
    var st := State(rows, row, "", false);
    hide Scan, Doubled;
    match f
    case Plain(t) =>
      assert "" + t == t;
      PlainScans(t, r, d, st);
    case Quoted(t) =>
      QuotesScan(t, r, d, rows, row);
      assert FieldText(f) + r == "\"" + Doubled(t) + "\"" + r;
    case Continued(t, more) =>
      QuotesScan(t, more + r, d, rows, row);
      assert FieldText(f) + r == "\"" + Doubled(t) + "\"" + (more + r);
      ContinuedScans(t, more, r, d, rows, row);
  }

  lemma QuotesScan(t: string, r: string, d: char, rows: Table, row: seq<string>)
    requires ValidDelimiter(d) && (r == "" || r[0] != '"')
    ensures Scan("\"" + Doubled(t) + "\"" + r, d, State(rows, row, "", false)) == Scan(r, d, State(rows, row, t, false))
  {
    var st, s := State(rows, row, "", false), Doubled(t) + "\"" + r;
    assert "\"" + Doubled(t) + "\"" + r == ['"'] + s && "" + t == t;
    QuoteOpens(s, d, st);
    hide Scan;
    QuotedScans(t, r, d, st.(inQuotes := true));
  }

  /** Behind the closing quote everything up to a separator belongs to the field. */
  lemma ContinuedScans(t: string, more: string, r: string, d: char, rows: Table, row: seq<string>)
    requires ValidDelimiter(d) && Unquoted(more, d) && more != ""
    ensures Scan(more + r, d, State(rows, row, t, false)) == Scan(r, d, State(rows, row, t + more, false))
  {
    hide Scan;
    PlainScans(more, r, d, State(rows, row, t, false));
  }

  // ------------------------------------------------------------------- one record

  function Last(fs: seq<Field>): string
    requires fs != []
  {
    TextOf(fs[|fs| - 1])
  }

  lemma {:induction false} FieldsScan(fs: seq<Field>, r: string, d: char, rows: Table, row: seq<string>)
    requires ValidDelimiter(d) && ValidFields(fs, d) && FieldEnds(r, d)
    ensures Scan(FieldsText(fs, d) + r, d, State(rows, row, "", false)) ==
            Scan(r, d, State(rows, row + Texts(fs[..|fs| - 1]), Last(fs), false))
    decreases |fs|
  {
    hide Scan, FieldText;
    if |fs| == 1 {
      FieldScans(fs[0], r, d, rows, row);
      assert row + [] == row;
    } else {
      var rest := [d] + (FieldsText(fs[1..], d) + r);
      assert FieldsText(fs, d) + r == FieldText(fs[0]) + rest;
      FieldScans(fs[0], rest, d, rows, row);
      DelimiterScans(TextOf(fs[0]), FieldsText(fs[1..], d) + r, d, rows, row);
      FieldsScan(fs[1..], r, d, rows, row + [TextOf(fs[0])]);
      assert fs[1..][..|fs| - 2] == fs[..|fs| - 1][1..];
      assert row + [TextOf(fs[0])] + Texts(fs[1..][..|fs| - 2]) == row + Texts(fs[..|fs| - 1]);
    }
  }

  lemma DelimiterScans(field: string, r: string, d: char, rows: Table, row: seq<string>)
    requires ValidDelimiter(d)
    ensures Scan([d] + r, d, State(rows, row, field, false)) == Scan(r, d, State(rows, row + [field], "", false))
  {
    assert ([d] + r)[1..] == r;
  }

  lemma {:induction false} TextsEnd(fs: seq<Field>)
    requires fs != []
    ensures Texts(fs[..|fs| - 1]) + [Last(fs)] == Texts(fs)
  {
    if |fs| > 1 {
      TextsEnd(fs[1..]);
      assert fs[1..][..|fs| - 2] == fs[..|fs| - 1][1..];
    }
  }

  /** After a bare CR a line feed belongs to the same line end. */
  function AfterEnd(e: End, r: string): string {
    if e == CR && r != "" && r[0] == '\n' then r[1..] else r
  }

  lemma EndScans(e: End, r: string, d: char, rows: Table, row: seq<string>, field: string)
    requires ValidDelimiter(d)
    ensures Scan(EndText(e) + r, d, State(rows, row, field, false)) ==
            Scan(AfterEnd(e, r), d, State(rows + [row + [field]], [], "", false))
  {
    var s := EndText(e) + r;
    assert e == CRLF ==> s[2..] == r;
    assert e != CRLF ==> s[1..] == r;
    assert e == CR && r != "" && r[0] == '\n' ==> s[2..] == r[1..] && "\r\n" <= s;
    assert e == CR && (r == "" || r[0] != '\n') ==> !("\r\n" <= s) by {
      assert "\r\n" <= s ==> s[1] == '\n';
    }
  }

  lemma RecordScans(rec: Record, r: string, d: char, rows: Table)
    requires ValidDelimiter(d) && ValidFields(rec.fields, d)
    ensures Scan(FieldsText(rec.fields, d) + EndText(rec.end) + r, d, State(rows, [], "", false)) ==
            Scan(AfterEnd(rec.end, r), d, State(rows + [Texts(rec.fields)], [], "", false))
  {
    hide Scan, FieldsText, Texts;
    var fs := rec.fields;
    assert FieldsText(fs, d) + EndText(rec.end) + r == FieldsText(fs, d) + (EndText(rec.end) + r);
    FieldsScan(fs, EndText(rec.end) + r, d, rows, []);
    EndScans(rec.end, r, d, rows, Texts(fs[..|fs| - 1]), Last(fs));
    TextsEnd(fs);
    assert [] + Texts(fs[..|fs| - 1]) == Texts(fs[..|fs| - 1]);
  }

  lemma FieldHead(f: Field, d: char)
    requires ValidDelimiter(d) && ValidField(f, d)
    ensures if f == Plain("") then FieldText(f) == "" else FieldText(f) != "" && FieldText(f)[0] != '\n'
  {
    hide Doubled;
    if f.Plain? && f.text != "" {
      assert !Separator(f.text[0], d);
    }
  }

  lemma FieldsHead(fs: seq<Field>, d: char)
    requires ValidDelimiter(d) && ValidFields(fs, d)
    ensures if fs == [Plain("")] then FieldsText(fs, d) == "" else FieldsText(fs, d) != "" && FieldsText(fs, d)[0] != '\n'
  {
    FieldHead(fs[0], d);
    hide FieldText, ValidField, TextOf, Doubled;
    if |fs| > 1 {
      assert FieldsText(fs, d) == FieldText(fs[0]) + ([d] + FieldsText(fs[1..], d));
    } else {
      assert fs == [fs[0]];
    }
  }

  /** Only a bare line feed starts a record with a line feed. */
  lemma {:induction false} StartsWithLineFeed(rs: seq<Record>, tail: string, d: char)
    requires ValidDelimiter(d) && rs != [] && ValidFields(rs[0].fields, d)
    ensures var s := Written(rs, d) + tail;
            && s != "" && (s[0] == '\n' <==> BareLineFeed(rs[0]))
            && (BareLineFeed(rs[0]) ==> s[1..] == Written(rs[1..], d) + tail)
  {
    FieldsHead(rs[0].fields, d);
    hide FieldsText, ValidFields;
    var head, end, rest := FieldsText(rs[0].fields, d), rs[0].end, Written(rs[1..], d) + tail;
    WrittenParts(rs, tail, d);
    hide Written;
    EndHead(end, rest);
    BareIs(rs[0]);
    hide BareLineFeed;
    if head == "" {
      assert head + (EndText(end) + rest) == EndText(end) + rest;
    } else {
      assert (head + (EndText(end) + rest))[0] == head[0];
    }
  }

  lemma WrittenParts(rs: seq<Record>, tail: string, d: char)
    requires rs != []
    ensures Written(rs, d) + tail == FieldsText(rs[0].fields, d) + (EndText(rs[0].end) + (Written(rs[1..], d) + tail))
  {
    hide FieldsText, EndText;
  }

  lemma EndHead(e: End, r: string)
    ensures (EndText(e) + r)[0] == '\n' <==> e == LF
    ensures e == LF ==> (EndText(e) + r)[1..] == r
  {
  }

  lemma BareIs(r: Record)
    ensures BareLineFeed(r) <==> r.fields == [Plain("")] && r.end == LF
  {
  }

  // -------------------------------------------------------------------- whole files

  lemma WrittenStep(rs: seq<Record>, tail: string, d: char)
    requires rs != []
    ensures Written(rs, d) + tail == FieldsText(rs[0].fields, d) + EndText(rs[0].end) + (Written(rs[1..], d) + tail)
  {
    hide FieldsText;
  }

  /** How many records a record takes with it. */
  function Taken(rs: seq<Record>): (n: nat)
    requires rs != []
    ensures 1 <= n <= |rs|
  {
    if rs[0].end == CR && |rs| > 1 && BareLineFeed(rs[1]) then 2 else 1
  }

  lemma AfterRecord(rs: seq<Record>, tail: string, d: char)
    requires ValidDelimiter(d) && rs != [] && ValidRecords(rs, d) && (tail == "" || tail[0] != '\n')
    ensures AfterEnd(rs[0].end, Written(rs[1..], d) + tail) == Written(rs[Taken(rs)..], d) + tail
  {
    hide BareLineFeed, FieldsText;
    if |rs| > 1 {
      StartsWithLineFeed(rs[1..], tail, d);
      assert rs[1..][1..] == rs[2..];
      hide Written;
    } else {
      assert Written(rs[1..], d) + tail == tail;
    }
  }

  lemma {:induction false} RecordsScan(rs: seq<Record>, tail: string, d: char, rows: Table)
    requires ValidDelimiter(d) && ValidRecords(rs, d) && (tail == "" || tail[0] != '\n')
    ensures Scan(Written(rs, d) + tail, d, State(rows, [], "", false)) ==
            Scan(tail, d, State(rows + Contents(Told(rs)), [], "", false))
    decreases |rs|
  {
    hide Scan, FieldsText, Texts, BareLineFeed, AfterEnd;
    if rs == [] {
      assert Written(rs, d) + tail == tail && rows + [] == rows;
    } else {
      WrittenStep(rs, tail, d);
      RecordScans(rs[0], Written(rs[1..], d) + tail, d, rows);
      AfterRecord(rs, tail, d);
      var rest, next := rs[Taken(rs)..], rows + [Texts(rs[0].fields)];
      assert Told(rs) == [rs[0]] + Told(rest);
      hide Written;
      RecordsScan(rest, tail, d, next);
      assert next + Contents(Told(rest)) == rows + Contents(Told(rs));
    }
  }

  lemma NothingLeft(d: char, rows: Table)
    ensures Finish(Scan("", d, State(rows, [], "", false))) == rows
  {
  }

  /** CSV inverse: whatever the characters of the fields, the reader recovers
      the table that was written, but for line feeds it cannot tell from the
      second half of a CRLF. */
  lemma ReadsWhatWasWritten(rs: seq<Record>, d: char)
    requires ValidDelimiter(d) && ValidRecords(rs, d)
    ensures Parsed(Written(rs, d), d) == Contents(Told(rs))
  {
    hide Scan, Written, Contents, Told;
    RecordsScan(rs, "", d, []);
    var rows := Contents(Told(rs));
    assert Written(rs, d) + "" == Written(rs, d) && [] + rows == rows;
    NothingLeft(d, rows);
  }

  lemma {:induction false} ToldAll(rs: seq<Record>)
    ensures |Told(rs)| <= |rs| && (|Told(rs)| == |rs| <==> NoneSwallowed(rs)) && (NoneSwallowed(rs) ==> Told(rs) == rs)
    decreases |rs|
  {
    if rs != [] {
      if rs[0].end == CR && |rs| > 1 && BareLineFeed(rs[1]) {
        ToldAll(rs[2..]);
      } else {
        ToldAll(rs[1..]);
        assert forall k :: 0 < k < |rs| - 1 ==> rs[1..][k - 1] == rs[k] && rs[1..][k] == rs[k + 1];
        assert NoneSwallowed(rs) ==> NoneSwallowed(rs[1..]);
        if NoneSwallowed(rs[1..]) {
          forall k | 0 < k < |rs| ensures !(rs[k - 1].end == CR && BareLineFeed(rs[k])) {
            if k > 1 {
              assert rs[1..][k - 2] == rs[k - 1] && rs[1..][k - 1] == rs[k];
            }
          }
        }
      }
    }
  }

  lemma {:induction false} ContentsLength(rs: seq<Record>)
    ensures |Contents(rs)| == |rs|
  {
    if rs != [] {
      ContentsLength(rs[1..]);
    }
  }

  /** Exactly when the table comes back whole. */
  lemma RecoversExactly(rs: seq<Record>, d: char)
    requires ValidDelimiter(d) && ValidRecords(rs, d)
    ensures Parsed(Written(rs, d), d) == Contents(rs) <==> NoneSwallowed(rs)
  {
    ReadsWhatWasWritten(rs, d);
    ToldAll(rs);
    ContentsLength(rs);
    ContentsLength(Told(rs));
  }

  /** In the fully quoted form nothing is ever swallowed. */
  lemma QuotedTableRecovers(rs: seq<Record>, d: char)
    requires ValidDelimiter(d) && ValidRecords(rs, d)
    requires forall k, i :: 0 <= k < |rs| && 0 <= i < |rs[k].fields| ==> rs[k].fields[i].Quoted?
    ensures Parsed(Written(rs, d), d) == Contents(rs)
  {
    RecoversExactly(rs, d);
    forall k | 0 < k < |rs| ensures !BareLineFeed(rs[k]) {
      assert rs[k].fields[0].Quoted?;
    }
  }

  /** A last record without a line end is read too, unless it is one empty field. */
  lemma UnendedRecord(rs: seq<Record>, fs: seq<Field>, d: char)
    requires ValidDelimiter(d) && ValidRecords(rs, d) && ValidFields(fs, d)
    ensures Parsed(Written(rs, d) + FieldsText(fs, d), d) ==
            Contents(Told(rs)) + if Texts(fs) == [""] then [] else [Texts(fs)]
  {
    var tail, rows := FieldsText(fs, d), Contents(Told(rs));
    FieldsHead(fs, d);
    RecordsScan(rs, tail, d, []);
    hide Told, Contents, Written;
    assert [] + rows == rows && tail + "" == tail;
    FieldsScan(fs, "", d, rows, []);
    TextsEnd(fs);
    hide FieldsText, Texts;
    var row, field := Texts(fs[..|fs| - 1]), Last(fs);
    assert [] + row == row && Scan("", d, State(rows, row, field, false)) == State(rows, row, field, false);
    assert row == [] ==> row + [field] == [field];
    assert row != [] ==> |row + [field]| > 1;
  }

  // ---------------------------------------------------------------- every text

  /** What stands behind the last line end: fields, or fields and a quote that is
      never closed. */
  datatype Rest = Ended(fields: seq<Field>) | Unclosed(fields: seq<Field>, text: string)

  function Lead(fs: seq<Field>, d: char): string {
    if fs == [] then "" else FieldText(fs[0]) + [d] + Lead(fs[1..], d)
  }

  function RestText(rest: Rest, d: char): string {
    match rest
    case Ended(fs) => FieldsText(fs, d)
    case Unclosed(fs, t) => Lead(fs, d) + "\"" + Doubled(t)
  }

  /** The record of the rest: none if there is nothing in it. */
  function RestRow(rest: Rest): seq<string> {
    match rest
    case Ended(fs) => Texts(fs)
    case Unclosed(fs, t) => Texts(fs) + [t]
  }

  predicate ValidRest(rest: Rest, d: char) {
    match rest
    case Ended(fs) => ValidFields(fs, d)
    case Unclosed(fs, _) => forall i :: 0 <= i < |fs| ==> ValidField(fs[i], d)
  }

  lemma {:induction false} OpenScans(t: string, d: char, st: State)
    requires ValidDelimiter(d) && st.inQuotes
    ensures Scan(Doubled(t), d, st) == st.(field := st.field + t)
    decreases |t|
  {
    if t == "" {
      assert st.field + t == st.field;
    } else {
      CharScans(t[0], Doubled(t[1..]), d, st);
      hide Scan;
      OpenScans(t[1..], d, st.(field := st.field + [t[0]]));
      assert st.field + [t[0]] + t[1..] == st.field + t;
    }
  }

  lemma {:induction false} LeadScans(fs: seq<Field>, r: string, d: char, rows: Table, row: seq<string>)
    requires ValidDelimiter(d) && forall i :: 0 <= i < |fs| ==> ValidField(fs[i], d)
    ensures Scan(Lead(fs, d) + r, d, State(rows, row, "", false)) == Scan(r, d, State(rows, row + Texts(fs), "", false))
    decreases |fs|
  {
    hide Scan, FieldText, ValidField, TextOf;
    if fs == [] {
      assert Lead(fs, d) + r == r && row + [] == row;
    } else {
      var rest := Lead(fs[1..], d) + r;
      assert Lead(fs, d) + r == FieldText(fs[0]) + ([d] + rest);
      FieldScans(fs[0], [d] + rest, d, rows, row);
      DelimiterScans(TextOf(fs[0]), rest, d, rows, row);
      LeadScans(fs[1..], r, d, rows, row + [TextOf(fs[0])]);
      assert row + [TextOf(fs[0])] + Texts(fs[1..]) == row + Texts(fs);
    }
  }

  lemma UnclosedScans(fs: seq<Field>, t: string, d: char, rows: Table)
    requires ValidDelimiter(d) && forall i :: 0 <= i < |fs| ==> ValidField(fs[i], d)
    ensures Scan(RestText(Unclosed(fs, t), d), d, State(rows, [], "", false)) == State(rows, Texts(fs), t, true)
  {
    hide Scan, Lead, ValidField, Texts, Doubled;
    var r, st := ['"'] + Doubled(t), State(rows, Texts(fs), "", false);
    assert RestText(Unclosed(fs, t), d) == Lead(fs, d) + r && [] + Texts(fs) == Texts(fs);
    LeadScans(fs, r, d, rows, []);
    QuoteOpens(Doubled(t), d, st);
    OpenScans(t, d, st.(inQuotes := true));
    assert "" + t == t;
  }

  lemma UnclosedHead(fs: seq<Field>, t: string, d: char)
    requires ValidDelimiter(d) && forall i :: 0 <= i < |fs| ==> ValidField(fs[i], d)
    ensures RestText(Unclosed(fs, t), d) != "" && RestText(Unclosed(fs, t), d)[0] != '\n'
  {
    hide Doubled, FieldText;
    if fs != [] {
      FieldHead(fs[0], d);
      var lead := FieldText(fs[0]) + [d];
      assert Lead(fs, d) == lead + Lead(fs[1..], d);
      assert lead[0] != '\n';
      assert RestText(Unclosed(fs, t), d)[0] == lead[0];
    } else {
      assert RestText(Unclosed(fs, t), d)[0] == '"';
    }
  }

  /** A quote that is never closed takes the rest of the text, line ends and all. */
  lemma UnclosedRecord(rs: seq<Record>, fs: seq<Field>, t: string, d: char)
    requires ValidDelimiter(d) && ValidRecords(rs, d) && forall i :: 0 <= i < |fs| ==> ValidField(fs[i], d)
    ensures Parsed(Written(rs, d) + RestText(Unclosed(fs, t), d), d) ==
            Contents(Told(rs)) + if Texts(fs) + [t] == [""] then [] else [Texts(fs) + [t]]
  {
    var tail, rows := RestText(Unclosed(fs, t), d), Contents(Told(rs));
    UnclosedHead(fs, t, d);
    RecordsScan(rs, tail, d, []);
    UnclosedScans(fs, t, d, rows);
    hide Told, Contents, Written, Texts, Scan, RestText;
    assert [] + rows == rows;
    assert Texts(fs) == [] ==> Texts(fs) + [t] == [t];
    assert Texts(fs) != [] ==> |Texts(fs) + [t]| > 1;
  }

  /** Where a quoted text ends, if it does. */
  lemma {:induction false} SplitQuoted(s: string) returns (t: string, r: Option<string>)
    ensures r.None? ==> s == Doubled(t)
    ensures r.Some? ==> s == Doubled(t) + "\"" + r.value && (r.value == "" || r.value[0] != '"')
    decreases |s|
  {
    if s == "" {
      t, r := "", None;
    } else if s[0] != '"' {
      t, r := SplitQuoted(s[1..]);
      t := [s[0]] + t;
      DoubledNext(s[0], t[1..]);
    } else if |s| > 1 && s[1] == '"' {
      t, r := SplitQuoted(s[2..]);
      t := ['"'] + t;
      DoubledNext('"', t[1..]);
      assert s == "\"\"" + s[2..];
    } else {
      t, r := "", Some(s[1..]);
    }
  }

  lemma DoubledNext(c: char, t: string)
    ensures Doubled([c] + t) == (if c == '"' then "\"\"" else [c]) + Doubled(t)
  {
    assert ([c] + t)[1..] == t;
  }

  lemma {:induction false} SplitUnquoted(s: string, d: char) returns (t: string, r: string)
    ensures s == t + r && (forall i :: 0 <= i < |t| ==> !Separator(t[i], d)) && FieldEnds(r, d)
  {
    if s == "" || Separator(s[0], d) {
      t, r := "", s;
    } else {
      t, r := SplitUnquoted(s[1..], d);
      t := [s[0]] + t;
    }
  }

  datatype Split = Whole(field: Field, rest: string) | Open(text: string)

  lemma QuotedField(t: string, more: string, rest: string, d: char) returns (f: Field)
    requires Unquoted(more, d)
    ensures "\"" + (Doubled(t) + "\"" + (more + rest)) == FieldText(f) + rest && ValidField(f, d)
  {
    hide Doubled, Unquoted;
    f := if more == "" then Quoted(t) else Continued(t, more);
    var front := "\"" + Doubled(t) + "\"";
    assert FieldText(f) == front + more;
    assert front + more + rest == "\"" + (Doubled(t) + "\"" + (more + rest));
  }

  /** Any text starts with a field, or is a quote without its end. */
  lemma SplitField(s: string, d: char) returns (p: Split)
    ensures p.Whole? ==> s == FieldText(p.field) + p.rest && ValidField(p.field, d) && FieldEnds(p.rest, d)
    ensures p.Open? ==> s == "\"" + Doubled(p.text)
  {
    hide Doubled, FieldEnds, Separator;
    if s != "" && s[0] == '"' {
      assert s == "\"" + s[1..];
      var t, r := SplitQuoted(s[1..]);
      if r.None? {
        p := Open(t);
      } else {
        var more, rest := SplitUnquoted(r.value, d);
        var f := QuotedField(t, more, rest, d);
        hide FieldText, ValidField;
        p := Whole(f, rest);
      }
    } else {
      var t, r := SplitUnquoted(s, d);
      assert t != "" ==> t[0] == s[0];
      p := Whole(Plain(t), r);
    }
  }

  predicate LineEnds(r: string) {
    r == "" || r[0] == '\n' || r[0] == '\r'
  }

  /** Any text starts with a record, or ends inside a quote before its first one does. */
  lemma {:induction false} SplitRecord(s: string, d: char) returns (rest: Rest, r: string)
    requires ValidDelimiter(d)
    ensures ValidRest(rest, d) && s == RestText(rest, d) + r && LineEnds(r) && (rest.Unclosed? ==> r == "")
    decreases |s|
  {
    hide FieldText, Doubled, ValidField;
    var p := SplitField(s, d);
    if p.Open? {
      rest, r := Unclosed([], p.text), "";
      assert Lead([], d) + "\"" + Doubled(p.text) == s;
    } else if p.rest != "" && p.rest[0] == d {
      rest, r := SplitRecord(p.rest[1..], d);
      assert s == FieldText(p.field) + [d] + (RestText(rest, d) + r);
      rest := Before(p.field, rest, d);
    } else {
      rest, r := Ended([p.field]), p.rest;
    }
  }

  lemma Before(f: Field, rest: Rest, d: char) returns (more: Rest)
    requires ValidField(f, d) && ValidRest(rest, d)
    ensures ValidRest(more, d) && RestText(more, d) == FieldText(f) + [d] + RestText(rest, d) && (more.Unclosed? <==> rest.Unclosed?)
  {
    hide FieldText, Doubled, ValidField;
    var fs := [f] + rest.fields;
    assert fs[1..] == rest.fields;
    match rest
    case Ended(_) =>
      more := Ended(fs);
    case Unclosed(_, t) =>
      more := Unclosed(fs, t);
      assert Lead(fs, d) == FieldText(f) + [d] + Lead(rest.fields, d);
  }

  function EndOf(r: string): End
    requires LineEnds(r) && r != ""
  {
    if r[0] == '\n' then LF else if "\r\n" <= r then CRLF else CR
  }

  /** Any text is records in the written form and a rest. */
  lemma {:induction false} SplitText(s: string, d: char) returns (rs: seq<Record>, rest: Rest)
    requires ValidDelimiter(d)
    ensures ValidRecords(rs, d) && ValidRest(rest, d) && s == Written(rs, d) + RestText(rest, d)
    decreases |s|
  {
    hide RestText, ValidFields, FieldsText, ValidField;
    var first, r := SplitRecord(s, d);
    if r == "" {
      rs, rest := [], first;
      assert s == RestText(first, d);
    } else {
      var rec := Record(first.fields, EndOf(r));
      var end := EndText(rec.end);
      assert r == end + r[|end|..];
      rs, rest := SplitText(r[|end|..], d);
      RestOfEnded(first.fields, d);
      WrittenStep([rec] + rs, RestText(rest, d), d);
      assert ([rec] + rs)[1..] == rs;
      hide Written;
      rs := [rec] + rs;
    }
  }

  lemma RestOfEnded(fs: seq<Field>, d: char)
    ensures RestText(Ended(fs), d) == FieldsText(fs, d)
  {
  }

  /** Every text there is, well-formed or not, is records and a rest in the
      written form, and is read as just those. */
  lemma EveryText(s: string, d: char) returns (rs: seq<Record>, rest: Rest)
    requires ValidDelimiter(d)
    ensures ValidRecords(rs, d) && ValidRest(rest, d) && s == Written(rs, d) + RestText(rest, d)
    ensures Parsed(s, d) == Contents(Told(rs)) + if RestRow(rest) == [""] then [] else [RestRow(rest)]
  {
    rs, rest := SplitText(s, d);
    hide Parsed, Contents, Told, Written, Texts;
    match rest
    case Ended(fs) =>
      UnendedRecord(rs, fs, d);
    case Unclosed(fs, t) =>
      UnclosedRecord(rs, fs, t, d);
  }
}
