/** The scanners of frontend/src/lib/attachmentExcel.ts: its regular expressions
    as functions on what is left of the text, and the escaping of
    frontend/src/lib/simpleXlsx.ts. */
module Xml {
  import opened Text

  // --------------------------------------------------------- character classes

  predicate NameStart(c: char) {
    'a' <= c <= 'z' || 'A' <= c <= 'Z' || c == '_'
  }

  predicate WordChar(c: char) {
    NameStart(c) || IsDigit(c)
  }

  predicate NameChar(c: char) {
    WordChar(c) || c == '.' || c == '-'
  }

  predicate Word(s: string) {
    forall i :: 0 <= i < |s| ==> WordChar(s[i])
  }

  predicate Without(s: string, c: char) {
    forall i :: 0 <= i < |s| ==> s[i] != c
  }

  // ------------------------------------------------------------------- elements

  /** An element the reader looks for. `spaced` demands a space or the end of the
      tag after the name where others accept any word boundary; `selfCloses`
      accepts `/>`. */
  datatype Kind = Kind(name: string, spaced: bool, selfCloses: bool)

  datatype Element = Element(attrs: string, body: string)

  function SkipName(s: string): (r: string)
    ensures |r| <= |s|
  {
    if s != "" && NameChar(s[0]) then SkipName(s[1..]) else s
  }

  /** What follows an optional namespace prefix. */
  function Unprefixed(s: string): (r: Option<string>)
    ensures r.Some? ==> |r.value| < |s|
  {
    if s == "" || !NameStart(s[0]) then None
    else
      var r := SkipName(s[1..]);
      if r != "" && r[0] == ':' then Some(r[1..]) else None
  }

  function AfterName(k: Kind, s: string): (r: Option<string>)
    ensures r.Some? ==> |r.value| <= |s|
  {
    if !(k.name <= s) then None
    else
      var r := s[|k.name|..];
      var ends := if k.spaced then r != "" && (r[0] == '>' || IsSpace(r[0])) else r == "" || !WordChar(r[0]);
      if ends then Some(r) else None
  }

  function Opening(k: Kind, s: string): (r: Option<string>)
    ensures r.Some? ==> |r.value| <= |s|
  {
    var p := Unprefixed(s);
    if p.Some? && AfterName(k, p.value).Some? then AfterName(k, p.value) else AfterName(k, s)
  }

  function AfterExact(t: string, s: string): (r: Option<string>)
    ensures r.Some? ==> |r.value| <= |s|
  {
    if t <= s then Some(s[|t|..]) else None
  }

  function Closing(name: string, s: string): (r: Option<string>)
    ensures r.Some? ==> |r.value| <= |s|
  {
    var p := Unprefixed(s);
    if p.Some? && AfterExact(name + ">", p.value).Some? then AfterExact(name + ">", p.value) else AfterExact(name + ">", s)
  }

  /** The text before and after the first `c`. */
  function Until(s: string, c: char): (r: Option<(string, string)>)
    ensures r.Some? ==> |r.value.1| < |s| && s == r.value.0 + [c] + r.value.1 && Without(r.value.0, c)
    ensures r.None? ==> Without(s, c)
  {
    if s == "" then None
    else if s[0] == c then Some(("", s[1..]))
    else match Until(s[1..], c)
      case None => None
      case Some((before, after)) => Some(([s[0]] + before, after))
  }

  /** Everything up to the first closing tag, and what follows it. */
  function Body(name: string, s: string): (r: Option<(string, string)>)
    ensures r.Some? ==> |r.value.1| < |s|
  {
    if s == "" then None
    else if "</" <= s && Closing(name, s[2..]).Some? then Some(("", Closing(name, s[2..]).value))
    else match Body(name, s[1..])
      case None => None
      case Some((before, after)) => Some(([s[0]] + before, after))
  }

  /** A match that starts with the text itself. */
  function ElementAt(k: Kind, s: string): (r: Option<(Element, string)>)
    ensures r.Some? ==> |r.value.1| < |s|
  {
    if s == "" || s[0] != '<' then None
    else match Opening(k, s[1..])
      case None => None
      case Some(r) =>
        match Until(r, '>')
        case None => None
        case Some((attrs, after)) =>
          if k.selfCloses && attrs != "" && attrs[|attrs| - 1] == '/' then Some((Element(attrs[..|attrs| - 1], ""), after))
          else match Body(k.name, after)
            case None => None
            case Some((body, rest)) => Some((Element(attrs, body), rest))
  }

  /** `matchAll`. */
  function Elements(k: Kind, s: string): seq<Element>
    decreases |s|
  {
    if s == "" then []
    else match ElementAt(k, s)
      case None => Elements(k, s[1..])
      case Some((e, rest)) => [e] + Elements(k, rest)
  }

  // ----------------------------------------------------------------- attributes

  function ValueHere(s: string, name: string): Option<string> {
    var t := name + "=\"";
    if !(t <= s) then None
    else match Until(s[|t|..], '"')
      case None => None
      case Some((v, _)) => Some(v)
  }

  /** The raw value of an attribute that stands first or after a space. */
  function RawAttr(s: string, name: string, first: bool): Option<string>
    decreases |s|
  {
    if first && ValueHere(s, name).Some? then ValueHere(s, name)
    else if s == "" then None
    else if IsSpace(s[0]) && ValueHere(s[1..], name).Some? then ValueHere(s[1..], name)
    else RawAttr(s[1..], name, false)
  }

  // ------------------------------------------------------------------- escaping

  predicate IsControl(c: char) {
    c <= '\U{0008}' || c == '\U{000B}' || c == '\U{000C}' || '\U{000E}' <= c <= '\U{001F}'
  }

  function CleanXmlText(s: string): string {
    if s == "" then "" else (if IsControl(s[0]) then "" else [s[0]]) + CleanXmlText(s[1..])
  }

  function ReplaceAll(s: string, c: char, r: string): string {
    if s == "" then "" else (if s[0] == c then r else [s[0]]) + ReplaceAll(s[1..], c, r)
  }

  function EscapeXml(s: string): string {
    ReplaceAll(ReplaceAll(ReplaceAll(ReplaceAll(CleanXmlText(s), '&', "&amp;"), '<', "&lt;"), '>', "&gt;"), '"', "&quot;")
  }

  predicate IsHex(c: char) {
    IsDigit(c) || 'a' <= c <= 'f' || 'A' <= c <= 'F'
  }

  function SkipHex(s: string): (r: string)
    ensures |r| <= |s|
  {
    if s != "" && IsHex(s[0]) then SkipHex(s[1..]) else s
  }

  /** A numeric reference `#…` up to its semicolon. */
  function NumericEntity(s: string): (r: Option<(string, string)>)
    ensures r.Some? ==> |r.value.1| < |s|
  {
    if !("#" <= s) then None
    else
      var digits := if "#x" <= s then s[2..] else s[1..];
      var rest := SkipHex(digits);
      if |rest| < |digits| && rest != "" && rest[0] == ';' then Some((s[..|s| - |rest|], rest[1..])) else None
  }

  /** The entity after an ampersand: its text, and what follows. `numeric` gives
      the text of a numeric reference. */
  function Entity(s: string, numeric: string -> string): (r: Option<(string, string)>)
    ensures r.Some? ==> |r.value.1| < |s|
  {
    if NumericEntity(s).Some? then Some((numeric(NumericEntity(s).value.0), NumericEntity(s).value.1))
    else if "amp;" <= s then Some(("&", s[4..]))
    else if "lt;" <= s then Some(("<", s[3..]))
    else if "gt;" <= s then Some((">", s[3..]))
    else if "quot;" <= s then Some(("\"", s[5..]))
    else if "apos;" <= s then Some(("'", s[5..]))
    else None
  }

  function XmlUnescape(s: string, numeric: string -> string): string
    decreases |s|
  {
    if s == "" then ""
    else if s[0] == '&' && Entity(s[1..], numeric).Some? then
      Entity(s[1..], numeric).value.0 + XmlUnescape(Entity(s[1..], numeric).value.1, numeric)
    else [s[0]] + XmlUnescape(s[1..], numeric)
  }

  function XmlAttr(s: string, name: string, numeric: string -> string): string {
    match RawAttr(s, name, true)
    case None => ""
    case Some(v) => XmlUnescape(v, numeric)
  }

  // --------------------------------------------- unescaping undoes escaping

  function Escaped(c: char): string {
    if c == '&' then "&amp;" else if c == '<' then "&lt;" else if c == '>' then "&gt;" else if c == '"' then "&quot;" else [c]
  }

  function EscapedAll(s: string): string {
    if s == "" then "" else Escaped(s[0]) + EscapedAll(s[1..])
  }

  lemma {:induction false} ReplaceConcat(s: string, t: string, c: char, r: string)
    ensures ReplaceAll(s + t, c, r) == ReplaceAll(s, c, r) + ReplaceAll(t, c, r)
  {
    if s == "" {
      assert s + t == t;
    } else {
      assert (s + t)[1..] == s[1..] + t;
      ReplaceConcat(s[1..], t, c, r);
    }
  }

  lemma {:induction false} ReplaceNone(s: string, c: char, r: string)
    requires Without(s, c)
    ensures ReplaceAll(s, c, r) == s
  {
    if s != "" {
      ReplaceNone(s[1..], c, r);
    }
  }

  lemma ReplaceOne(c: char, r: string)
    ensures ReplaceAll([c], c, r) == r
  {
    assert [c][1..] == "";
    assert r + "" == r;
  }

  function Replaced(s: string): string {
    ReplaceAll(ReplaceAll(ReplaceAll(ReplaceAll(s, '&', "&amp;"), '<', "&lt;"), '>', "&gt;"), '"', "&quot;")
  }

  lemma ReplacedConcat(s: string, t: string)
    ensures Replaced(s + t) == Replaced(s) + Replaced(t)
  {
    hide ReplaceAll;
    ReplaceConcat(s, t, '&', "&amp;");
    var s1, t1 := ReplaceAll(s, '&', "&amp;"), ReplaceAll(t, '&', "&amp;");
    ReplaceConcat(s1, t1, '<', "&lt;");
    var s2, t2 := ReplaceAll(s1, '<', "&lt;"), ReplaceAll(t1, '<', "&lt;");
    ReplaceConcat(s2, t2, '>', "&gt;");
    ReplaceConcat(ReplaceAll(s2, '>', "&gt;"), ReplaceAll(t2, '>', "&gt;"), '"', "&quot;");
  }

  lemma ReplacedChar(c: char)
    ensures Replaced([c]) == Escaped(c)
  {
    hide ReplaceAll;
    if c == '&' {
      ReplaceOne(c, "&amp;");
      ReplaceNone("&amp;", '<', "&lt;");
      ReplaceNone("&amp;", '>', "&gt;");
      ReplaceNone("&amp;", '"', "&quot;");
    } else if c == '<' {
      ReplaceNone([c], '&', "&amp;");
      ReplaceOne(c, "&lt;");
      ReplaceNone("&lt;", '>', "&gt;");
      ReplaceNone("&lt;", '"', "&quot;");
    } else if c == '>' {
      ReplaceNone([c], '&', "&amp;");
      ReplaceNone([c], '<', "&lt;");
      ReplaceOne(c, "&gt;");
      ReplaceNone("&gt;", '"', "&quot;");
    } else {
      ReplaceNone([c], '&', "&amp;");
      ReplaceNone([c], '<', "&lt;");
      ReplaceNone([c], '>', "&gt;");
      if c == '"' {
        ReplaceOne(c, "&quot;");
      } else {
        ReplaceNone([c], '"', "&quot;");
      }
    }
  }

  /** Four passes over the text come to one substitution per character: the
      ampersands they add are not escaped again. */
  lemma {:induction false} PassesAgree(s: string)
    ensures Replaced(s) == EscapedAll(s)
  {
    if s == "" {
      assert Replaced("") == "";
    } else {
      hide Replaced, Escaped;
      assert s == [s[0]] + s[1..];
      ReplacedConcat([s[0]], s[1..]);
      ReplacedChar(s[0]);
      PassesAgree(s[1..]);
    }
  }

  lemma EntityNamed(name: string, text: string, rest: string, numeric: string -> string)
    requires (name, text) in [("amp;", "&"), ("lt;", "<"), ("gt;", ">"), ("quot;", "\"")]
    ensures Entity(name + rest, numeric) == Some((text, rest))
  {
    var s := name + rest;
    assert s[|name|..] == rest && s[0] == name[0] && name <= s;
    hide SkipHex;
    assert "#"[0] != s[0];
    assert name != "amp;" ==> "amp;"[0] != s[0];
    assert name != "lt;" ==> "lt;"[0] != s[0];
    assert name != "gt;" ==> "gt;"[0] != s[0];
    assert name != "quot;" ==> "quot;"[0] != s[0];
  }

  lemma UnescapeEntity(s: string, text: string, rest: string, numeric: string -> string)
    requires s != "" && s[0] == '&' && Entity(s[1..], numeric) == Some((text, rest))
    ensures XmlUnescape(s, numeric) == text + XmlUnescape(rest, numeric)
  {
    hide Entity;
  }

  lemma UnescapeChar(c: char, rest: string, numeric: string -> string)
    ensures XmlUnescape(Escaped(c) + rest, numeric) == [c] + XmlUnescape(rest, numeric)
  {
    var s := Escaped(c) + rest;
    if Escaped(c) != [c] {
      var name := Escaped(c)[1..];
      EntityNamed(name, [c], rest, numeric);
      assert s[1..] == name + rest;
      UnescapeEntity(s, [c], rest, numeric);
    } else {
      assert s[1..] == rest;
    }
  }

  lemma {:induction false} UnescapeAll(s: string, numeric: string -> string)
    ensures XmlUnescape(EscapedAll(s), numeric) == s
  {
    if s != "" {
      UnescapeChar(s[0], EscapedAll(s[1..]), numeric);
      hide XmlUnescape, Escaped;
      UnescapeAll(s[1..], numeric);
    }
  }

  /** Reading an escaped text gives it back, but for its control characters. */
  lemma UnescapeUndoesEscape(s: string, numeric: string -> string)
    ensures XmlUnescape(EscapeXml(s), numeric) == CleanXmlText(s)
  {
    PassesAgree(CleanXmlText(s));
    UnescapeAll(CleanXmlText(s), numeric);
    hide XmlUnescape, ReplaceAll;
  }

  predicate HexDigits(s: string) {
    s != "" && forall i :: 0 <= i < |s| ==> IsHex(s[i])
  }

  lemma {:induction false} HexStops(h: string, t: string)
    requires (forall i :: 0 <= i < |h| ==> IsHex(h[i])) && (t == "" || !IsHex(t[0]))
    ensures SkipHex(h + t) == t
  {
    if h == "" {
      assert h + t == t;
    } else {
      assert (h + t)[1..] == h[1..] + t;
      HexStops(h[1..], t);
    }
  }

  lemma NumericReads(x: string, h: string, rest: string, numeric: string -> string)
    requires x in ["#", "#x"] && HexDigits(h)
    ensures Entity(x + h + ";" + rest, numeric) == Some((numeric(x + h), rest))
  {
    var s, tail := x + h + ";" + rest, ";" + rest;
    HexStops(h, tail);
    assert s[|x|..] == h + tail && s[..|s| - |tail|] == x + h && tail[1..] == rest;
    assert x == "#" ==> s[1] == h[0] && h[0] != 'x';
    hide SkipHex;
    assert "#" <= s;
    assert "#x" <= s <==> x == "#x";
  }

  /** The references of other writers: an apostrophe, and characters by number in
      decimal or hexadecimal, wherever they stand. */
  lemma OtherReferencesRead(x: string, h: string, rest: string, numeric: string -> string)
    requires x in ["#", "#x"] && HexDigits(h)
    ensures XmlUnescape("&apos;" + rest, numeric) == "'" + XmlUnescape(rest, numeric)
    ensures XmlUnescape("&" + x + h + ";" + rest, numeric) == numeric(x + h) + XmlUnescape(rest, numeric)
  {
    var named, numbered := "&apos;" + rest, "&" + x + h + ";" + rest;
    assert named[1..] == "apos;" + rest && numbered[1..] == x + h + ";" + rest;
    ApostropheReads(rest, numeric);
    NumericReads(x, h, rest, numeric);
    hide Entity;
    UnescapeEntity(named, "'", rest, numeric);
    UnescapeEntity(numbered, numeric(x + h), rest, numeric);
  }

  lemma ApostropheReads(rest: string, numeric: string -> string)
    ensures Entity("apos;" + rest, numeric) == Some(("'", rest))
  {
    var s := "apos;" + rest;
    assert s[5..] == rest && s[0] == 'a' && s[1] == 'p' && "apos;" <= s;
    assert "amp;"[1] == 'm' && "lt;"[0] == 'l' && "gt;"[0] == 'g' && "quot;"[0] == 'q' && "#"[0] == '#';
    hide SkipHex;
  }

  lemma {:induction false} UnescapePlain(s: string, numeric: string -> string)
    requires Without(s, '&')
    ensures XmlUnescape(s, numeric) == s
  {
    if s != "" {
      UnescapePlain(s[1..], numeric);
    }
  }

  lemma {:induction false} EscapedIsSafe(s: string)
    ensures Without(EscapedAll(s), '<') && Without(EscapedAll(s), '>') && Without(EscapedAll(s), '"')
  {
    if s != "" {
      EscapedIsSafe(s[1..]);
      EscapedCharIsSafe(s[0]);
      hide Escaped;
    }
  }

  lemma EscapedCharIsSafe(c: char)
    ensures Without(Escaped(c), '<') && Without(Escaped(c), '>') && Without(Escaped(c), '"')
  {
  }
}
