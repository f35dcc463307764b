/** How the scanners read markup put together from tags and text. */
module XmlScan {
  import opened Text
  import opened Xml

  datatype Piece = Open(name: string, attrs: string) | Shut(name: string) | Chars(text: string)

  function Render1(p: Piece): string {
    match p
    case Open(name, attrs) => "<" + name + attrs + ">"
    case Shut(name) => "</" + name + ">"
    case Chars(text) => text
  }

  function Render(ps: seq<Piece>): string {
    if ps == [] then "" else Render1(ps[0]) + Render(ps[1..])
  }

  /** Neither a name nor a prefix goes on here. */
  predicate Stops(s: string) {
    s != "" && !NameChar(s[0]) && s[0] != ':'
  }

  predicate Inside(s: string) {
    Without(s, '<') && Without(s, '>')
  }

  predicate ValidPiece(p: Piece) {
    match p
    case Open(name, attrs) => Word(name) && Inside(attrs) && Stops(attrs + ">") && (name == "" ==> attrs != "" && attrs[0] != '/')
    case Shut(name) => Word(name) && name != ""
    case Chars(text) => Without(text, '<')
  }

  predicate Valid(ps: seq<Piece>) {
    forall i :: 0 <= i < |ps| ==> ValidPiece(ps[i])
  }

  predicate NeverOpens(ps: seq<Piece>, name: string) {
    forall i :: 0 <= i < |ps| && ps[i].Open? ==> ps[i].name != name
  }

  predicate NeverShuts(ps: seq<Piece>, name: string) {
    forall i :: 0 <= i < |ps| && ps[i].Shut? ==> ps[i].name != name
  }

  predicate KnownKind(k: Kind) {
    k.name != "" && Word(k.name)
  }

  // ----------------------------------------------------------------------- names

  lemma {:induction false} SkipNameWord(n: string, t: string)
    requires Word(n) && (t == "" || !NameChar(t[0]))
    ensures SkipName(n + t) == t
  {
    if n == "" {
      assert n + t == t;
    } else {
      assert (n + t)[1..] == n[1..] + t;
      SkipNameWord(n[1..], t);
    }
  }

  lemma NotPrefixed(n: string, t: string)
    requires Word(n) && Stops(t)
    ensures Unprefixed(n + t) == None
  {
    if n != "" {
      assert (n + t)[1..] == n[1..] + t;
      SkipNameWord(n[1..], t);
    } else {
      assert n + t == t;
    }
  }

  lemma NoPrefix(t: string, s: string, i: nat)
    requires i < |t| && i < |s| && t[i] != s[i]
    ensures !(t <= s)
  {
  }

  lemma OpeningOf(k: Kind, n: string, t: string)
    requires KnownKind(k) && Word(n) && Stops(t)
    ensures n != k.name ==> Opening(k, n + t) == None
    ensures n == k.name && (t[0] == '>' || IsSpace(t[0])) ==> Opening(k, n + t) == Some(t)
  {
    NotPrefixed(n, t);
    var s := n + t;
    if |k.name| < |n| {
      assert k.name <= s ==> s[|k.name|..][0] == n[|k.name|];
    } else if |k.name| > |n| {
      NoPrefix(k.name, s, |n|);
    } else {
      assert k.name <= s ==> k.name == s[..|n|];
      assert s[..|n|] == n && s[|n|..] == t;
    }
  }

  lemma ClosingOf(name: string, n: string, rest: string)
    requires Word(name) && Word(n)
    ensures Closing(name, n + ">" + rest) == if n == name then Some(rest) else None
  {
    var s, t := n + ">" + rest, name + ">";
    assert s == n + (">" + rest);
    NotPrefixed(n, ">" + rest);
    if |name| < |n| {
      NoPrefix(t, s, |name|);
    } else if |name| > |n| {
      NoPrefix(t, s, |n|);
    } else {
      assert t <= s ==> t[..|n|] == s[..|n|];
      assert t[..|n|] == name && s[..|n|] == n;
    }
    if n == name {
      assert t <= s && s[|t|..] == rest;
    }
  }

  // ------------------------------------------------------------- skipping markup

  lemma {:induction false} SkipText(k: Kind, u: string, s: string)
    requires Without(u, '<')
    ensures Elements(k, u + s) == Elements(k, s)
  {
    if u == "" {
      assert u + s == s;
    } else {
      assert (u + s)[1..] == u[1..] + s;
      SkipText(k, u[1..], s);
    }
  }

  lemma SkipTag(k: Kind, n: string, t: string, s: string)
    requires KnownKind(k) && Word(n) && n != k.name && Inside(t) && Stops(t + ">")
    ensures Elements(k, "<" + n + t + ">" + s) == Elements(k, s)
  {
    var all, u := "<" + n + t + ">" + s, n + t + ">";
    assert all[1..] == u + s == n + (t + ">" + s);
    OpeningOf(k, n, t + ">" + s);
    assert ElementAt(k, all) == None;
    SkipText(k, u, s);
  }

  lemma SkipPiece(k: Kind, p: Piece, s: string)
    requires KnownKind(k) && ValidPiece(p) && (p.Open? ==> p.name != k.name)
    ensures Elements(k, Render1(p) + s) == Elements(k, s)
  {
    match p
    case Open(name, attrs) => SkipTag(k, name, attrs, s);
    case Shut(name) =>
      SkipTag(k, "", "/" + name, s);
      assert "<" + "" + ("/" + name) + ">" + s == Render1(p) + s;
    case Chars(text) => SkipText(k, text, s);
  }

  /** Markup without the element does not hide one behind it. */
  lemma {:induction false} SkipPieces(k: Kind, ps: seq<Piece>, s: string)
    requires KnownKind(k) && Valid(ps) && NeverOpens(ps, k.name)
    ensures Elements(k, Render(ps) + s) == Elements(k, s)
  {
    if ps == [] {
      assert Render(ps) + s == s;
    } else {
      hide Elements, Render1, ValidPiece;
      assert Render(ps) + s == Render1(ps[0]) + (Render(ps[1..]) + s);
      SkipPiece(k, ps[0], Render(ps[1..]) + s);
      SkipPieces(k, ps[1..], s);
    }
  }

  // ---------------------------------------------------------------- finding bodies

  function Onto(u: string, r: Option<(string, string)>): Option<(string, string)> {
    match r
    case None => None
    case Some((before, after)) => Some((u + before, after))
  }

  lemma OntoTwice(a: string, b: string, r: Option<(string, string)>)
    ensures Onto(a, Onto(b, r)) == Onto(a + b, r)
  {
    if r.Some? {
      assert a + (b + r.value.0) == a + b + r.value.0;
    }
  }

  lemma BodyStep(name: string, c: char, s: string)
    requires c != '<' || s == "" || s[0] != '/' || Closing(name, s[1..]) == None
    ensures Body(name, [c] + s) == Onto([c], Body(name, s))
  {
    var all := [c] + s;
    assert all[1..] == s;
    if "</" <= all {
      assert all[0] == '<' && all[1] == '/' && all[2..] == s[1..];
    }
    hide Closing;
  }

  lemma {:induction false} BodyText(name: string, u: string, s: string)
    requires Without(u, '<')
    ensures Body(name, u + s) == Onto(u, Body(name, s))
  {
    if u == "" {
      assert u + s == s;
      assert Body(name, s).Some? ==> "" + Body(name, s).value.0 == Body(name, s).value.0;
    } else {
      hide Body;
      assert u + s == [u[0]] + (u[1..] + s);
      assert [u[0]] + u[1..] == u;
      BodyStep(name, u[0], u[1..] + s);
      BodyText(name, u[1..], s);
      OntoTwice([u[0]], u[1..], Body(name, s));
    }
  }

  lemma BodyTag(name: string, n: string, t: string, s: string)
    requires Word(name) && Word(n) && Inside(t) && n + t != "" && (n + t)[0] != '/'
    ensures Body(name, "<" + n + t + ">" + s) == Onto("<" + n + t + ">", Body(name, s))
  {
    hide Body;
    var u := n + t + ">";
    assert "<" + n + t + ">" + s == ['<'] + (u + s) && "<" + n + t + ">" == ['<'] + u;
    assert (u + s)[0] == (n + t)[0];
    BodyStep(name, '<', u + s);
    BodyText(name, u, s);
    OntoTwice(['<'], u, Body(name, s));
  }

  lemma BodyOther(name: string, n: string, s: string)
    requires Word(name) && Word(n) && n != name
    ensures Body(name, "</" + n + ">" + s) == Onto("</" + n + ">", Body(name, s))
  {
    hide Body;
    var u := "/" + n + ">";
    assert "</" + n + ">" + s == ['<'] + (u + s) && "</" + n + ">" == ['<'] + u;
    assert (u + s)[1..] == n + ">" + s;
    ClosingOf(name, n, s);
    BodyStep(name, '<', u + s);
    BodyText(name, u, s);
    OntoTwice(['<'], u, Body(name, s));
  }

  lemma BodyEnd(name: string, s: string)
    requires Word(name)
    ensures Body(name, "</" + name + ">" + s) == Some(("", s))
  {
    var all := "</" + name + ">" + s;
    assert all[2..] == name + ">" + s;
    ClosingOf(name, name, s);
    hide Closing;
  }

  lemma BodyPiece(name: string, p: Piece, s: string)
    requires Word(name) && ValidPiece(p) && (p.Shut? ==> p.name != name)
    ensures Body(name, Render1(p) + s) == Onto(Render1(p), Body(name, s))
  {
    match p
    case Open(n, t) =>
      assert n != "" ==> WordChar((n + t)[0]);
      BodyTag(name, n, t, s);
    case Shut(n) => BodyOther(name, n, s);
    case Chars(text) => BodyText(name, text, s);
  }

  lemma {:induction false} BodyPieces(name: string, ps: seq<Piece>, s: string)
    requires Word(name) && Valid(ps) && NeverShuts(ps, name)
    ensures Body(name, Render(ps) + ("</" + name + ">" + s)) == Some((Render(ps), s))
  {
    var end := "</" + name + ">" + s;
    hide Body, Render1, ValidPiece;
    if ps == [] {
      assert Render(ps) + end == end;
      BodyEnd(name, s);
    } else {
      assert Render(ps) + end == Render1(ps[0]) + (Render(ps[1..]) + end);
      BodyPiece(name, ps[0], Render(ps[1..]) + end);
      BodyPieces(name, ps[1..], s);
    }
  }

  lemma {:induction false} UntilFirst(u: string, c: char, s: string)
    requires Without(u, c)
    ensures Until(u + [c] + s, c) == Some((u, s))
  {
    var all := u + [c] + s;
    if u == "" {
      assert all[1..] == s;
    } else {
      assert all[1..] == u[1..] + [c] + s;
      assert [u[0]] + u[1..] == u;
      UntilFirst(u[1..], c, s);
    }
  }

  predicate PlainAttrs(attrs: string) {
    Inside(attrs) && (attrs == "" || (IsSpace(attrs[0]) && Stops(attrs) && attrs[|attrs| - 1] != '/'))
  }

  lemma ElementHere(k: Kind, all: string, t: string, attrs: string, after: string, body: string, s: string)
    requires all == "<" + k.name + t && Opening(k, k.name + t) == Some(t) && Until(t, '>') == Some((attrs, after))
    requires Body(k.name, after) == Some((body, s)) && (attrs != "" ==> attrs[|attrs| - 1] != '/')
    ensures Elements(k, all) == [Element(attrs, body)] + Elements(k, s)
  {
    hide Opening, Until, Body;
    assert all[1..] == k.name + t;
  }

  /** An element is found with its attributes and its whole content. */
  lemma ElementFound(k: Kind, attrs: string, ps: seq<Piece>, s: string)
    requires KnownKind(k) && PlainAttrs(attrs) && Valid(ps) && NeverShuts(ps, k.name)
    ensures Elements(k, "<" + k.name + attrs + ">" + Render(ps) + "</" + k.name + ">" + s) ==
            [Element(attrs, Render(ps))] + Elements(k, s)
  {
    hide Opening, Until, Body, Render, Elements;
    var after := Render(ps) + ("</" + k.name + ">" + s);
    var t := attrs + ['>'] + after;
    var all := "<" + k.name + attrs + ">" + Render(ps) + "</" + k.name + ">" + s;
    assert all == "<" + k.name + t;
    assert t[0] == if attrs == "" then '>' else attrs[0];
    OpeningOf(k, k.name, t);
    UntilFirst(attrs, '>', after);
    BodyPieces(k.name, ps, s);
    ElementHere(k, all, t, attrs, after, Render(ps), s);
  }

  lemma {:induction false} RenderConcat(a: seq<Piece>, b: seq<Piece>)
    ensures Render(a + b) == Render(a) + Render(b)
  {
    if a == [] {
      assert a + b == b;
    } else {
      assert (a + b)[1..] == a[1..] + b;
      RenderConcat(a[1..], b);
    }
  }

  // ------------------------------------------------------------------- attributes

  /** One attribute as the writer puts it. */
  function Att(name: string, value: string): string {
    " " + name + "=\"" + value + "\""
  }

  /** Nothing in `s` can start an attribute. */
  predicate Dense(s: string) {
    forall i :: 0 <= i < |s| ==> !IsSpace(s[i])
  }

  lemma {:induction false} AttrSkips(u: string, s: string, name: string)
    requires Dense(u)
    ensures RawAttr(u + s, name, false) == RawAttr(s, name, false)
  {
    if u == "" {
      assert u + s == s;
    } else {
      assert (u + s)[1..] == u[1..] + s;
      AttrSkips(u[1..], s, name);
    }
  }

  lemma AttrFound(name: string, value: string, s: string, first: bool)
    requires Without(value, '"') && name != "" && !IsSpace(name[0])
    ensures RawAttr(Att(name, value) + s, name, first) == Some(value)
  {
    var all, t := Att(name, value) + s, name + "=\"";
    assert all[1..] == t + (value + "\"" + s) && all[0] == ' ';
    assert (t + (value + "\"" + s))[|t|..] == value + "\"" + s;
    UntilFirst(value, '"', s);
    NoPrefix(t, all, 0);
    hide Until;
  }

  lemma AttrPassed(n: string, value: string, s: string, name: string, first: bool)
    requires Dense(n) && Dense(value) && Without(n, '=') && Without(name, '=') && n != name && name != "" && !IsSpace(name[0])
    ensures RawAttr(Att(n, value) + s, name, first) == RawAttr(s, name, false)
  {
    var all, u, t := Att(n, value) + s, n + "=\"" + value + "\"", name + "=\"";
    assert all[1..] == u + s && all[0] == ' ';
    NoPrefix(t, all, 0);
    assert n + "=" <= u + s;
    NamesDiffer(n, name, u + s);
    AttrSkips(u, s, name);
  }

  lemma NamesDiffer(n: string, name: string, s: string)
    requires n + "=" <= s && Without(n, '=') && Without(name, '=') && n != name
    ensures !(name + "=" <= s) && !(name + "=\"" <= s)
  {
    var t := name + "=";
    assert t <= name + "=\"";
    assert s[|n|] == (n + "=")[|n|];
    if |n| < |name| {
      NoPrefix(t, s, |n|);
    } else if |name| < |n| {
      assert s[|name|] == (n + "=")[|name|];
      NoPrefix(t, s, |name|);
    } else {
      var i :| 0 <= i < |n| && n[i] != name[i];
      assert s[i] == (n + "=")[i];
      NoPrefix(t, s, i);
    }
  }
}
