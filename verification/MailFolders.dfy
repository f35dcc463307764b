/** The folder tree of frontend/src/lib/mailFolders.ts: the levels come from the
    separators in the server's folder names. */
module MailFolders {
  import opened Text
  import opened Counting
  import opened Rail
  import opened Sorting

  datatype Folder = Folder(name: string, key: string)

  type Folders = seq<Folder>

  // ----------------------------------------------------------------------- names

  predicate Separator(c: char) {
    c == '/' || c == '.' || c == '\\'
  }

  function Later(a: int, b: int): int {
    if b > a then b else a
  }

  /** Where the last separator of any kind stands, or -1. */
  function LastSeparator(name: string): (at: int)
    ensures -1 <= at < |name| && (at >= 0 ==> Separator(name[at]))
    ensures forall k :: at < k < |name| ==> !Separator(name[k])
  {
    Later(Later(LastIndex(name, '/'), LastIndex(name, '.')), LastIndex(name, '\\'))
  }

  datatype Path = Path(parent: string, leaf: string)

  function PathOf(name: string): (p: Path)
    ensures |p.parent| < |name| || p.parent == ""
    ensures p.parent != "" ==> exists sep :: Separator(sep) && name == p.parent + [sep] + p.leaf
    ensures p.parent != "" ==> forall k :: 0 <= k < |p.leaf| ==> !Separator(p.leaf[k])
    ensures p.parent == "" ==> p.leaf == name && forall k :: 0 < k < |name| ==> !Separator(name[k])
  {
    var at := LastSeparator(name);
    if at <= 0 then Path("", name)
    else
      assert name == name[..at] + [name[at]] + name[at + 1..];
      Path(name[..at], name[at + 1..])
  }

  method SplitFolderPath(name: string) returns (p: Path)
    ensures p == PathOf(name)
  {
    var separators := ['/', '.', '\\'];
    var at := -1;
    for s := 0 to 3
      invariant at == (if s == 0 then -1 else if s == 1 then Later(-1, LastIndex(name, '/'))
                       else if s == 2 then Later(LastIndex(name, '/'), LastIndex(name, '.'))
                       else LastSeparator(name))
    {
      var i := LastIndex(name, separators[s]);
      if i > at {
        at := i;
      }
    }
    if at <= 0 {
      return Path("", name);
    }
    return Path(name[..at], name[at + 1..]);
  }

  // ------------------------------------------------------------------------ the tree

  /** The name of a folder's parent, when such a folder exists. */
  function ParentName(names: set<string>, name: string): string {
    var p := PathOf(name).parent;
    if p in names then p else ""
  }

  predicate NoSeparator(s: string) {
    forall i :: 0 <= i < |s| ==> s[i] != '/' && s[i] != '.' && s[i] != '\\'
  }

  /** A folder's parent is the existing folder it is named under, whichever of the
      three separators the server uses; what is left is its leaf. */
  lemma ParentNamed(names: set<string>, p: string, sep: char, leaf: string)
    requires p != "" && (sep == '/' || sep == '.' || sep == '\\') && NoSeparator(leaf)
    ensures PathOf(p + [sep] + leaf) == Path(p, leaf)
    ensures ParentName(names, p + [sep] + leaf) == if p in names then p else ""
  {
    var name := p + [sep] + leaf;
    var at := LastSeparator(name);
    assert name[|p|] == sep && forall k :: |p| < k < |name| ==> name[k] == leaf[k - |p| - 1];
    assert at == |p|;
  }

  /** And there is none for any other name. */
  lemma NoParentNamed(names: set<string>, name: string)
    requires NoSeparator(if name == "" then "" else name[1..])
    ensures PathOf(name) == Path("", name) && ParentName(names, name) == ""
  {
    if name != "" {
      forall k | 0 < k < |name| ensures !Separator(name[k]) {
        assert name[k] == name[1..][k - 1];
      }
    }
  }

  function Kids(fs: Folders, names: set<string>, p: string): Folders {
    if fs == [] then []
    else
      var f := fs[|fs| - 1];
      Kids(fs[..|fs| - 1], names, p) + if p != "" && ParentName(names, f.name) == p then [f] else []
  }

  function Roots(fs: Folders, names: set<string>): Folders {
    if fs == [] then []
    else
      var f := fs[|fs| - 1];
      Roots(fs[..|fs| - 1], names) + if ParentName(names, f.name) == "" then [f] else []
  }

  function Names(fs: Folders): set<string> {
    set f | f in fs :: f.name
  }

  function NameKey(rank: Collation): Folder -> int {
    (f: Folder) => rank(f.name)
  }

  /** `sort`: by name, equal names in their old order. */
  function Sorted(rank: Collation, fs: Folders): Folders {
    Sort(NameKey(rank), fs)
  }

  predicate Deep(fs: Folders, floor: nat, top: nat) {
    forall i :: 0 <= i < |fs| ==> floor <= |fs[i].name| <= top
  }

  lemma SortedIn(rank: Collation, fs: Folders, i: nat)
    requires i < |Sorted(rank, fs)|
    ensures Sorted(rank, fs)[i] in fs
  {
    SortIn(NameKey(rank), fs, i);
  }

  lemma SortedDeep(rank: Collation, fs: Folders, floor: nat, top: nat)
    requires Deep(fs, floor, top)
    ensures Deep(Sorted(rank, fs), floor, top)
  {
    forall i | 0 <= i < |Sorted(rank, fs)| ensures floor <= |Sorted(rank, fs)[i].name| <= top {
      SortedIn(rank, fs, i);
    }
  }

  lemma {:induction false} KidIn(fs: Folders, names: set<string>, p: string, i: nat)
    requires i < |Kids(fs, names, p)|
    ensures var f := Kids(fs, names, p)[i]; f in fs && p != "" && ParentName(names, f.name) == p && |f.name| > |p|
    decreases |fs|
  {
    hide PathOf;
    var n := |fs| - 1;
    if i < |Kids(fs[..n], names, p)| {
      KidIn(fs[..n], names, p, i);
    } else {
      assert Kids(fs, names, p)[i] == fs[n];
      ParentIsShorter(names, fs[n].name);
    }
  }

  lemma ParentIsShorter(names: set<string>, name: string)
    ensures ParentName(names, name) != "" ==> |ParentName(names, name)| < |name|
  {
  }

  lemma {:induction false} RootIn(fs: Folders, names: set<string>, i: nat)
    requires i < |Roots(fs, names)|
    ensures var f := Roots(fs, names)[i]; f in fs && ParentName(names, f.name) == ""
    decreases |fs|
  {
    hide ParentName;
    var n := |fs| - 1;
    if i < |Roots(fs[..n], names)| {
      RootIn(fs[..n], names, i);
    }
  }

  /** No name is longer than `top`. */
  predicate Bounded(fs: Folders, top: nat) {
    forall i :: 0 <= i < |fs| ==> |fs[i].name| <= top
  }

  lemma KidsDeep(fs: Folders, names: set<string>, p: string, top: nat)
    requires Bounded(fs, top)
    ensures Deep(Kids(fs, names, p), |p| + 1, top)
  {
    forall i | 0 <= i < |Kids(fs, names, p)| ensures |p| + 1 <= |Kids(fs, names, p)[i].name| <= top {
      KidIn(fs, names, p, i);
    }
  }

  function RowOf(names: set<string>, f: Folder, depth: nat, parentKey: string, hasChildren: bool): Item {
    Item(f.key, if ParentName(names, f.name) != "" then PathOf(f.name).leaf else f.name, f.name, depth, hasChildren, parentKey)
  }

  /** The rows of some folders of one level and of everything below them. */
  function Rows(fs: Folders, names: set<string>, rank: Collation, ghost top: nat, list: Folders, depth: nat, parentKey: string,
                ghost floor: nat): Items
    requires Bounded(fs, top) && Deep(list, floor, top)
    decreases top + 1 - floor, |list|, 0
  {
    if list == [] then []
    else
      Branch(fs, names, rank, top, list[0], depth, parentKey, floor)
      + Rows(fs, names, rank, top, list[1..], depth, parentKey, floor)
  }

  /** A folder's row, then its children's. */
  function Branch(fs: Folders, names: set<string>, rank: Collation, ghost top: nat, f: Folder, depth: nat, parentKey: string,
                  ghost floor: nat): Items
    requires Bounded(fs, top) && floor <= |f.name| <= top
    decreases top + 1 - floor, 0, 1
  {
    var kids := Kids(fs, names, f.name);
    KidsDeep(fs, names, f.name, top);
    SortedDeep(rank, kids, |f.name| + 1, top);
    [RowOf(names, f, depth, parentKey, kids != [])]
    + Rows(fs, names, rank, top, Sorted(rank, kids), depth + 1, f.key, |f.name| + 1)
  }

  // ---------------------------------------------------------------------- the walk

  function Get(children: map<string, Folders>, p: string): Folders {
    if p in children then children[p] else []
  }

  ghost predicate Represents(children: map<string, Folders>, fs: Folders, names: set<string>) {
    forall p :: Get(children, p) == Kids(fs, names, p)
  }

  lemma RowsStep(fs: Folders, names: set<string>, rank: Collation, top: nat, list: Folders, depth: nat,
                 parentKey: string, floor: nat, i: nat, rows: Items)
    requires Bounded(fs, top) && Deep(list, floor, top) && i < |list|
    ensures rows + Rows(fs, names, rank, top, list[i..], depth, parentKey, floor) ==
            rows + Branch(fs, names, rank, top, list[i], depth, parentKey, floor)
            + Rows(fs, names, rank, top, list[i + 1..], depth, parentKey, floor)
  {
    hide Branch;
    assert list[i..][0] == list[i] && list[i..][1..] == list[i + 1..];
  }

  method Walk(children: map<string, Folders>, ghost fs: Folders, names: set<string>, rank: Collation, ghost top: nat,
              list: Folders, depth: nat, parentKey: string, rows: Items, ghost floor: nat) returns (out: Items)
    requires Represents(children, fs, names) && Bounded(fs, top) && Deep(list, floor, top) && Deep(Sorted(rank, list), floor, top)
    ensures out == rows + Rows(fs, names, rank, top, Sorted(rank, list), depth, parentKey, floor)
    decreases top + 1 - floor, 1
  {
    var sorted := Sorted(rank, list);
    hide Sorted, Kids, Bounded, Rows, Branch, Represents;
    out := rows;
    assert sorted[0..] == sorted;
    for i := 0 to |sorted|
      invariant out + Rows(fs, names, rank, top, sorted[i..], depth, parentKey, floor) ==
                rows + Rows(fs, names, rank, top, sorted, depth, parentKey, floor)
    {
      RowsStep(fs, names, rank, top, sorted, depth, parentKey, floor, i, out);
      out := WalkOne(children, fs, names, rank, top, sorted[i], depth, parentKey, out, floor);
    }
    NoFolders(fs, names, rank, top, depth, parentKey, floor);
    assert out + [] == out && sorted[|sorted|..] == [];
  }

  lemma NoFolders(fs: Folders, names: set<string>, rank: Collation, top: nat, depth: nat, parentKey: string, floor: nat)
    requires Bounded(fs, top)
    ensures Rows(fs, names, rank, top, [], depth, parentKey, floor) == []
  {
  }

  /** The body of the walk's loop. */
  method WalkOne(children: map<string, Folders>, ghost fs: Folders, names: set<string>, rank: Collation, ghost top: nat,
                 f: Folder, depth: nat, parentKey: string, rows: Items, ghost floor: nat) returns (out: Items)
    requires Represents(children, fs, names) && Bounded(fs, top) && floor <= |f.name| <= top
    ensures out == rows + Branch(fs, names, rank, top, f, depth, parentKey, floor)
    decreases top + 1 - floor, 0
  {
    hide Sorted, Kids, Bounded, Rows;
    var kids := Get(children, f.name);
    KidsDeep(fs, names, f.name, top);
    SortedDeep(rank, kids, |f.name| + 1, top);
    out := rows + [RowOf(names, f, depth, parentKey, kids != [])];
    out := Walk(children, fs, names, rank, top, kids, depth + 1, f.key, out, |f.name| + 1);
  }

  function Longest(fs: Folders): (n: nat)
    ensures Bounded(fs, n)
  {
    if fs == [] then 0
    else
      var rest := Longest(fs[1..]);
      if |fs[0].name| > rest then |fs[0].name| else rest
  }

  lemma RootsDeep(fs: Folders, names: set<string>, rank: Collation)
    ensures Deep(Roots(fs, names), 0, Longest(fs)) && Deep(Sorted(rank, Roots(fs, names)), 0, Longest(fs))
  {
    forall i | 0 <= i < |Roots(fs, names)| ensures |Roots(fs, names)[i].name| <= Longest(fs) {
      RootIn(fs, names, i);
    }
    SortedDeep(rank, Roots(fs, names), 0, Longest(fs));
  }

  ghost function Nest(fs: Folders, rank: Collation): Items {
    RootsDeep(fs, Names(fs), rank);
    Rows(fs, Names(fs), rank, Longest(fs), Sorted(rank, Roots(fs, Names(fs))), 0, "", 0)
  }

  lemma NoneYet(names: set<string>)
    ensures Represents(map[], [], names) && Roots([], names) == []
  {
  }

  lemma ChildAdded(children: map<string, Folders>, fs: Folders, names: set<string>, i: nat)
    requires i < |fs| && Represents(children, fs[..i], names)
    ensures var f := fs[i];
            var p := ParentName(names, f.name);
            && Represents(if p != "" then children[p := Get(children, p) + [f]] else children, fs[..i + 1], names)
            && Roots(fs[..i + 1], names) == Roots(fs[..i], names) + if p != "" then [] else [f]
  {
    hide ParentName;
    assert fs[..i + 1][..i] == fs[..i];
    var f := fs[i];
    var p := ParentName(names, f.name);
    var next := if p != "" then children[p := Get(children, p) + [f]] else children;
    forall q ensures Get(next, q) == Kids(fs[..i + 1], names, q) {
      assert Get(children, q) == Kids(fs[..i], names, q);
    }
  }

  /** `nestFolders`. */
  method NestFolders(fs: Folders, rank: Collation) returns (out: Items)
    ensures out == Nest(fs, rank)
  {
    hide PathOf, Represents, Roots, Sorted;
    var names := Names(fs);
    NoneYet(names);
    var children: map<string, Folders>, roots: Folders := map[], [];
    for i := 0 to |fs|
      invariant Represents(children, fs[..i], names) && roots == Roots(fs[..i], names)
    {
      var f := fs[i];
      ChildAdded(children, fs, names, i);
      var path := SplitFolderPath(f.name);
      if path.parent != "" && path.parent in names {
        children := children[path.parent := Get(children, path.parent) + [f]];
      } else {
        roots := roots + [f];
      }
    }
    assert fs[..|fs|] == fs;
    RootsDeep(fs, names, rank);
    out := Walk(children, fs, names, rank, Longest(fs), roots, 0, "", [], 0);
  }

  // ---------------------------------------------------------------- the shape of rows

  /** Row `j` stands for the folder above that of row `i`: it is the nearest row
      before it that is one level up. */
  predicate ParentRow(names: set<string>, items: Items, j: nat, i: nat) {
    Parent(items, j, i) && items[j].hostName == ParentName(names, items[i].hostName)
  }

  /** Rows at level `d` hang under the folder `up`; deeper ones under the row of
      their parent; a row has children exactly when the next one is deeper. */
  predicate Hangs(names: set<string>, items: Items, d: nat, up: string, key: string) {
    && (items != [] ==> items[0].depth == d)
    && (forall i :: 0 <= i < |items| ==>
          && items[i].depth >= d
          && if items[i].depth == d then items[i].parentKey == key && ParentName(names, items[i].hostName) == up
             else exists j :: 0 <= j < i && ParentRow(names, items, j, i))
    && (forall i :: 0 <= i < |items| ==>
          (items[i].hasChildren <==> i + 1 < |items| && items[i + 1].depth > items[i].depth))
  }

  lemma ParentAfter(names: set<string>, a: Items, b: Items, j: nat, i: nat)
    requires ParentRow(names, b, j, i)
    ensures ParentRow(names, a + b, |a| + j, |a| + i)
  {
    forall k | |a| + j < k <= |a| + i ensures (a + b)[k].depth > (a + b)[|a| + j].depth {
      assert (a + b)[k] == b[k - |a|];
    }
  }

  lemma ParentBefore(names: set<string>, a: Items, b: Items, j: nat, i: nat)
    requires ParentRow(names, a, j, i)
    ensures ParentRow(names, a + b, j, i)
  {
  }

  lemma HangsNames(names: set<string>, items: Items, d: nat, up: string, key: string, i: nat)
    requires Hangs(names, items, d, up, key) && i < |items|
    ensures items[i].depth >= d
    ensures if items[i].depth == d then items[i].parentKey == key && ParentName(names, items[i].hostName) == up
            else exists j :: 0 <= j < i && ParentRow(names, items, j, i)
    ensures items[i].hasChildren <==> i + 1 < |items| && items[i + 1].depth > items[i].depth
  {
    hide ParentRow;
  }

  lemma HangsConcat(names: set<string>, a: Items, b: Items, d: nat, up: string, key: string)
    requires Hangs(names, a, d, up, key) && Hangs(names, b, d, up, key)
    ensures Hangs(names, a + b, d, up, key)
  {
    hide Hangs, ParentRow, ParentName;
    var c := a + b;
    assert b != [] ==> b[0].depth == d by { HangsStart(names, b, d, up, key); }
    assert a != [] ==> a[0].depth == d by { HangsStart(names, a, d, up, key); }
    forall i | 0 <= i < |c|
      ensures c[i].depth >= d
      ensures if c[i].depth == d then c[i].parentKey == key && ParentName(names, c[i].hostName) == up
              else exists j :: 0 <= j < i && ParentRow(names, c, j, i)
      ensures c[i].hasChildren <==> i + 1 < |c| && c[i + 1].depth > c[i].depth
    {
      if i < |a| {
        HangsNames(names, a, d, up, key, i);
        if a[i].depth > d {
          var j :| 0 <= j < i && ParentRow(names, a, j, i);
          ParentBefore(names, a, b, j, i);
        }
      } else {
        HangsNames(names, b, d, up, key, i - |a|);
        if b[i - |a|].depth > d {
          var j :| 0 <= j < i - |a| && ParentRow(names, b, j, i - |a|);
          ParentAfter(names, a, b, j, i - |a|);
        }
      }
    }
    HangsFrom(names, c, d, up, key);
  }

  lemma HangsStart(names: set<string>, items: Items, d: nat, up: string, key: string)
    requires Hangs(names, items, d, up, key)
    ensures items != [] ==> items[0].depth == d
  {
  }

  lemma HangsFrom(names: set<string>, items: Items, d: nat, up: string, key: string)
    requires items != [] ==> items[0].depth == d
    requires forall i :: 0 <= i < |items| ==>
               && items[i].depth >= d
               && if items[i].depth == d then items[i].parentKey == key && ParentName(names, items[i].hostName) == up
            else exists j :: 0 <= j < i && ParentRow(names, items, j, i)
    requires forall i :: 0 <= i < |items| ==>
               (items[i].hasChildren <==> i + 1 < |items| && items[i + 1].depth > items[i].depth)
    ensures Hangs(names, items, d, up, key)
  {
    hide ParentRow;
  }

  lemma HangsUnder(names: set<string>, row: Item, below: Items, d: nat, up: string, key: string)
    requires row.depth == d && row.parentKey == key && ParentName(names, row.hostName) == up
    requires (row.hasChildren <==> below != []) && Hangs(names, below, d + 1, row.hostName, row.key)
    ensures Hangs(names, [row] + below, d, up, key)
  {
    var c := [row] + below;
    hide Hangs, ParentName;
    HangsStart(names, below, d + 1, row.hostName, row.key);
    forall i | 0 <= i < |below| ensures below[i].depth > d {
      HangsNames(names, below, d + 1, row.hostName, row.key, i);
    }
    forall i | 0 <= i < |c|
      ensures c[i].depth >= d
      ensures if c[i].depth == d then c[i].parentKey == key && ParentName(names, c[i].hostName) == up
              else exists j :: 0 <= j < i && ParentRow(names, c, j, i)
      ensures c[i].hasChildren <==> i + 1 < |c| && c[i + 1].depth > c[i].depth
    {
      if i > 0 {
        HangsNames(names, below, d + 1, row.hostName, row.key, i - 1);
        if below[i - 1].depth == d + 1 {
          assert ParentRow(names, c, 0, i);
        } else {
          var j :| 0 <= j < i - 1 && ParentRow(names, below, j, i - 1);
          ParentAfter(names, [row], below, j, i - 1);
        }
      }
    }
    hide ParentRow;
    HangsFrom(names, c, d, up, key);
  }

  /** Folders that have this one as their parent. */
  predicate ChildrenOf(fs: Folders, names: set<string>, list: Folders, p: string) {
    forall i :: 0 <= i < |list| ==> list[i] in fs && ParentName(names, list[i].name) == p
  }

  lemma FirstChild(fs: Folders, names: set<string>, list: Folders, p: string)
    requires list != [] && ChildrenOf(fs, names, list, p)
    ensures ParentName(names, list[0].name) == p && ChildrenOf(fs, names, list[1..], p)
  {
    hide ParentName;
  }

  lemma KidsAreKids(fs: Folders, names: set<string>, rank: Collation, p: string)
    ensures ChildrenOf(fs, names, Sorted(rank, Kids(fs, names, p)), p)
    ensures Sorted(rank, Kids(fs, names, p)) != [] ==> p != ""
  {
    hide ParentName, Kids, Sorted;
    var kids := Kids(fs, names, p);
    var list := Sorted(rank, kids);
    forall i | 0 <= i < |list| ensures list[i] in fs && ParentName(names, list[i].name) == p && p != "" {
      SortedIn(rank, kids, i);
      var j :| 0 <= j < |kids| && kids[j] == list[i];
      KidIn(fs, names, p, j);
    }
    if list != [] {
      assert list[0] in fs && p != "";
    }
  }

  lemma {:induction false} RowsHang(fs: Folders, names: set<string>, rank: Collation, top: nat, list: Folders, depth: nat,
                                    up: string, parentKey: string, floor: nat)
    requires Bounded(fs, top) && Deep(list, floor, top) && ChildrenOf(fs, names, list, up)
    ensures Hangs(names, Rows(fs, names, rank, top, list, depth, parentKey, floor), depth, up, parentKey)
    ensures Rows(fs, names, rank, top, list, depth, parentKey, floor) == [] <==> list == []
    decreases top + 1 - floor, |list|
  {
    hide ParentName, Sorted, Kids, Hangs, Bounded, ChildrenOf, Rows;
    RowsUnfold(fs, names, rank, top, list, depth, parentKey, floor);
    if list == [] {
      NoRows(names, depth, up, parentKey);
    } else {
      var f := list[0];
      var kids := Kids(fs, names, f.name);
      KidsDeep(fs, names, f.name, top);
      SortedDeep(rank, kids, |f.name| + 1, top);
      SortedEmpty(rank, kids);
      KidsAreKids(fs, names, rank, f.name);
      FirstChild(fs, names, list, up);
      var below := Rows(fs, names, rank, top, Sorted(rank, kids), depth + 1, f.key, |f.name| + 1);
      RowsHang(fs, names, rank, top, Sorted(rank, kids), depth + 1, f.name, f.key, |f.name| + 1);
      RowsHang(fs, names, rank, top, list[1..], depth, up, parentKey, floor);
      HangsUnder(names, RowOf(names, f, depth, parentKey, kids != []), below, depth, up, parentKey);
      HangsConcat(names, [RowOf(names, f, depth, parentKey, kids != [])] + below,
                  Rows(fs, names, rank, top, list[1..], depth, parentKey, floor), depth, up, parentKey);
    }
  }

  /** The rows of a level: the first folder's, those below it, and the rest. */
  lemma RowsUnfold(fs: Folders, names: set<string>, rank: Collation, top: nat, list: Folders, depth: nat,
                   parentKey: string, floor: nat)
    requires Bounded(fs, top) && Deep(list, floor, top)
    ensures list == [] ==> Rows(fs, names, rank, top, list, depth, parentKey, floor) == []
    ensures list != [] ==>
              var f, kids := list[0], Kids(fs, names, list[0].name);
              && Deep(Sorted(rank, kids), |f.name| + 1, top) && floor <= |f.name| <= top && Deep(list[1..], floor, top)
              && Rows(fs, names, rank, top, list, depth, parentKey, floor) ==
                 [RowOf(names, f, depth, parentKey, kids != [])]
                 + Rows(fs, names, rank, top, Sorted(rank, kids), depth + 1, f.key, |f.name| + 1)
                 + Rows(fs, names, rank, top, list[1..], depth, parentKey, floor)
  {
    hide Sorted, Kids, RowOf, Bounded;
    if list != [] {
      KidsDeep(fs, names, list[0].name, top);
      SortedDeep(rank, Kids(fs, names, list[0].name), |list[0].name| + 1, top);
    }
  }

  lemma NoRows(names: set<string>, d: nat, up: string, key: string)
    ensures Hangs(names, [], d, up, key)
  {
  }

  lemma SortedEmpty(rank: Collation, fs: Folders)
    ensures Sorted(rank, fs) == [] <==> fs == []
  {
    SortEmpty(NameKey(rank), fs);
  }

  // ------------------------------------------------------------- every folder, once

  predicate DistinctNames(fs: Folders) {
    forall i, j :: 0 <= i < j < |fs| ==> fs[i].name != fs[j].name
  }

  function NamesOf(fs: Folders): seq<string> {
    if fs == [] then [] else [fs[0].name] + NamesOf(fs[1..])
  }

  function HostNames(items: Items): seq<string> {
    if items == [] then [] else [items[0].hostName] + HostNames(items[1..])
  }

  /** 1 when `p` is `n` or one of the names above it, else 0. */
  function Above(names: set<string>, p: string, n: string): nat
    decreases |n|
  {
    if n == p then 1
    else if ParentName(names, n) == "" then 0
    else
      ParentIsShorter(names, n);
      Above(names, p, ParentName(names, n))
  }

  lemma {:induction false} AboveIsShorter(names: set<string>, p: string, n: string)
    requires Above(names, p, n) > 0
    ensures |p| <= |n|
    decreases |n|
  {
    hide PathOf, ParentName;
    if n != p {
      ParentIsShorter(names, n);
      AboveIsShorter(names, p, ParentName(names, n));
    }
  }

  function SumAbove(names: set<string>, fs: Folders, n: string): nat {
    if fs == [] then 0 else Above(names, fs[0].name, n) + SumAbove(names, fs[1..], n)
  }

  lemma AboveStep(names: set<string>, p: string, n: string)
    ensures Above(names, p, n) ==
            (if p == n then 1 else 0) + if ParentName(names, n) == "" then 0 else Above(names, p, ParentName(names, n))
  {
    hide PathOf, ParentName;
    if p == n && ParentName(names, n) != "" {
      ParentIsShorter(names, n);
      if Above(names, p, ParentName(names, n)) > 0 {
        AboveIsShorter(names, p, ParentName(names, n));
      }
    }
  }

  lemma {:induction false} SumStep(names: set<string>, fs: Folders, n: string)
    ensures SumAbove(names, fs, n) ==
            Count(NamesOf(fs), n) + if ParentName(names, n) == "" then 0 else SumAbove(names, fs, ParentName(names, n))
  {
    hide PathOf, ParentName, Above;
    if fs != [] {
      AboveStep(names, fs[0].name, n);
      SumStep(names, fs[1..], n);
    }
  }

  lemma {:induction false} NamesConcat(a: Folders, b: Folders)
    ensures NamesOf(a + b) == NamesOf(a) + NamesOf(b)
  {
    if a == [] {
      assert a + b == b;
    } else {
      assert (a + b)[1..] == a[1..] + b;
      NamesConcat(a[1..], b);
    }
  }

  lemma NamesSnoc(fs: Folders, n: string)
    requires fs != []
    ensures Count(NamesOf(fs), n) == Count(NamesOf(fs[..|fs| - 1]), n) + if fs[|fs| - 1].name == n then 1 else 0
  {
    hide Count;
    var last := fs[|fs| - 1];
    assert fs == fs[..|fs| - 1] + [last];
    NamesConcat(fs[..|fs| - 1], [last]);
    assert [last][1..] == [] && NamesOf([last]) == [last.name];
    CountConcat(NamesOf(fs[..|fs| - 1]), [last.name], n);
    CountOne(last.name, n);
  }

  lemma NameAlone(f: Folder)
    ensures NamesOf([f]) == [f.name] && NamesOf([]) == []
  {
    assert [f][1..] == [];
  }

  lemma {:induction false} KidsCount(fs: Folders, names: set<string>, p: string, n: string)
    ensures Count(NamesOf(Kids(fs, names, p)), n) == if p != "" && ParentName(names, n) == p then Count(NamesOf(fs), n) else 0
    decreases |fs|
  {
    hide ParentName, Count, NamesOf;
    if fs == [] {
      NothingNamed(n);
    } else {
      var before, f := fs[..|fs| - 1], fs[|fs| - 1];
      KidsCount(before, names, p, n);
      NamesSnoc(fs, n);
      var added := if p != "" && ParentName(names, f.name) == p then [f] else [];
      NamesConcat(Kids(before, names, p), added);
      NameAlone(f);
      CountConcat(NamesOf(Kids(before, names, p)), NamesOf(added), n);
      CountOne(f.name, n);
      CountNone(n);
    }
  }

  lemma NothingNamed(n: string)
    ensures Count(NamesOf([]), n) == 0
  {
  }

  lemma {:induction false} RootsCount(fs: Folders, names: set<string>, n: string)
    ensures Count(NamesOf(Roots(fs, names)), n) == if ParentName(names, n) == "" then Count(NamesOf(fs), n) else 0
    decreases |fs|
  {
    hide ParentName, Count, NamesOf;
    if fs == [] {
      NothingNamed(n);
    } else {
      var before, f := fs[..|fs| - 1], fs[|fs| - 1];
      RootsCount(before, names, n);
      NamesSnoc(fs, n);
      var added := if ParentName(names, f.name) == "" then [f] else [];
      NamesConcat(Roots(before, names), added);
      NameAlone(f);
      CountConcat(NamesOf(Roots(before, names)), NamesOf(added), n);
      CountOne(f.name, n);
      CountNone(n);
    }
  }

  /** Every name in use stands for exactly one folder. */
  predicate OneEach(fs: Folders, names: set<string>) {
    forall n :: n in names ==> Count(NamesOf(fs), n) == 1
  }

  lemma ParentIsKnown(names: set<string>, n: string)
    ensures ParentName(names, n) != "" ==> ParentName(names, n) in names
  {
  }

  /** Below a folder stand its children and whatever stands below them. */
  lemma {:induction false} BelowKids(fs: Folders, names: set<string>, p: string, n: string)
    requires OneEach(fs, names) && n in names
    ensures Above(names, p, n) == (if p == n then 1 else 0) + SumAbove(names, Kids(fs, names, p), n)
    decreases |n|
  {
    hide ParentName, Count, NamesOf, SumAbove, Above, Kids;
    SumStep(names, Kids(fs, names, p), n);
    KidsCount(fs, names, p, n);
    AboveStep(names, p, n);
    ParentIsKnown(names, n);
    ParentIsShorter(names, n);
    var q := ParentName(names, n);
    if q != "" {
      BelowKids(fs, names, p, q);
    }
  }

  lemma {:induction false} EverythingHasARoot(fs: Folders, names: set<string>, n: string)
    requires OneEach(fs, names) && n in names
    ensures SumAbove(names, Roots(fs, names), n) == 1
    decreases |n|
  {
    hide ParentName, Count, NamesOf, SumAbove, Roots;
    SumStep(names, Roots(fs, names), n);
    RootsCount(fs, names, n);
    ParentIsKnown(names, n);
    ParentIsShorter(names, n);
    if ParentName(names, n) != "" {
      EverythingHasARoot(fs, names, ParentName(names, n));
    }
  }

  lemma {:induction false} SortedSum(names: set<string>, rank: Collation, fs: Folders, n: string)
    ensures SumAbove(names, Sorted(rank, fs), n) == SumAbove(names, fs, n)
  {
    hide Above, Insert;
    if fs != [] {
      SortedSum(names, rank, fs[1..], n);
      InsertSum(names, NameKey(rank), fs[0], Sorted(rank, fs[1..]), n);
    }
  }

  lemma {:induction false} InsertSum(names: set<string>, key: Folder -> int, f: Folder, fs: Folders, n: string)
    ensures SumAbove(names, Insert(key, f, fs), n) == Above(names, f.name, n) + SumAbove(names, fs, n)
  {
    hide Above;
    if fs == [] || key(f) <= key(fs[0]) {
      assert ([f] + fs)[1..] == fs;
    } else {
      InsertSum(names, key, f, fs[1..], n);
      assert ([fs[0]] + Insert(key, f, fs[1..]))[1..] == Insert(key, f, fs[1..]);
    }
  }

  lemma {:induction false} HostConcat(a: Items, b: Items)
    ensures HostNames(a + b) == HostNames(a) + HostNames(b)
  {
    if a == [] {
      assert a + b == b;
    } else {
      assert (a + b)[1..] == a[1..] + b;
      HostConcat(a[1..], b);
    }
  }

  lemma HostAlone(row: Item)
    ensures HostNames([row]) == [row.hostName]
  {
    assert [row][1..] == [];
  }

  lemma BranchCount(row: Item, below: Items, rest: Items, n: string)
    ensures Count(HostNames([row] + below + rest), n) ==
            (if row.hostName == n then 1 else 0) + Count(HostNames(below), n) + Count(HostNames(rest), n)
  {
    hide Count, HostNames;
    HostConcat([row] + below, rest);
    HostConcat([row], below);
    HostAlone(row);
    CountConcat(HostNames([row] + below), HostNames(rest), n);
    CountConcat([row.hostName], HostNames(below), n);
    CountOne(row.hostName, n);
  }

  lemma {:induction false} RowsCount(fs: Folders, names: set<string>, rank: Collation, top: nat, list: Folders, depth: nat,
                                     parentKey: string, floor: nat, n: string)
    requires Bounded(fs, top) && Deep(list, floor, top) && OneEach(fs, names) && n in names
    ensures Count(HostNames(Rows(fs, names, rank, top, list, depth, parentKey, floor)), n) == SumAbove(names, list, n)
    decreases top + 1 - floor, |list|
  {
    hide PathOf, ParentName, Sorted, Kids, Above, Count, HostNames, OneEach, Bounded, Rows;
    RowsUnfold(fs, names, rank, top, list, depth, parentKey, floor);
    if list == [] {
      NoHosts(n);
    } else {
      var f := list[0];
      var kids := Kids(fs, names, f.name);
      KidsDeep(fs, names, f.name, top);
      SortedDeep(rank, kids, |f.name| + 1, top);
      RowsCount(fs, names, rank, top, Sorted(rank, kids), depth + 1, f.key, |f.name| + 1, n);
      SortedSum(names, rank, kids, n);
      BelowKids(fs, names, f.name, n);
      RowsCount(fs, names, rank, top, list[1..], depth, parentKey, floor, n);
      BranchCount(RowOf(names, f, depth, parentKey, kids != []),
                  Rows(fs, names, rank, top, Sorted(rank, kids), depth + 1, f.key, |f.name| + 1),
                  Rows(fs, names, rank, top, list[1..], depth, parentKey, floor), n);
    }
  }

  lemma NoHosts(n: string)
    ensures Count(HostNames([]), n) == 0
  {
  }

  // ---------------------------------------------------------- what a row says

  /** How many of the folders a name lies in exist. */
  function Level(names: set<string>, n: string): nat
    decreases |n|
  {
    if ParentName(names, n) == "" then 0
    else
      ParentIsShorter(names, n);
      1 + Level(names, ParentName(names, n))
  }

  /** The key of the folder with this name; a name of no folder has none. */
  ghost predicate KeyOf(fs: Folders, n: string, key: string) {
    if n == "" then key == "" else exists k :: 0 <= k < |fs| && fs[k].name == n && fs[k].key == key
  }

  ghost predicate HasChild(fs: Folders, names: set<string>, n: string) {
    n != "" && exists k :: 0 <= k < |fs| && ParentName(names, fs[k].name) == n
  }

  /** The row of a folder: its key and name, the leaf alone below an existing
      parent and the full name at the top, indented by the folders above it that
      exist, with the key of the nearest of them, and marked when folders name
      it as their parent. */
  ghost predicate RowFor(row: Item, fs: Folders, names: set<string>, f: Folder) {
    && row.key == f.key && row.hostName == f.name
    && row.name == (if ParentName(names, f.name) == "" then f.name else PathOf(f.name).leaf)
    && row.depth == Level(names, f.name)
    && KeyOf(fs, ParentName(names, f.name), row.parentKey)
    && (row.hasChildren <==> HasChild(fs, names, f.name))
  }

  /** Every row is the row of one of the folders. */
  ghost predicate FromFolders(items: Items, fs: Folders, names: set<string>) {
    forall i :: 0 <= i < |items| ==> FromFolder(items[i], fs, names)
  }

  ghost predicate FromFolder(row: Item, fs: Folders, names: set<string>) {
    exists k :: 0 <= k < |fs| && RowFor(row, fs, names, fs[k])
  }

  /** Folders of one level below one parent. */
  ghost predicate OneLevel(fs: Folders, names: set<string>, list: Folders, depth: nat, parentKey: string) {
    forall i :: 0 <= i < |list| ==>
      list[i] in fs && Level(names, list[i].name) == depth && KeyOf(fs, ParentName(names, list[i].name), parentKey)
  }

  lemma {:induction false} KidsFound(fs: Folders, names: set<string>, p: string, k: nat)
    requires k < |fs| && p != "" && ParentName(names, fs[k].name) == p
    ensures Kids(fs, names, p) != []
    decreases |fs|
  {
    hide ParentName;
    if k < |fs| - 1 {
      KidsFound(fs[..|fs| - 1], names, p, k);
    }
  }

  lemma KidsAreChildren(fs: Folders, names: set<string>, p: string)
    ensures Kids(fs, names, p) != [] <==> HasChild(fs, names, p)
  {
    hide ParentName, Kids;
    if Kids(fs, names, p) != [] {
      KidIn(fs, names, p, 0);
    }
    if HasChild(fs, names, p) {
      var k :| 0 <= k < |fs| && ParentName(names, fs[k].name) == p;
      KidsFound(fs, names, p, k);
    }
  }

  lemma KidsAreOneLevel(fs: Folders, names: set<string>, rank: Collation, f: Folder, depth: nat)
    requires f in fs && Level(names, f.name) == depth
    ensures OneLevel(fs, names, Sorted(rank, Kids(fs, names, f.name)), depth + 1, f.key)
  {
    hide ParentName, Sorted, Kids;
    KidsAreKids(fs, names, rank, f.name);
    var kids := Sorted(rank, Kids(fs, names, f.name));
    forall i | 0 <= i < |kids| ensures Level(names, kids[i].name) == depth + 1 {
      assert ParentName(names, kids[i].name) == f.name;
    }
    var k :| 0 <= k < |fs| && fs[k] == f;
    assert f.name != "" ==> KeyOf(fs, f.name, f.key);
  }

  lemma {:induction false} RowsFrom(fs: Folders, names: set<string>, rank: Collation, top: nat, list: Folders, depth: nat,
                                    parentKey: string, floor: nat)
    requires Bounded(fs, top) && Deep(list, floor, top) && OneLevel(fs, names, list, depth, parentKey)
    ensures FromFolders(Rows(fs, names, rank, top, list, depth, parentKey, floor), fs, names)
    decreases top + 1 - floor, |list|
  {
    hide ParentName, Sorted, Kids, Bounded, Level, KeyOf, HasChild, FromFolder, Rows;
    RowsUnfold(fs, names, rank, top, list, depth, parentKey, floor);
    if list != [] {
      var f := list[0];
      var kids := Kids(fs, names, f.name);
      KidsDeep(fs, names, f.name, top);
      SortedDeep(rank, kids, |f.name| + 1, top);
      KidsAreOneLevel(fs, names, rank, f, depth);
      RowsFrom(fs, names, rank, top, Sorted(rank, kids), depth + 1, f.key, |f.name| + 1);
      RowsFrom(fs, names, rank, top, list[1..], depth, parentKey, floor);
      var row := RowOf(names, f, depth, parentKey, kids != []);
      KidsAreChildren(fs, names, f.name);
      OwnRow(row, fs, names, f);
    }
  }

  lemma OwnRow(row: Item, fs: Folders, names: set<string>, f: Folder)
    requires f in fs && RowFor(row, fs, names, f)
    ensures FromFolder(row, fs, names)
  {
    hide RowFor;
  }

  // ------------------------------------------------------- the order among siblings

  /** The first name comes before the second, or stands as high and its folder
      came first. */
  ghost predicate NamedBefore(fs: Folders, rank: Collation, a: string, b: string) {
    || rank(a) < rank(b)
    || (rank(a) == rank(b) && exists k, l :: 0 <= k < l < |fs| && fs[k].name == a && fs[l].name == b)
  }

  ghost predicate ListInOrder(fs: Folders, rank: Collation, list: Folders) {
    forall i, j :: 0 <= i < j < |list| ==> NamedBefore(fs, rank, list[i].name, list[j].name)
  }

  /** Two rows of one level with nothing shallower between them. */
  predicate Siblings(items: Items, i: nat, j: nat) {
    i < j < |items| && items[i].depth == items[j].depth && forall k :: i <= k <= j ==> items[k].depth >= items[i].depth
  }

  ghost predicate SiblingsInOrder(items: Items, fs: Folders, rank: Collation) {
    forall i, j :: 0 <= i < j && Siblings(items, i, j) ==> NamedBefore(fs, rank, items[i].hostName, items[j].hostName)
  }

  /** The rows of level `d` are those of the list. */
  predicate LevelIs(items: Items, d: nat, list: Folders) {
    forall i :: 0 <= i < |items| ==> items[i].depth >= d && (items[i].depth == d ==> Listed(list, items[i].hostName))
  }

  predicate Listed(list: Folders, n: string) {
    exists m :: 0 <= m < |list| && list[m].name == n
  }

  lemma {:induction false} SubsequenceOrder(fs: Folders, names: set<string>, p: string, i: nat, j: nat) returns (k: nat, l: nat)
    requires i < j < |Kids(fs, names, p)|
    ensures k < l < |fs| && fs[k] == Kids(fs, names, p)[i] && fs[l] == Kids(fs, names, p)[j]
    decreases |fs|
  {
    hide ParentName;
    var n := |fs| - 1;
    if j < |Kids(fs[..n], names, p)| {
      k, l := SubsequenceOrder(fs[..n], names, p, i, j);
    } else {
      l := n;
      KidIn(fs[..n], names, p, i);
      k :| 0 <= k < |fs[..n]| && fs[..n][k] == Kids(fs[..n], names, p)[i];
    }
  }

  lemma {:induction false} RootsOrder(fs: Folders, names: set<string>, i: nat, j: nat) returns (k: nat, l: nat)
    requires i < j < |Roots(fs, names)|
    ensures k < l < |fs| && fs[k] == Roots(fs, names)[i] && fs[l] == Roots(fs, names)[j]
    decreases |fs|
  {
    hide ParentName;
    var n := |fs| - 1;
    if j < |Roots(fs[..n], names)| {
      k, l := RootsOrder(fs[..n], names, i, j);
    } else {
      l := n;
      RootIn(fs[..n], names, i);
      k :| 0 <= k < |fs[..n]| && fs[..n][k] == Roots(fs[..n], names)[i];
    }
  }

  /** Sorting a part of the folders, taken in their order, puts it in order. */
  lemma SortedInOrder(fs: Folders, rank: Collation, part: Folders)
    requires forall i, j :: 0 <= i < j < |part| ==> InTurn(fs, part[i], part[j])
    ensures ListInOrder(fs, rank, Sorted(rank, part))
  {
    var key, list := NameKey(rank), Sorted(rank, part);
    SortArranges(key, part);
    hide Sort;
    forall i, j | 0 <= i < j < |list| ensures NamedBefore(fs, rank, list[i].name, list[j].name) {
      assert Precedes(key, part, list[i], list[j]);
      if rank(list[i].name) == rank(list[j].name) {
        var a, b :| 0 <= a < b < |part| && part[a] == list[i] && part[b] == list[j];
        assert InTurn(fs, part[a], part[b]);
        var k, l :| 0 <= k < l < |fs| && fs[k] == part[a] && fs[l] == part[b];
        assert fs[k].name == list[i].name && fs[l].name == list[j].name;
      }
    }
  }

  lemma KidsInOrder(fs: Folders, names: set<string>, rank: Collation, p: string)
    ensures ListInOrder(fs, rank, Sorted(rank, Kids(fs, names, p)))
  {
    hide Kids, Sorted;
    var kids := Kids(fs, names, p);
    forall i, j | 0 <= i < j < |kids| ensures InTurn(fs, kids[i], kids[j]) {
      var k, l := SubsequenceOrder(fs, names, p, i, j);
    }
    SortedInOrder(fs, rank, kids);
  }

  lemma RootsInOrder(fs: Folders, names: set<string>, rank: Collation)
    ensures ListInOrder(fs, rank, Sorted(rank, Roots(fs, names)))
  {
    hide Roots, Sorted;
    var roots := Roots(fs, names);
    forall i, j | 0 <= i < j < |roots| ensures InTurn(fs, roots[i], roots[j]) {
      var k, l := RootsOrder(fs, names, i, j);
    }
    SortedInOrder(fs, rank, roots);
  }

  lemma UnderInOrder(row: Item, below: Items, fs: Folders, rank: Collation)
    requires SiblingsInOrder(below, fs, rank) && forall i :: 0 <= i < |below| ==> below[i].depth > row.depth
    ensures SiblingsInOrder([row] + below, fs, rank)
  {
    hide NamedBefore;
    var all := [row] + below;
    assert forall k :: 1 <= k < |all| ==> all[k] == below[k - 1];
    forall i, j | 0 <= i < j && Siblings(all, i, j) ensures NamedBefore(fs, rank, all[i].hostName, all[j].hostName) {
      assert i > 0;
      LaterSiblings([row], below, i - 1, j - 1);
    }
  }

  /** A branch, followed by the rest of its level. */
  lemma OrderConcat(a: Items, b: Items, d: nat, fs: Folders, rank: Collation)
    requires SiblingsInOrder(a, fs, rank) && SiblingsInOrder(b, fs, rank) && (b != [] ==> b[0].depth == d)
    requires forall i :: 0 <= i < |a| ==> a[i].depth >= d
    requires forall i, j :: 0 <= i < |a| && 0 <= j < |b| && a[i].depth == b[j].depth == d ==>
               NamedBefore(fs, rank, a[i].hostName, b[j].hostName)
    ensures SiblingsInOrder(a + b, fs, rank)
  {
    hide NamedBefore;
    var all, n := a + b, |a|;
    forall i, j | 0 <= i < j && Siblings(all, i, j) ensures NamedBefore(fs, rank, all[i].hostName, all[j].hostName) {
      if i >= n {
        LaterSiblings(a, b, i - n, j - n);
      } else if j < n {
        assert forall k :: i <= k <= j ==> all[k] == a[k];
        assert Siblings(a, i, j);
      } else {
        assert all[n] == b[0] && all[i] == a[i] && all[j] == b[j - n];
      }
    }
  }

  lemma LaterSiblings(a: Items, b: Items, i: nat, j: nat)
    requires Siblings(a + b, |a| + i, |a| + j)
    ensures Siblings(b, i, j)
  {
    forall k | i <= k <= j ensures b[k].depth >= b[i].depth {
      assert (a + b)[|a| + k] == b[k];
    }
  }

  /** Where a name stands in the rest of a list, it stands in the list. */
  lemma ListedLater(list: Folders, n: string) returns (m: nat)
    requires list != [] && Listed(list[1..], n)
    ensures 0 < m < |list| && list[m].name == n && Listed(list, n)
  {
    m :| 0 <= m < |list[1..]| && list[1..][m].name == n;
    m := m + 1;
  }

  lemma BranchInOrder(row: Item, below: Items, rest: Items, fs: Folders, rank: Collation, list: Folders)
    requires list != [] && row.hostName == list[0].name && ListInOrder(fs, rank, list)
    requires SiblingsInOrder(below, fs, rank) && SiblingsInOrder(rest, fs, rank)
    requires forall i :: 0 <= i < |below| ==> below[i].depth > row.depth
    requires LevelIs(rest, row.depth, list[1..]) && (rest != [] ==> rest[0].depth == row.depth)
    ensures SiblingsInOrder([row] + below + rest, fs, rank)
    ensures LevelIs([row] + below + rest, row.depth, list)
  {
    hide NamedBefore, SiblingsInOrder, Listed;
    UnderInOrder(row, below, fs, rank);
    var a := [row] + below;
    assert forall k :: 1 <= k < |a| ==> a[k] == below[k - 1];
    forall j | 0 <= j < |rest| && rest[j].depth == row.depth
      ensures NamedBefore(fs, rank, row.hostName, rest[j].hostName) && Listed(list, rest[j].hostName)
    {
      var m := ListedLater(list, rest[j].hostName);
    }
    OrderConcat(a, rest, row.depth, fs, rank);
    assert Listed(list, row.hostName) by { FirstIsListed(list); }
    forall i | 0 <= i < |a + rest|
      ensures (a + rest)[i].depth >= row.depth
      ensures (a + rest)[i].depth == row.depth ==> Listed(list, (a + rest)[i].hostName)
    {
      if i >= |a| {
        assert (a + rest)[i] == rest[i - |a|];
      }
    }
  }

  lemma FirstIsListed(list: Folders)
    requires list != []
    ensures Listed(list, list[0].name)
  {
  }

  lemma {:induction false} RowsInOrder(fs: Folders, names: set<string>, rank: Collation, top: nat, list: Folders, depth: nat,
                                       parentKey: string, floor: nat)
    requires Bounded(fs, top) && Deep(list, floor, top) && ListInOrder(fs, rank, list)
    ensures var rows := Rows(fs, names, rank, top, list, depth, parentKey, floor);
            SiblingsInOrder(rows, fs, rank) && LevelIs(rows, depth, list) && (rows != [] ==> rows[0].depth == depth)
    decreases top + 1 - floor, |list|
  {
    hide ParentName, Sorted, Kids, Bounded, ListInOrder, SiblingsInOrder, Rows, LevelIs;
    RowsUnfold(fs, names, rank, top, list, depth, parentKey, floor);
    if list == [] {
      NothingInOrder(fs, rank);
    } else {
      var f := list[0];
      var kids := Kids(fs, names, f.name);
      KidsDeep(fs, names, f.name, top);
      SortedDeep(rank, kids, |f.name| + 1, top);
      KidsInOrder(fs, names, rank, f.name);
      RowsInOrder(fs, names, rank, top, Sorted(rank, kids), depth + 1, f.key, |f.name| + 1);
      TailInOrder(fs, rank, list);
      RowsInOrder(fs, names, rank, top, list[1..], depth, parentKey, floor);
      DeeperThan(Rows(fs, names, rank, top, Sorted(rank, kids), depth + 1, f.key, |f.name| + 1), depth + 1, Sorted(rank, kids));
      BranchInOrder(RowOf(names, f, depth, parentKey, kids != []),
                    Rows(fs, names, rank, top, Sorted(rank, kids), depth + 1, f.key, |f.name| + 1),
                    Rows(fs, names, rank, top, list[1..], depth, parentKey, floor), fs, rank, list);
    }
  }

  lemma NothingInOrder(fs: Folders, rank: Collation)
    ensures SiblingsInOrder([], fs, rank)
    ensures forall d: nat :: LevelIs([], d, [])
  {
  }

  lemma DeeperThan(items: Items, d: nat, list: Folders)
    requires LevelIs(items, d, list)
    ensures forall i :: 0 <= i < |items| ==> items[i].depth >= d
  {
  }

  lemma TailInOrder(fs: Folders, rank: Collation, list: Folders)
    requires list != [] && ListInOrder(fs, rank, list)
    ensures ListInOrder(fs, rank, list[1..])
  {
    hide NamedBefore;
  }

  lemma {:induction false} NamesAt(fs: Folders, i: nat)
    requires i < |fs|
    ensures |NamesOf(fs)| == |fs| && NamesOf(fs)[i] == fs[i].name
  {
    if i > 0 {
      NamesAt(fs[1..], i - 1);
    } else if |fs| > 1 {
      NamesAt(fs[1..], 0);
    }
  }

  lemma {:induction false} HostsAt(items: Items, i: nat)
    requires i < |items|
    ensures |HostNames(items)| == |items| && HostNames(items)[i] == items[i].hostName
  {
    if i > 0 {
      HostsAt(items[1..], i - 1);
    } else if |items| > 1 {
      HostsAt(items[1..], 0);
    }
  }

  lemma {:induction false} DistinctMeansOne(fs: Folders, n: string)
    requires DistinctNames(fs)
    ensures Count(NamesOf(fs), n) == if n in Names(fs) then 1 else 0
  {
    if fs != [] {
      assert forall i :: 0 <= i < |fs| - 1 ==> fs[1..][i] == fs[i + 1];
      DistinctMeansOne(fs[1..], n);
      assert Names(fs) == {fs[0].name} + Names(fs[1..]);
    }
  }

  // ------------------------------------------------------------------- the theorems

  lemma RootsAreOneLevel(fs: Folders, rank: Collation)
    ensures OneLevel(fs, Names(fs), Sorted(rank, Roots(fs, Names(fs))), 0, "")
    ensures ChildrenOf(fs, Names(fs), Sorted(rank, Roots(fs, Names(fs))), "")
  {
    hide ParentName, Sorted, Roots, Names;
    var names := Names(fs);
    var roots := Sorted(rank, Roots(fs, names));
    forall i | 0 <= i < |roots| ensures roots[i] in fs && ParentName(names, roots[i].name) == "" {
      SortedIn(rank, Roots(fs, names), i);
      var j :| 0 <= j < |Roots(fs, names)| && Roots(fs, names)[j] == roots[i];
      RootIn(fs, names, j);
    }
  }

  lemma NestShape(fs: Folders, rank: Collation)
    ensures Hangs(Names(fs), Nest(fs, rank), 0, "", "") && FromFolders(Nest(fs, rank), fs, Names(fs))
    ensures SiblingsInOrder(Nest(fs, rank), fs, rank)
  {
    hide ParentName, Sorted, Roots, Rows, Hangs, FromFolders, SiblingsInOrder, LevelIs, OneLevel, ChildrenOf, Names;
    var names := Names(fs);
    var roots := Sorted(rank, Roots(fs, names));
    RootsDeep(fs, names, rank);
    RootsAreOneLevel(fs, rank);
    RowsHang(fs, names, rank, Longest(fs), roots, 0, "", "", 0);
    RowsFrom(fs, names, rank, Longest(fs), roots, 0, "", 0);
    RootsInOrder(fs, names, rank);
    RowsInOrder(fs, names, rank, Longest(fs), roots, 0, "", 0);
  }

  lemma NestCount(fs: Folders, rank: Collation, n: string)
    requires DistinctNames(fs)
    ensures Count(HostNames(Nest(fs, rank)), n) == if n in Names(fs) then 1 else 0
  {
    hide PathOf, Sorted, Roots, Rows, SumAbove, HostNames, NamesOf, Bounded, Deep;
    var names, roots := Names(fs), Roots(fs, Names(fs));
    RootsDeep(fs, names, rank);
    if n in names {
      forall m | m in names ensures Count(NamesOf(fs), m) == 1 {
        DistinctMeansOne(fs, m);
      }
      RowsCount(fs, names, rank, Longest(fs), Sorted(rank, roots), 0, "", 0, n);
      SortedSum(names, rank, roots, n);
      EverythingHasARoot(fs, names, n);
    } else if Count(HostNames(Nest(fs, rank)), n) > 0 {
      StrangersHaveNoRow(fs, rank, n);
    }
  }

  lemma StrangersHaveNoRow(fs: Folders, rank: Collation, n: string)
    requires n !in Names(fs)
    ensures Count(HostNames(Nest(fs, rank)), n) == 0
  {
    NestShape(fs, rank);
    var items := Nest(fs, rank);
    hide Nest, Hangs;
    NoHostNamed(items, fs, Names(fs), n);
  }

  lemma {:induction false} NoHostNamed(items: Items, fs: Folders, names: set<string>, n: string)
    requires FromFolders(items, fs, names) && n !in Names(fs)
    ensures Count(HostNames(items), n) == 0
  {
    hide ParentName, Level, KeyOf, HasChild;
    if items != [] {
      assert FromFolder(items[0], fs, names);
      NoHostNamed(items[1..], fs, names, n);
    }
  }

  lemma HangsIsNested(names: set<string>, items: Items)
    requires Hangs(names, items, 0, "", "")
    ensures Nested(items)
  {
    hide Parent, ParentName;
  }

  /** Rows that hang under the same folder are siblings. */
  lemma SameParentSiblings(fs: Folders, names: set<string>, items: Items, i: nat, j: nat)
    requires Hangs(names, items, 0, "", "") && FromFolders(items, fs, names) && i < j < |items|
    requires forall a, b :: 0 <= a < b < |items| ==> items[a].hostName != items[b].hostName
    requires ParentName(names, items[i].hostName) == ParentName(names, items[j].hostName)
    ensures Siblings(items, i, j)
  {
    hide Hangs, ParentName, KeyOf, HasChild;
    assert FromFolder(items[i], fs, names) && FromFolder(items[j], fs, names);
    assert items[i].depth == Level(names, items[i].hostName) && items[j].depth == Level(names, items[j].hostName);
    HangsNames(names, items, 0, "", "", i);
    HangsNames(names, items, 0, "", "", j);
    if items[i].depth > 0 {
      var p :| 0 <= p < i && ParentRow(names, items, p, i);
      var q :| 0 <= q < j && ParentRow(names, items, q, j);
      assert p == q;
    }
  }

  /** The folder tree, for any folders with distinct names. There is one row for
      each folder and no other; every row says what its folder's path says (its
      leaf or full name, how deep it lies, the key of its parent, whether it has
      children); the rows are in preorder, each behind the row of its parent with
      only rows of the same branch between them; and the children of one parent
      come in the order of their names. */
  lemma FolderTree(fs: Folders, rank: Collation)
    requires DistinctNames(fs)
    ensures var items, names := Nest(fs, rank), Names(fs);
            && |items| == |fs|
            && (forall k :: 0 <= k < |fs| ==> Count(HostNames(items), fs[k].name) == 1)
            && FromFolders(items, fs, names)
            && Hangs(names, items, 0, "", "") && Nested(items)
            && (forall i, j :: 0 <= i < j < |items| && ParentName(names, items[i].hostName) == ParentName(names, items[j].hostName) ==>
                  NamedBefore(fs, rank, items[i].hostName, items[j].hostName))
  {
    var items, names := Nest(fs, rank), Names(fs);
    NestShape(fs, rank);
    HangsIsNested(names, items);
    RowsAreDistinct(fs, rank);
    hide Nest, HostNames, NamesOf, Hangs, FromFolders, Nested, DistinctNames, ParentName, Names, NamedBefore;
    forall n ensures Count(HostNames(items), n) == Count(NamesOf(fs), n) {
      NestCount(fs, rank, n);
      DistinctMeansOne(fs, n);
    }
    SameCounts(HostNames(items), NamesOf(fs));
    NamesLength(fs);
    HostsLength(items);
    forall k | 0 <= k < |fs| ensures Count(HostNames(items), fs[k].name) == 1 {
      NameKnown(fs, k);
      NestCount(fs, rank, fs[k].name);
    }
    forall i, j | 0 <= i < j < |items| && ParentName(names, items[i].hostName) == ParentName(names, items[j].hostName)
      ensures NamedBefore(fs, rank, items[i].hostName, items[j].hostName)
    {
      SameParentSiblings(fs, names, items, i, j);
    }
  }

  lemma NameKnown(fs: Folders, k: nat)
    requires k < |fs|
    ensures fs[k].name in Names(fs)
  {
  }

  lemma RowsAreDistinct(fs: Folders, rank: Collation)
    requires DistinctNames(fs)
    ensures var items := Nest(fs, rank);
            forall i, j :: 0 <= i < j < |items| ==> items[i].hostName != items[j].hostName
  {
    var items := Nest(fs, rank);
    hide Nest, DistinctNames, Names;
    forall i, j | 0 <= i < j < |items| ensures items[i].hostName != items[j].hostName {
      HostsAt(items, i);
      HostsAt(items, j);
      if items[i].hostName == items[j].hostName {
        OncePlace(HostNames(items), i, j);
        NestCount(fs, rank, items[i].hostName);
      }
    }
  }

  lemma NamesLength(fs: Folders)
    ensures |NamesOf(fs)| == |fs|
  {
    if fs != [] {
      NamesAt(fs, 0);
    }
  }

  lemma HostsLength(items: Items)
    ensures |HostNames(items)| == |items|
  {
    if items != [] {
      HostsAt(items, 0);
    }
  }

  /** With distinct, non-empty keys the rail can address every row. */
  lemma RowKeys(fs: Folders, rank: Collation)
    requires DistinctNames(fs) && forall k :: 0 <= k < |fs| ==> fs[k].key != ""
    requires forall i, j :: 0 <= i < j < |fs| ==> fs[i].key != fs[j].key
    ensures DistinctKeys(Nest(fs, rank))
  {
    var items := Nest(fs, rank);
    NestShape(fs, rank);
    RowsAreDistinct(fs, rank);
    hide Nest, Hangs, ParentName, Level, KeyOf, HasChild, Names;
    forall i | 0 <= i < |items| ensures items[i].key != "" {
      assert FromFolder(items[i], fs, Names(fs));
    }
    forall i, j | 0 <= i < j < |items| ensures items[i].key != items[j].key {
      assert FromFolder(items[i], fs, Names(fs)) && FromFolder(items[j], fs, Names(fs));
    }
  }

  /** In the drawn folder tree the active folder is visible once the path to it
      is reopened, for every set of collapsed folders, down to depth 32. */
  lemma ActiveFolderIsShown(fs: Folders, rank: Collation, collapsed: seq<string>, i: nat)
    requires DistinctNames(fs) && forall k :: 0 <= k < |fs| ==> fs[k].key != ""
    requires forall i, j :: 0 <= i < j < |fs| ==> fs[i].key != fs[j].key
    requires i < |Nest(fs, rank)| && Nest(fs, rank)[i].depth <= STEPS
    ensures var items := Nest(fs, rank);
            var left := set k | k in Revealed(collapsed, items, items[i].key);
            !Hidden(items, left, i)
  {
    RowKeys(fs, rank);
    NestShape(fs, rank);
    HangsIsNested(Names(fs), Nest(fs, rank));
    hide Nest, Hidden, Nested, DistinctKeys;
    RevealShowsActive(Nest(fs, rank), collapsed, i);
  }
}
