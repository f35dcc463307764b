/** Filling the freight table in one go and undoing it
    (frontend/src/lib/freightRateFill.ts). */
module FreightFill {
  import opened Text

  datatype Product = Product(id: string, unit: string)

  datatype Rate = Rate(productId: string, price: string, currency: string, unit: string, remark: string, usdPrice: Option<string>)

  type Rates = seq<Rate>

  datatype Key = Price | Currency | Unit

  const FILL_KEYS := [Price, Currency, Unit]

  function Get(r: Rate, k: Key): string {
    match k case Price => r.price case Currency => r.currency case Unit => r.unit
  }

  function Set(r: Rate, k: Key, v: string): Rate {
    match k case Price => r.(price := v) case Currency => r.(currency := v) case Unit => r.(unit := v)
  }

  /** A column that is not named stays as it is. */
  type Patch = map<Key, string>

  datatype Change = Change(productId: string, key: Key, before: string)

  datatype Undo = Undo(added: seq<string>, changes: seq<Change>)

  // ----------------------------------------------------------------- selecting all

  function Ids(rs: Rates): set<string> {
    set r | r in rs :: r.productId
  }

  function TableIds(ps: seq<Product>): set<string> {
    set p | p in ps :: p.id
  }

  function BlankRate(p: Product, currency: string): Rate {
    Rate(p.id, "", if currency != "" then currency else "USD", if p.unit != "" then p.unit else "MT", "", None)
  }

  function Missing(ps: seq<Product>, ticked: set<string>): (m: seq<Product>)
    ensures forall p :: p in m <==> p in ps && p.id !in ticked
  {
    if ps == [] then [] else (if ps[0].id in ticked then [] else [ps[0]]) + Missing(ps[1..], ticked)
  }

  function Blanks(ps: seq<Product>, currency: string): (rs: Rates)
    ensures |rs| == |ps| && forall i :: 0 <= i < |ps| ==> rs[i] == BlankRate(ps[i], currency)
  {
    seq(|ps|, i requires 0 <= i < |ps| => BlankRate(ps[i], currency))
  }

  function ProductIds(ps: seq<Product>): (ids: seq<string>)
    ensures |ids| == |ps| && forall i :: 0 <= i < |ps| ==> ids[i] == ps[i].id
  {
    seq(|ps|, i requires 0 <= i < |ps| => ps[i].id)
  }

  datatype Selection = Selection(rates: Rates, added: seq<string>)

  /** `selectAllFreightRates`: ticked rows as they are, missing ones behind. */
  function SelectAll(ps: seq<Product>, rs: Rates, currency: string): Selection {
    var missing := Missing(ps, Ids(rs));
    Selection(rs + Blanks(missing, currency), ProductIds(missing))
  }

  // ------------------------------------------------------------------------ filling

  /** Whether the patch changes a cell. */
  predicate Touches(patch: Patch, r: Rate, k: Key) {
    k in patch && patch[k] != Get(r, k)
  }

  function FilledFrom(r: Rate, now: Rate, patch: Patch, keys: seq<Key>): Rate
    decreases |keys|
  {
    if keys == [] then now
    else FilledFrom(r, if Touches(patch, r, keys[0]) then Set(now, keys[0], patch[keys[0]]) else now, patch, keys[1..])
  }

  function ChangesFrom(r: Rate, patch: Patch, keys: seq<Key>): seq<Change> {
    if keys == [] then []
    else (if Touches(patch, r, keys[0]) then [Change(r.productId, keys[0], Get(r, keys[0]))] else []) + ChangesFrom(r, patch, keys[1..])
  }

  function FilledRow(table: set<string>, r: Rate, patch: Patch): Rate {
    if r.productId in table then FilledFrom(r, r, patch, FILL_KEYS) else r
  }

  function RowChanges(table: set<string>, added: seq<string>, r: Rate, patch: Patch): seq<Change> {
    if r.productId in table && r.productId !in added then ChangesFrom(r, patch, FILL_KEYS) else []
  }

  function AllChanges(table: set<string>, added: seq<string>, rs: Rates, patch: Patch): seq<Change> {
    if rs == [] then []
    else AllChanges(table, added, rs[..|rs| - 1], patch) + RowChanges(table, added, rs[|rs| - 1], patch)
  }

  function AllFilled(table: set<string>, rs: Rates, patch: Patch): (out: Rates)
    ensures |out| == |rs| && forall i :: 0 <= i < |rs| ==> out[i] == FilledRow(table, rs[i], patch)
  {
    seq(|rs|, i requires 0 <= i < |rs| => FilledRow(table, rs[i], patch))
  }

  function Selected(ps: seq<Product>, rs: Rates, selectAll: bool, currency: string): Selection {
    if selectAll then SelectAll(ps, rs, currency) else Selection(rs, [])
  }

  /** How many rows belong to the table. */
  function RowsIn(table: set<string>, rs: Rates): nat {
    if rs == [] then 0 else RowsIn(table, rs[..|rs| - 1]) + if rs[|rs| - 1].productId in table then 1 else 0
  }

  lemma ChangesStep(table: set<string>, added: seq<string>, rs: Rates, patch: Patch, i: nat)
    requires i < |rs|
    ensures AllChanges(table, added, rs[..i + 1], patch) == AllChanges(table, added, rs[..i], patch) + RowChanges(table, added, rs[i], patch)
  {
    hide RowChanges;
    assert rs[..i + 1][..i] == rs[..i];
  }

  lemma NoChanges(table: set<string>, added: seq<string>, patch: Patch)
    ensures AllChanges(table, added, [], patch) == []
  {
  }

  /** `picks` are the places, in order, of the elements to keep. */
  ghost predicate Picks<T(!new)>(s: seq<T>, keep: T -> bool, picks: seq<nat>) {
    && (forall i, j :: 0 <= i < j < |picks| ==> picks[i] < picks[j])
    && (forall i :: 0 <= i < |picks| ==> picks[i] < |s|)
    && (forall i: nat :: i < |s| ==> (i in picks <==> keep(s[i])))
  }

  predicate HasRow(rs: Rates, id: string) {
    exists i :: 0 <= i < |rs| && rs[i].productId == id
  }

  predicate IsListed(ps: seq<Product>, id: string) {
    exists i :: 0 <= i < |ps| && ps[i].id == id
  }

  ghost function Unticked(rs: Rates): Product -> bool {
    (p: Product) => !HasRow(rs, p.id)
  }

  /** What a fill makes of a row: the named columns of a listed product's row get
      the new value, nothing else changes. */
  predicate FillsRow(ps: seq<Product>, was: Rate, patch: Patch, now: Rate) {
    if !IsListed(ps, was.productId) then now == was
    else
      && now.productId == was.productId && now.remark == was.remark && now.usdPrice == was.usdPrice
      && now.price == (if Price in patch then patch[Price] else was.price)
      && now.currency == (if Currency in patch then patch[Currency] else was.currency)
      && now.unit == (if Unit in patch then patch[Unit] else was.unit)
  }

  /** A cell is noted if and only if the fill gave it another value. */
  predicate Noted(ps: seq<Product>, rs: Rates, patch: Patch, c: Change) {
    exists i :: 0 <= i < |rs| && NotedRow(ps, rs[i], patch, c)
  }

  predicate NotedRow(ps: seq<Product>, r: Rate, patch: Patch, c: Change) {
    && IsListed(ps, r.productId) && c.productId == r.productId && c.key in patch && patch[c.key] != c.before
    && c.before == match c.key case Price => r.price case Currency => r.currency case Unit => r.unit
  }

  /** The rows before the fill: those there are, then one for every listed product
      without one, in the order of the list. */
  ghost predicate Complete(ps: seq<Product>, rs: Rates, currency: string, picks: seq<nat>, all: Rates) {
    && Picks(ps, Unticked(rs), picks) && |all| == |rs| + |picks| && all[..|rs|] == rs
    && forall i :: 0 <= i < |picks| ==>
         var p := ps[picks[i]];
         all[|rs| + i] == Rate(p.id, "", if currency == "" then "USD" else currency, if p.unit == "" then "MT" else p.unit, "", None)
  }

  lemma MovedIn(rest: seq<nat>, moved: seq<nat>, i: nat)
    requires |moved| == |rest| && forall k :: 0 <= k < |rest| ==> moved[k] == rest[k] + 1
    ensures i + 1 in moved <==> i in rest
  {
    if i + 1 in moved {
      var k :| 0 <= k < |moved| && moved[k] == i + 1;
      assert rest[k] == i;
    }
    if i in rest {
      var k :| 0 <= k < |rest| && rest[k] == i;
      assert moved[k] == i + 1;
    }
  }

  function Moved(rest: seq<nat>): (moved: seq<nat>)
    ensures |moved| == |rest| && forall k :: 0 <= k < |rest| ==> moved[k] == rest[k] + 1
  {
    seq(|rest|, i requires 0 <= i < |rest| => rest[i] + 1)
  }

  lemma PicksBehind<T(!new)>(s: seq<T>, keep: T -> bool, rest: seq<nat>, i: nat)
    requires s != [] && Picks(s[1..], keep, rest) && i < |s|
    ensures i in Moved(rest) <==> i > 0 && keep(s[i])
  {
    if i > 0 {
      assert s[i] == s[1..][i - 1];
      MovedIn(rest, Moved(rest), i - 1);
    }
  }

  lemma PicksInFront<T(!new)>(s: seq<T>, keep: T -> bool, rest: seq<nat>)
    requires s != [] && Picks(s[1..], keep, rest)
    ensures Picks(s, keep, (if keep(s[0]) then [0] else []) + Moved(rest))
  {
    var picks := (if keep(s[0]) then [0] else []) + Moved(rest);
    var d := |picks| - |rest|;
    forall i: nat | i < |s| ensures i in picks <==> keep(s[i]) {
      PicksBehind(s, keep, rest, i);
    }
    hide Moved;
    forall i, j | 0 <= i < j < |picks| ensures picks[i] < picks[j] {
      assert picks[j] == rest[j - d] + 1;
      assert i >= d ==> picks[i] == rest[i - d] + 1;
    }
    forall i | 0 <= i < |picks| ensures picks[i] < |s| {
      assert i >= d ==> picks[i] == rest[i - d] + 1;
    }
  }

  function NotTicked(ticked: set<string>): Product -> bool {
    (p: Product) => p.id !in ticked
  }

  /** The elements at the given places. */
  function At<T>(s: seq<T>, picks: seq<nat>): (out: seq<T>)
    requires forall i :: 0 <= i < |picks| ==> picks[i] < |s|
    ensures |out| == |picks| && forall i :: 0 <= i < |picks| ==> out[i] == s[picks[i]]
  {
    seq(|picks|, i requires 0 <= i < |picks| => s[picks[i]])
  }

  lemma AtMoved<T>(s: seq<T>, rest: seq<nat>)
    requires s != [] && forall i :: 0 <= i < |rest| ==> rest[i] < |s| - 1
    ensures At(s, Moved(rest)) == At(s[1..], rest)
    ensures At(s, [0] + Moved(rest)) == [s[0]] + At(s[1..], rest)
  {
  }

  lemma {:induction false} MissingPicks(ps: seq<Product>, ticked: set<string>) returns (picks: seq<nat>)
    ensures Picks(ps, NotTicked(ticked), picks) && Missing(ps, ticked) == At(ps, picks)
  {
    picks := [];
    if ps != [] {
      var rest := MissingPicks(ps[1..], ticked);
      var keep := NotTicked(ticked);
      PicksInFront(ps, keep, rest);
      AtMoved(ps, rest);
      assert keep(ps[0]) <==> ps[0].id !in ticked;
      hide Picks, NotTicked, At, Moved;
      if keep(ps[0]) {
        picks := [0] + Moved(rest);
      } else {
        picks := Moved(rest);
        assert [] + Moved(rest) == picks;
      }
    }
  }

  lemma InIds(rs: Rates, id: string)
    ensures id in Ids(rs) <==> HasRow(rs, id)
  {
    if id in Ids(rs) {
      var r :| r in rs && r.productId == id;
    }
    if HasRow(rs, id) {
      var i :| 0 <= i < |rs| && rs[i].productId == id;
      assert rs[i] in rs;
    }
  }

  lemma InTable(ps: seq<Product>, id: string)
    ensures id in TableIds(ps) <==> IsListed(ps, id)
  {
    if id in TableIds(ps) {
      var p :| p in ps && p.id == id;
    }
    if IsListed(ps, id) {
      var i :| 0 <= i < |ps| && ps[i].id == id;
      assert ps[i] in ps;
    }
  }

  lemma SelectAllCompletes(ps: seq<Product>, rs: Rates, currency: string) returns (picks: seq<nat>)
    ensures var s := SelectAll(ps, rs, currency);
            && Complete(ps, rs, currency, picks, s.rates)
            && |s.added| == |picks| && forall i :: 0 <= i < |picks| ==> s.added[i] == ps[picks[i]].id
  {
    picks := MissingPicks(ps, Ids(rs));
    hide Missing, Ids;
    assert forall p :: NotTicked(Ids(rs))(p) <==> p.id !in Ids(rs);
    forall i: nat | i < |ps| ensures i in picks <==> Unticked(rs)(ps[i]) {
      InIds(rs, ps[i].id);
    }
  }

  lemma RowFilled(ps: seq<Product>, r: Rate, patch: Patch)
    ensures FillsRow(ps, r, patch, FilledRow(TableIds(ps), r, patch))
  {
    InTable(ps, r.productId);
    FilledIs(r, patch);
    var f := FilledFrom(r, r, patch, FILL_KEYS);
    assert Get(f, Price) == f.price && Get(f, Currency) == f.currency && Get(f, Unit) == f.unit;
    hide FilledFrom, IsListed, TableIds;
  }

  lemma RowNoted(ps: seq<Product>, added: seq<string>, r: Rate, patch: Patch, c: Change)
    requires r.productId !in added
    ensures c in RowChanges(TableIds(ps), added, r, patch) <==> NotedRow(ps, r, patch, c)
  {
    InTable(ps, r.productId);
    ChangesAre(r, patch);
    hide ChangesFrom, IsListed, TableIds;
  }

  lemma {:induction false} AllNoted(ps: seq<Product>, added: seq<string>, rs: Rates, patch: Patch, c: Change)
    requires forall i :: 0 <= i < |rs| ==> rs[i].productId !in added
    ensures c in AllChanges(TableIds(ps), added, rs, patch) <==> Noted(ps, rs, patch, c)
    decreases |rs|
  {
    hide RowChanges, NotedRow, TableIds;
    if rs != [] {
      var n := |rs| - 1;
      AllNoted(ps, added, rs[..n], patch, c);
      RowNoted(ps, added, rs[n], patch, c);
      if Noted(ps, rs, patch, c) {
        var i :| 0 <= i < |rs| && NotedRow(ps, rs[i], patch, c);
        assert i < n ==> rs[..n][i] == rs[i];
      }
      if Noted(ps, rs[..n], patch, c) {
        var i :| 0 <= i < n && NotedRow(ps, rs[..n][i], patch, c);
        assert rs[..n][i] == rs[i];
      }
    }
  }

  ghost function ListedRows(ps: seq<Product>, rs: Rates): set<nat> {
    set i: nat | i < |rs| && IsListed(ps, rs[i].productId)
  }

  lemma {:induction false} RowsCounted(ps: seq<Product>, rs: Rates)
    ensures RowsIn(TableIds(ps), rs) == |ListedRows(ps, rs)|
    decreases |rs|
  {
    hide IsListed, TableIds;
    if rs == [] {
      assert ListedRows(ps, rs) == {};
    } else {
      var n: nat := |rs| - 1;
      RowsCounted(ps, rs[..n]);
      InTable(ps, rs[n].productId);
      LastRow(ps, rs);
      hide ListedRows;
    }
  }

  lemma LastRow(ps: seq<Product>, rs: Rates)
    requires rs != []
    ensures var n := |rs| - 1;
            |ListedRows(ps, rs)| == |ListedRows(ps, rs[..n])| + if IsListed(ps, rs[n].productId) then 1 else 0
  {
    hide IsListed;
    var n: nat := |rs| - 1;
    if IsListed(ps, rs[n].productId) {
      assert ListedRows(ps, rs) == ListedRows(ps, rs[..n]) + {n};
    } else {
      assert ListedRows(ps, rs) == ListedRows(ps, rs[..n]);
    }
  }

  predicate FillsRows(ps: seq<Product>, all: Rates, patch: Patch, next: Rates) {
    |next| == |all| && forall i :: 0 <= i < |all| ==> FillsRow(ps, all[i], patch, next[i])
  }

  ghost predicate NotesAll(ps: seq<Product>, rs: Rates, patch: Patch, changes: seq<Change>) {
    forall c :: c in changes <==> Noted(ps, rs, patch, c)
  }

  /** The rows a fill starts from, and the products it gave one. */
  ghost predicate SelectionOk(ps: seq<Product>, rs: Rates, selectAll: bool, currency: string, picks: seq<nat>, all: Rates, added: seq<string>) {
    && (if selectAll then Complete(ps, rs, currency, picks, all) else picks == [] && all == rs)
    && |added| == |picks| && forall i :: 0 <= i < |picks| ==> picks[i] < |ps| && added[i] == ps[picks[i]].id
  }

  /** What a fill does to the table, cell by cell. */
  ghost predicate FillOk(ps: seq<Product>, rs: Rates, patch: Patch, selectAll: bool, currency: string, picks: seq<nat>, all: Rates,
                         next: Rates, undo: Undo, count: nat)
  {
    && SelectionOk(ps, rs, selectAll, currency, picks, all, undo.added) && FillsRows(ps, all, patch, next)
    && NotesAll(ps, rs, patch, undo.changes) && count == |ListedRows(ps, all)|
  }

  lemma SelectedIs(ps: seq<Product>, rs: Rates, selectAll: bool, currency: string) returns (picks: seq<nat>)
    ensures var s := Selected(ps, rs, selectAll, currency); SelectionOk(ps, rs, selectAll, currency, picks, s.rates, s.added)
  {
    hide Missing, Ids;
    picks := [];
    if selectAll {
      picks := SelectAllCompletes(ps, rs, currency);
    }
  }

  lemma RowsFilled(ps: seq<Product>, all: Rates, patch: Patch)
    ensures FillsRows(ps, all, patch, AllFilled(TableIds(ps), all, patch))
  {
    hide FillsRow, FilledRow, TableIds;
    forall i | 0 <= i < |all| ensures FillsRow(ps, all[i], patch, FilledRow(TableIds(ps), all[i], patch)) {
      RowFilled(ps, all[i], patch);
    }
  }

  lemma ChangesNoted(ps: seq<Product>, rs: Rates, patch: Patch, selectAll: bool, currency: string)
    ensures NotesAll(ps, rs, patch, UndoOf(ps, rs, patch, selectAll, currency).changes)
  {
    hide Selected, TableIds, AllChanges, UndoOf, Noted;
    UndoIs(ps, rs, patch, selectAll, currency);
    var added, changes := Selected(ps, rs, selectAll, currency).added, UndoOf(ps, rs, patch, selectAll, currency).changes;
    forall c ensures c in changes <==> Noted(ps, rs, patch, c) {
      AllNoted(ps, added, rs, patch, c);
    }
  }

  lemma FillIsOk(ps: seq<Product>, rs: Rates, patch: Patch, selectAll: bool, currency: string) returns (picks: seq<nat>)
    ensures var s := Selected(ps, rs, selectAll, currency);
            FillOk(ps, rs, patch, selectAll, currency, picks, s.rates, AllFilled(TableIds(ps), s.rates, patch),
                   UndoOf(ps, rs, patch, selectAll, currency), RowsIn(TableIds(ps), s.rates))
  {
    hide Selected, TableIds, AllFilled, UndoOf, RowsIn, ListedRows, SelectionOk, FillsRows, NotesAll;
    picks := SelectedIs(ps, rs, selectAll, currency);
    var all := Selected(ps, rs, selectAll, currency).rates;
    RowsFilled(ps, all, patch);
    ChangesNoted(ps, rs, patch, selectAll, currency);
    UndoAdds(ps, rs, patch, selectAll, currency);
    RowsCounted(ps, all);
  }

  lemma UndoNoted(ps: seq<Product>, rs: Rates, patch: Patch, selectAll: bool, currency: string)
    ensures var s := Selected(ps, rs, selectAll, currency);
            UndoOf(ps, rs, patch, selectAll, currency) == Undo(s.added, AllChanges(TableIds(ps), s.added, s.rates, patch))
  {
    hide Selected, AllChanges;
  }

  /** `fillFreightTable`; `all` are the rows it fills, `picks` the products that
      got one. */
  method FillFreightTable(ps: seq<Product>, rs: Rates, patch: Patch, selectAll: bool, currency: string)
    returns (next: Rates, undo: Undo, count: nat, ghost all: Rates, ghost picks: seq<nat>)
    ensures FillOk(ps, rs, patch, selectAll, currency, picks, all, next, undo, count)
    ensures var s := Selected(ps, rs, selectAll, currency);
            && next == AllFilled(TableIds(ps), s.rates, patch)
            && undo == Undo(s.added, AllChanges(TableIds(ps), s.added, s.rates, patch))
            && count == RowsIn(TableIds(ps), s.rates)
  {
    hide FilledFrom, ChangesFrom, Missing, Selected, AllChanges, TableIds, FILL_KEYS, FillOk;
    picks := FillIsOk(ps, rs, patch, selectAll, currency);
    all := Selected(ps, rs, selectAll, currency).rates;
    var s, ids := Selected(ps, rs, selectAll, currency), TableIds(ps);
    var changes: seq<Change> := [];
    next, count := [], 0;
    NoChanges(ids, s.added, patch);
    for i := 0 to |s.rates|
      invariant |next| == i && forall j :: 0 <= j < i ==> next[j] == FilledRow(ids, s.rates[j], patch)
      invariant changes == AllChanges(ids, s.added, s.rates[..i], patch) && count == RowsIn(ids, s.rates[..i])
    {
      var rate := s.rates[i];
      assert s.rates[..i + 1][..i] == s.rates[..i];
      ChangesStep(ids, s.added, s.rates, patch, i);
      if rate.productId !in ids {
        next := next + [rate];
        continue;
      }
      count := count + 1;
      var updated, more := FillRow(rate, patch);
      if rate.productId !in s.added {
        changes := changes + more;
      }
      next := next + [updated];
    }
    assert s.rates[..|s.rates|] == s.rates;
    undo := Undo(s.added, changes);
    assert next == AllFilled(ids, s.rates, patch);
    UndoNoted(ps, rs, patch, selectAll, currency);
  }

  /** What one cell becomes. */
  function FilledCell(r: Rate, now: Rate, patch: Patch, k: Key): Rate {
    if Touches(patch, r, k) then Set(now, k, patch[k]) else now
  }

  lemma FillStep(r: Rate, now: Rate, patch: Patch, i: nat)
    requires i < |FILL_KEYS|
    ensures FilledFrom(r, now, patch, FILL_KEYS[i..]) == FilledFrom(r, FilledCell(r, now, patch, FILL_KEYS[i]), patch, FILL_KEYS[i + 1..])
    ensures ChangesFrom(r, patch, FILL_KEYS[i..]) ==
            (if Touches(patch, r, FILL_KEYS[i]) then [Change(r.productId, FILL_KEYS[i], Get(r, FILL_KEYS[i]))] else [])
            + ChangesFrom(r, patch, FILL_KEYS[i + 1..])
  {
    hide Touches, Set, Get;
    assert FILL_KEYS[i..][0] == FILL_KEYS[i] && FILL_KEYS[i..][1..] == FILL_KEYS[i + 1..];
  }

  /** The inner loop over the three columns. */
  method FillRow(rate: Rate, patch: Patch) returns (updated: Rate, changes: seq<Change>)
    ensures updated == FilledFrom(rate, rate, patch, FILL_KEYS) && changes == ChangesFrom(rate, patch, FILL_KEYS)
  {
    hide FilledFrom, ChangesFrom, Set, Get;
    updated, changes := rate, [];
    NoKeys(rate, patch);
    for i := 0 to |FILL_KEYS|
      invariant FilledFrom(rate, updated, patch, FILL_KEYS[i..]) == FilledFrom(rate, rate, patch, FILL_KEYS)
      invariant changes + ChangesFrom(rate, patch, FILL_KEYS[i..]) == ChangesFrom(rate, patch, FILL_KEYS)
    {
      var key := FILL_KEYS[i];
      FillStep(rate, updated, patch, i);
      if key !in patch || Get(rate, key) == patch[key] {
        continue;
      }
      changes := changes + [Change(rate.productId, key, Get(rate, key))];
      updated := Set(updated, key, patch[key]);
    }
  }

  lemma NoKeys(r: Rate, patch: Patch)
    ensures FILL_KEYS[0..] == FILL_KEYS && ChangesFrom(r, patch, FILL_KEYS[|FILL_KEYS|..]) == []
    ensures forall now :: FilledFrom(r, now, patch, FILL_KEYS[|FILL_KEYS|..]) == now
  {
  }

  // ------------------------------------------------------------------------- undoing

  /** The changes of one product, applied in turn. */
  function Restored(r: Rate, changes: seq<Change>): Rate
    decreases |changes|
  {
    if changes == [] then r
    else Restored(if changes[0].productId == r.productId then Set(r, changes[0].key, changes[0].before) else r, changes[1..])
  }

  /** `undoFreightFill`. */
  function Undone(rs: Rates, undo: Undo): Rates {
    if rs == [] then []
    else (if rs[0].productId in undo.added then [] else [Restored(rs[0], undo.changes)]) + Undone(rs[1..], undo)
  }

  predicate DistinctIds(rs: Rates) {
    forall i, j :: 0 <= i < j < |rs| ==> rs[i].productId != rs[j].productId
  }

  /** What a row is after an undo: the touched cells as they were in `was`, the
      others as they are now. */
  predicate Reverts(was: Rate, patch: Patch, now: Rate, r: Rate) {
    && r.productId == now.productId && r.remark == now.remark && r.usdPrice == now.usdPrice
    && forall k :: Get(r, k) == if Touches(patch, was, k) then Get(was, k) else Get(now, k)
  }

  lemma FilledIs(r: Rate, patch: Patch)
    ensures var f := FilledFrom(r, r, patch, FILL_KEYS);
            && f.productId == r.productId && f.remark == r.remark && f.usdPrice == r.usdPrice
            && forall k :: Get(f, k) == if Touches(patch, r, k) then patch[k] else Get(r, k)
  {
    NoKeys(r, patch);
    FillStep(r, r, patch, 0);
    var one := FilledCell(r, r, patch, Price);
    FillStep(r, one, patch, 1);
    var two := FilledCell(r, one, patch, Currency);
    FillStep(r, two, patch, 2);
    hide FilledFrom, ChangesFrom;
    assert FilledFrom(r, r, patch, FILL_KEYS) == FilledCell(r, two, patch, Unit);
    hide Touches, FILL_KEYS;
  }

  lemma ChangesAre(r: Rate, patch: Patch)
    ensures ChangesFrom(r, patch, FILL_KEYS) ==
            (if Touches(patch, r, Price) then [Change(r.productId, Price, r.price)] else [])
            + ((if Touches(patch, r, Currency) then [Change(r.productId, Currency, r.currency)] else [])
               + (if Touches(patch, r, Unit) then [Change(r.productId, Unit, r.unit)] else []))
  {
    NoKeys(r, patch);
    FillStep(r, r, patch, 0);
    FillStep(r, r, patch, 1);
    FillStep(r, r, patch, 2);
    hide ChangesFrom, FilledFrom, Touches;
  }

  lemma {:induction false} RestoredConcat(r: Rate, a: seq<Change>, b: seq<Change>)
    ensures Restored(r, a + b) == Restored(Restored(r, a), b)
    decreases |a|
  {
    if a == [] {
      assert a + b == b;
    } else {
      assert (a + b)[1..] == a[1..] + b;
      RestoredConcat(if a[0].productId == r.productId then Set(r, a[0].key, a[0].before) else r, a[1..], b);
    }
  }

  lemma RestoredOne(r: Rate, c: Change)
    ensures Restored(r, [c]) == if c.productId == r.productId then Set(r, c.key, c.before) else r
  {
    assert [c][1..] == [];
  }

  lemma {:induction false} RestoredOthers(r: Rate, changes: seq<Change>)
    requires forall i :: 0 <= i < |changes| ==> changes[i].productId != r.productId
    ensures Restored(r, changes) == r
  {
    if changes != [] {
      RestoredOthers(r, changes[1..]);
    }
  }

  function Maybe(p: bool, c: Change): seq<Change> {
    if p then [c] else []
  }

  lemma RestoredMaybe(r: Rate, p: bool, c: Change)
    ensures Restored(r, Maybe(p, c)) == if p && c.productId == r.productId then Set(r, c.key, c.before) else r
  {
    if p {
      RestoredOne(r, c);
    }
  }

  /** A row's own changes give its touched cells back. */
  lemma OwnChangesRevert(was: Rate, patch: Patch, now: Rate)
    requires now.productId == was.productId
    ensures Reverts(was, patch, now, Restored(now, ChangesFrom(was, patch, FILL_KEYS)))
  {
    ChangesAre(was, patch);
    var id := was.productId;
    var tp, tc, tu := Touches(patch, was, Price), Touches(patch, was, Currency), Touches(patch, was, Unit);
    var a, b, c := Maybe(tp, Change(id, Price, was.price)), Maybe(tc, Change(id, Currency, was.currency)), Maybe(tu, Change(id, Unit, was.unit));
    assert ChangesFrom(was, patch, FILL_KEYS) == a + (b + c);
    hide ChangesFrom, Restored, Maybe, Touches;
    RestoredConcat(now, a, b + c);
    RestoredMaybe(now, tp, Change(id, Price, was.price));
    var one := Restored(now, a);
    RestoredConcat(one, b, c);
    RestoredMaybe(one, tc, Change(id, Currency, was.currency));
    var two := Restored(one, b);
    RestoredMaybe(two, tu, Change(id, Unit, was.unit));
  }

  lemma {:induction false} ChangesBelong(r: Rate, patch: Patch, keys: seq<Key>)
    ensures forall i :: 0 <= i < |ChangesFrom(r, patch, keys)| ==> ChangesFrom(r, patch, keys)[i].productId == r.productId
  {
    if keys != [] {
      ChangesBelong(r, patch, keys[1..]);
    }
  }

  lemma {:induction false} RestoredStranger(table: set<string>, added: seq<string>, rs: Rates, patch: Patch, now: Rate)
    requires forall i :: 0 <= i < |rs| ==> rs[i].productId != now.productId
    ensures Restored(now, AllChanges(table, added, rs, patch)) == now
    decreases |rs|
  {
    if rs != [] {
      var before, last := rs[..|rs| - 1], rs[|rs| - 1];
      RestoredStranger(table, added, before, patch, now);
      ChangesBelong(last, patch, FILL_KEYS);
      hide ChangesFrom;
      RestoredConcat(now, AllChanges(table, added, before, patch), RowChanges(table, added, last, patch));
      RestoredOthers(now, RowChanges(table, added, last, patch));
    }
  }

  /** Among all recorded changes, only those of its own row reach a row. */
  lemma {:induction false} OnlyOwnChanges(table: set<string>, added: seq<string>, rs: Rates, patch: Patch, k: nat, now: Rate)
    requires DistinctIds(rs) && k < |rs| && now.productId == rs[k].productId
    ensures Restored(now, AllChanges(table, added, rs, patch)) == Restored(now, RowChanges(table, added, rs[k], patch))
    decreases |rs|
  {
    var before, last := rs[..|rs| - 1], rs[|rs| - 1];
    hide ChangesFrom, Restored, RowChanges;
    RestoredConcat(now, AllChanges(table, added, before, patch), RowChanges(table, added, last, patch));
    if k < |rs| - 1 {
      OnlyOwnChanges(table, added, before, patch, k, now);
      var midway := Restored(now, AllChanges(table, added, before, patch));
      RestoredKeepsId(now, AllChanges(table, added, before, patch));
      ForeignChanges(table, added, last, patch, midway);
    } else {
      RestoredStranger(table, added, before, patch, now);
    }
  }

  lemma {:induction false} RestoredKeepsId(r: Rate, changes: seq<Change>)
    ensures Restored(r, changes).productId == r.productId
    decreases |changes|
  {
    if changes != [] {
      RestoredKeepsId(if changes[0].productId == r.productId then Set(r, changes[0].key, changes[0].before) else r, changes[1..]);
    }
  }

  lemma ForeignChanges(table: set<string>, added: seq<string>, r: Rate, patch: Patch, now: Rate)
    requires r.productId != now.productId
    ensures Restored(now, RowChanges(table, added, r, patch)) == now
  {
    ChangesBelong(r, patch, FILL_KEYS);
    hide ChangesFrom;
    RestoredOthers(now, RowChanges(table, added, r, patch));
  }

  ghost function NotAdded(undo: Undo): Rate -> bool {
    (r: Rate) => r.productId !in undo.added
  }

  function EachRestored(rs: Rates, undo: Undo): (out: Rates)
    ensures |out| == |rs| && forall i :: 0 <= i < |rs| ==> out[i] == Restored(rs[i], undo.changes)
  {
    seq(|rs|, i requires 0 <= i < |rs| => Restored(rs[i], undo.changes))
  }

  lemma EachNext(r: Rate, rs: Rates, undo: Undo)
    ensures EachRestored([r] + rs, undo) == [Restored(r, undo.changes)] + EachRestored(rs, undo)
  {
    hide Restored;
  }

  /** An undo takes out the rows it added and nothing else, and keeps the order. */
  lemma {:induction false} UndoneRows(rs: Rates, undo: Undo) returns (picks: seq<nat>)
    ensures Picks(rs, NotAdded(undo), picks) && Undone(rs, undo) == EachRestored(At(rs, picks), undo)
  {
    picks := [];
    if rs != [] {
      var rest := UndoneRows(rs[1..], undo);
      var keep := NotAdded(undo);
      PicksInFront(rs, keep, rest);
      AtMoved(rs, rest);
      EachNext(rs[0], At(rs[1..], rest), undo);
      assert keep(rs[0]) <==> rs[0].productId !in undo.added;
      hide Picks, NotAdded, At, Moved, EachRestored, Restored;
      if keep(rs[0]) {
        picks := [0] + Moved(rest);
      } else {
        picks := Moved(rest);
        assert [] + Moved(rest) == picks;
      }
    }
  }

  // -------------------------------------------------------------------- the theorems

  predicate RevertsRow(table: set<string>, was: Rate, patch: Patch, now: Rate, r: Rate) {
    if was.productId in table then Reverts(was, patch, now, r) else r == now
  }

  /** An undo of a fill over rows with distinct ids: whatever the row of a product
      looks like by then, it gets its touched cells back and keeps the others. */
  lemma RowUndone(table: set<string>, added: seq<string>, rs: Rates, patch: Patch, k: nat, now: Rate)
    requires DistinctIds(rs) && k < |rs| && now.productId == rs[k].productId && rs[k].productId !in added
    ensures RevertsRow(table, rs[k], patch, now, Restored(now, AllChanges(table, added, rs, patch)))
  {
    OnlyOwnChanges(table, added, rs, patch, k, now);
    hide ChangesFrom, AllChanges, Reverts;
    OwnChangesRevert(rs[k], patch, now);
    NothingRestored(now);
  }

  lemma NothingRestored(r: Rate)
    ensures Restored(r, []) == r
  {
  }

  lemma RevertedFill(was: Rate, patch: Patch, r: Rate)
    requires Reverts(was, patch, FilledFrom(was, was, patch, FILL_KEYS), r)
    ensures r == was
  {
    FilledIs(was, patch);
    hide FilledFrom, Touches;
    assert Get(r, Price) == Get(was, Price) && Get(r, Currency) == Get(was, Currency) && Get(r, Unit) == Get(was, Unit);
  }

  lemma MissingAreNew(ps: seq<Product>, rs: Rates, i: nat)
    requires i < |Missing(ps, Ids(rs))|
    ensures Missing(ps, Ids(rs))[i].id !in Ids(rs)
  {
    assert Missing(ps, Ids(rs))[i] in Missing(ps, Ids(rs));
  }

  lemma {:induction false} UndoneConcat(a: Rates, b: Rates, undo: Undo)
    ensures Undone(a + b, undo) == Undone(a, undo) + Undone(b, undo)
  {
    hide Restored;
    if a == [] {
      assert a + b == b;
    } else {
      assert (a + b)[1..] == a[1..] + b;
      UndoneConcat(a[1..], b, undo);
    }
  }

  lemma {:induction false} UndoneAdded(rs: Rates, undo: Undo)
    requires forall i :: 0 <= i < |rs| ==> rs[i].productId in undo.added
    ensures Undone(rs, undo) == []
  {
    if rs != [] {
      UndoneAdded(rs[1..], undo);
    }
  }

  lemma {:induction false} UndoneEach(rs: Rates, was: Rates, undo: Undo)
    requires |rs| == |was|
    requires forall i :: 0 <= i < |rs| ==> rs[i].productId !in undo.added && Restored(rs[i], undo.changes) == was[i]
    ensures Undone(rs, undo) == was
  {
    hide Restored;
    if rs != [] {
      UndoneEach(rs[1..], was[1..], undo);
    }
  }

  /** The changes recorded for rows that were added are none. */
  lemma {:induction false} AddedRowsRecordNothing(table: set<string>, added: seq<string>, rs: Rates, extra: Rates, patch: Patch)
    requires forall i :: 0 <= i < |extra| ==> extra[i].productId in added
    ensures AllChanges(table, added, rs + extra, patch) == AllChanges(table, added, rs, patch)
    decreases |extra|
  {
    hide ChangesFrom;
    if extra == [] {
      assert rs + extra == rs;
    } else {
      var all, before := rs + extra, extra[..|extra| - 1];
      assert all[..|all| - 1] == rs + before;
      AddedRowsRecordNothing(table, added, rs, before, patch);
      assert all[|all| - 1] == extra[|extra| - 1];
    }
  }

  lemma FilledKeepsId(table: set<string>, r: Rate, patch: Patch)
    ensures FilledRow(table, r, patch).productId == r.productId
  {
    FilledIs(r, patch);
    hide FilledFrom;
  }

  /** The undo a fill records. */
  function UndoOf(ps: seq<Product>, rs: Rates, patch: Patch, selectAll: bool, currency: string): Undo {
    var s := Selected(ps, rs, selectAll, currency);
    Undo(s.added, AllChanges(TableIds(ps), s.added, s.rates, patch))
  }

  lemma UndoIs(ps: seq<Product>, rs: Rates, patch: Patch, selectAll: bool, currency: string)
    ensures var s := Selected(ps, rs, selectAll, currency);
            && UndoOf(ps, rs, patch, selectAll, currency).changes == AllChanges(TableIds(ps), s.added, rs, patch)
            && |rs| <= |s.rates| && s.rates[..|rs|] == rs
            && (forall i :: |rs| <= i < |s.rates| ==> s.rates[i].productId in s.added)
            && (forall i :: 0 <= i < |rs| ==> rs[i].productId !in s.added)
  {
    hide AllChanges;
    var s := Selected(ps, rs, selectAll, currency);
    var extra := s.rates[|rs|..];
    assert s.rates == rs + extra;
    forall i | 0 <= i < |extra| ensures extra[i].productId in s.added {
      assert extra[i].productId == s.added[i];
    }
    AddedRowsRecordNothing(TableIds(ps), s.added, rs, extra, patch);
    forall i | 0 <= i < |rs| ensures rs[i].productId !in s.added {
      assert rs[i].productId in Ids(rs);
      forall j | 0 <= j < |s.added| ensures s.added[j] != rs[i].productId {
        MissingAreNew(ps, rs, j);
      }
    }
  }

  /** Edits survive: after a fill, whatever the page then holds, the undo gives a
      row of the original table its touched cells back and leaves every other
      cell of it as it is by then; rows the fill did not meet stay as they are. */
  lemma EditsSurvive(ps: seq<Product>, rs: Rates, patch: Patch, selectAll: bool, currency: string, now: Rate)
    requires DistinctIds(rs)
    ensures var undo := UndoOf(ps, rs, patch, selectAll, currency);
            && (forall k :: 0 <= k < |rs| && rs[k].productId == now.productId ==>
                  now.productId !in undo.added && RevertsRow(TableIds(ps), rs[k], patch, now, Restored(now, undo.changes)))
            && (now.productId !in Ids(rs) ==> Restored(now, undo.changes) == now)
  {
    hide RevertsRow, AllChanges, Restored, Selected;
    var undo := UndoOf(ps, rs, patch, selectAll, currency);
    UndoIs(ps, rs, patch, selectAll, currency);
    forall k | 0 <= k < |rs| && rs[k].productId == now.productId
      ensures now.productId !in undo.added && RevertsRow(TableIds(ps), rs[k], patch, now, Restored(now, undo.changes))
    {
      RowUndone(TableIds(ps), undo.added, rs, patch, k, now);
    }
    if now.productId !in Ids(rs) {
      forall i | 0 <= i < |rs| ensures rs[i].productId != now.productId {
        assert rs[i].productId in Ids(rs);
      }
      RestoredStranger(TableIds(ps), undo.added, rs, patch, now);
    }
  }

  /** Undo after fill gives back the original rows in their order, with or
      without selecting all. */
  lemma UndoAfterFill(ps: seq<Product>, rs: Rates, patch: Patch, selectAll: bool, currency: string)
    requires DistinctIds(rs)
    ensures Undone(AllFilled(TableIds(ps), Selected(ps, rs, selectAll, currency).rates, patch),
                   UndoOf(ps, rs, patch, selectAll, currency)) == rs
  {
    hide RevertsRow, AllChanges, Restored, FilledRow, Selected, UndoOf, TableIds;
    var s, undo, table := Selected(ps, rs, selectAll, currency), UndoOf(ps, rs, patch, selectAll, currency), TableIds(ps);
    UndoIs(ps, rs, patch, selectAll, currency);
    UndoAdds(ps, rs, patch, selectAll, currency);
    var filled := AllFilled(table, s.rates, patch);
    var ours, extra := filled[..|rs|], filled[|rs|..];
    assert filled == ours + extra;
    forall i | 0 <= i < |extra| ensures extra[i].productId in undo.added {
      FilledKeepsId(table, s.rates[|rs| + i], patch);
    }
    forall i | 0 <= i < |ours| ensures ours[i].productId !in undo.added && Restored(ours[i], undo.changes) == rs[i] {
      FilledKeepsId(table, rs[i], patch);
      assert s.rates[i] == s.rates[..|rs|][i];
      RowUndone(table, undo.added, rs, patch, i, ours[i]);
      RowComesBack(table, rs[i], patch, Restored(ours[i], undo.changes));
    }
    UndoneConcat(ours, extra, undo);
    UndoneEach(ours, rs, undo);
    UndoneAdded(extra, undo);
  }

  lemma UndoAdds(ps: seq<Product>, rs: Rates, patch: Patch, selectAll: bool, currency: string)
    ensures UndoOf(ps, rs, patch, selectAll, currency).added == Selected(ps, rs, selectAll, currency).added
  {
    hide Selected, AllChanges;
  }

  lemma RowComesBack(table: set<string>, was: Rate, patch: Patch, r: Rate)
    requires RevertsRow(table, was, patch, FilledRow(table, was, patch), r)
    ensures r == was
  {
    hide FilledFrom, Reverts;
    if was.productId in table {
      RevertedFill(was, patch, r);
    }
  }
}
