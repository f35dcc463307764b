/** The folder rail of frontend/src/lib/mailFolders.ts: which rows are drawn when
    some folders are collapsed, and what is reopened for the active one. */
module Rail {
  import opened Text

  datatype Item = Item(key: string, name: string, hostName: string, depth: nat, hasChildren: bool, parentKey: string)

  type Items = seq<Item>

  // ------------------------------------------------------------------- ancestors

  /** Row `j` is a proper ancestor of row `i`: every row from behind `j` to `i`
      is deeper than `j`. */
  predicate Ancestor(items: Items, j: nat, i: nat) {
    j < i < |items| && forall k :: j < k <= i ==> items[k].depth > items[j].depth
  }

  predicate Shut(item: Item, shut: set<string>) {
    item.hasChildren && item.key in shut
  }

  predicate Hidden(items: Items, shut: set<string>, i: nat) {
    exists j :: 0 <= j < i && Ancestor(items, j, i) && Shut(items[j], shut)
  }

  /** The definition: the rows none of whose ancestors is collapsed. */
  function Visible(items: Items, shut: set<string>, n: nat): Items
    requires n <= |items|
  {
    if n == 0 then []
    else Visible(items, shut, n - 1) + if Hidden(items, shut, n - 1) then [] else [items[n - 1]]
  }

  /** The scan's one variable: the outermost collapsed row still open, if any. */
  predicate Below(items: Items, shut: set<string>, n: nat, cover: Option<nat>)
    requires n <= |items|
  {
    match cover
    case None => forall j :: 0 <= j < n && Shut(items[j], shut) ==> !Reaches(items, j, n)
    case Some(d) =>
      && (exists j :: 0 <= j < n && Shut(items[j], shut) && items[j].depth == d && Reaches(items, j, n))
      && (forall j :: 0 <= j < n && Shut(items[j], shut) && Reaches(items, j, n) ==> items[j].depth >= d)
  }

  /** No row from behind `j` up to `n` is as shallow as `j`. */
  predicate Reaches(items: Items, j: nat, n: nat)
    requires n <= |items|
  {
    j < n && forall k :: j < k < n ==> items[k].depth > items[j].depth
  }

  lemma HiddenExactly(items: Items, shut: set<string>, n: nat, cover: Option<nat>)
    requires n < |items| && Below(items, shut, n, cover)
    ensures Hidden(items, shut, n) <==> cover.Some? && items[n].depth > cover.value
  {
    hide Shut;
    if cover.Some? && items[n].depth > cover.value {
      var j :| 0 <= j < n && Shut(items[j], shut) && items[j].depth == cover.value && Reaches(items, j, n);
      assert Ancestor(items, j, n);
    }
    if Hidden(items, shut, n) {
      var j :| 0 <= j < n && Ancestor(items, j, n) && Shut(items[j], shut);
      assert Reaches(items, j, n);
    }
  }

  lemma BelowAfterHidden(items: Items, shut: set<string>, n: nat, d: nat)
    requires n < |items| && Below(items, shut, n, Some(d)) && items[n].depth > d
    ensures Below(items, shut, n + 1, Some(d))
  {
    hide Shut;
    var j :| 0 <= j < n && Shut(items[j], shut) && items[j].depth == d && Reaches(items, j, n);
    assert Reaches(items, j, n + 1);
    forall k | 0 <= k < n + 1 && Shut(items[k], shut) && Reaches(items, k, n + 1) ensures items[k].depth >= d {
      if k < n {
        assert Reaches(items, k, n);
      }
    }
  }

  lemma BelowAfterShown(items: Items, shut: set<string>, n: nat, cover: Option<nat>)
    requires n < |items| && Below(items, shut, n, cover) && !Hidden(items, shut, n)
    ensures Below(items, shut, n + 1, if Shut(items[n], shut) then Some(items[n].depth) else None)
  {
    hide Shut;
    forall k | 0 <= k < n && Shut(items[k], shut) ensures !Reaches(items, k, n + 1) {
      assert !Ancestor(items, k, n);
    }
    if Shut(items[n], shut) {
      assert Reaches(items, n, n + 1);
    }
  }

  lemma {:induction false} NothingShut(items: Items, n: nat)
    requires n <= |items|
    ensures Visible(items, {}, n) == items[..n]
  {
    if n > 0 {
      NothingShut(items, n - 1);
      assert !Hidden(items, {}, n - 1);
      assert items[..n] == items[..n - 1] + [items[n - 1]];
    }
  }

  /** Something collapsed stands above row `i`, with only deeper rows between. */
  predicate Covered(items: Items, collapsed: seq<string>, i: nat)
    requires i < |items|
  {
    exists j :: 0 <= j < i && Covers(items, collapsed, j, i)
  }

  predicate Covers(items: Items, collapsed: seq<string>, j: nat, i: nat)
    requires j < i < |items|
  {
    items[j].hasChildren && items[j].key in collapsed && forall k :: j < k <= i ==> items[k].depth > items[j].depth
  }

  /** The rows at `picks`, in order, and no other row goes uncovered. */
  ghost predicate Uncovered(items: Items, collapsed: seq<string>, n: nat, picks: seq<nat>, out: Items)
    requires n <= |items|
  {
    && |out| == |picks| && (forall i :: 0 <= i < |picks| ==> picks[i] < n && out[i] == items[picks[i]])
    && (forall i, j :: 0 <= i < j < |picks| ==> picks[i] < picks[j])
    && (forall i: nat :: i < n ==> (i in picks <==> !Covered(items, collapsed, i)))
  }

  lemma CoveredIs(items: Items, collapsed: seq<string>, i: nat)
    requires i < |items|
    ensures Covered(items, collapsed, i) <==> Hidden(items, (set k | k in collapsed), i)
  {
    var shut := set k | k in collapsed;
    forall j | 0 <= j < i ensures Covers(items, collapsed, j, i) <==> Ancestor(items, j, i) && Shut(items[j], shut) {
    }
    hide Covers, Ancestor, Shut;
  }

  lemma {:induction false} VisibleIs(items: Items, collapsed: seq<string>, n: nat) returns (picks: seq<nat>)
    requires n <= |items|
    ensures Uncovered(items, collapsed, n, picks, Visible(items, (set k | k in collapsed), n))
  {
    hide Covered, Hidden;
    picks := [];
    if n > 0 {
      picks := VisibleIs(items, collapsed, n - 1);
      CoveredIs(items, collapsed, n - 1);
      if !Covered(items, collapsed, n - 1) {
        picks := picks + [n - 1];
      }
    }
  }

  /** `visibleRail`: the linear scan keeps a row if and only if no proper
      ancestor of it is collapsed, on any list of rows. */
  method VisibleRail(items: Items, collapsed: seq<string>) returns (out: Items, ghost picks: seq<nat>)
    ensures out == Visible(items, set k | k in collapsed, |items|)
    ensures Uncovered(items, collapsed, |items|, picks, out)
  {
    hide Uncovered;
    var shut := set k | k in collapsed;
    picks := VisibleIs(items, collapsed, |items|);
    if shut == {} {
      NothingShut(items, |items|);
      assert items[..|items|] == items;
      return items, picks;
    }
    out := [];
    var hideDeeperThan: Option<nat> := None;
    hide Hidden, Below, Shut;
    StartsBelow(items, shut);
    for i := 0 to |items|
      invariant out == Visible(items, shut, i) && Below(items, shut, i, hideDeeperThan)
    {
      var item := items[i];
      HiddenExactly(items, shut, i, hideDeeperThan);
      if hideDeeperThan.Some? && item.depth > hideDeeperThan.value {
        BelowAfterHidden(items, shut, i, hideDeeperThan.value);
        continue;
      }
      BelowAfterShown(items, shut, i, hideDeeperThan);
      hideDeeperThan := if Shut(item, shut) then Some(item.depth) else None;
      out := out + [item];
    }
  }

  lemma StartsBelow(items: Items, shut: set<string>)
    ensures Below(items, shut, 0, None)
  {
  }

  // -------------------------------------------------------------------- the path up

  /** The rows by key; the last one wins. */
  function ByKey(items: Items): (at: map<string, nat>)
    ensures forall k :: k in at ==> at[k] < |items| && items[at[k]].key == k
    ensures forall i :: 0 <= i < |items| ==> items[i].key in at
  {
    if items == [] then map[] else ByKey(items[..|items| - 1])[items[|items| - 1].key := |items| - 1]
  }

  const STEPS: nat := 32

  /** The keys above a row, nearest first, at most `steps` of them. */
  function PathUp(items: Items, key: string, steps: nat): seq<string>
    decreases steps
  {
    if steps == 0 || key !in ByKey(items) then []
    else
      var up := items[ByKey(items)[key]].parentKey;
      if up == "" then [] else [up] + PathUp(items, up, steps - 1)
  }

  lemma PathGoesOn(items: Items, key: string, steps: nat)
    requires steps > 0 && key in ByKey(items) && items[ByKey(items)[key]].parentKey != ""
    ensures var up := items[ByKey(items)[key]].parentKey; PathUp(items, key, steps) == [up] + PathUp(items, up, steps - 1)
  {
    hide ByKey;
  }

  method AncestorsOf(items: Items, active: string) returns (out: seq<string>)
    ensures out == if active == "" then [] else PathUp(items, active, STEPS)
  {
    out := [];
    if active == "" {
      return;
    }
    hide ByKey;
    var byKey, cur := ByKey(items), active;
    for i := 0 to STEPS
      invariant out + PathUp(items, cur, STEPS - i) == PathUp(items, active, STEPS)
    {
      if cur !in byKey || items[byKey[cur]].parentKey == "" {
        break;
      }
      var up := items[byKey[cur]].parentKey;
      ghost var rest := PathUp(items, up, STEPS - i - 1);
      PathGoesOn(items, cur, STEPS - i);
      hide PathUp;
      assert out + ([up] + rest) == out + [up] + rest;
      out := out + [up];
      cur := up;
    }
  }

  function Without(keys: seq<string>, up: seq<string>): (r: seq<string>)
    ensures forall k :: k in r <==> k in keys && k !in up
  {
    if keys == [] then [] else (if keys[0] in up then [] else [keys[0]]) + Without(keys[1..], up)
  }

  /** `revealPathTo`. */
  function Revealed(collapsed: seq<string>, items: Items, active: string): seq<string> {
    if active == "" || collapsed == [] then collapsed else Without(collapsed, PathUp(items, active, STEPS))
  }

  /** Row `j` is the parent row `i` names, one level up. */
  predicate Parent(items: Items, j: nat, i: nat) {
    Ancestor(items, j, i) && items[j].depth + 1 == items[i].depth && items[i].parentKey == items[j].key
  }

  /** Each row is at the top, or names the row it hangs under. */
  predicate Nested(items: Items) {
    forall i :: 0 <= i < |items| ==>
      if items[i].depth == 0 then items[i].parentKey == "" else exists j :: 0 <= j < i && Parent(items, j, i)
  }

  predicate DistinctKeys(items: Items) {
    && (forall i :: 0 <= i < |items| ==> items[i].key != "")
    && (forall i, j :: 0 <= i < j < |items| ==> items[i].key != items[j].key)
  }

  lemma KeyIs(items: Items, i: nat)
    requires DistinctKeys(items) && i < |items|
    ensures ByKey(items)[items[i].key] == i
  {
    assert items[ByKey(items)[items[i].key]].key == items[i].key;
  }

  /** An ancestor is the parent or above the parent. */
  lemma AncestorViaParent(items: Items, j: nat, p: nat, i: nat)
    requires Ancestor(items, j, i) && Parent(items, p, i)
    ensures j == p || Ancestor(items, j, p)
  {
  }

  lemma ParentIsAbove(items: Items, j: nat, p: nat, i: nat)
    requires Ancestor(items, j, p) && Parent(items, p, i)
    ensures Ancestor(items, j, i)
  {
  }

  lemma PathStep(items: Items, i: nat, p: nat, steps: nat)
    requires DistinctKeys(items) && Parent(items, p, i) && i < |items| && steps > 0
    ensures PathUp(items, items[i].key, steps) == [items[p].key] + PathUp(items, items[p].key, steps - 1)
  {
    KeyIs(items, i);
    hide ByKey;
    assert items[p].key != "";
  }

  lemma PathStops(items: Items, i: nat, steps: nat)
    requires DistinctKeys(items) && Nested(items) && i < |items| && (steps == 0 || items[i].depth == 0)
    ensures PathUp(items, items[i].key, steps) == []
  {
    KeyIs(items, i);
    hide ByKey;
  }

  lemma SameKey(items: Items, i: nat, j: nat)
    requires DistinctKeys(items) && i < |items| && j < |items|
    ensures items[i].key == items[j].key <==> i == j
  {
  }

  lemma AncestorIsShallower(items: Items, j: nat, i: nat)
    requires Ancestor(items, j, i)
    ensures items[j].depth < items[i].depth
  {
  }

  predicate Within(items: Items, j: nat, i: nat, steps: nat)
    requires i < |items| && j < |items|
  {
    Ancestor(items, j, i) && items[i].depth <= items[j].depth + steps
  }

  lemma ParentOf(items: Items, i: nat) returns (p: nat)
    requires Nested(items) && i < |items| && items[i].depth > 0
    ensures p < i && Parent(items, p, i)
  {
    hide Parent;
    p :| 0 <= p < i && Parent(items, p, i);
  }

  lemma WithinViaParent(items: Items, j: nat, p: nat, i: nat, steps: nat)
    requires i < |items| && j < |items| && p < i && Parent(items, p, i) && steps > 0
    ensures Within(items, j, i, steps) <==> j == p || Within(items, j, p, steps - 1)
  {
    if Ancestor(items, j, i) {
      AncestorViaParent(items, j, p, i);
    }
    if Ancestor(items, j, p) {
      ParentIsAbove(items, j, p, i);
    }
    hide Ancestor;
  }

  lemma NoneWithin(items: Items, j: nat, i: nat, steps: nat)
    requires i < |items| && j < |items| && (steps == 0 || items[i].depth == 0)
    ensures !Within(items, j, i, steps)
  {
    if Ancestor(items, j, i) {
      AncestorIsShallower(items, j, i);
    }
    hide Ancestor;
  }

  /** The path up holds exactly the keys of the ancestors within reach. */
  lemma {:induction false} PathIsAncestors(items: Items, i: nat, steps: nat, j: nat)
    requires Nested(items) && DistinctKeys(items) && i < |items| && j < |items|
    ensures items[j].key in PathUp(items, items[i].key, steps) <==> Within(items, j, i, steps)
    decreases steps
  {
    hide PathUp, DistinctKeys, Within, Nested, Parent;
    if steps == 0 || items[i].depth == 0 {
      PathStops(items, i, steps);
      NoneWithin(items, j, i, steps);
    } else {
      var p := ParentOf(items, i);
      PathIsAncestors(items, p, steps - 1, j);
      WithinViaParent(items, j, p, i, steps);
      PathStep(items, i, p, steps);
      SameKey(items, j, p);
    }
  }

  /** After the path to the active row is reopened, that row is visible if and
      only if nothing more than 32 levels above it is collapsed; always, when
      its depth is at most 32. */
  lemma RevealShowsActive(items: Items, collapsed: seq<string>, i: nat)
    requires Nested(items) && DistinctKeys(items) && i < |items|
    ensures var left := set k | k in Revealed(collapsed, items, items[i].key);
            && (!Hidden(items, left, i) <==>
                forall j :: 0 <= j < i && Ancestor(items, j, i) && items[j].depth + 32 < items[i].depth ==>
                  !Shut(items[j], set k | k in collapsed))
            && (items[i].depth <= 32 ==> !Hidden(items, left, i))
  {
    var shut := set k | k in collapsed;
    var left := set k | k in Revealed(collapsed, items, items[i].key);
    hide Ancestor, PathUp, Nested, DistinctKeys;
    assert items[i].key != "" by { KeysAreNames(items, i); }
    forall j | 0 <= j < i && Ancestor(items, j, i)
      ensures Shut(items[j], left) <==> Shut(items[j], shut) && items[j].depth + STEPS < items[i].depth
    {
      PathIsAncestors(items, i, STEPS, j);
    }
    if j :| 0 <= j < i && Ancestor(items, j, i) && items[j].depth + STEPS < items[i].depth && Shut(items[j], shut) {
      assert Shut(items[j], left);
    }
  }

  ghost predicate AncestorKey(items: Items, i: nat, k: string) {
    exists j :: 0 <= j < i < |items| && Ancestor(items, j, i) && items[i].depth <= items[j].depth + 32 && items[j].key == k
  }

  lemma PathNext(items: Items, key: string, steps: nat)
    requires PathUp(items, key, steps) != []
    ensures steps > 0 && key in ByKey(items)
    ensures var up := items[ByKey(items)[key]].parentKey; up != "" && PathUp(items, key, steps) == [up] + PathUp(items, up, steps - 1)
  {
    hide ByKey;
  }

  lemma TopNamesNone(items: Items, i: nat)
    requires Nested(items) && i < |items| && items[i].depth == 0
    ensures items[i].parentKey == ""
  {
    hide Parent;
  }

  lemma ParentNames(items: Items, p: nat, i: nat)
    requires Parent(items, p, i)
    ensures items[p].key == items[i].parentKey
  {
  }

  lemma {:induction false} PathKeysExist(items: Items, key: string, steps: nat, k: string) returns (j: nat)
    requires Nested(items) && DistinctKeys(items) && k in PathUp(items, key, steps)
    ensures j < |items| && items[j].key == k
    decreases steps
  {
    hide PathUp, ByKey, Nested, DistinctKeys, Parent;
    PathNext(items, key, steps);
    var i := ByKey(items)[key];
    var up := items[i].parentKey;
    if items[i].depth == 0 {
      TopNamesNone(items, i);
    }
    var p := ParentOf(items, i);
    ParentNames(items, p, i);
    if k == up {
      j := p;
    } else {
      j := PathKeysExist(items, up, steps - 1, k);
    }
  }

  /** Revealing a row reopens its ancestors up to 32 levels above it and leaves
      everything else as the user had it. */
  lemma RevealOpensOnlyThePath(items: Items, collapsed: seq<string>, i: nat, k: string)
    requires Nested(items) && DistinctKeys(items) && i < |items|
    ensures k in Revealed(collapsed, items, items[i].key) <==> k in collapsed && !AncestorKey(items, i, k)
  {
    KeysAreNames(items, i);
    hide Ancestor, Nested, DistinctKeys, ByKey, PathUp, AncestorKey;
    PathHolds(items, i, k);
  }

  lemma PathHolds(items: Items, i: nat, k: string)
    requires Nested(items) && DistinctKeys(items) && i < |items|
    ensures k in PathUp(items, items[i].key, STEPS) <==> AncestorKey(items, i, k)
  {
    hide Ancestor, Nested, DistinctKeys, ByKey, PathUp;
    if k in PathUp(items, items[i].key, STEPS) {
      var j := PathKeysExist(items, items[i].key, STEPS, k);
      PathIsAncestors(items, i, STEPS, j);
      AncestorIsBefore(items, j, i);
      assert AncestorKey(items, i, k);
    }
    if AncestorKey(items, i, k) {
      var j :| 0 <= j < i && Ancestor(items, j, i) && items[i].depth <= items[j].depth + 32 && items[j].key == k;
      PathIsAncestors(items, i, STEPS, j);
    }
  }

  lemma AncestorIsBefore(items: Items, j: nat, i: nat)
    requires Ancestor(items, j, i)
    ensures j < i
  {
  }

  lemma KeysAreNames(items: Items, i: nat)
    requires DistinctKeys(items) && i < |items|
    ensures items[i].key != ""
  {
  }
}
