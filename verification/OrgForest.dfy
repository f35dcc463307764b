/** The forest as it is drawn: nobody lost, nobody drawn twice. */
module OrgForest {
  import opened Text
  import opened OrgChart
  import opened Counting
  import opened Sorting

  datatype Tree = Node(member: nat, orphaned: bool, children: seq<Tree>)

  type Links = seq<seq<nat>>

  // ----------------------------------------------------------- growing the forest

  /** Every link leads to a higher level, and levels end at `top`. */
  ghost predicate Leveled(links: Links, level: seq<nat>, top: nat) {
    && |level| == |links|
    && (forall p :: 0 <= p < |links| ==> level[p] <= top)
    && (forall p, i :: 0 <= p < |links| && 0 <= i < |links[p]| ==>
          links[p][i] < |links| && level[links[p][i]] > level[p])
  }

  /** What the linked nodes from `k` down look like. */
  function Grow(links: Links, orphaned: seq<bool>, ghost level: seq<nat>, ghost top: nat, k: nat): Tree
    requires Leveled(links, level, top) && |orphaned| == |links| && k < |links|
    decreases top - level[k], 0
  {
    Node(k, orphaned[k], GrowAll(links, orphaned, level, top, links[k], level[k] + 1))
  }

  function GrowAll(links: Links, orphaned: seq<bool>, ghost level: seq<nat>, ghost top: nat, ks: seq<nat>, ghost floor: nat): (ts: seq<Tree>)
    requires Leveled(links, level, top) && |orphaned| == |links|
    requires forall i :: 0 <= i < |ks| ==> ks[i] < |links| && level[ks[i]] >= floor
    decreases top - floor, |ks|
  {
    if ks == [] then []
    else [Grow(links, orphaned, level, top, ks[0])] + GrowAll(links, orphaned, level, top, ks[1..], floor)
  }

  // -------------------------------------------------------------------- sorting

  function KeyOf(ms: Members, rank: Collation, t: Tree): int {
    if t.member < |ms| then rank(ms[t.member].name) else 0
  }

  function NameKey(ms: Members, rank: Collation): Tree -> int {
    t => KeyOf(ms, rank, t)
  }

  /** `sort`: by name, equal names in their old order. */
  function SortNodes(ms: Members, rank: Collation, ts: seq<Tree>): seq<Tree> {
    Sort(NameKey(ms, rank), ts)
  }

  function SortEach(ms: Members, rank: Collation, ts: seq<Tree>): seq<Tree>
    decreases ts, 0
  {
    if ts == [] then []
    else [Node(ts[0].member, ts[0].orphaned, SortForest(ms, rank, ts[0].children))] + SortEach(ms, rank, ts[1..])
  }

  function SortForest(ms: Members, rank: Collation, ts: seq<Tree>): seq<Tree>
    decreases ts, 1
  {
    SortNodes(ms, rank, SortEach(ms, rank, ts))
  }

  // ------------------------------------------------------------------ what is drawn

  /** The members drawn, top to bottom. */
  function Drawn(ts: seq<Tree>): seq<nat> {
    if ts == [] then [] else [ts[0].member] + Drawn(ts[0].children) + Drawn(ts[1..])
  }

  /** `countMembers`. */
  method CountMembers(nodes: seq<Tree>) returns (n: nat)
    ensures n == |Drawn(nodes)|
  {
    n := 0;
    for i := 0 to |nodes|
      invariant n + |Drawn(nodes[i..])| == |Drawn(nodes)|
    {
      assert nodes[i..][0] == nodes[i] && nodes[i..][1..] == nodes[i + 1..];
      n := n + 1;
      var below := CountMembers(nodes[i].children);
      n := n + below;
    }
  }

  /** Every node hangs where its member's links put it, and is marked when it
      should have hung elsewhere. */
  predicate WellHung(ms: Members, ids: Ids, ts: seq<Tree>, parent: Option<nat>)
    requires Knows(ms, ids)
  {
    forall i :: 0 <= i < |ts| ==> NodeHung(ms, ids, ts[i], parent)
  }

  predicate NodeHung(ms: Members, ids: Ids, t: Tree, parent: Option<nat>)
    requires Knows(ms, ids)
  {
    && t.member < |ms| && t.orphaned == PlaceOf(ms, ids, t.member).Orphan?
    && (match parent
        case None => !PlaceOf(ms, ids, t.member).Under?
        case Some(p) => PlaceOf(ms, ids, t.member) == Under(p))
    && WellHung(ms, ids, t.children, Some(t.member))
  }

  /** Siblings stand in the order of their names, at every level. */
  predicate InOrder(ms: Members, rank: Collation, ts: seq<Tree>) {
    && (forall i, j :: 0 <= i < j < |ts| && ts[i].member < |ms| && ts[j].member < |ms| ==>
          rank(ms[ts[i].member].name) <= rank(ms[ts[j].member].name))
    && (forall i :: 0 <= i < |ts| ==> InOrder(ms, rank, ts[i].children))
  }

  // ---------------------------------------------------------------- the whole build

  function AllReports(ms: Members): (links: Links)
    ensures |links| == |ms| && forall p :: 0 <= p < |ms| ==> links[p] == Reports(ms, Index(ms), p, |ms|)
  {
    seq(|ms|, p requires 0 <= p < |ms| => Reports(ms, Index(ms), p, |ms|))
  }

  function Orphans(ms: Members): (os: seq<bool>)
    ensures |os| == |ms| && forall k :: 0 <= k < |ms| ==> os[k] == PlaceOf(ms, Index(ms), k).Orphan?
  {
    seq(|ms|, k requires 0 <= k < |ms| => PlaceOf(ms, Index(ms), k).Orphan?)
  }

  function Levels(ms: Members): (ls: seq<nat>)
    ensures |ls| == |ms| && forall k :: 0 <= k < |ms| ==> ls[k] == Level(ms, Index(ms), k)
  {
    seq(|ms|, k requires 0 <= k < |ms| => Level(ms, Index(ms), k))
  }

  lemma {:induction false} ReportsAre(ms: Members, ids: Ids, p: nat, n: nat, k: nat)
    requires Knows(ms, ids) && n <= |ms|
    ensures Count<nat>(Reports(ms, ids, p, n), k) == if k < n && PlaceOf(ms, ids, k) == Under(p) then 1 else 0
    decreases n
  {
    hide PlaceOf, Knows, Count;
    CountNone<nat>(k);
    if n > 0 {
      ReportsAre(ms, ids, p, n - 1, k);
      CountConcat<nat>(Reports(ms, ids, p, n - 1), if PlaceOf(ms, ids, n - 1) == Under(p) then [n - 1] else [], k);
      CountOne<nat>(n - 1, k);
    }
  }

  lemma {:induction false} RootsAre(ms: Members, ids: Ids, n: nat, k: nat)
    requires Knows(ms, ids) && n <= |ms|
    ensures Count<nat>(Roots(ms, ids, n), k) == if k < n && !PlaceOf(ms, ids, k).Under? then 1 else 0
    decreases n
  {
    hide PlaceOf, Knows, Count;
    CountNone<nat>(k);
    if n > 0 {
      RootsAre(ms, ids, n - 1, k);
      CountConcat<nat>(Roots(ms, ids, n - 1), if PlaceOf(ms, ids, n - 1).Under? then [] else [n - 1], k);
      CountOne<nat>(n - 1, k);
    }
  }

  lemma LevelAtMost(ms: Members, k: nat)
    requires k < |ms|
    ensures Level(ms, Index(ms), k) <= HOPS + 1
  {
    if LineLength(ms, Index(ms), ms[k].id, HOPS + 1).Some? {
      LineIsShort(ms, Index(ms), ms[k].id, HOPS + 1);
    }
  }

  lemma ReportIn(ms: Members, p: nat, i: nat)
    requires Distinct(ms) && p < |ms| && i < |AllReports(ms)[p]|
    ensures var c := AllReports(ms)[p][i];
            c < |ms| && PlaceOf(ms, Index(ms), c) == Under(p) && Levels(ms)[c] > Levels(ms)[p]
  {
    hide PlaceOf, Knows, Level, Index;
    var c := AllReports(ms)[p][i];
    CountIn<nat>(Reports(ms, Index(ms), p, |ms|), i);
    ReportsAre(ms, Index(ms), p, |ms|, c);
    ReportIsBelow(ms, c);
  }

  lemma ChartIsLeveled(ms: Members)
    requires Distinct(ms)
    ensures Leveled(AllReports(ms), Levels(ms), HOPS + 1)
  {
    hide PlaceOf, Knows, Level, Index, Reports, Distinct;
    forall p | 0 <= p < |ms| ensures Levels(ms)[p] <= HOPS + 1 {
      LevelAtMost(ms, p);
    }
    forall p, i | 0 <= p < |ms| && 0 <= i < |AllReports(ms)[p]|
      ensures AllReports(ms)[p][i] < |ms| && Levels(ms)[AllReports(ms)[p][i]] > Levels(ms)[p]
    {
      ReportIn(ms, p, i);
    }
  }

  lemma RootIn(ms: Members, i: nat)
    requires i < |Roots(ms, Index(ms), |ms|)|
    ensures var r := Roots(ms, Index(ms), |ms|)[i]; r < |ms| && !PlaceOf(ms, Index(ms), r).Under?
  {
    hide PlaceOf, Knows, Index;
    var r := Roots(ms, Index(ms), |ms|)[i];
    CountIn<nat>(Roots(ms, Index(ms), |ms|), i);
    RootsAre(ms, Index(ms), |ms|, r);
  }

  lemma RootsAreMembers(ms: Members)
    ensures forall i :: 0 <= i < |Roots(ms, Index(ms), |ms|)| ==> Roots(ms, Index(ms), |ms|)[i] < |ms|
  {
    hide PlaceOf, Knows, Index, Roots;
    forall i | 0 <= i < |Roots(ms, Index(ms), |ms|)| ensures Roots(ms, Index(ms), |ms|)[i] < |ms| {
      RootIn(ms, i);
    }
  }

  /** The forest before it is sorted. */
  ghost function Grown(ms: Members): seq<Tree>
    requires Distinct(ms)
  {
    ChartIsLeveled(ms);
    RootsAreMembers(ms);
    GrowAll(AllReports(ms), Orphans(ms), Levels(ms), HOPS + 1, Roots(ms, Index(ms), |ms|), 0)
  }

  /** `buildReportingTree`. */
  method BuildReportingTree(ms: Members, rank: Collation) returns (forest: seq<Tree>)
    requires Distinct(ms)
    ensures forest == SortForest(ms, rank, Grown(ms))
  {
    hide PlaceOf, Knows, Index, Distinct, Roots, Reports, Grow, SortForest, Leveled, Level;
    ChartIsLeveled(ms);
    RootsAreMembers(ms);
    var roots, children, orphaned := Link(ms);
    assert children[..] == AllReports(ms);
    assert orphaned[..] == Orphans(ms);
    forest := GrowAll(children[..], orphaned[..], Levels(ms), HOPS + 1, roots, 0);
    forest := SortForest(ms, rank, forest);
  }

  // ------------------------------------------------------------ everybody, once

  /** 1 when `p` is `k` or stands above it along attached links, else 0. */
  ghost function Above(ms: Members, p: nat, k: nat): nat
    requires Distinct(ms) && k < |ms|
    decreases Level(ms, Index(ms), k)
  {
    if k == p then 1
    else if PlaceOf(ms, Index(ms), k).Under? then
      ReportIsBelow(ms, k);
      Above(ms, p, PlaceOf(ms, Index(ms), k).manager)
    else 0
  }

  lemma {:induction false} AboveIsHigher(ms: Members, p: nat, k: nat)
    requires Distinct(ms) && k < |ms| && p < |ms| && Above(ms, p, k) > 0
    ensures Level(ms, Index(ms), p) <= Level(ms, Index(ms), k)
    decreases Level(ms, Index(ms), k)
  {
    hide PlaceOf, Level, Index, Knows, Distinct;
    if k != p {
      ReportIsBelow(ms, k);
      AboveIsHigher(ms, p, PlaceOf(ms, Index(ms), k).manager);
    }
  }

  lemma AboveStep(ms: Members, p: nat, k: nat)
    requires Distinct(ms) && k < |ms| && p < |ms| && PlaceOf(ms, Index(ms), k).Under?
    ensures Above(ms, p, k) == (if p == k then 1 else 0) + Above(ms, p, PlaceOf(ms, Index(ms), k).manager)
  {
    hide PlaceOf, Level, Index, Knows, Distinct;
    ReportIsBelow(ms, k);
    if p == k && Above(ms, p, PlaceOf(ms, Index(ms), k).manager) > 0 {
      AboveIsHigher(ms, p, PlaceOf(ms, Index(ms), k).manager);
    }
  }

  ghost function SumAbove(ms: Members, ps: seq<nat>, k: nat): nat
    requires Distinct(ms) && k < |ms|
  {
    if ps == [] then 0 else Above(ms, ps[0], k) + SumAbove(ms, ps[1..], k)
  }

  lemma {:induction false} SumStep(ms: Members, ps: seq<nat>, k: nat)
    requires Distinct(ms) && k < |ms| && forall i :: 0 <= i < |ps| ==> ps[i] < |ms|
    ensures SumAbove(ms, ps, k) ==
            Count<nat>(ps, k) + if PlaceOf(ms, Index(ms), k).Under? then SumAbove(ms, ps, PlaceOf(ms, Index(ms), k).manager) else 0
  {
    hide PlaceOf, Level, Index, Knows, Distinct;
    if ps != [] {
      if PlaceOf(ms, Index(ms), k).Under? {
        AboveStep(ms, ps[0], k);
      }
      SumStep(ms, ps[1..], k);
    }
  }

  lemma ReportsAreMembers(ms: Members, p: nat)
    requires Distinct(ms) && p < |ms|
    ensures forall i :: 0 <= i < |AllReports(ms)[p]| ==>
              AllReports(ms)[p][i] < |ms| && Levels(ms)[AllReports(ms)[p][i]] >= Levels(ms)[p] + 1
  {
    hide PlaceOf, Level, Index, Knows, Distinct, Reports;
    forall i | 0 <= i < |AllReports(ms)[p]|
      ensures AllReports(ms)[p][i] < |ms| && Levels(ms)[AllReports(ms)[p][i]] >= Levels(ms)[p] + 1
    {
      ReportIn(ms, p, i);
    }
  }

  /** Below `p` stand its reports and whoever stands below them. */
  lemma {:induction false} BelowReports(ms: Members, p: nat, k: nat)
    requires Distinct(ms) && k < |ms| && p < |ms|
    ensures Above(ms, p, k) == (if p == k then 1 else 0) + SumAbove(ms, AllReports(ms)[p], k)
    decreases Level(ms, Index(ms), k)
  {
    hide Level, Index, Knows, Distinct, SumAbove, Reports;
    ReportsAreMembers(ms, p);
    SumStep(ms, AllReports(ms)[p], k);
    ReportsAre(ms, Index(ms), p, |ms|, k);
    hide PlaceOf;
    var place := PlaceOf(ms, Index(ms), k);
    if place.Under? {
      ReportIsBelow(ms, k);
      BelowReports(ms, p, place.manager);
      AboveStep(ms, p, k);
    }
  }

  lemma {:induction false} EverybodyHasARoot(ms: Members, k: nat)
    requires Distinct(ms) && k < |ms|
    ensures SumAbove(ms, Roots(ms, Index(ms), |ms|), k) == 1
    decreases Level(ms, Index(ms), k)
  {
    hide PlaceOf, Level, Index, Knows, Distinct, SumAbove, Roots;
    RootsAreMembers(ms);
    SumStep(ms, Roots(ms, Index(ms), |ms|), k);
    RootsAre(ms, Index(ms), |ms|, k);
    if PlaceOf(ms, Index(ms), k).Under? {
      ReportIsBelow(ms, k);
      EverybodyHasARoot(ms, PlaceOf(ms, Index(ms), k).manager);
    }
  }

  ghost function Branches(ms: Members, ps: seq<nat>, floor: nat): seq<Tree>
    requires Distinct(ms) && forall i :: 0 <= i < |ps| ==> ps[i] < |ms| && Levels(ms)[ps[i]] >= floor
  {
    ChartIsLeveled(ms);
    GrowAll(AllReports(ms), Orphans(ms), Levels(ms), HOPS + 1, ps, floor)
  }

  lemma BranchesUnfold(ms: Members, ps: seq<nat>, floor: nat)
    requires Distinct(ms) && ps != [] && forall i :: 0 <= i < |ps| ==> ps[i] < |ms| && Levels(ms)[ps[i]] >= floor
    ensures var p := ps[0];
            && (forall i :: 0 <= i < |AllReports(ms)[p]| ==>
                  AllReports(ms)[p][i] < |ms| && Levels(ms)[AllReports(ms)[p][i]] >= Levels(ms)[p] + 1)
            && Branches(ms, ps, floor) ==
               [Node(p, Orphans(ms)[p], Branches(ms, AllReports(ms)[p], Levels(ms)[p] + 1))] + Branches(ms, ps[1..], floor)
  {
    hide PlaceOf, Level, Index, Knows, Distinct, Reports, AllReports, Levels, Orphans;
    ReportsAreMembers(ms, ps[0]);
    ChartIsLeveled(ms);
    var links, marks, levels, p := AllReports(ms), Orphans(ms), Levels(ms), ps[0];
    assert Grow(links, marks, levels, HOPS + 1, p) == Node(p, marks[p], GrowAll(links, marks, levels, HOPS + 1, links[p], levels[p] + 1));
  }

  /** A branch draws exactly those its members stand above. */
  lemma {:induction false} BranchesDraw(ms: Members, ps: seq<nat>, floor: nat, k: nat)
    requires Distinct(ms) && k < |ms| && forall i :: 0 <= i < |ps| ==> ps[i] < |ms| && Levels(ms)[ps[i]] >= floor
    ensures Count<nat>(Drawn(Branches(ms, ps, floor)), k) == SumAbove(ms, ps, k)
    decreases HOPS + 2 - floor, |ps|
  {
    hide PlaceOf, Level, Index, Knows, Distinct, Reports, Above, Count, Branches, AllReports, Orphans;
    if ps == [] {
      NothingDrawn(ms, floor, k);
    } else {
      var p := ps[0];
      LevelAtMost(ms, p);
      BranchesUnfold(ms, ps, floor);
      var below, rest := Branches(ms, AllReports(ms)[p], Levels(ms)[p] + 1), Branches(ms, ps[1..], floor);
      BranchesDraw(ms, AllReports(ms)[p], Levels(ms)[p] + 1, k);
      BranchesDraw(ms, ps[1..], floor, k);
      BelowReports(ms, p, k);
      CountConcat<nat>([p] + Drawn(below), Drawn(rest), k);
      CountConcat<nat>([p], Drawn(below), k);
      CountOne<nat>(p, k);
    }
  }

  lemma NothingDrawn(ms: Members, floor: nat, k: nat)
    requires Distinct(ms)
    ensures Count<nat>(Drawn(Branches(ms, [], floor)), k) == 0
  {
  }

  /** Before sorting, every member is drawn exactly once. */
  lemma GrownDrawsAll(ms: Members, k: nat)
    requires Distinct(ms) && k < |ms|
    ensures Count<nat>(Drawn(Grown(ms)), k) == 1
  {
    hide PlaceOf, Level, Index, Knows, Distinct, Roots, Count, Drawn;
    RootsAreMembers(ms);
    EverybodyHasARoot(ms, k);
    BranchesDraw(ms, Roots(ms, Index(ms), |ms|), 0, k);
  }

  lemma {:induction false} BranchesHang(ms: Members, ps: seq<nat>, floor: nat, parent: Option<nat>)
    requires Distinct(ms) && forall i :: 0 <= i < |ps| ==> ps[i] < |ms| && Levels(ms)[ps[i]] >= floor
    requires forall i :: 0 <= i < |ps| ==>
               match parent
               case None => !PlaceOf(ms, Index(ms), ps[i]).Under?
               case Some(p) => PlaceOf(ms, Index(ms), ps[i]) == Under(p)
    ensures WellHung(ms, Index(ms), Branches(ms, ps, floor), parent)
    decreases HOPS + 2 - floor, |ps|
  {
    hide PlaceOf, Level, Index, Knows, Distinct, Reports, Branches, AllReports;
    if ps == [] {
      NoBranches(ms, floor);
    } else {
      var p := ps[0];
      LevelAtMost(ms, p);
      BranchesUnfold(ms, ps, floor);
      forall i | 0 <= i < |AllReports(ms)[p]| ensures PlaceOf(ms, Index(ms), AllReports(ms)[p][i]) == Under(p) {
        ReportIn(ms, p, i);
      }
      BranchesHang(ms, AllReports(ms)[p], Levels(ms)[p] + 1, Some(p));
      BranchesHang(ms, ps[1..], floor, parent);
    }
  }

  lemma NoBranches(ms: Members, floor: nat)
    requires Distinct(ms)
    ensures Branches(ms, [], floor) == []
  {
  }

  lemma GrownHangs(ms: Members)
    requires Distinct(ms)
    ensures WellHung(ms, Index(ms), Grown(ms), None)
  {
    hide PlaceOf, Level, Index, Knows, Distinct, Roots, WellHung;
    RootsAreMembers(ms);
    forall i | 0 <= i < |Roots(ms, Index(ms), |ms|)| ensures !PlaceOf(ms, Index(ms), Roots(ms, Index(ms), |ms|)[i]).Under? {
      RootIn(ms, i);
    }
    BranchesHang(ms, Roots(ms, Index(ms), |ms|), 0, None);
  }

  // ------------------------------------------------------- what sorting does not do

  lemma {:induction false} InsertDraws(key: Tree -> int, t: Tree, ts: seq<Tree>, k: nat)
    ensures Count<nat>(Drawn(Insert(key, t, ts)), k) == Count<nat>([t.member] + Drawn(t.children), k) + Count<nat>(Drawn(ts), k)
  {
    hide Count;
    CountConcat<nat>([t.member] + Drawn(t.children), Drawn(ts), k);
    assert ([t] + ts)[1..] == ts;
    if ts != [] {
      InsertDraws(key, t, ts[1..], k);
      var u := [ts[0].member] + Drawn(ts[0].children);
      CountConcat<nat>(u, Drawn(ts[1..]), k);
      CountConcat<nat>(u, Drawn(Insert(key, t, ts[1..])), k);
      assert ([ts[0]] + Insert(key, t, ts[1..]))[1..] == Insert(key, t, ts[1..]);
    }
  }

  lemma {:induction false} SortDraws(key: Tree -> int, ts: seq<Tree>, k: nat)
    ensures Count<nat>(Drawn(Sort(key, ts)), k) == Count<nat>(Drawn(ts), k)
  {
    hide Count, Insert;
    if ts != [] {
      SortDraws(key, ts[1..], k);
      InsertDraws(key, ts[0], Sort(key, ts[1..]), k);
      CountConcat<nat>([ts[0].member] + Drawn(ts[0].children), Drawn(ts[1..]), k);
    }
  }

  lemma SortForestDraws(ms: Members, rank: Collation, ts: seq<Tree>, k: nat)
    ensures Count<nat>(Drawn(SortForest(ms, rank, ts)), k) == Count<nat>(Drawn(ts), k)
    decreases ts, 1
  {
    hide Count, Drawn;
    SortEachDraws(ms, rank, ts, k);
    SortDraws(NameKey(ms, rank), SortEach(ms, rank, ts), k);
  }

  lemma {:induction false} SortEachDraws(ms: Members, rank: Collation, ts: seq<Tree>, k: nat)
    ensures Count<nat>(Drawn(SortEach(ms, rank, ts)), k) == Count<nat>(Drawn(ts), k)
    decreases ts, 0
  {
    hide Count, SortForest;
    if ts != [] {
      var below := SortForest(ms, rank, ts[0].children);
      var rest := SortEach(ms, rank, ts[1..]);
      SortForestDraws(ms, rank, ts[0].children, k);
      SortEachDraws(ms, rank, ts[1..], k);
      CountConcat<nat>([ts[0].member] + Drawn(ts[0].children), Drawn(ts[1..]), k);
      CountConcat<nat>([ts[0].member], Drawn(ts[0].children), k);
      CountConcat<nat>([ts[0].member] + Drawn(below), Drawn(rest), k);
      CountConcat<nat>([ts[0].member], Drawn(below), k);
      var t := Node(ts[0].member, ts[0].orphaned, below);
      assert SortEach(ms, rank, ts)[0] == t && SortEach(ms, rank, ts)[1..] == rest;
    }
  }

  lemma SortNodesHang(ms: Members, ids: Ids, rank: Collation, ts: seq<Tree>, parent: Option<nat>)
    requires Knows(ms, ids) && WellHung(ms, ids, ts, parent)
    ensures WellHung(ms, ids, SortNodes(ms, rank, ts), parent)
  {
    hide NodeHung, Knows, Sort;
    forall i | 0 <= i < |SortNodes(ms, rank, ts)| ensures NodeHung(ms, ids, SortNodes(ms, rank, ts)[i], parent) {
      SortIn(NameKey(ms, rank), ts, i);
    }
  }

  lemma SortForestHangs(ms: Members, ids: Ids, rank: Collation, ts: seq<Tree>, parent: Option<nat>)
    requires Knows(ms, ids) && WellHung(ms, ids, ts, parent)
    ensures WellHung(ms, ids, SortForest(ms, rank, ts), parent)
    decreases ts, 1
  {
    hide NodeHung, Knows;
    SortEachHangs(ms, ids, rank, ts, parent);
    SortNodesHang(ms, ids, rank, SortEach(ms, rank, ts), parent);
  }

  lemma {:induction false} SortEachHangs(ms: Members, ids: Ids, rank: Collation, ts: seq<Tree>, parent: Option<nat>)
    requires Knows(ms, ids) && WellHung(ms, ids, ts, parent)
    ensures WellHung(ms, ids, SortEach(ms, rank, ts), parent)
    decreases ts, 0
  {
    hide Knows, SortForest, PlaceOf;
    if ts != [] {
      assert NodeHung(ms, ids, ts[0], parent);
      SortForestHangs(ms, ids, rank, ts[0].children, Some(ts[0].member));
      SortEachHangs(ms, ids, rank, ts[1..], parent);
      assert NodeHung(ms, ids, Node(ts[0].member, ts[0].orphaned, SortForest(ms, rank, ts[0].children)), parent);
      hide NodeHung;
    }
  }

  predicate BelowInOrder(ms: Members, rank: Collation, ts: seq<Tree>) {
    forall i :: 0 <= i < |ts| ==> InOrder(ms, rank, ts[i].children)
  }

  lemma SortNodesOrder(ms: Members, rank: Collation, ts: seq<Tree>)
    requires BelowInOrder(ms, rank, ts)
    ensures InOrder(ms, rank, SortNodes(ms, rank, ts))
  {
    hide Sort;
    var key := NameKey(ms, rank);
    SortArranges(key, ts);
    forall i, j | 0 <= i < j < |Sort(key, ts)| ensures KeyOf(ms, rank, Sort(key, ts)[i]) <= KeyOf(ms, rank, Sort(key, ts)[j]) {
      assert Precedes(key, ts, Sort(key, ts)[i], Sort(key, ts)[j]);
    }
    forall i | 0 <= i < |Sort(key, ts)| ensures InOrder(ms, rank, Sort(key, ts)[i].children) {
      SortIn(key, ts, i);
    }
  }

  lemma SortForestOrders(ms: Members, rank: Collation, ts: seq<Tree>)
    ensures InOrder(ms, rank, SortForest(ms, rank, ts))
    decreases ts, 1
  {
    SortEachOrders(ms, rank, ts);
    SortNodesOrder(ms, rank, SortEach(ms, rank, ts));
    hide SortNodes, SortEach;
  }

  lemma {:induction false} SortEachOrders(ms: Members, rank: Collation, ts: seq<Tree>)
    ensures BelowInOrder(ms, rank, SortEach(ms, rank, ts))
    decreases ts, 0
  {
    hide InOrder, SortForest;
    if ts != [] {
      SortForestOrders(ms, rank, ts[0].children);
      SortEachOrders(ms, rank, ts[1..]);
    }
  }

  // ------------------------------------------------------------------- the theorem

  lemma {:induction false} OnlyMembersDrawn(ms: Members, ids: Ids, ts: seq<Tree>, parent: Option<nat>, k: nat)
    requires Knows(ms, ids) && WellHung(ms, ids, ts, parent) && k >= |ms|
    ensures Count<nat>(Drawn(ts), k) == 0
    decreases ts
  {
    hide Knows, PlaceOf, Count;
    CountNone<nat>(k);
    if ts != [] {
      assert NodeHung(ms, ids, ts[0], parent);
      OnlyMembersDrawn(ms, ids, ts[0].children, Some(ts[0].member), k);
      OnlyMembersDrawn(ms, ids, ts[1..], parent, k);
      CountConcat<nat>([ts[0].member] + Drawn(ts[0].children), Drawn(ts[1..]), k);
      CountConcat<nat>([ts[0].member], Drawn(ts[0].children), k);
      CountOne<nat>(ts[0].member, k);
    }
  }

  /** A list that holds each number below `n` once and no other is `n` long. */
  lemma {:induction false} OnceEach(ks: seq<nat>, n: nat)
    requires forall k: nat :: Count<nat>(ks, k) == if k < n then 1 else 0
    ensures |ks| == n
    decreases n
  {
    if n == 0 {
      if ks != [] {
        assert Count<nat>(ks, ks[0]) > 0;
      }
    } else {
      var i := Find<nat>(ks, n - 1);
      var rest := ks[..i] + ks[i + 1..];
      assert ks == ks[..i] + ([ks[i]] + ks[i + 1..]);
      forall k: nat ensures Count<nat>(rest, k) == if k < n - 1 then 1 else 0 {
        hide Count;
        CountConcat<nat>(ks[..i], [ks[i]] + ks[i + 1..], k);
        CountConcat<nat>([ks[i]], ks[i + 1..], k);
        CountConcat<nat>(ks[..i], ks[i + 1..], k);
        CountOne<nat>(ks[i], k);
      }
      OnceEach(rest, n - 1);
    }
  }

  /** The reporting forest, for any manager links with distinct ids: each member
      is drawn exactly once, so the count of the drawing is the size of the list;
      every node hangs where its links put it, and siblings are in order. */
  lemma ReportingForest(ms: Members, rank: Collation)
    requires Distinct(ms)
    ensures var forest := SortForest(ms, rank, Grown(ms));
            && (forall k :: 0 <= k < |ms| ==> Count<nat>(Drawn(forest), k) == 1)
            && |Drawn(forest)| == |ms|
            && WellHung(ms, Index(ms), forest, None) && InOrder(ms, rank, forest)
  {
    hide Count, Drawn, SortForest, Grown, WellHung, InOrder, Index, Knows, Distinct;
    var forest := SortForest(ms, rank, Grown(ms));
    GrownHangs(ms);
    SortForestHangs(ms, Index(ms), rank, Grown(ms), None);
    SortForestOrders(ms, rank, Grown(ms));
    forall k: nat ensures Count<nat>(Drawn(forest), k) == if k < |ms| then 1 else 0 {
      SortForestDraws(ms, rank, Grown(ms), k);
      if k < |ms| {
        GrownDrawsAll(ms, k);
      } else {
        OnlyMembersDrawn(ms, Index(ms), forest, None, k);
      }
    }
    OnceEach(Drawn(forest), |ms|);
  }
}
