/** The reporting forest of frontend/src/lib/orgChart.ts, built from whatever
    manager links the data holds. A node is known by its member's position in
    the list. */
module OrgChart {
  import opened Text

  datatype Member = Member(id: string, name: string, managerId: string)

  type Members = seq<Member>

  /** Which member an id stands for; the last one wins. */
  type Ids = map<string, nat>

  const HOPS: nat := 64

  predicate HasManager(m: Member) {
    m.managerId != "" && m.managerId != "0"
  }

  /** The ids in use point at their members. */
  predicate Knows(ms: Members, ids: Ids) {
    forall id :: id in ids ==> ids[id] < |ms| && ms[ids[id]].id == id
  }

  function Index(ms: Members): (ids: Ids)
    ensures Knows(ms, ids)
    ensures forall k :: 0 <= k < |ms| ==> ms[k].id in ids
  {
    if ms == [] then map[] else Index(ms[..|ms| - 1])[ms[|ms| - 1].id := |ms| - 1]
  }

  predicate Distinct(ms: Members) {
    forall i, j :: 0 <= i < j < |ms| ==> ms[i].id != ms[j].id
  }

  // -------------------------------------------------------------------- chains

  /** `leadsBackTo`: walking up from `cur`, is the employee met, or the top not
      reached within the hops left? */
  predicate LeadsBack(ms: Members, ids: Ids, employee: string, cur: string, hops: nat)
    requires Knows(ms, ids)
    decreases hops
  {
    if hops == 0 || cur == employee then true
    else if cur !in ids || !HasManager(ms[ids[cur]]) then false
    else LeadsBack(ms, ids, employee, ms[ids[cur]].managerId, hops - 1)
  }

  method LeadsBackTo(ms: Members, ids: Ids, employee: string, startManager: string) returns (r: bool)
    requires Knows(ms, ids)
    ensures r == LeadsBack(ms, ids, employee, startManager, HOPS)
  {
    var cur := startManager;
    for hops := 0 to HOPS
      invariant LeadsBack(ms, ids, employee, startManager, HOPS) == LeadsBack(ms, ids, employee, cur, HOPS - hops)
    {
      if cur == employee {
        return true;
      }
      if cur !in ids || !HasManager(ms[ids[cur]]) {
        return false;
      }
      cur := ms[ids[cur]].managerId;
    }
    return true;
  }

  /** How many managers up the line from `cur` ends, if within the hops. */
  function LineLength(ms: Members, ids: Ids, cur: string, hops: nat): Option<nat>
    requires Knows(ms, ids)
    decreases hops
  {
    if hops == 0 then None
    else if cur !in ids || !HasManager(ms[ids[cur]]) then Some(0)
    else match LineLength(ms, ids, ms[ids[cur]].managerId, hops - 1)
      case None => None
      case Some(n) => Some(n + 1)
  }

  // --------------------------------------------------------------------- placing

  datatype Place = Top | Orphan | Under(manager: nat)

  function PlaceOf(ms: Members, ids: Ids, k: nat): (place: Place)
    requires Knows(ms, ids) && k < |ms|
    ensures place.Under? ==> place.manager < |ms|
  {
    var m := ms[k];
    if !HasManager(m) || m.managerId == m.id then Top
    else if m.managerId !in ids || LeadsBack(ms, ids, m.id, m.managerId, HOPS) then Orphan
    else Under(ids[m.managerId])
  }

  /** The positions below `n` that satisfy a placement, in order. */
  function Roots(ms: Members, ids: Ids, n: nat): seq<nat>
    requires Knows(ms, ids) && n <= |ms|
  {
    if n == 0 then []
    else Roots(ms, ids, n - 1) + if PlaceOf(ms, ids, n - 1).Under? then [] else [n - 1]
  }

  function Reports(ms: Members, ids: Ids, p: nat, n: nat): seq<nat>
    requires Knows(ms, ids) && n <= |ms|
  {
    if n == 0 then []
    else Reports(ms, ids, p, n - 1) + if PlaceOf(ms, ids, n - 1) == Under(p) then [n - 1] else []
  }

  method BuildIndex(ms: Members) returns (byID: Ids)
    ensures byID == Index(ms)
  {
    byID := map[];
    for k := 0 to |ms|
      invariant byID == Index(ms[..k])
    {
      assert ms[..k + 1][..k] == ms[..k];
      byID := byID[ms[k].id := k];
    }
    assert ms[..|ms|] == ms;
  }

  method FindPlace(ms: Members, byID: Ids, k: nat) returns (place: Place)
    requires Knows(ms, byID) && k < |ms|
    ensures place == PlaceOf(ms, byID, k)
  {
    var m := ms[k];
    if !HasManager(m) || m.managerId == m.id {
      return Top;
    }
    if m.managerId !in byID {
      return Orphan;
    }
    var back := LeadsBackTo(ms, byID, m.id, m.managerId);
    if back {
      return Orphan;
    }
    return Under(byID[m.managerId]);
  }

  lemma LinkStart(ms: Members, ids: Ids)
    requires Knows(ms, ids)
    ensures Roots(ms, ids, 0) == [] && forall p :: 0 <= p < |ms| ==> Reports(ms, ids, p, 0) == []
  {
  }

  lemma LinkStep(ms: Members, ids: Ids, k: nat)
    requires Knows(ms, ids) && k < |ms|
    ensures Roots(ms, ids, k + 1) == Roots(ms, ids, k) + if PlaceOf(ms, ids, k).Under? then [] else [k]
    ensures forall p :: 0 <= p < |ms| ==>
              Reports(ms, ids, p, k + 1) == Reports(ms, ids, p, k) + if PlaceOf(ms, ids, k) == Under(p) then [k] else []
  {
  }

  /** The loop that pushes every node under its manager or among the roots. */
  method PushAll(ms: Members, byID: Ids, children: array<seq<nat>>, orphaned: array<bool>) returns (roots: seq<nat>)
    requires Knows(ms, byID) && children.Length == orphaned.Length == |ms|
    requires forall k :: 0 <= k < |ms| ==> children[k] == [] && !orphaned[k]
    modifies children, orphaned
    ensures roots == Roots(ms, byID, |ms|)
    ensures forall p :: 0 <= p < |ms| ==> children[p] == Reports(ms, byID, p, |ms|)
    ensures forall k :: 0 <= k < |ms| ==> orphaned[k] == PlaceOf(ms, byID, k).Orphan?
  {
    LinkStart(ms, byID);
    hide Roots, Reports, Knows, PlaceOf;
    roots := [];
    for k := 0 to |ms|
      invariant roots == Roots(ms, byID, k)
      invariant forall p :: 0 <= p < |ms| ==> children[p] == Reports(ms, byID, p, k)
      invariant forall j :: 0 <= j < |ms| ==> orphaned[j] == (j < k && PlaceOf(ms, byID, j).Orphan?)
    {
      var place := FindPlace(ms, byID, k);
      LinkStep(ms, byID, k);
      roots := Put(k, place, roots, children, orphaned);
    }
  }

  method Link(ms: Members) returns (roots: seq<nat>, children: array<seq<nat>>, orphaned: array<bool>)
    requires Distinct(ms)
    ensures fresh(children) && fresh(orphaned) && children.Length == orphaned.Length == |ms|
    ensures roots == Roots(ms, Index(ms), |ms|)
    ensures forall p :: 0 <= p < |ms| ==> children[p] == Reports(ms, Index(ms), p, |ms|)
    ensures forall k :: 0 <= k < |ms| ==> orphaned[k] == PlaceOf(ms, Index(ms), k).Orphan?
  {
    hide PlaceOf, Distinct, Roots, Reports;
    var byID := BuildIndex(ms);
    children := new seq<nat>[|ms|](i => []);
    orphaned := new bool[|ms|](i => false);
    roots := PushAll(ms, byID, children, orphaned);
  }

  method Put(k: nat, place: Place, roots: seq<nat>, children: array<seq<nat>>, orphaned: array<bool>) returns (r: seq<nat>)
    requires k < orphaned.Length && (place.Under? ==> place.manager < children.Length)
    modifies children, orphaned
    ensures r == roots + if place.Under? then [] else [k]
    ensures forall p :: 0 <= p < children.Length ==> children[p] == old(children[p]) + if place == Under(p) then [k] else []
    ensures forall j :: 0 <= j < orphaned.Length ==> orphaned[j] == (old(orphaned[j]) || (j == k && place.Orphan?))
  {
    if place.Under? {
      children[place.manager] := children[place.manager] + [k];
      return roots;
    }
    if place.Orphan? {
      orphaned[k] := true;
    }
    return roots + [k];
  }

  // --------------------------------------------------- when a member is attached

  lemma {:induction false} MoreHops(ms: Members, ids: Ids, cur: string, a: nat, b: nat)
    requires Knows(ms, ids) && a <= b && LineLength(ms, ids, cur, a).Some?
    ensures LineLength(ms, ids, cur, b) == LineLength(ms, ids, cur, a)
    decreases a
  {
    if cur in ids && HasManager(ms[ids[cur]]) {
      MoreHops(ms, ids, ms[ids[cur]].managerId, a - 1, b - 1);
    }
  }

  lemma {:induction false} EndsUnlessBack(ms: Members, ids: Ids, employee: string, cur: string, hops: nat)
    requires Knows(ms, ids) && !LeadsBack(ms, ids, employee, cur, hops)
    ensures LineLength(ms, ids, cur, hops).Some?
    decreases hops
  {
    if cur in ids && HasManager(ms[ids[cur]]) {
      EndsUnlessBack(ms, ids, employee, ms[ids[cur]].managerId, hops - 1);
    }
  }

  /** A line that ends never meets the employee it starts from. */
  lemma {:induction false} EndedIsNotBack(ms: Members, ids: Ids, k: nat, cur: string, hops: nat)
    requires Knows(ms, ids) && k < |ms| && ms[k].id in ids && ids[ms[k].id] == k && HasManager(ms[k]) && hops <= HOPS
    requires LineLength(ms, ids, ms[k].managerId, HOPS).Some? && LineLength(ms, ids, cur, hops).Some?
    requires LineLength(ms, ids, cur, hops).value <= LineLength(ms, ids, ms[k].managerId, HOPS).value
    ensures !LeadsBack(ms, ids, ms[k].id, cur, hops)
    decreases hops
  {
    if cur == ms[k].id {
      MoreHops(ms, ids, ms[k].managerId, hops - 1, HOPS);
      assert false;
    } else if cur in ids && HasManager(ms[ids[cur]]) {
      EndedIsNotBack(ms, ids, k, ms[ids[cur]].managerId, hops - 1);
    }
  }

  lemma IndexIs(ms: Members, k: nat)
    requires Distinct(ms) && k < |ms|
    ensures Index(ms)[ms[k].id] == k
  {
    assert ms[Index(ms)[ms[k].id]].id == ms[k].id;
  }

  lemma {:induction false} SelfNeverEnds(ms: Members, ids: Ids, k: nat, hops: nat)
    requires Knows(ms, ids) && k < |ms| && ms[k].id in ids && ids[ms[k].id] == k && HasManager(ms[k]) && ms[k].managerId == ms[k].id
    ensures LineLength(ms, ids, ms[k].id, hops) == None
    decreases hops
  {
    if hops > 0 {
      SelfNeverEnds(ms, ids, k, hops - 1);
    }
  }

  /** A member hangs under its manager, and under nobody else, if and only if that
      manager is listed and the line above it ends within 64 hops. At the top it
      is an orphan exactly when it names a manager other than itself. */
  lemma AttachedExactly(ms: Members, k: nat)
    requires Distinct(ms) && k < |ms|
    ensures var m, place := ms[k], PlaceOf(ms, Index(ms), k);
            && (place.Under? <==> HasManager(m) && m.managerId in Index(ms) && LineLength(ms, Index(ms), m.managerId, 64).Some?)
            && (place.Under? ==> ms[place.manager].id == m.managerId)
            && (place.Orphan? <==> HasManager(m) && m.managerId != m.id && !place.Under?)
  {
    var ids, m := Index(ms), ms[k];
    IndexIs(ms, k);
    if HasManager(m) && m.managerId in ids {
      if m.managerId == m.id {
        SelfNeverEnds(ms, ids, k, HOPS);
      } else if LineLength(ms, ids, m.managerId, HOPS).Some? {
        EndedIsNotBack(ms, ids, k, m.managerId, HOPS);
      } else if !LeadsBack(ms, ids, m.id, m.managerId, HOPS) {
        EndsUnlessBack(ms, ids, m.id, m.managerId, HOPS);
      }
    }
  }

  // ------------------------------------------------------------------------ levels

  /** How far below the end of its line a member stands. */
  function Level(ms: Members, ids: Ids, k: nat): (n: nat)
    requires Knows(ms, ids) && k < |ms|
  {
    match LineLength(ms, ids, ms[k].id, HOPS + 1)
    case None => HOPS + 1
    case Some(n) => n
  }

  lemma {:induction false} LineIsShort(ms: Members, ids: Ids, cur: string, hops: nat)
    requires Knows(ms, ids) && LineLength(ms, ids, cur, hops).Some?
    ensures LineLength(ms, ids, cur, hops).value < hops
    decreases hops
  {
    if cur in ids && HasManager(ms[ids[cur]]) {
      LineIsShort(ms, ids, ms[ids[cur]].managerId, hops - 1);
    }
  }

  /** A report stands one level below its manager, so there are no cycles. */
  lemma ReportIsBelow(ms: Members, k: nat)
    requires Distinct(ms) && k < |ms| && PlaceOf(ms, Index(ms), k).Under?
    ensures var p := PlaceOf(ms, Index(ms), k).manager;
            p < |ms| && p != k && Level(ms, Index(ms), k) == Level(ms, Index(ms), p) + 1 <= HOPS
  {
    var ids, m := Index(ms), ms[k];
    IndexIs(ms, k);
    AttachedExactly(ms, k);
    LineIsShort(ms, ids, m.managerId, HOPS);
    MoreHops(ms, ids, m.managerId, HOPS, HOPS + 1);
  }
}
