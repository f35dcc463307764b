/** Which attachments become download links (frontend/src/lib/bigAttachments.ts):
    the greedy choice leaves what fits and links no more files than it must. */
module BigAttachments {

  type Sizes = seq<int>

  /** Larger files first, equal ones in their given order. */
  predicate Before(sizes: Sizes, a: nat, b: nat)
    requires a < |sizes| && b < |sizes|
  {
    sizes[a] > sizes[b] || (sizes[a] == sizes[b] && a < b)
  }

  predicate Indices(sizes: Sizes, order: seq<nat>) {
    forall i :: 0 <= i < |order| ==> order[i] < |sizes|
  }

  function Insert(sizes: Sizes, k: nat, order: seq<nat>): (r: seq<nat>)
    requires k < |sizes| && Indices(sizes, order)
    ensures Indices(sizes, r) && |r| == |order| + 1
  {
    if order == [] || Before(sizes, k, order[0]) then [k] + order else [order[0]] + Insert(sizes, k, order[1..])
  }

  /** The first `n` indices, sorted. */
  function Order(sizes: Sizes, n: nat): (r: seq<nat>)
    requires n <= |sizes|
    ensures Indices(sizes, r) && |r| == n
  {
    if n == 0 then [] else Insert(sizes, n - 1, Order(sizes, n - 1))
  }

  predicate Ordered(sizes: Sizes, order: seq<nat>)
    requires Indices(sizes, order)
  {
    forall i, j :: 0 <= i < j < |order| ==> Before(sizes, order[i], order[j])
  }

  lemma {:induction false} InsertOrders(sizes: Sizes, k: nat, order: seq<nat>)
    requires k < |sizes| && Indices(sizes, order) && Ordered(sizes, order) && k !in order
    ensures Ordered(sizes, Insert(sizes, k, order))
    ensures forall x :: x in Insert(sizes, k, order) <==> x == k || x in order
  {
    if order != [] && !Before(sizes, k, order[0]) {
      InsertOrders(sizes, k, order[1..]);
      var rest := Insert(sizes, k, order[1..]);
      forall j | 0 <= j < |rest| ensures Before(sizes, order[0], rest[j]) {
        assert rest[j] in rest;
        assert rest[j] == k || rest[j] in order[1..];
      }
    }
  }

  lemma {:induction false} OrderIsSorted(sizes: Sizes, n: nat)
    requires n <= |sizes|
    ensures Ordered(sizes, Order(sizes, n)) && forall x :: x in Order(sizes, n) <==> 0 <= x < n
  {
    if n > 0 {
      OrderIsSorted(sizes, n - 1);
      InsertOrders(sizes, n - 1, Order(sizes, n - 1));
    }
  }

  // ------------------------------------------------------------------------- sums

  function Total(sizes: Sizes, n: nat): int
    requires n <= |sizes|
  {
    if n == 0 then 0 else Total(sizes, n - 1) + sizes[n - 1]
  }

  /** What the chosen files weigh. */
  function Chosen(sizes: Sizes, n: nat, picked: set<nat>): int
    requires n <= |sizes|
  {
    if n == 0 then 0 else Chosen(sizes, n - 1, picked) + if n - 1 in picked then sizes[n - 1] else 0
  }

  function Prefix(sizes: Sizes, order: seq<nat>, k: nat): int
    requires Indices(sizes, order) && k <= |order|
  {
    if k == 0 then 0 else Prefix(sizes, order, k - 1) + sizes[order[k - 1]]
  }

  /** The weight of the chosen files, added up in another order. */
  function ChosenIn(sizes: Sizes, order: seq<nat>, picked: set<nat>): int
    requires Indices(sizes, order)
  {
    if order == [] then 0 else (if order[0] in picked then sizes[order[0]] else 0) + ChosenIn(sizes, order[1..], picked)
  }

  lemma {:induction false} InsertAdds(sizes: Sizes, k: nat, order: seq<nat>, picked: set<nat>)
    requires k < |sizes| && Indices(sizes, order)
    ensures ChosenIn(sizes, Insert(sizes, k, order), picked) == (if k in picked then sizes[k] else 0) + ChosenIn(sizes, order, picked)
  {
    if order == [] || Before(sizes, k, order[0]) {
      assert ([k] + order)[1..] == order;
    } else {
      InsertAdds(sizes, k, order[1..], picked);
      assert ([order[0]] + Insert(sizes, k, order[1..]))[1..] == Insert(sizes, k, order[1..]);
    }
  }

  lemma {:induction false} OrderAdds(sizes: Sizes, n: nat, picked: set<nat>)
    requires n <= |sizes|
    ensures ChosenIn(sizes, Order(sizes, n), picked) == Chosen(sizes, n, picked)
  {
    if n > 0 {
      OrderAdds(sizes, n - 1, picked);
      InsertAdds(sizes, n - 1, Order(sizes, n - 1), picked);
    }
  }

  lemma {:induction false} ChosenInSnoc(sizes: Sizes, order: seq<nat>, picked: set<nat>)
    requires Indices(sizes, order) && order != []
    ensures ChosenIn(sizes, order, picked) ==
            ChosenIn(sizes, order[..|order| - 1], picked) + if order[|order| - 1] in picked then sizes[order[|order| - 1]] else 0
  {
    if |order| > 1 {
      ChosenInSnoc(sizes, order[1..], picked);
      assert order[1..][..|order| - 2] == order[..|order| - 1][1..];
    }
  }

  lemma {:induction false} PrefixOfPrefix(sizes: Sizes, order: seq<nat>, m: nat, k: nat)
    requires Indices(sizes, order) && k <= m <= |order|
    ensures Prefix(sizes, order[..m], k) == Prefix(sizes, order, k)
  {
    if k > 0 {
      PrefixOfPrefix(sizes, order, m, k - 1);
    }
  }

  lemma {:induction false} SubsetOfPrefix(order: seq<nat>, picked: set<nat>)
    requires forall x :: x in picked ==> x in order
    ensures |picked| <= |order|
    decreases |order|
  {
    if order == [] {
      assert picked == {};
    } else {
      var last := order[|order| - 1];
      SubsetOfPrefix(order[..|order| - 1], picked - {last});
    }
  }

  /** No choice of as many files weighs more than the first ones in order. */
  lemma {:induction false} LargestFirst(sizes: Sizes, order: seq<nat>, picked: set<nat>)
    requires Indices(sizes, order) && Ordered(sizes, order) && forall x :: x in picked ==> x in order
    ensures |picked| <= |order| && ChosenIn(sizes, order, picked) <= Prefix(sizes, order, |picked|)
    decreases |order|
  {
    SubsetOfPrefix(order, picked);
    if order == [] {
      assert picked == {};
    } else {
      var before, last := order[..|order| - 1], order[|order| - 1];
      var rest := picked - {last};
      LargestFirst(sizes, before, rest);
      PrefixOfPrefix(sizes, order, |before|, |rest|);
      ChosenInSnoc(sizes, order, picked);
      SamePicked(sizes, before, picked, last);
      if last in picked {
        var i := |picked| - 1;
        assert |rest| == i;
        assert i < |order| - 1 ==> Before(sizes, order[i], last);
      } else {
        assert rest == picked;
      }
    }
  }

  lemma {:induction false} SamePicked(sizes: Sizes, order: seq<nat>, picked: set<nat>, x: nat)
    requires Indices(sizes, order) && x !in order
    ensures ChosenIn(sizes, order, picked - {x}) == ChosenIn(sizes, order, picked)
  {
    if order != [] {
      SamePicked(sizes, order[1..], picked, x);
    }
  }

  // --------------------------------------------------------------------- the greedy

  /** How many of the largest files go before the rest fits. */
  function Needed(sizes: Sizes, limit: int, k: nat): (n: nat)
    requires k <= |sizes|
    ensures k <= n <= |sizes|
    decreases |sizes| - k
  {
    if k == |sizes| || Total(sizes, |sizes|) - Prefix(sizes, Order(sizes, |sizes|), k) <= limit then k
    else Needed(sizes, limit, k + 1)
  }

  predicate Marks(sizes: Sizes, flags: seq<bool>, k: nat)
    requires k <= |sizes|
  {
    && |flags| == |sizes|
    && forall i :: 0 <= i < |sizes| ==> (flags[i] <==> i in Order(sizes, |sizes|)[..k])
  }

  /** `linkedAttachmentFlags`. */
  method LinkedAttachmentFlags(sizes: Sizes, limit: int) returns (flags: array<bool>)
    ensures fresh(flags) && flags.Length == |sizes| && Marks(sizes, flags[..], Needed(sizes, limit, 0))
  {
    hide Order, Needed;
    NeededIs(sizes, limit, 0);
    flags := new bool[|sizes|](i => false);
    var total := 0;
    for i := 0 to |sizes|
      invariant total == Total(sizes, i)
    {
      total := total + sizes[i];
    }
    if total <= limit {
      return;
    }
    var order := Order(sizes, |sizes|);
    var k := 0;
    while k < |order|
      invariant k <= |order| && total == Total(sizes, |sizes|) - Prefix(sizes, order, k)
      invariant Needed(sizes, limit, k) == Needed(sizes, limit, 0)
      invariant forall i :: 0 <= i < |sizes| ==> (flags[i] <==> i in order[..k])
    {
      NeededIs(sizes, limit, k);
      if total <= limit {
        break;
      }
      assert order[..k + 1] == order[..k] + [order[k]];
      flags[order[k]] := true;
      total := total - sizes[order[k]];
      k := k + 1;
    }
    NeededIs(sizes, limit, k);
  }

  lemma NeededIs(sizes: Sizes, limit: int, k: nat)
    requires k <= |sizes|
    ensures Needed(sizes, limit, k) ==
            if k == |sizes| || Total(sizes, |sizes|) - Prefix(sizes, Order(sizes, |sizes|), k) <= limit then k
            else Needed(sizes, limit, k + 1)
  {
    hide Order;
  }

  /** The indices that are marked. */
  function Linked(flags: seq<bool>): set<nat> {
    set i | 0 <= i < |flags| && flags[i]
  }

  lemma {:induction false} NeededIsLeast(sizes: Sizes, limit: int, k: nat)
    requires k <= |sizes|
    requires forall j :: 0 <= j < k ==> Total(sizes, |sizes|) - Prefix(sizes, Order(sizes, |sizes|), j) > limit
    ensures var n := Needed(sizes, limit, k);
            && (forall j :: 0 <= j < n ==> Total(sizes, |sizes|) - Prefix(sizes, Order(sizes, |sizes|), j) > limit)
            && (n < |sizes| ==> Total(sizes, |sizes|) - Prefix(sizes, Order(sizes, |sizes|), n) <= limit)
    decreases |sizes| - k
  {
    NeededIs(sizes, limit, k);
    hide Order, Needed, Total, Prefix;
    if k < |sizes| && Total(sizes, |sizes|) - Prefix(sizes, Order(sizes, |sizes|), k) > limit {
      NeededIsLeast(sizes, limit, k + 1);
    }
  }

  lemma {:induction false} PrefixIsChosen(sizes: Sizes, order: seq<nat>, k: nat, picked: set<nat>)
    requires Indices(sizes, order) && Ordered(sizes, order) && k <= |order|
    requires forall i :: 0 <= i < |order| ==> (order[i] in picked <==> i < k)
    ensures ChosenIn(sizes, order, picked) == Prefix(sizes, order, k)
    decreases |order|
  {
    if order != [] {
      var before := order[..|order| - 1];
      ChosenInSnoc(sizes, order, picked);
      if k == |order| {
        PrefixIsChosen(sizes, before, k - 1, picked);
        PrefixOfPrefix(sizes, order, k - 1, k - 1);
      } else {
        PrefixIsChosen(sizes, before, k, picked);
        PrefixOfPrefix(sizes, order, |before|, k);
      }
    }
  }

  lemma OrderDistinct(sizes: Sizes, order: seq<nat>, i: nat, k: nat)
    requires Indices(sizes, order) && Ordered(sizes, order) && i < |order| && k <= |order|
    ensures order[i] in order[..k] <==> i < k
  {
    if i < k {
      assert order[..k][i] == order[i];
    } else {
      forall j | 0 <= j < k ensures order[..k][j] != order[i] {
        assert Before(sizes, order[j], order[i]);
      }
    }
  }

  lemma {:induction false} LinkedCount(sizes: Sizes, order: seq<nat>, k: nat, picked: set<nat>)
    requires Indices(sizes, order) && Ordered(sizes, order) && k <= |order|
    requires forall x :: x in picked <==> x in order[..k]
    ensures |picked| == k
    decreases k
  {
    if k == 0 {
      assert picked == {};
    } else {
      var last, rest := order[k - 1], picked - {order[k - 1]};
      OrderDistinct(sizes, order, k - 1, k - 1);
      hide Ordered, Before;
      assert order[..k] == order[..k - 1] + [last];
      LinkedCount(sizes, order, k - 1, rest);
      assert last in picked && picked == rest + {last};
    }
  }

  lemma {:induction false} AllIsTotal(sizes: Sizes, n: nat, all: set<nat>)
    requires n <= |sizes| && forall i: nat :: i < n ==> i in all
    ensures Chosen(sizes, n, all) == Total(sizes, n)
  {
    if n > 0 {
      AllIsTotal(sizes, n - 1, all);
    }
  }

  lemma LinkedWeighs(sizes: Sizes, limit: int, flags: seq<bool>)
    requires Marks(sizes, flags, Needed(sizes, limit, 0))
    ensures var k := Needed(sizes, limit, 0);
            && Chosen(sizes, |sizes|, Linked(flags)) == Prefix(sizes, Order(sizes, |sizes|), k)
            && |Linked(flags)| == k
  {
    hide Order, Needed, Prefix, ChosenIn, Chosen, Ordered, Before;
    var k, order, picked := Needed(sizes, limit, 0), Order(sizes, |sizes|), Linked(flags);
    OrderIsSorted(sizes, |sizes|);
    forall i | 0 <= i < |order| ensures order[i] in picked <==> i < k {
      OrderDistinct(sizes, order, i, k);
    }
    forall x ensures x in picked <==> x in order[..k] {
      assert x in order[..k] ==> x in order;
    }
    PrefixIsChosen(sizes, order, k, picked);
    OrderAdds(sizes, |sizes|, picked);
    LinkedCount(sizes, order, k, picked);
  }

  lemma LargestAreLinked(sizes: Sizes, limit: int, flags: seq<bool>, i: nat, j: nat)
    requires Marks(sizes, flags, Needed(sizes, limit, 0)) && i < |sizes| && j < |sizes| && flags[i] && !flags[j]
    ensures Before(sizes, i, j)
  {
    hide Order, Needed, Before;
    var k, order := Needed(sizes, limit, 0), Order(sizes, |sizes|);
    OrderIsSorted(sizes, |sizes|);
    var x :| 0 <= x < k && order[..k][x] == i;
    assert j in order;
    var y :| 0 <= y < |order| && order[y] == j;
    OrderDistinct(sizes, order, y, k);
  }

  lemma RestFits(sizes: Sizes, limit: int)
    requires limit >= 0 && forall i :: 0 <= i < |sizes| ==> sizes[i] >= 0
    ensures Total(sizes, |sizes|) - Prefix(sizes, Order(sizes, |sizes|), Needed(sizes, limit, 0)) <= limit
  {
    hide Order, Needed, Prefix, Total;
    NeededIsLeast(sizes, limit, 0);
    WholePrefix(sizes);
  }

  lemma FewerDoNotFit(sizes: Sizes, limit: int, other: set<nat>)
    requires forall x :: x in other ==> x < |sizes|
    requires |other| < Needed(sizes, limit, 0)
    ensures Total(sizes, |sizes|) - Chosen(sizes, |sizes|, other) > limit
  {
    hide Order, Needed, Prefix, Total, Chosen, ChosenIn, Ordered;
    NeededIsLeast(sizes, limit, 0);
    OrderIsSorted(sizes, |sizes|);
    OrderAdds(sizes, |sizes|, other);
    LargestFirst(sizes, Order(sizes, |sizes|), other);
  }

  /** Minimal linking: for sizes and a limit that are not negative, what stays
      attached fits the limit; any set of files whose linking would make the rest
      fit has at least as many files; and a linked file is larger than one left
      attached, or as large and earlier. */
  lemma MinimalLinking(sizes: Sizes, limit: int, flags: seq<bool>, other: set<nat>)
    requires limit >= 0 && forall i :: 0 <= i < |sizes| ==> sizes[i] >= 0
    requires Marks(sizes, flags, Needed(sizes, limit, 0)) && forall x :: x in other ==> x < |sizes|
    ensures Total(sizes, |sizes|) - Chosen(sizes, |sizes|, Linked(flags)) <= limit
    ensures Total(sizes, |sizes|) - Chosen(sizes, |sizes|, other) <= limit ==> |other| >= |Linked(flags)|
    ensures forall i, j :: 0 <= i < |sizes| && 0 <= j < |sizes| && flags[i] && !flags[j] ==>
              sizes[i] > sizes[j] || (sizes[i] == sizes[j] && i < j)
  {
    LinkedWeighs(sizes, limit, flags);
    RestFits(sizes, limit);
    hide Order, Needed, Prefix, Total, Chosen, Linked;
    if |other| < Needed(sizes, limit, 0) {
      FewerDoNotFit(sizes, limit, other);
    }
    forall i, j | 0 <= i < |sizes| && 0 <= j < |sizes| && flags[i] && !flags[j] ensures Before(sizes, i, j) {
      LargestAreLinked(sizes, limit, flags, i, j);
    }
  }

  lemma WholePrefix(sizes: Sizes)
    ensures Prefix(sizes, Order(sizes, |sizes|), |sizes|) == Total(sizes, |sizes|)
  {
    var order := Order(sizes, |sizes|);
    var all := set x | x in order;
    OrderIsSorted(sizes, |sizes|);
    hide Order, Total, Prefix, ChosenIn, Chosen;
    OrderAdds(sizes, |sizes|, all);
    AllIsTotal(sizes, |sizes|, all);
    PrefixIsChosen(sizes, order, |order|, all);
  }
}
