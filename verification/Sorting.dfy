/** The stable sort by a key that the page algorithms use: JavaScript's `sort`
    with a comparison of names. */
module Sorting {
  import opened Counting

  /** A collation key stands for `localeCompare`. */
  type Collation = string -> int

  function Insert<T>(key: T -> int, x: T, s: seq<T>): seq<T> {
    if s == [] || key(x) <= key(s[0]) then [x] + s else [s[0]] + Insert(key, x, s[1..])
  }

  /** By key, elements with equal keys in their old order. */
  function Sort<T>(key: T -> int, s: seq<T>): seq<T> {
    if s == [] then [] else Insert(key, s[0], Sort(key, s[1..]))
  }

  lemma SortEmpty<T>(key: T -> int, s: seq<T>)
    ensures Sort(key, s) == [] <==> s == []
  {
  }

  lemma {:induction false} InsertHas<T>(key: T -> int, x: T, s: seq<T>, y: T)
    ensures Count(Insert(key, x, s), y) == (if x == y then 1 else 0) + Count(s, y)
  {
    if s == [] || key(x) <= key(s[0]) {
      assert ([x] + s)[1..] == s;
    } else {
      InsertHas(key, x, s[1..], y);
      assert ([s[0]] + Insert(key, x, s[1..]))[1..] == Insert(key, x, s[1..]);
    }
  }

  lemma {:induction false} SortHas<T>(key: T -> int, s: seq<T>, y: T)
    ensures Count(Sort(key, s), y) == Count(s, y)
  {
    hide Insert;
    if s != [] {
      SortHas(key, s[1..], y);
      InsertHas(key, s[0], Sort(key, s[1..]), y);
    }
  }

  lemma {:induction false} InsertIn<T>(key: T -> int, x: T, s: seq<T>, i: nat)
    requires i < |Insert(key, x, s)|
    ensures Insert(key, x, s)[i] == x || Insert(key, x, s)[i] in s
  {
    if s != [] && key(x) > key(s[0]) && i > 0 {
      InsertIn(key, x, s[1..], i - 1);
    }
  }

  lemma {:induction false} SortIn<T>(key: T -> int, s: seq<T>, i: nat)
    requires i < |Sort(key, s)|
    ensures Sort(key, s)[i] in s
  {
    hide Insert;
    if s != [] {
      InsertIn(key, s[0], Sort(key, s[1..]), i);
      if Sort(key, s)[i] in Sort(key, s[1..]) {
        var j :| 0 <= j < |Sort(key, s[1..])| && Sort(key, s[1..])[j] == Sort(key, s)[i];
        SortIn(key, s[1..], j);
      }
    }
  }

  /** `x` has the smaller key, or as small a one and the earlier place. */
  ghost predicate Precedes<T(!new)>(key: T -> int, s: seq<T>, x: T, y: T) {
    key(x) < key(y) || (key(x) == key(y) && InTurn(s, x, y))
  }

  ghost predicate InTurn<T(!new)>(s: seq<T>, x: T, y: T) {
    exists i, j :: 0 <= i < j < |s| && s[i] == x && s[j] == y
  }

  ghost predicate Arranged<T(!new)>(key: T -> int, s: seq<T>, r: seq<T>) {
    forall i, j :: 0 <= i < j < |r| ==> Precedes(key, s, r[i], r[j])
  }

  lemma {:induction false} InsertArranges<T(!new)>(key: T -> int, s: seq<T>, x: T, r: seq<T>)
    requires Arranged(key, s, r) && forall j :: 0 <= j < |r| && key(x) <= key(r[j]) ==> Precedes(key, s, x, r[j])
    ensures Arranged(key, s, Insert(key, x, r))
  {
    hide InTurn;
    if r != [] && key(x) > key(r[0]) {
      assert Arranged(key, s, r[1..]);
      InsertArranges(key, s, x, r[1..]);
      var rest := Insert(key, x, r[1..]);
      forall j | 0 <= j < |rest| ensures Precedes(key, s, r[0], rest[j]) {
        InsertIn(key, x, r[1..], j);
        if rest[j] in r[1..] {
          var k :| 0 <= k < |r[1..]| && r[1..][k] == rest[j];
          assert r[k + 1] == rest[j];
        }
      }
    } else if r != [] {
      forall j | 0 <= j < |r| ensures Precedes(key, s, x, r[j]) {
        assert j > 0 ==> Precedes(key, s, r[0], r[j]);
      }
    }
  }

  lemma LongerTurn<T(!new)>(key: T -> int, s: seq<T>, x: T, y: T)
    requires s != [] && Precedes(key, s[1..], x, y)
    ensures Precedes(key, s, x, y)
  {
    if key(x) == key(y) {
      var i, j :| 0 <= i < j < |s[1..]| && s[1..][i] == x && s[1..][j] == y;
      assert s[i + 1] == x && s[j + 1] == y;
    }
  }

  /** The result is arranged by key and old place, and holds every element as
      often as it was given. */
  lemma {:induction false} SortArranges<T(!new)>(key: T -> int, s: seq<T>)
    ensures Arranged(key, s, Sort(key, s)) && forall y :: Count(Sort(key, s), y) == Count(s, y)
  {
    hide Insert, Precedes, Count;
    forall y ensures Count(Sort(key, s), y) == Count(s, y) {
      SortHas(key, s, y);
    }
    if s != [] {
      var r := Sort(key, s[1..]);
      SortArranges(key, s[1..]);
      forall i, j | 0 <= i < j < |r| ensures Precedes(key, s, r[i], r[j]) {
        LongerTurn(key, s, r[i], r[j]);
      }
      forall j | 0 <= j < |r| && key(s[0]) <= key(r[j]) ensures Precedes(key, s, s[0], r[j]) {
        SortIn(key, s[1..], j);
        FirstPrecedes(key, s, r[j]);
      }
      InsertArranges(key, s, s[0], r);
    }
  }

  lemma FirstPrecedes<T(!new)>(key: T -> int, s: seq<T>, y: T)
    requires s != [] && y in s[1..] && key(s[0]) <= key(y)
    ensures Precedes(key, s, s[0], y)
  {
    var k :| 0 <= k < |s[1..]| && s[1..][k] == y;
    assert s[0] == s[0] && s[k + 1] == y;
  }
}
