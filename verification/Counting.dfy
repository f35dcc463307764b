/** How often an element occurs in a list. */
module Counting {

  function Count<T(==)>(s: seq<T>, x: T): nat {
    if s == [] then 0 else (if s[0] == x then 1 else 0) + Count(s[1..], x)
  }

  lemma CountNone<T>(x: T)
    ensures Count([], x) == 0
  {
  }

  lemma CountOne<T>(y: T, x: T)
    ensures Count([y], x) == if y == x then 1 else 0
  {
    assert [y][1..] == [];
  }

  lemma {:induction false} CountConcat<T>(a: seq<T>, b: seq<T>, x: T)
    ensures Count(a + b, x) == Count(a, x) + Count(b, x)
  {
    if a == [] {
      assert a + b == b;
    } else {
      assert (a + b)[1..] == a[1..] + b;
      CountConcat(a[1..], b, x);
    }
  }

  lemma {:induction false} CountIn<T>(s: seq<T>, i: nat)
    requires i < |s|
    ensures Count(s, s[i]) > 0
  {
    if i > 0 {
      CountIn(s[1..], i - 1);
    }
  }

  lemma {:induction false} Find<T>(s: seq<T>, x: T) returns (i: nat)
    requires Count(s, x) > 0
    ensures i < |s| && s[i] == x
  {
    if s[0] == x {
      i := 0;
    } else {
      i := Find(s[1..], x);
      i := i + 1;
    }
  }

  /** Lists in which every element occurs equally often are equally long. */
  lemma {:induction false} SameCounts<T>(a: seq<T>, b: seq<T>)
    requires forall x :: Count(a, x) == Count(b, x)
    ensures |a| == |b|
    decreases |a|
  {
    if a == [] {
      if b != [] {
        CountIn(b, 0);
      }
    } else {
      CountIn(a, 0);
      var i := Find(b, a[0]);
      var rest := b[..i] + b[i + 1..];
      assert b == b[..i] + ([b[i]] + b[i + 1..]) && a == [a[0]] + a[1..];
      forall x ensures Count(a[1..], x) == Count(rest, x) {
        CountConcat(b[..i], [b[i]] + b[i + 1..], x);
        CountConcat([b[i]], b[i + 1..], x);
        CountConcat(b[..i], b[i + 1..], x);
        CountConcat([a[0]], a[1..], x);
        CountOne(b[i], x);
        CountOne(a[0], x);
      }
      SameCounts(a[1..], rest);
    }
  }

  /** An element that occurs once stands in one place. */
  lemma OncePlace<T>(s: seq<T>, i: nat, j: nat)
    requires i < j < |s| && s[i] == s[j]
    ensures Count(s, s[i]) >= 2
  {
    assert s == s[..j] + s[j..];
    CountConcat(s[..j], s[j..], s[i]);
    CountIn(s[..j], i);
    CountIn(s[j..], 0);
  }
}
