/** Decimal text shared by the models: how the programs write a number, read it
    back, and find a separator. */
module Text {

  datatype Option<+T> = None | Some(value: T)

  /** White space as JavaScript's `\s` and `trim` take it. */
  predicate IsSpace(c: char) {
    '\t' <= c <= '\r' || c == ' ' || c == '\U{00A0}' || c == '\U{1680}' || '\U{2000}' <= c <= '\U{200A}'
    || c == '\U{2028}' || c == '\U{2029}' || c == '\U{202F}' || c == '\U{205F}' || c == '\U{3000}' || c == '\U{FEFF}'
  }

  predicate IsDigit(c: char) {
    '0' <= c <= '9'
  }

  predicate AllDigits(s: string) {
    forall i :: 0 <= i < |s| ==> IsDigit(s[i])
  }

  function Digit(d: nat): (c: char)
    requires d < 10
    ensures IsDigit(c) && DigitValue(c) == d
  {
    ('0' as int + d) as char
  }

  function DigitValue(c: char): (d: nat)
    requires IsDigit(c)
    ensures d < 10
  {
    c as int - '0' as int
  }

  /** `String(n)` in TypeScript and `%d` in Go, for a number that is not negative. */
  function Decimal(n: nat): (s: string)
    ensures s != [] && AllDigits(s)
  {
    if n < 10 then [Digit(n)] else Decimal(n / 10) + [Digit(n % 10)]
  }

  /** The number a run of digits stands for; the empty run stands for zero. */
  function Value(s: string): (v: int)
    requires AllDigits(s)
    ensures v >= 0
  {
    if s == [] then 0 else Value(s[..|s| - 1]) * 10 + DigitValue(s[|s| - 1])
  }

  lemma {:induction false} ValueOfDecimal(n: nat)
    ensures Value(Decimal(n)) == n
  {
    if n >= 10 {
      var s := Decimal(n);
      assert s[..|s| - 1] == Decimal(n / 10);
      ValueOfDecimal(n / 10);
    }
  }

  lemma Regroup(a: int, p: int, b: int, d: int)
    ensures (a * p + b) * 10 + d == a * (10 * p) + (b * 10 + d)
  {
  }

  lemma {:induction false} ValueOfConcat(s: string, t: string)
    requires AllDigits(s) && AllDigits(t)
    ensures AllDigits(s + t) && Value(s + t) == Value(s) * Pow10(|t|) + Value(t)
  {
    if t == [] {
      assert s + t == s;
    } else {
      var u, d := t[..|t| - 1], DigitValue(t[|t| - 1]);
      ValueOfConcat(s, u);
      Regroup(Value(s), Pow10(|u|), Value(u), d);
      assert (s + t)[..|s + t| - 1] == s + u;
      assert Value(s + t) == Value(s + u) * 10 + d;
      hide Value;
      assert Pow10(|t|) == 10 * Pow10(|u|);
    }
  }

  function Pow10(n: nat): (p: nat)
    ensures p > 0
  {
    if n == 0 then 1 else 10 * Pow10(n - 1)
  }

  lemma {:induction false} Pow10Adds(a: nat, b: nat)
    ensures Pow10(a + b) == Pow10(a) * Pow10(b)
  {
    if a > 0 {
      Pow10Adds(a - 1, b);
      assert Pow10(a + b) == 10 * (Pow10(a - 1) * Pow10(b));
    }
  }

  /** Go's `%d` for an int64 of either sign. */
  function FormatInt(n: int): string {
    if n < 0 then "-" + Decimal(-n) else Decimal(n)
  }

  predicate IsInt64(n: int) {
    -0x8000_0000_0000_0000 <= n < 0x8000_0000_0000_0000
  }

  /** Go's `strconv.ParseInt(s, 10, 64)`: an optional sign, at least one digit,
      nothing else, and a value an int64 can hold. */
  function ParseInt(s: string): (r: Option<int>)
    ensures r.Some? ==> IsInt64(r.value)
  {
    var signed := s != [] && (s[0] == '-' || s[0] == '+');
    var digits := if signed then s[1..] else s;
    if digits == [] || !AllDigits(digits) then None
    else
      var n := if s[0] == '-' then -Value(digits) else Value(digits);
      if IsInt64(n) then Some(n) else None
  }

  lemma ParseOfDigits(d: string)
    requires AllDigits(d) && d != []
    ensures ParseInt(d) == if IsInt64(Value(d)) then Some(Value(d)) else None
    ensures ParseInt("-" + d) == if IsInt64(-Value(d)) then Some(-Value(d)) else None
  {
    assert IsDigit(d[0]);
    assert ("-" + d)[1..] == d;
  }

  lemma ParseOfFormat(n: int)
    requires IsInt64(n)
    ensures ParseInt(FormatInt(n)) == Some(n)
  {
    var m := if n < 0 then -n else n;
    ValueOfDecimal(m);
    ParseOfDigits(Decimal(m));
  }

  /** Equal renderings come from equal numbers, of any sign and size. */
  lemma FormatInjective(a: int, b: int)
    requires FormatInt(a) == FormatInt(b)
    ensures a == b
  {
    assert IsDigit(Decimal(if a < 0 then -a else a)[0]);
    assert IsDigit(Decimal(if b < 0 then -b else b)[0]);
    ValueOfDecimal(if a < 0 then -a else a);
    ValueOfDecimal(if b < 0 then -b else b);
    if a < 0 && b < 0 {
      assert Decimal(-a) == FormatInt(a)[1..] == FormatInt(b)[1..] == Decimal(-b);
    }
  }

  /** `strings.LastIndex` for a one-character needle. */
  function LastIndex(s: string, c: char): (i: int)
    ensures -1 <= i < |s|
    ensures i >= 0 ==> s[i] == c
    ensures forall k :: i < k < |s| ==> s[k] != c
  {
    if s == [] then -1
    else if s[|s| - 1] == c then |s| - 1
    else LastIndex(s[..|s| - 1], c)
  }

  lemma LastIndexUnique(s: string, c: char, i: nat)
    requires i < |s| && s[i] == c && forall k :: i < k < |s| ==> s[k] != c
    ensures LastIndex(s, c) == i
  {
  }

  /** Division with remainder has one answer. */
  lemma DivModUnique(x: int, m: int, q: int, r: int)
    requires m > 0 && 0 <= r < m && x == m * q + r
    ensures x / m == q && x % m == r
  {
    var d := q - x / m;
    assert m * d == x % m - r;
    assert d >= 1 ==> m * d >= m;
    assert d <= -1 ==> m * d <= -m;
  }
}
