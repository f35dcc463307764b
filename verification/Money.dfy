/** The exact decimal sums of frontend/src/lib/inquiryWorkspace.ts and
    frontend/src/lib/contractEditing.ts. */
module Money {
  import opened Text

  /** A decimal number `n / 10^scale`. */
  datatype Number = Number(n: nat, scale: nat)

  // --------------------------------------------------------------------- reading

  function TrimStart(s: string): string {
    if s != "" && IsSpace(s[0]) then TrimStart(s[1..]) else s
  }

  function TrimEnd(s: string): string {
    if s != "" && IsSpace(s[|s| - 1]) then TrimEnd(s[..|s| - 1]) else s
  }

  function Trim(s: string): string {
    TrimEnd(TrimStart(s))
  }

  /** The leading digits. */
  function Digits(s: string): (d: string)
    ensures AllDigits(d) && d <= s && (|d| < |s| ==> !IsDigit(s[|d|]))
  {
    if s == "" || !IsDigit(s[0]) then "" else [s[0]] + Digits(s[1..])
  }

  datatype Prefix = Prefix(number: Number, rest: string)

  /** Digits and, where there are any after a dot, decimals. */
  function ReadNumber(s: string): Option<Prefix> {
    var whole := Digits(s);
    if whole == "" then None
    else
      var rest := s[|whole|..];
      var decimals := if rest != "" && rest[0] == '.' then Digits(rest[1..]) else "";
      Some(Prefix(Number(Value(whole + decimals), |decimals|), if decimals == "" then rest else rest[|decimals| + 1..]))
  }

  /** `parse` of `chargeSubtotal`: a plain decimal and nothing else. */
  function Parse(v: string): Option<Number> {
    match ReadNumber(Trim(v))
    case None => None
    case Some(p) => if p.rest == "" then Some(p.number) else None
  }

  // -------------------------------------------------------------------- rendering

  function Zeros(n: nat): (s: string)
    ensures |s| == n && AllDigits(s)
  {
    if n == 0 then "" else "0" + Zeros(n - 1)
  }

  /** `padStart(width, '0')`. */
  function Padded(n: nat, width: nat): (s: string)
    ensures AllDigits(s) && |s| >= width && s != ""
  {
    var d := Decimal(n);
    if |d| >= width then d else Zeros(width - |d|) + d
  }

  /** A number with its decimals behind a dot, if it has any. */
  function Rendered(x: Number): string {
    var digits := Padded(x.n, x.scale + 1);
    if x.scale == 0 then digits else digits[..|digits| - x.scale] + "." + digits[|digits| - x.scale..]
  }

  /** Cents as the program prints them. */
  function Cents(n: nat): string {
    Decimal(n / 100) + "." + Padded(n % 100, 2)
  }

  lemma {:induction false} ValueOfZeros(n: nat)
    ensures Value(Zeros(n)) == 0
  {
    if n > 0 {
      ValueOfZeros(n - 1);
      ValueOfConcat("0", Zeros(n - 1));
      assert "0"[..0] == "";
    }
  }

  lemma {:induction false} ValueOfPadded(n: nat, width: nat)
    ensures Value(Padded(n, width)) == n
  {
    hide Value, Decimal, Zeros, Pow10;
    var d := Decimal(n);
    ValueOfDecimal(n);
    if |d| < width {
      ValueOfZeros(width - |d|);
      ValueOfConcat(Zeros(width - |d|), d);
      assert 0 * Pow10(|d|) == 0;
    }
  }

  lemma {:induction false} DigitsStop(d: string, t: string)
    requires AllDigits(d) && (t == "" || !IsDigit(t[0]))
    ensures Digits(d + t) == d
  {
    if d == "" {
      assert d + t == t;
    } else {
      assert (d + t)[1..] == d[1..] + t;
      DigitsStop(d[1..], t);
    }
  }

  lemma TrimNothing(s: string)
    requires s != "" ==> !IsSpace(s[0]) && !IsSpace(s[|s| - 1])
    ensures Trim(s) == s
  {
  }

  lemma DottedParts(whole: string, decimals: string, rest: string)
    ensures var s, tail := whole + "." + decimals + rest, "." + decimals + rest;
            && s == whole + tail && s[|whole|..] == tail && tail[0] == '.' && tail[1..] == decimals + rest
            && tail[|decimals| + 1..] == rest
  {
  }

  lemma ReadDotted(whole: string, decimals: string, rest: string)
    requires AllDigits(whole) && AllDigits(decimals) && whole != "" && decimals != "" && (rest == "" || !IsDigit(rest[0]))
    ensures ReadNumber(whole + "." + decimals + rest) == Some(Prefix(Number(Value(whole + decimals), |decimals|), rest))
  {
    var s, tail := whole + "." + decimals + rest, "." + decimals + rest;
    DottedParts(whole, decimals, rest);
    DigitsStop(whole, tail);
    DigitsStop(decimals, rest);
    hide Value, Digits;
    assert Digits(s) == whole && Digits(tail[1..]) == decimals;
    assert ReadNumber(s).value.rest == tail[|decimals| + 1..];
  }

  /** A dotted number reads back digit for digit. */
  lemma ParseDotted(whole: string, decimals: string)
    requires AllDigits(whole) && AllDigits(decimals) && whole != "" && decimals != ""
    ensures Parse(whole + "." + decimals) == Some(Number(Value(whole + decimals), |decimals|))
  {
    hide Trim, Value, ReadNumber;
    var s := whole + "." + decimals;
    assert s[0] == whole[0] && s[|s| - 1] == decimals[|decimals| - 1];
    assert IsDigit(whole[0]) && IsDigit(decimals[|decimals| - 1]);
    TrimNothing(s);
    ReadDotted(whole, decimals, "");
    assert s + "" == s;
  }

  lemma ParseWhole(whole: string)
    requires AllDigits(whole) && whole != ""
    ensures Parse(whole) == Some(Number(Value(whole), 0))
  {
    assert IsDigit(whole[0]) && IsDigit(whole[|whole| - 1]);
    TrimNothing(whole);
    hide Trim, Value, Digits;
    assert whole + "" == whole;
    DigitsStop(whole, "");
  }

  /** Every rendering reads back as the same number with the same decimals. */
  lemma ParseOfRendered(x: Number)
    ensures Parse(Rendered(x)) == Some(x)
  {
    hide Parse, Value;
    var digits := Padded(x.n, x.scale + 1);
    ValueOfPadded(x.n, x.scale + 1);
    if x.scale == 0 {
      ParseWhole(digits);
    } else {
      var whole, decimals := digits[..|digits| - x.scale], digits[|digits| - x.scale..];
      assert whole + decimals == digits;
      ParseDotted(whole, decimals);
    }
  }

  lemma TwoDigits(n: nat)
    requires n < 100
    ensures |Padded(n, 2)| == 2
  {
    if n >= 10 {
      assert Decimal(n) == Decimal(n / 10) + [Digit(n % 10)];
      assert Decimal(n / 10) == [Digit(n / 10)];
    }
  }

  lemma CentsDigits(n: nat)
    ensures Value(Decimal(n / 100) + Padded(n % 100, 2)) == n
  {
    assert Pow10(2) == 100 by { assert Pow10(1) == 10; }
    TwoDigits(n % 100);
    ValueOfPadded(n % 100, 2);
    ValueOfDecimal(n / 100);
    var whole, decimals := Decimal(n / 100), Padded(n % 100, 2);
    hide Value, Decimal, Padded, Pow10;
    ValueOfConcat(whole, decimals);
  }

  /** Printed cents read back as the same cents, with the dot or without it. */
  lemma CentsReadBack(n: nat)
    ensures Parse(Cents(n)) == Some(Number(n, 2))
    ensures var whole, decimals := Decimal(n / 100), Padded(n % 100, 2);
            Cents(n) == whole + "." + decimals && Value(whole + decimals) == n
  {
    TwoDigits(n % 100);
    CentsDigits(n);
    hide Parse, Value, Decimal, Padded;
    ParseDotted(Decimal(n / 100), Padded(n % 100, 2));
  }

  /** Exactly the plain decimals are read, with white space around them or not. */
  lemma ParseExactly(v: string) returns (whole: string, decimals: string)
    ensures AllDigits(whole) && AllDigits(decimals)
    ensures Parse(v).Some? ==> whole != "" && Parse(v).value == Number(Value(whole + decimals), |decimals|)
    ensures Parse(v).Some? ==> Trim(v) == if decimals == "" then whole else whole + "." + decimals
    ensures Parse(v).None? ==> forall w, d :: IsDecimal(w, d) ==> Trim(v) != w && Trim(v) != w + "." + d
  {
    whole, decimals := "", "";
    var t := Trim(v);
    hide Trim, Value;
    if Parse(v).Some? {
      whole := Digits(t);
      var rest := t[|whole|..];
      decimals := if rest != "" && rest[0] == '.' then Digits(rest[1..]) else "";
      assert t == whole + rest;
      if decimals != "" {
        assert rest == "." + decimals;
      }
    } else {
      forall w, d | IsDecimal(w, d) ensures t != w && t != w + "." + d {
        NotMissing(w, d);
      }
    }
  }

  predicate IsDecimal(w: string, d: string) {
    AllDigits(w) && AllDigits(d) && w != "" && d != ""
  }

  lemma NotMissing(w: string, d: string)
    requires IsDecimal(w, d)
    ensures ReadNumber(w).Some? && ReadNumber(w).value.rest == ""
    ensures ReadNumber(w + "." + d).Some? && ReadNumber(w + "." + d).value.rest == ""
  {
    assert w + "" == w && w + "." + d + "" == w + "." + d;
    DigitsStop(w, "");
    ReadDotted(w, d, "");
    hide Digits, Value;
  }

  // -------------------------------------------------------------------- subtotals

  /** A quotient, one more when the remainder is half or over. */
  function HalfUp(num: nat, den: nat): nat
    requires den > 0
  {
    num / den + if num % den * 2 >= den then 1 else 0
  }

  /** The cents of `chargeSubtotal`. */
  function SubtotalCents(a: Number, q: Number): nat {
    HalfUp(a.n * q.n * 100, Pow10(a.scale + q.scale))
  }

  /** `chargeSubtotal`; the empty text stands for a missing or malformed number. */
  function ChargeSubtotal(amount: string, quantity: string): string {
    if Parse(amount).None? || Parse(quantity).None? then ""
    else Cents(SubtotalCents(Parse(amount).value, Parse(quantity).value))
  }

  /** `cents` is `num / den` rounded, halves up. */
  predicate RoundsHalfUp(num: nat, den: nat, cents: nat) {
    (2 * cents - 1) * den <= 2 * num < (2 * cents + 1) * den
  }

  lemma Apart(a: nat, b: nat, den: nat)
    requires a < b
    ensures (2 * a + 1) * den <= (2 * b - 1) * den
  {
  }

  lemma RoundedOnce(num: nat, den: nat, a: nat, b: nat)
    requires den > 0 && RoundsHalfUp(num, den, a) && RoundsHalfUp(num, den, b)
    ensures a == b
  {
    if a < b {
      Apart(a, b, den);
    } else if b < a {
      Apart(b, a, den);
    }
  }

  lemma RoundQuotient(num: nat, den: nat)
    requires den > 0
    ensures RoundsHalfUp(num, den, HalfUp(num, den))
  {
    var q, r := num / den, num % den;
    assert num == q * den + r;
    if r * 2 >= den {
      assert (2 * (q + 1) - 1) * den == 2 * (q * den) + den;
      assert (2 * (q + 1) + 1) * den == 2 * (q * den) + 3 * den;
    } else {
      assert (2 * q - 1) * den == 2 * (q * den) - den;
      assert (2 * q + 1) * den == 2 * (q * den) + den;
    }
  }

  /** A subtotal is the one half-up rounding to cents of the exact product,
      whatever the number of decimals of its factors. */
  lemma SubtotalIsRounded(a: Number, q: Number, cents: nat)
    ensures RoundsHalfUp(a.n * q.n * 100, Pow10(a.scale) * Pow10(q.scale), cents) <==> cents == SubtotalCents(a, q)
  {
    Pow10Adds(a.scale, q.scale);
    var num, den := a.n * q.n * 100, Pow10(a.scale + q.scale);
    hide RoundsHalfUp, Pow10, HalfUp;
    RoundQuotient(num, den);
    if RoundsHalfUp(num, den, cents) {
      RoundedOnce(num, den, cents, SubtotalCents(a, q));
    }
  }

  // ----------------------------------------------------------------------- totals

  datatype Line = Line(unitPrice: string, qty: string)

  datatype Charge = Charge(amount: string, quantity: string, currency: string)

  function CentsOf(amount: string, quantity: string): Option<nat> {
    if Parse(amount).None? || Parse(quantity).None? then None
    else Some(SubtotalCents(Parse(amount).value, Parse(quantity).value))
  }

  /** `BigInt(amount.replace('.', ''))`: the digits of the printed cents. */
  function WithoutDot(s: string): string {
    if s == "" then "" else if s[0] == '.' then s[1..] else [s[0]] + WithoutDot(s[1..])
  }

  lemma {:induction false} DotRemoved(whole: string, decimals: string)
    requires AllDigits(whole)
    ensures WithoutDot(whole + "." + decimals) == whole + decimals
  {
    var s := whole + "." + decimals;
    if whole == "" {
      assert s[1..] == decimals && whole + decimals == decimals;
    } else {
      assert IsDigit(whole[0]) && s[1..] == whole[1..] + "." + decimals;
      DotRemoved(whole[1..], decimals);
      assert [whole[0]] + (whole[1..] + decimals) == whole + decimals;
    }
  }

  /** The digits of a printed subtotal stand for its cents. */
  lemma PrintedDigits(n: nat)
    ensures AllDigits(WithoutDot(Cents(n))) && Value(WithoutDot(Cents(n))) == n
    ensures Cents(n) != ""
  {
    hide Value;
    CentsReadBack(n);
    DotRemoved(Decimal(n / 100), Padded(n % 100, 2));
  }

  function TotalCents(lines: seq<Line>): Option<nat> {
    if lines == [] then Some(0)
    else
      var before, last := TotalCents(lines[..|lines| - 1]), lines[|lines| - 1];
      match (before, CentsOf(last.unitPrice, last.qty))
      case (Some(a), Some(b)) => Some(a + b)
      case _ => None
  }

  lemma {:induction false} NoTotal(lines: seq<Line>, k: nat)
    requires k < |lines| && CentsOf(lines[k].unitPrice, lines[k].qty).None?
    ensures TotalCents(lines) == None
    decreases |lines|
  {
    if k < |lines| - 1 {
      NoTotal(lines[..|lines| - 1], k);
    }
  }

  /** The dash the page shows for a total it cannot state. */
  const DASH := "\U{2014}"

  /** `contractTotal`: the exact sum of the rounded lines, or a dash when a line
      has no subtotal. */
  method ContractTotal(lines: seq<Line>) returns (text: string)
    ensures text == if TotalCents(lines).None? then DASH else Cents(TotalCents(lines).value)
  {
    hide Parse, SubtotalCents, Value;
    var cents := 0;
    for k := 0 to |lines|
      invariant TotalCents(lines[..k]) == Some(cents)
    {
      assert lines[..k + 1][..k] == lines[..k];
      var amount := ChargeSubtotal(lines[k].unitPrice, lines[k].qty);
      ghost var exact := CentsOf(lines[k].unitPrice, lines[k].qty);
      if exact.Some? {
        PrintedDigits(exact.value);
      }
      if amount == "" {
        NoTotal(lines, k);
        return DASH;
      }
      cents := cents + Value(WithoutDot(amount));
    }
    assert lines[..|lines|] == lines;
    text := Cents(cents);
  }

  /** The exact sum of the subtotals in one currency. `upper` is `toUpperCase`. */
  function SumIn(charges: seq<Charge>, upper: string -> string, currency: string): nat {
    if charges == [] then 0
    else
      var c := charges[|charges| - 1];
      SumIn(charges[..|charges| - 1], upper, currency)
      + if Counts(c) && upper(Trim(c.currency)) == currency then CentsOf(c.amount, c.quantity).value else 0
  }

  predicate Counts(c: Charge) {
    CentsOf(c.amount, c.quantity).Some?
  }

  function Currencies(charges: seq<Charge>, upper: string -> string): set<string> {
    set c | c in charges && Counts(c) && upper(Trim(c.currency)) != "" :: upper(Trim(c.currency))
  }

  lemma ChargeAdded(charges: seq<Charge>, upper: string -> string, i: nat)
    requires i < |charges|
    ensures var c, k := charges[i], upper(Trim(charges[i].currency));
            && Currencies(charges[..i + 1], upper) == Currencies(charges[..i], upper) + (if Counts(c) && k != "" then {k} else {})
            && forall m :: SumIn(charges[..i + 1], upper, m) ==
                           SumIn(charges[..i], upper, m) + if Counts(c) && k == m then CentsOf(c.amount, c.quantity).value else 0
  {
    hide Parse, SubtotalCents, Trim;
    assert charges[..i + 1][..i] == charges[..i] && charges[..i + 1] == charges[..i] + [charges[i]];
  }

  /** The running totals are those of the charges so far. */
  ghost predicate Running(sums: map<string, nat>, charges: seq<Charge>, upper: string -> string) {
    && sums.Keys == Currencies(charges, upper)
    && forall k :: k != "" ==> SumOf(sums, k) == SumIn(charges, upper, k)
  }

  function SumOf(sums: map<string, nat>, k: string): nat {
    if k in sums then sums[k] else 0
  }

  function WithCharge(sums: map<string, nat>, c: Charge, upper: string -> string): map<string, nat> {
    var k := upper(Trim(c.currency));
    if Counts(c) && k != "" then sums[k := SumOf(sums, k) + CentsOf(c.amount, c.quantity).value] else sums
  }

  lemma SumsStep(sums: map<string, nat>, charges: seq<Charge>, upper: string -> string, i: nat)
    requires i < |charges| && Running(sums, charges[..i], upper)
    ensures Running(WithCharge(sums, charges[i], upper), charges[..i + 1], upper)
  {
    hide SumIn, Currencies, Trim, CentsOf;
    ChargeAdded(charges, upper, i);
    var next, before, now := WithCharge(sums, charges[i], upper), charges[..i], charges[..i + 1];
    assert next.Keys == Currencies(now, upper);
    forall k | k != "" ensures SumOf(next, k) == SumIn(now, upper, k) {
      assert SumOf(sums, k) == SumIn(before, upper, k);
    }
  }

  /** `chargeTotals`: for every currency with a valid charge, and no other, the
      exact sum of its subtotals. */
  method ChargeTotals(charges: seq<Charge>, upper: string -> string) returns (totals: map<string, string>)
    ensures totals.Keys == Currencies(charges, upper)
    ensures forall k :: k in totals ==> totals[k] == Cents(SumIn(charges, upper, k))
  {
    hide Parse, SubtotalCents, Value, Trim, Cents, Running, SumIn, Currencies;
    var sums: map<string, nat> := map[];
    NoCharges(upper);
    for i := 0 to |charges|
      invariant Running(sums, charges[..i], upper)
    {
      var c := charges[i];
      SumsStep(sums, charges, upper, i);
      var sub, currency := ChargeSubtotal(c.amount, c.quantity), upper(Trim(c.currency));
      if Counts(c) {
        PrintedDigits(CentsOf(c.amount, c.quantity).value);
      }
      if sub == "" || currency == "" {
        continue;
      }
      sums := sums[currency := SumOf(sums, currency) + Value(WithoutDot(sub))];
    }
    assert charges[..|charges|] == charges;
    SumsMean(sums, charges, upper);
    totals := map k | k in sums :: Cents(sums[k]);
  }

  lemma NoCharges(upper: string -> string)
    ensures Running(map[], [], upper)
  {
  }

  lemma SumsMean(sums: map<string, nat>, charges: seq<Charge>, upper: string -> string)
    requires Running(sums, charges, upper)
    ensures sums.Keys == Currencies(charges, upper) && forall k :: k in sums ==> sums[k] == SumIn(charges, upper, k)
  {
    hide SumIn;
    assert forall k :: k in sums ==> SumOf(sums, k) == sums[k];
  }

  // --------------------------------------------------------------- product totals

  predicate LineBreak(c: char) {
    c == '\n' || c == '\r' || c == '\U{2028}' || c == '\U{2029}'
  }

  datatype Quantity = Quantity(number: Number, unit: string)

  /** A number, then its unit on the same line. */
  function ReadQuantity(v: string): Option<Quantity> {
    match ReadNumber(Trim(v))
    case None => None
    case Some(p) =>
      var unit := TrimStart(p.rest);
      if exists i :: 0 <= i < |unit| && LineBreak(unit[i]) then None else Some(Quantity(p.number, unit))
  }

  predicate Spaces(s: string) {
    forall i :: 0 <= i < |s| ==> IsSpace(s[i])
  }

  /** Nothing to trim at either end. */
  predicate Trimmed(s: string) {
    s != "" ==> !IsSpace(s[0]) && !IsSpace(s[|s| - 1])
  }

  lemma {:induction false} TrimStartSkips(lead: string, s: string)
    requires Spaces(lead) && (s == "" || !IsSpace(s[0]))
    ensures TrimStart(lead + s) == s
  {
    if lead == "" {
      assert lead + s == s;
    } else {
      assert (lead + s)[1..] == lead[1..] + s;
      TrimStartSkips(lead[1..], s);
    }
  }

  lemma {:induction false} TrimEndSkips(s: string, trail: string)
    requires Spaces(trail) && (s == "" || !IsSpace(s[|s| - 1]))
    ensures TrimEnd(s + trail) == s
    decreases |trail|
  {
    if trail == "" {
      assert s + trail == s;
    } else {
      assert (s + trail)[..|s + trail| - 1] == s + trail[..|trail| - 1];
      TrimEndSkips(s, trail[..|trail| - 1]);
    }
  }

  lemma TrimAround(lead: string, s: string, trail: string)
    requires Spaces(lead) && Spaces(trail) && Trimmed(s) && s != ""
    ensures Trim(lead + s + trail) == s
  {
    assert lead + s + trail == lead + (s + trail);
    TrimStartSkips(lead, s + trail);
    TrimEndSkips(s, trail);
  }

  /** What follows a number cannot be taken for more of it. */
  predicate EndsNumber(decimals: string, rest: string) {
    rest != "" ==> !IsDigit(rest[0]) && (decimals == "" ==> rest[0] != '.' || |rest| == 1 || !IsDigit(rest[1]))
  }

  function Dotted(whole: string, decimals: string): string {
    if decimals == "" then whole else whole + "." + decimals
  }

  lemma NumberReads(whole: string, decimals: string, rest: string)
    requires AllDigits(whole) && AllDigits(decimals) && whole != "" && EndsNumber(decimals, rest)
    ensures ReadNumber(Dotted(whole, decimals) + rest) == Some(Prefix(Number(Value(whole + decimals), |decimals|), rest))
  {
    if decimals == "" {
      WholeReads(whole, rest);
      assert whole + decimals == whole;
    } else {
      ReadDotted(whole, decimals, rest);
    }
    hide ReadNumber, Value;
  }

  lemma WholeReads(whole: string, rest: string)
    requires AllDigits(whole) && whole != "" && EndsNumber("", rest)
    ensures ReadNumber(whole + rest) == Some(Prefix(Number(Value(whole), 0), rest))
  {
    var s := whole + rest;
    DigitsStop(whole, rest);
    assert s[|whole|..] == rest && whole + "" == whole;
    if rest != "" && rest[0] == '.' {
      assert "" + rest[1..] == rest[1..];
      DigitsStop("", rest[1..]);
    }
    hide Value, Digits;
  }

  predicate OneLine(s: string) {
    forall i :: 0 <= i < |s| ==> !LineBreak(s[i])
  }

  /** A cell text of a number, any white space, and a unit on one line reads as
      that number with its decimals and exactly that unit. */
  lemma QuantityReads(lead: string, whole: string, decimals: string, gap: string, unit: string, trail: string)
    requires Spaces(lead) && Spaces(gap) && Spaces(trail) && AllDigits(whole) && AllDigits(decimals) && whole != ""
    requires Trimmed(unit) && OneLine(unit) && EndsNumber(decimals, gap + unit) && (unit == "" ==> gap == "")
    ensures ReadQuantity(lead + (Dotted(whole, decimals) + gap + unit) + trail) ==
            Some(Quantity(Number(Value(whole + decimals), |decimals|), unit))
  {
    hide Value, ReadNumber, Trim, TrimStart;
    var s := Dotted(whole, decimals) + gap + unit;
    assert s == Dotted(whole, decimals) + (gap + unit);
    assert IsDigit(s[0]) && (unit == "" ==> IsDigit(s[|s| - 1])) && (unit != "" ==> s[|s| - 1] == unit[|unit| - 1]);
    TrimAround(lead, s, trail);
    NumberReads(whole, decimals, gap + unit);
    TrimStartSkips(gap, unit);
  }

  lemma {:induction false} TrimStartSubset(s: string)
    requires OneLine(s)
    ensures OneLine(TrimStart(s))
  {
    if s != "" && IsSpace(s[0]) {
      TrimStartSubset(s[1..]);
    }
  }

  lemma RestIsOneLine(t: string, p: Prefix)
    requires OneLine(t) && ReadNumber(t) == Some(p)
    ensures OneLine(p.rest)
  {
    hide Value;
  }

  /** A text that does not begin with a digit is missing; one that does, on a
      single line, is not. */
  lemma QuantityMissing(v: string)
    ensures Trim(v) == "" || !IsDigit(Trim(v)[0]) ==> ReadQuantity(v) == None
    ensures Trim(v) != "" && IsDigit(Trim(v)[0]) && OneLine(Trim(v)) ==> ReadQuantity(v).Some?
  {
    var t := Trim(v);
    hide Trim, Value;
    if t != "" && IsDigit(t[0]) && OneLine(t) {
      assert Digits(t) != "";
      assert ReadNumber(t).Some?;
      RestIsOneLine(t, ReadNumber(t).value);
      TrimStartSubset(ReadNumber(t).value.rest);
    }
  }

  /** One product's cell: its text, and the unit column where there is one. */
  datatype Cell = Cell(text: string, unitColumn: Option<string>)

  function UnitOf(c: Cell): Option<Quantity> {
    match ReadQuantity(c.text)
    case None => None
    case Some(q) => Some(if c.unitColumn.Some? then q.(unit := c.unitColumn.value) else q)
  }

  /** The names an empty JavaScript object answers to all the same. */
  const INHERITED: set<string> := {
    "constructor", "hasOwnProperty", "isPrototypeOf", "propertyIsEnumerable", "toLocaleString", "toString", "valueOf",
    "__proto__", "__defineGetter__", "__defineSetter__", "__lookupGetter__", "__lookupSetter__"}

  predicate InUnit(c: Cell, unit: string) {
    UnitOf(c).Some? && UnitOf(c).value.unit == unit
  }

  function LargerOf(a: nat, b: nat): nat {
    if a > b then a else b
  }

  /** The most decimals stated in one unit. */
  function MostDecimals(cells: seq<Cell>, unit: string): nat {
    if cells == [] then 0
    else
      var rest, last := MostDecimals(cells[..|cells| - 1], unit), cells[|cells| - 1];
      if InUnit(last, unit) then LargerOf(rest, UnitOf(last).value.number.scale) else rest
  }

  /** A number in steps of `10^-scale`. */
  function InSteps(x: Number, scale: nat): nat {
    if x.scale <= scale then x.n * Pow10(scale - x.scale) else 0
  }

  /** The sum in one unit, in steps of `10^-scale`. */
  function SumAt(cells: seq<Cell>, unit: string, scale: nat): nat {
    if cells == [] then 0
    else
      SumAt(cells[..|cells| - 1], unit, scale)
      + if InUnit(cells[|cells| - 1], unit) then InSteps(UnitOf(cells[|cells| - 1]).value.number, scale) else 0
  }

  lemma Distribute(a: int, b: int, p: int, q: int)
    ensures (a + b * p) * q == a * q + b * (p * q)
  {
  }

  lemma Rescale(a: nat, b: nat, from: nat, mid: nat, to: nat)
    requires from <= mid <= to
    ensures (a + b * Pow10(mid - from)) * Pow10(to - mid) == a * Pow10(to - mid) + b * Pow10(to - from)
  {
    Pow10Adds(mid - from, to - mid);
    var p, q, r := Pow10(mid - from), Pow10(to - mid), Pow10(to - from);
    hide Pow10;
    assert r == p * q;
    Distribute(a, b, p, q);
  }

  lemma StepsRescale(sum: nat, x: Number, a: nat, b: nat)
    requires x.scale <= a <= b
    ensures (sum + InSteps(x, a)) * Pow10(b - a) == sum * Pow10(b - a) + InSteps(x, b)
  {
    hide Pow10;
    Rescale(sum, x.n, x.scale, a, b);
  }

  lemma {:induction false} SumRescales(cells: seq<Cell>, unit: string, a: nat, b: nat)
    requires MostDecimals(cells, unit) <= a <= b
    ensures SumAt(cells, unit, b) == SumAt(cells, unit, a) * Pow10(b - a)
    decreases |cells|
  {
    hide UnitOf, Pow10, InSteps;
    if cells != [] {
      var before, last := cells[..|cells| - 1], cells[|cells| - 1];
      SumRescales(before, unit, a, b);
      if InUnit(last, unit) {
        StepsRescale(SumAt(before, unit, a), UnitOf(last).value.number, a, b);
      }
    }
  }

  function Units(cells: seq<Cell>): set<string> {
    set c | c in cells && UnitOf(c).Some? :: UnitOf(c).value.unit
  }

  function Missing(cells: seq<Cell>): nat {
    if cells == [] then 0 else Missing(cells[..|cells| - 1]) + if UnitOf(cells[|cells| - 1]).None? then 1 else 0
  }

  /** The groups hold, unit by unit, the exact sum with as many decimals as the
      most precise entry. */
  ghost predicate ExactGroups(cells: seq<Cell>, groups: map<string, Number>) {
    && groups.Keys == Units(cells)
    && forall u :: u in groups ==>
         groups[u].scale == MostDecimals(cells, u) && groups[u].n == SumAt(cells, u, MostDecimals(cells, u))
  }

  /** Adding one number to a group, as the loop does. */
  function Added(sum: Number, x: Number): Number {
    var common := LargerOf(sum.scale, x.scale);
    Number(InSteps(sum, common) + InSteps(x, common), common)
  }

  lemma GroupAdded(cells: seq<Cell>, i: nat, groups: map<string, Number>)
    requires i < |cells| && ExactGroups(cells[..i], groups) && UnitOf(cells[i]).Some?
    ensures var q := UnitOf(cells[i]).value;
            var before := if q.unit in groups then groups[q.unit] else Number(0, 0);
            ExactGroups(cells[..i + 1], groups[q.unit := Added(before, q.number)])
  {
    hide UnitOf;
    var now, q := cells[..i + 1], UnitOf(cells[i]).value;
    var before := if q.unit in groups then groups[q.unit] else Number(0, 0);
    assert now[..i] == cells[..i] && now == cells[..i] + [cells[i]];
    if q.unit !in groups {
      NothingInUnit(cells[..i], q.unit);
    }
    var common := LargerOf(before.scale, q.number.scale);
    assert MostDecimals(now, q.unit) == common;
    SumRescales(cells[..i], q.unit, before.scale, common);
    forall u | u in groups && u != q.unit
      ensures MostDecimals(now, u) == MostDecimals(cells[..i], u) && SumAt(now, u, MostDecimals(now, u)) == SumAt(cells[..i], u, MostDecimals(now, u))
    {
      assert !InUnit(cells[i], u);
    }
  }

  lemma {:induction false} NothingInUnit(cells: seq<Cell>, u: string)
    requires u !in Units(cells)
    ensures MostDecimals(cells, u) == 0 && SumAt(cells, u, 0) == 0
    decreases |cells|
  {
    hide UnitOf;
    if cells != [] {
      var before := cells[..|cells| - 1];
      assert cells[|cells| - 1] in cells;
      NothingInUnit(before, u);
    }
  }

  lemma GroupKept(cells: seq<Cell>, i: nat, groups: map<string, Number>)
    requires i < |cells| && ExactGroups(cells[..i], groups) && UnitOf(cells[i]).None?
    ensures ExactGroups(cells[..i + 1], groups)
  {
    hide UnitOf;
    var now := cells[..i + 1];
    assert now[..i] == cells[..i] && now == cells[..i] + [cells[i]];
    forall u | u in groups
      ensures MostDecimals(now, u) == MostDecimals(cells[..i], u) && SumAt(now, u, MostDecimals(now, u)) == SumAt(cells[..i], u, MostDecimals(now, u))
    {
      assert !InUnit(cells[i], u);
    }
  }

  datatype Outcome = Sums(groups: map<string, Number>, missing: nat) | RangeError

  /** `productTotal` up to the joining of its parts: exact sums per unit, never
      mixing units. It fails if and only if a unit is a name that every object
      inherits. */
  method ProductTotal(cells: seq<Cell>) returns (r: Outcome)
    ensures r == RangeError <==> exists u :: u in Units(cells) && u in INHERITED
    ensures r.Sums? ==> ExactGroups(cells, r.groups) && r.missing == Missing(cells)
    ensures r.Sums? ==> forall u :: u in r.groups ==> PrintsExactly(cells, u, r.groups[u])
  {
    hide UnitOf, ExactGroups, Added, PrintsExactly;
    var groups: map<string, Number>, missing := map[], 0;
    NoGroups();
    for i := 0 to |cells|
      invariant ExactGroups(cells[..i], groups) && missing == Missing(cells[..i])
      invariant forall u :: u in Units(cells[..i]) ==> u !in INHERITED
    {
      assert cells[..i + 1][..i] == cells[..i] && cells[..i + 1] == cells[..i] + [cells[i]];
      var q := UnitOf(cells[i]);
      if q.None? {
        GroupKept(cells, i, groups);
        missing := missing + 1;
        continue;
      }
      var unit := q.value.unit;
      if unit in INHERITED {
        assert unit in Units(cells);
        return RangeError;
      }
      GroupAdded(cells, i, groups);
      groups := groups[unit := Added(if unit in groups then groups[unit] else Number(0, 0), q.value.number)];
    }
    assert cells[..|cells|] == cells;
    forall u | u in groups ensures PrintsExactly(cells, u, groups[u]) {
      PrintedSumReadsBack(cells, groups, u);
    }
    return Sums(groups, missing);
  }

  lemma NoGroups()
    ensures ExactGroups([], map[])
  {
  }

  /** What the page prints for the group reads back as the exact sum of the unit. */
  predicate PrintsExactly(cells: seq<Cell>, u: string, sum: Number) {
    Parse(Rendered(sum)) == Some(Number(SumAt(cells, u, MostDecimals(cells, u)), MostDecimals(cells, u)))
  }

  lemma PrintedSumReadsBack(cells: seq<Cell>, groups: map<string, Number>, u: string)
    requires ExactGroups(cells, groups) && u in groups
    ensures PrintsExactly(cells, u, groups[u])
  {
    ParseOfRendered(groups[u]);
    hide Parse, Rendered, SumAt, MostDecimals;
  }

  // ------------------------------------------------------- what the sums add up

  function Plus(a: Option<nat>, b: Option<nat>): Option<nat> {
    if a.None? || b.None? then None else Some(a.value + b.value)
  }

  /** The cents of one line: the half-up rounding of the exact product, or none if
      a number is missing or malformed. */
  predicate CentsOk(a: Option<Number>, q: Option<Number>, cents: Option<nat>) {
    if a.None? || q.None? then cents == None
    else cents.Some? && RoundsHalfUp(a.value.n * q.value.n * 100, Pow10(a.value.scale) * Pow10(q.value.scale), cents.value)
  }

  lemma CentsAreOk(amount: string, quantity: string)
    ensures CentsOk(Parse(amount), Parse(quantity), CentsOf(amount, quantity))
  {
    var a, q := Parse(amount), Parse(quantity);
    if a.Some? && q.Some? {
      SubtotalIsRounded(a.value, q.value, SubtotalCents(a.value, q.value));
    }
  }

  /** A contract adds up line by line, however it is cut in two. */
  lemma {:induction false} LinesAddUp(a: seq<Line>, b: seq<Line>)
    ensures TotalCents(a + b) == Plus(TotalCents(a), TotalCents(b))
    decreases |b|
  {
    hide CentsOf;
    if b == [] {
      assert a + b == a;
    } else {
      var before := b[..|b| - 1];
      LinesAddUp(a, before);
      assert (a + b)[..|a + b| - 1] == a + before;
    }
  }

  lemma OneLineTotal(l: Line)
    ensures TotalCents([]) == Some(0) && CentsOk(Parse(l.unitPrice), Parse(l.qty), TotalCents([l]))
  {
    CentsAreOk(l.unitPrice, l.qty);
    hide CentsOf, CentsOk;
    assert [l][..0] == [];
  }

  /** Charges add up currency by currency, however they are cut in two. */
  lemma {:induction false} ChargesAddUp(a: seq<Charge>, b: seq<Charge>, upper: string -> string, k: string)
    ensures SumIn(a + b, upper, k) == SumIn(a, upper, k) + SumIn(b, upper, k)
    ensures Currencies(a + b, upper) == Currencies(a, upper) + Currencies(b, upper)
    decreases |b|
  {
    hide Parse, CentsOf, Trim;
    if b == [] {
      assert a + b == a;
    } else {
      var before := b[..|b| - 1];
      ChargesAddUp(a, before, upper, k);
      assert (a + b)[..|a + b| - 1] == a + before;
      LastCurrency(b, upper);
      LastCurrency(a + b, upper);
    }
  }

  lemma LastCurrency(b: seq<Charge>, upper: string -> string)
    requires b != []
    ensures Currencies(b, upper) == Currencies(b[..|b| - 1], upper) + Currencies([b[|b| - 1]], upper)
  {
    hide Counts, Trim;
    assert b == b[..|b| - 1] + [b[|b| - 1]];
  }

  /** One charge counts in the currency it names and in no other; one with a
      missing number or no currency counts nowhere. */
  lemma OneCharge(c: Charge, upper: string -> string, k: string)
    ensures var named, cents := upper(Trim(c.currency)), CentsOf(c.amount, c.quantity);
            && CentsOk(Parse(c.amount), Parse(c.quantity), cents)
            && Currencies([c], upper) == (if cents.None? || named == "" then {} else {named})
            && SumIn([c], upper, k) == if cents.Some? && named == k then cents.value else 0
  {
    CentsAreOk(c.amount, c.quantity);
    hide CentsOf, Trim, CentsOk;
    assert [c][..0] == [] && c in [c];
  }

  /** Quantities add up unit by unit, however the cells are cut in two. */
  lemma {:induction false} CellsAddUp(a: seq<Cell>, b: seq<Cell>, u: string, scale: nat)
    ensures SumAt(a + b, u, scale) == SumAt(a, u, scale) + SumAt(b, u, scale)
    ensures MostDecimals(a + b, u) == LargerOf(MostDecimals(a, u), MostDecimals(b, u))
    ensures Missing(a + b) == Missing(a) + Missing(b) && Units(a + b) == Units(a) + Units(b)
    decreases |b|
  {
    hide UnitOf, InSteps;
    if b == [] {
      assert a + b == a;
    } else {
      var before := b[..|b| - 1];
      CellsAddUp(a, before, u, scale);
      assert (a + b)[..|a + b| - 1] == a + before && a + b == a + before + [b[|b| - 1]] && b == before + [b[|b| - 1]];
    }
  }

  /** A cell of a number and a unit counts in the unit column's unit if there is
      one, else in its own, with all its digits, and in no other unit. */
  lemma CellCounts(lead: string, whole: string, decimals: string, gap: string, unit: string, trail: string, column: Option<string>,
                   u: string, scale: nat)
    requires Spaces(lead) && Spaces(gap) && Spaces(trail) && AllDigits(whole) && AllDigits(decimals) && whole != ""
    requires Trimmed(unit) && OneLine(unit) && EndsNumber(decimals, gap + unit) && (unit == "" ==> gap == "") && scale >= |decimals|
    ensures var cells := [Cell(lead + (Dotted(whole, decimals) + gap + unit) + trail, column)];
            var counted := match column case None => unit case Some(c) => c;
            && Units(cells) == {counted} && Missing(cells) == 0
            && MostDecimals(cells, u) == (if u == counted then |decimals| else 0)
            && SumAt(cells, u, scale) == if u == counted then Value(whole + decimals) * Pow10(scale - |decimals|) else 0
  {
    QuantityReads(lead, whole, decimals, gap, unit, trail);
    var c := Cell(lead + (Dotted(whole, decimals) + gap + unit) + trail, column);
    hide Value, Pow10, ReadQuantity, Dotted, AllDigits, Spaces, Trimmed, OneLine, EndsNumber;
    OneCell(c, u, scale);
  }

  lemma OneCell(c: Cell, u: string, scale: nat)
    requires UnitOf(c).Some?
    ensures var q := UnitOf(c).value;
            && Units([c]) == {q.unit} && Missing([c]) == 0
            && MostDecimals([c], u) == (if u == q.unit then q.number.scale else 0)
            && SumAt([c], u, scale) == if u == q.unit then InSteps(q.number, scale) else 0
  {
    hide UnitOf, InSteps;
    assert [c][..0] == [] && c in [c];
  }

  /** A cell without a number counts as missing and in no unit. */
  lemma CellMissing(text: string, column: Option<string>, u: string, scale: nat)
    requires Trim(text) == "" || !IsDigit(Trim(text)[0])
    ensures var cells := [Cell(text, column)];
            Units(cells) == {} && Missing(cells) == 1 && MostDecimals(cells, u) == 0 && SumAt(cells, u, scale) == 0
  {
    QuantityMissing(text);
    var c := Cell(text, column);
    hide ReadQuantity, Trim;
    assert [c][..0] == [] && c in [c];
  }

  /** A unit column that says "constructor" makes the total fail. */
  lemma InheritedUnitFails()
    ensures "constructor" in Units([Cell("5", Some("constructor"))]) && "constructor" in INHERITED
  {
    var c := Cell("5", Some("constructor"));
    ParseWhole("5");
    assert ReadNumber("5") == Some(Prefix(Number(Value("5"), 0), "")) by {
      assert "5" + "" == "5";
      DigitsStop("5", "");
    }
    TrimNothing("5");
    assert UnitOf(c).Some? && UnitOf(c).value.unit == "constructor";
    assert c in [c];
  }
}
