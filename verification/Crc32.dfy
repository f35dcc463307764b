/** The checksum of frontend/src/lib/simpleXlsx.ts: the table-driven loop against
    the bit-at-a-time CRC-32 of section 8 of RFC 1952. */
module Crc32 {
  const POLYNOMIAL: bv32 := 0xedb88320

  type byte = b: bv32 | b <= 0xff

  // ------------------------------------------------------------- the reference

  /** One message bit enters the register, least significant bit first. */
  function Shift(v: bv32, bit: bool): bv32 {
    if ((v & 1) == 1) != bit then POLYNOMIAL ^ (v >> 1) else v >> 1
  }

  function ShiftAll(v: bv32, bits: seq<bool>): bv32
    decreases |bits|
  {
    if bits == [] then v else ShiftAll(Shift(v, bits[0]), bits[1..])
  }

  predicate Odd(v: bv32) {
    v & 1 == 1
  }

  function Half(b: bv32): bv32 {
    b >> 1
  }

  /** The `n` low bits of a word, lowest first. */
  function BitsOf(b: bv32, n: nat): seq<bool>
    decreases n
  {
    if n == 0 then [] else [Odd(b)] + BitsOf(Half(b), n - 1)
  }

  function Message(data: seq<byte>): seq<bool> {
    if data == [] then [] else BitsOf(data[0], 8) + Message(data[1..])
  }

  /** CRC-32: preset to ones, fed bit by bit, complemented. */
  function Checksum(data: seq<byte>): bv32 {
    ShiftAll(0xffffffff, Message(data)) ^ 0xffffffff
  }

  // ----------------------------------------------------------------- the program

  function Halve(v: bv32): bv32 {
    if v & 1 == 1 then POLYNOMIAL ^ (v >> 1) else v >> 1
  }

  function Halvings(v: bv32, n: nat): bv32
    decreases n
  {
    if n == 0 then v else Halvings(Halve(v), n - 1)
  }

  predicate IsTable(t: seq<bv32>) {
    |t| == 256 && forall n :: 0 <= n < 256 ==> t[n] == Halvings(n as bv32, 8)
  }

  method MakeTable() returns (table: array<bv32>)
    ensures fresh(table) && IsTable(table[..])
  {
    hide Halve;
    table := new bv32[256];
    for n := 0 to 256
      invariant forall k :: 0 <= k < n ==> table[k] == Halvings(k as bv32, 8)
    {
      var value := n as bv32;
      for bit := 0 to 8
        invariant Halvings(value, 8 - bit) == Halvings(n as bv32, 8)
      {
        value := Halve(value);
      }
      table[n] := value;
    }
  }

  function Xor(v: bv32, w: bv32): bv32 {
    v ^ w
  }

  function Low(v: bv32): bv32 {
    v & 0xff
  }

  function High(v: bv32): bv32 {
    v >> 8
  }

  /** One byte in a single step. */
  function ByteStep(v: bv32, b: byte): bv32 {
    Xor(Halvings(Low(Xor(v, b)), 8), High(v))
  }

  function ByteSteps(v: bv32, data: seq<byte>): bv32
    decreases |data|
  {
    if data == [] then v else ByteSteps(ByteStep(v, data[0]), data[1..])
  }

  /** The checksum loop computes the CRC-32 of its data, whatever its length. */
  method Compute(table: array<bv32>, data: seq<byte>) returns (crc: bv32)
    requires IsTable(table[..])
    ensures crc == Checksum(data)
  {
    var value: bv32 := 0xffffffff;
    for k := 0 to |data|
      invariant ByteSteps(value, data[k..]) == ByteSteps(0xffffffff, data)
    {
      value := TableStep(table, value, data[k]);
      hide ByteStep;
      assert data[k..][0] == data[k] && data[k..][1..] == data[k + 1..];
    }
    ByteStepsAreShifts(0xffffffff, data);
    crc := value ^ 0xffffffff;
  }

  method TableStep(table: array<bv32>, value: bv32, b: byte) returns (next: bv32)
    requires IsTable(table[..])
    ensures next == ByteStep(value, b)
  {
    var at := Low(Xor(value, b));
    LowIsByte(Xor(value, b));
    IndexOf(at);
    hide Halvings, Low, Xor, High;
    assert table[..][at as int] == Halvings(at, 8);
    next := Xor(table[at as int], High(value));
  }

  lemma LowIsByte(v: bv32)
    ensures Low(v) <= 0xff
  {
  }

  lemma IndexOf(at: bv32)
    requires at <= 0xff
    ensures at as int < 256 && at as int as bv32 == at
  {
  }

  // ------------------------------------------------------- why the table is right

  lemma XorBits(v: bv32, w: bv32, p: bv32)
    ensures (v ^ w) >> 1 == (v >> 1) ^ (w >> 1)
    ensures (v ^ w) & 1 == (v & 1) ^ (w & 1)
    ensures (p ^ v) ^ (p ^ w) == v ^ w && p ^ (v ^ w) == (p ^ v) ^ w && p ^ (v ^ w) == v ^ (p ^ w)
    ensures (v & 1 == 0 || v & 1 == 1) && (w & 1 == 0 || w & 1 == 1)
  {
  }

  lemma OneBit(v: bv32, w: bv32)
    ensures Halve(Xor(v, w)) == Xor(Shift(v, Odd(w)), Half(w))
  {
    XorBits(v, w, POLYNOMIAL);
    XorBits(v >> 1, w >> 1, POLYNOMIAL);
    var x, y, z := v & 1, w & 1, (v ^ w) & 1;
    assert z == x ^ y;
    if x == y {
      assert z == 0;
    } else {
      assert z == 1;
    }
  }

  lemma ShiftFlips(v: bv32)
    ensures Shift(v, false) == Halve(v) && Shift(v, true) == Xor(POLYNOMIAL, Halve(v))
  {
  }

  lemma XorMoves(a: bv32, b: bv32, p: bv32)
    ensures Xor(Xor(p, a), b) == Xor(a, Xor(p, b))
  {
  }

  lemma HalveIs(w: bv32)
    ensures Halve(w) == if Odd(w) then Xor(POLYNOMIAL, Half(w)) else Half(w)
  {
  }

  lemma HalveSplits(v: bv32, w: bv32)
    ensures Halve(Xor(v, w)) == Xor(Halve(v), Halve(w))
  {
    hide Halve, Xor, Shift, Half, Odd;
    OneBit(v, w);
    ShiftFlips(v);
    HalveIs(w);
    XorMoves(Halve(v), Half(w), POLYNOMIAL);
  }

  /** The register is linear: what two words contribute can be worked out apart. */
  lemma {:induction false} HalvingsSplit(v: bv32, w: bv32, n: nat)
    ensures Halvings(Xor(v, w), n) == Xor(Halvings(v, n), Halvings(w, n))
    decreases n
  {
    hide Halve, Xor;
    if n > 0 {
      HalveSplits(v, w);
      HalvingsSplit(Halve(v), Halve(w), n - 1);
    }
  }

  function Drop(b: bv32, n: nat): bv32
    decreases n
  {
    if n == 0 then b else Drop(Half(b), n - 1)
  }

  /** Feeding the low bits of a word is folding it in whole, but for the bits
      not yet fed. */
  lemma {:induction false} BitsFoldIn(v: bv32, b: bv32, n: nat)
    ensures Halvings(Xor(v, b), n) == Xor(ShiftAll(v, BitsOf(b, n)), Drop(b, n))
    decreases n
  {
    hide Halve, Shift, Xor, Half, Odd;
    if n > 0 {
      OneBit(v, b);
      BitsFoldIn(Shift(v, Odd(b)), Half(b), n - 1);
      assert BitsOf(b, n)[0] == Odd(b) && BitsOf(b, n)[1..] == BitsOf(Half(b), n - 1);
    }
  }

  function Above(v: bv32): bv32 {
    By8(High(v))
  }

  function By2(u: bv32): bv32 {
    u << 2
  }

  function By4(u: bv32): bv32 {
    u << 4
  }

  function By8(u: bv32): bv32 {
    u << 8
  }

  function Twice(u: bv32): bv32 {
    u << 1
  }

  function Doubled(u: bv32, n: nat): bv32
    decreases n
  {
    if n == 0 then u else Doubled(Twice(u), n - 1)
  }

  /** `u` has no bit outside the mask `m`. */
  predicate Within(u: bv32, m: bv32) {
    u & m == u
  }

  predicate Small(u: bv32) {
    Within(u, 0x7fffffff)
  }

  predicate Fits(u: bv32, n: nat)
    decreases n
  {
    n == 0 || (Small(u) && Fits(Twice(u), n - 1))
  }

  lemma HalveTwice(u: bv32)
    requires Small(u)
    ensures Halve(Twice(u)) == u
  {
  }

  lemma {:induction false} HalvingsLast(v: bv32, n: nat)
    ensures Halvings(v, n + 1) == Halve(Halvings(v, n))
    decreases n
  {
    hide Halve;
    if n > 0 {
      HalvingsLast(Halve(v), n - 1);
    }
  }

  lemma {:induction false} HalvingsUndo(u: bv32, n: nat)
    requires Fits(u, n)
    ensures Halvings(Doubled(u, n), n) == u
    decreases n
  {
    hide Halve, Twice, Small;
    if n > 0 {
      HalvingsUndo(Twice(u), n - 1);
      HalvingsLast(Doubled(Twice(u), n - 1), n - 1);
      HalveTwice(u);
    }
  }

  lemma TwiceTwice(u: bv32)
    ensures Twice(Twice(u)) == By2(u)
  {
  }

  lemma By2By2(u: bv32)
    ensures By2(By2(u)) == By4(u)
  {
  }

  lemma By4By4(u: bv32)
    ensures By4(By4(u)) == By8(u)
  {
  }

  lemma EightDoublings(u: bv32)
    ensures Doubled(u, 8) == By8(u)
  {
    hide Twice, By2, By4, By8;
    TwiceTwice(u);
    TwiceTwice(By2(u));
    By2By2(u);
    TwiceTwice(By4(u));
    TwiceTwice(By2(By4(u)));
    By2By2(By4(u));
    By4By4(u);
    assert Doubled(u, 8) == Doubled(By4(u), 4);
  }

  lemma TwiceWithin(u: bv32, m: bv32)
    requires Within(u, m)
    ensures Within(Twice(u), Twice(m))
  {
  }

  lemma WithinSmall(u: bv32, m: bv32)
    requires Within(u, m) && Small(m)
    ensures Small(u)
  {
  }

  /** Where the mask `m` can be doubled without loss, so can every `u` within it. */
  lemma {:induction false} Room(u: bv32, m: bv32, n: nat)
    requires Within(u, m) && Fits(m, n)
    ensures Fits(u, n)
    decreases n
  {
    hide Within, Twice, Small;
    if n > 0 {
      WithinSmall(u, m);
      TwiceWithin(u, m);
      Room(Twice(u), Twice(m), n - 1);
    }
  }

  lemma HighIsShort(v: bv32)
    ensures Within(High(v), 0xffffff)
  {
  }

  lemma HighMoves(v: bv32)
    ensures Halvings(Above(v), 8) == High(v)
  {
    HighIsShort(v);
    assert Fits(0xffffff, 8) by { assert Fits(0xffffff0, 4); }
    hide High, By8, Halvings, Within;
    Room(High(v), 0xffffff, 8);
    EightDoublings(High(v));
    HalvingsUndo(High(v), 8);
  }

  lemma ByteSplits(v: bv32, b: byte)
    ensures Xor(v, b) == Xor(Low(Xor(v, b)), Above(v))
  {
  }

  lemma NothingLeft(b: byte)
    ensures Drop(b, 8) == 0
  {
    assert Half(Half(Half(Half(Half(Half(Half(Half(b)))))))) == 0;
    hide Half;
    assert Drop(b, 8) == Drop(Half(Half(Half(Half(b)))), 4);
  }

  lemma XorNothing(v: bv32)
    ensures Xor(v, 0) == v
  {
  }

  lemma ByteIsShifts(v: bv32, b: byte)
    ensures Halvings(Xor(v, b), 8) == ShiftAll(v, BitsOf(b, 8))
  {
    BitsFoldIn(v, b, 8);
    NothingLeft(b);
    XorNothing(ShiftAll(v, BitsOf(b, 8)));
    hide Halvings, Xor, ShiftAll, BitsOf, Drop;
  }

  /** A table step is eight reference steps. */
  lemma ByteStepIsShifts(v: bv32, b: byte)
    ensures ByteStep(v, b) == ShiftAll(v, BitsOf(b, 8))
  {
    ByteSplits(v, b);
    HalvingsSplit(Low(Xor(v, b)), Above(v), 8);
    HighMoves(v);
    ByteIsShifts(v, b);
    hide Halvings, Xor, ShiftAll, BitsOf, Low, High, Above;
  }

  lemma {:induction false} ShiftAllConcat(v: bv32, a: seq<bool>, b: seq<bool>)
    ensures ShiftAll(v, a + b) == ShiftAll(ShiftAll(v, a), b)
    decreases |a|
  {
    hide Shift;
    if a == [] {
      assert a + b == b;
    } else {
      assert (a + b)[1..] == a[1..] + b;
      ShiftAllConcat(Shift(v, a[0]), a[1..], b);
    }
  }

  lemma {:induction false} ByteStepsAreShifts(v: bv32, data: seq<byte>)
    ensures ByteSteps(v, data) == ShiftAll(v, Message(data))
    decreases |data|
  {
    hide Shift, ByteStep, BitsOf;
    if data != [] {
      ByteStepIsShifts(v, data[0]);
      ShiftAllConcat(v, BitsOf(data[0], 8), Message(data[1..]));
      ByteStepsAreShifts(ByteStep(v, data[0]), data[1..]);
    }
  }

  // ---------------------------------------------------------- what it can detect

  lemma ShiftIsInjective(v: bv32, w: bv32, bit: bool)
    requires Shift(v, bit) == Shift(w, bit)
    ensures v == w
  {
  }

  lemma {:induction false} ShiftsAreInjective(v: bv32, w: bv32, bits: seq<bool>)
    requires ShiftAll(v, bits) == ShiftAll(w, bits)
    ensures v == w
    decreases |bits|
  {
    hide Shift;
    if bits != [] {
      ShiftsAreInjective(Shift(v, bits[0]), Shift(w, bits[0]), bits[1..]);
      ShiftIsInjective(v, w, bits[0]);
    }
  }

  lemma HalveIsInjective(v: bv32, w: bv32)
    requires Halve(v) == Halve(w)
    ensures v == w
  {
  }

  lemma {:induction false} HalvingsAreInjective(v: bv32, w: bv32, n: nat)
    requires Halvings(v, n) == Halvings(w, n)
    ensures v == w
    decreases n
  {
    hide Halve;
    if n > 0 {
      HalvingsAreInjective(Halve(v), Halve(w), n - 1);
      HalveIsInjective(v, w);
    }
  }

  lemma XorIsInjective(v: bv32, a: bv32, b: bv32)
    requires Xor(v, a) == Xor(v, b)
    ensures a == b
  {
  }

  lemma ByteStepIsInjective(v: bv32, a: byte, b: byte)
    requires ByteStep(v, a) == ByteStep(v, b)
    ensures a == b
  {
    ByteStepIsShifts(v, a);
    ByteStepIsShifts(v, b);
    ByteIsShifts(v, a);
    ByteIsShifts(v, b);
    hide Halvings, Xor, ShiftAll, BitsOf, ByteStep;
    HalvingsAreInjective(Xor(v, a), Xor(v, b), 8);
    XorIsInjective(v, a, b);
  }

  lemma {:induction false} MessageConcat(a: seq<byte>, b: seq<byte>)
    ensures Message(a + b) == Message(a) + Message(b)
  {
    hide BitsOf;
    if a == [] {
      assert a + b == b;
    } else {
      assert (a + b)[1..] == a[1..] + b;
      MessageConcat(a[1..], b);
    }
  }

  lemma ChecksumOfParts(before: seq<byte>, a: byte, rest: seq<byte>)
    ensures Checksum(before + [a] + rest) ==
            Xor(ShiftAll(ByteStep(ShiftAll(0xffffffff, Message(before)), a), Message(rest)), 0xffffffff)
  {
    hide BitsOf, ShiftAll, ByteStep;
    MessageConcat(before + [a], rest);
    MessageConcat(before, [a]);
    assert Message([a]) == BitsOf(a, 8);
    ShiftAllConcat(0xffffffff, Message(before + [a]), Message(rest));
    ShiftAllConcat(0xffffffff, Message(before), Message([a]));
    ByteStepIsShifts(ShiftAll(0xffffffff, Message(before)), a);
  }

  lemma ComplementIsInjective(x: bv32, y: bv32)
    requires Xor(x, 0xffffffff) == Xor(y, 0xffffffff)
    ensures x == y
  {
  }

  /** Damage confined to one byte always changes the checksum. */
  lemma OneBadByteIsDetected(before: seq<byte>, a: byte, b: byte, rest: seq<byte>)
    ensures Checksum(before + [a] + rest) == Checksum(before + [b] + rest) <==> a == b
  {
    hide Checksum, Xor, ShiftAll, ByteStep, Message;
    if Checksum(before + [a] + rest) == Checksum(before + [b] + rest) {
      var v := ShiftAll(0xffffffff, Message(before));
      ChecksumOfParts(before, a, rest);
      ChecksumOfParts(before, b, rest);
      ComplementIsInjective(ShiftAll(ByteStep(v, a), Message(rest)), ShiftAll(ByteStep(v, b), Message(rest)));
      ShiftsAreInjective(ByteStep(v, a), ByteStep(v, b), Message(rest));
      ByteStepIsInjective(v, a, b);
    }
  }

  lemma ShiftOne(v: bv32, bit: bool, rest: seq<bool>)
    ensures ShiftAll(v, [bit] + rest) == ShiftAll(Shift(v, bit), rest)
  {
    assert ([bit] + rest)[1..] == rest;
  }

  lemma BitsOfA()
    ensures BitsOf(0x61, 8) == [true] + ([false] + ([false] + ([false] + ([false] + ([true] + ([true] + ([false] + [])))))))
  {
    assert BitsOf(0x61, 8) == [true] + BitsOf(0x30, 7) && BitsOf(0x30, 7) == [false] + BitsOf(0x18, 6);
    assert BitsOf(0x18, 6) == [false] + BitsOf(0x0c, 5) && BitsOf(0x0c, 5) == [false] + BitsOf(0x06, 4);
    assert BitsOf(0x06, 4) == [false] + BitsOf(0x03, 3) && BitsOf(0x03, 3) == [true] + BitsOf(0x01, 2);
    assert BitsOf(0x01, 2) == [true] + BitsOf(0x00, 1) && BitsOf(0x00, 1) == [false] + BitsOf(0x00, 0);
  }

  lemma ShiftsOfA()
    ensures Shift(0xffffffff, true) == 0x7fffffff
    ensures Shift(0x7fffffff, false) == 0xd2477cdf
    ensures Shift(0xd2477cdf, false) == 0x849b3d4f
    ensures Shift(0x849b3d4f, false) == 0xaff51d87
    ensures Shift(0xaff51d87, false) == 0xba420de3
    ensures Shift(0xba420de3, true) == 0x5d2106f1
    ensures Shift(0x5d2106f1, true) == 0x2e908378
    ensures Shift(0x2e908378, false) == 0x174841bc
  {
  }

  /** The checksum of the letter a, as every implementation of CRC-32 gives it. */
  lemma ChecksumOfA()
    ensures Checksum([0x61]) == 0xe8b7be43
  {
    BitsOfA();
    ShiftsOfA();
    hide Shift, BitsOf;
    var data: seq<byte> := [0x61];
    assert data[1..] == [] && Message(data) == BitsOf(0x61, 8) + [];
    ShiftOne(0xffffffff, true, [false] + ([false] + ([false] + ([false] + ([true] + ([true] + ([false] + [])))))));
    ShiftOne(0x7fffffff, false, [false] + ([false] + ([false] + ([true] + ([true] + ([false] + []))))));
    ShiftOne(0xd2477cdf, false, [false] + ([false] + ([true] + ([true] + ([false] + [])))));
    ShiftOne(0x849b3d4f, false, [false] + ([true] + ([true] + ([false] + []))));
    ShiftOne(0xaff51d87, false, [true] + ([true] + ([false] + [])));
    ShiftOne(0xba420de3, true, [true] + ([false] + []));
    ShiftOne(0x5d2106f1, true, [false] + []);
    ShiftOne(0x2e908378, false, []);
  }
}
