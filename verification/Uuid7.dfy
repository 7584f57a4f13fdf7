/** UUID version 7 (section 5.7 of RFC 9562), minted by shifting on the server and byte by byte on the device. */
module Uuid7 {
  const TWO48: nat := 0x1_0000_0000_0000
  const TWO62: nat := 0x4000_0000_0000_0000
  const TWO64: nat := 0x1_0000_0000_0000_0000
  const TWO76: nat := TWO64 * 0x1000
  const TWO80: nat := TWO64 * 0x1_0000

  // --- bitwise operations ---

  function Or(a: nat, b: nat): nat
    decreases a + b
  {
    if a + b == 0 then 0 else (if a % 2 == 1 || b % 2 == 1 then 1 else 0) + 2 * Or(a / 2, b / 2)
  }

  function And(a: nat, b: nat): nat
    decreases a + b
  {
    if a + b == 0 then 0 else (if a % 2 == 1 && b % 2 == 1 then 1 else 0) + 2 * And(a / 2, b / 2)
  }

  function Pow2(n: nat): (p: nat)
    ensures p >= 1
  {
    if n == 0 then 1 else 2 * Pow2(n - 1)
  }

  /** The `n`th binary digit. */
  predicate Bit(a: nat, n: nat) { if n == 0 then a % 2 == 1 else Bit(a / 2, n - 1) }

  /** Each digit of the two combinations is the combination of the digits. */
  lemma {:induction false} BitByBit(a: nat, b: nat, n: nat)
    ensures Bit(Or(a, b), n) <==> Bit(a, n) || Bit(b, n)
    ensures Bit(And(a, b), n) <==> Bit(a, n) && Bit(b, n)
    decreases n
  {
    if n > 0 { BitByBit(a / 2, b / 2, n - 1); }
    if a + b == 0 { NoBits(n); }
  }

  lemma {:induction false} NoBits(n: nat)
    ensures !Bit(0, n)
  {
    if n > 0 { NoBits(n - 1); }
  }

  lemma {:induction false} OrNothing(a: nat)
    ensures Or(a, 0) == a
  {
    if a > 0 { OrNothing(a / 2); }
  }

  /** Fields that do not overlap: combining them bit by bit is adding them. */
  lemma {:induction false} OrAdds(x: nat, n: nat, low: nat)
    requires low < Pow2(n)
    ensures Or(x * Pow2(n), low) == x * Pow2(n) + low
  {
    if n == 0 {
      OrNothing(x);
    } else {
      var half := x * Pow2(n - 1);
      assert x * Pow2(n) == 2 * half;
      OrAdds(x, n - 1, low / 2);
      DoubleHalves(half);
    }
  }

  lemma DoubleHalves(h: nat)
    ensures 2 * h % 2 == 0 && 2 * h / 2 == h
  {
  }

  lemma {:induction false} OrCommutes(a: nat, b: nat)
    ensures Or(a, b) == Or(b, a)
    decreases a + b
  {
    if a + b > 0 { OrCommutes(a / 2, b / 2); }
  }

  function LowBits(a: nat, n: nat): nat { if n == 0 then 0 else a % 2 + 2 * LowBits(a / 2, n - 1) }

  lemma {:induction false} AndTakesLowBits(a: nat, n: nat)
    ensures And(a, Pow2(n) - 1) == LowBits(a, n)
  {
    if n == 0 {
      AndNothing(a);
    } else {
      AndTakesLowBits(a / 2, n - 1);
      AndStep(a, Pow2(n - 1));
    }
  }

  lemma {:induction false} LowBitsAreRemainder(a: nat, n: nat)
    ensures LowBits(a, n) == a % Pow2(n)
  {
    if n > 0 {
      LowBitsAreRemainder(a / 2, n - 1);
      MaskStep(a, Pow2(n - 1));
    }
  }

  /** Masking the low bits is taking the remainder. */
  lemma AndMasks(a: nat, n: nat)
    ensures And(a, Pow2(n) - 1) == a % Pow2(n)
  {
    AndTakesLowBits(a, n);
    LowBitsAreRemainder(a, n);
  }

  lemma AndStep(a: nat, d: nat)
    requires d >= 1
    ensures And(a, 2 * d - 1) == a % 2 + 2 * And(a / 2, d - 1)
  {
    assert (2 * d - 1) % 2 == 1 && (2 * d - 1) / 2 == d - 1;
  }

  lemma {:induction false} AndNothing(a: nat)
    ensures And(a, 0) == 0
  {
    if a > 0 { AndNothing(a / 2); }
  }

  lemma MaskStep(a: nat, d: nat)
    requires d > 0
    ensures a % (2 * d) == a % 2 + 2 * (a / 2 % d)
  {
    var h := a / 2;
    assert a == (h / d) * (2 * d) + (a % 2 + 2 * (h % d)) by {
      assert h == (h / d) * d + h % d;
      assert a == 2 * h + a % 2;
      assert 2 * ((h / d) * d) == (h / d) * (2 * d);
    }
    Quotient(a, h / d, a % 2 + 2 * (h % d), 2 * d);
  }

  lemma {:induction false} Pow2Adds(a: nat, b: nat)
    ensures Pow2(a + b) == Pow2(a) * Pow2(b)
  {
    if a > 0 {
      Pow2Adds(a - 1, b);
      assert Pow2(a) * Pow2(b) == 2 * (Pow2(a - 1) * Pow2(b));
    }
  }

  lemma Pow2Values()
    ensures Pow2(4) == 16 && Pow2(6) == 64 && Pow2(8) == 256 && Pow2(12) == 0x1000 && Pow2(48) == TWO48
    ensures Pow2(62) == TWO62 && Pow2(64) == TWO64 && Pow2(76) == TWO76 && Pow2(80) == TWO80
  {
    assert Pow2(2) == 4 && Pow2(4) == 16 && Pow2(6) == 64 && Pow2(8) == 256;
    Pow2Adds(6, 6);
    Pow2Adds(8, 8);
    Pow2Adds(16, 16);
    Pow2Adds(32, 16);
    Pow2Adds(48, 12);
    Pow2Adds(60, 2);
    Pow2Adds(62, 2);
    Pow2Adds(64, 12);
    Pow2Adds(76, 4);
  }

  /** The server's value: masked, shifted and combined bit by bit. */
  function Mint(ms: nat, rand: nat): nat {
    Or(Or(Or(Or(And(ms, TWO48 - 1) * TWO80, 7 * TWO76), And(rand / TWO62, 0xFFF) * TWO64), 2 * TWO62),
       And(rand, TWO62 - 1))
  }

  function Laid128(t: nat, a: nat, b: nat): nat { t * TWO80 + 7 * TWO76 + a * TWO64 + 2 * TWO62 + b }

  lemma Masks(ms: nat, rand: nat)
    ensures And(ms, TWO48 - 1) == ms % TWO48 && And(rand / TWO62, 0xFFF) == rand / TWO62 % 0x1000
            && And(rand, TWO62 - 1) == rand % TWO62
  {
    Pow2Values();
    AndMasks(ms, 48);
    AndMasks(rand / TWO62, 12);
    AndMasks(rand, 62);
  }

  lemma MintAdds(ms: nat, rand: nat)
    ensures Mint(ms, rand) == Laid128(ms % TWO48, rand / TWO62 % 0x1000, rand % TWO62)
  {
    Masks(ms, rand);
    FieldsAdd(ms % TWO48, rand / TWO62 % 0x1000, rand % TWO62);
  }

  lemma TopFieldsAdd(t: nat, a: nat)
    requires a < 0x1000
    ensures Or(Or(t * TWO80, 7 * TWO76), a * TWO64) == ((t * 16 + 7) * 0x1000 + a) * TWO64
  {
    Pow2Values();
    OrAdds(t, 80, 7 * TWO76);
    OrAdds(t * 16 + 7, 76, a * TWO64);
    assert t * TWO80 + 7 * TWO76 == (t * 16 + 7) * TWO76;
  }

  lemma VariantAdds(y: nat)
    ensures Or(y * TWO64, 2 * TWO62) == (y * 4 + 2) * TWO62
  {
    Pow2Values();
    OrAdds(y, 64, 2 * TWO62);
  }

  lemma LowAdds(z: nat, b: nat)
    requires b < TWO62
    ensures Or(z * TWO62, b) == z * TWO62 + b
  {
    Pow2Values();
    OrAdds(z, 62, b);
  }

  lemma SumOf(t: nat, a: nat, b: nat)
    ensures (((t * 16 + 7) * 0x1000 + a) * 4 + 2) * TWO62 + b == Laid128(t, a, b)
  {
  }

  lemma FieldsAdd(t: nat, a: nat, b: nat)
    requires a < 0x1000 && b < TWO62
    ensures Or(Or(Or(Or(t * TWO80, 7 * TWO76), a * TWO64), 2 * TWO62), b) == Laid128(t, a, b)
  {
    var y := (t * 16 + 7) * 0x1000 + a;
    TopFieldsAdd(t, a);
    VariantAdds(y);
    LowAdds(y * 4 + 2, b);
    SumOf(t, a, b);
  }

  function Version(v: nat): nat { v / TWO76 % 16 }

  function Variant(v: nat): nat { v / TWO62 % 4 }

  function TimestampMs(v: nat): nat { v / TWO80 }

  lemma AtLeastOnce(k: int, d: int)
    requires k >= 1 && d > 0
    ensures k * d >= d
  {
    assert (k - 1) * d >= 0;
  }

  lemma SmallMultiple(k: int, d: int)
    requires d > 0 && -d < k * d < d
    ensures k == 0
  {
    assert k >= 1 ==> k * d >= d by { if k >= 1 { AtLeastOnce(k, d); } }
    assert -k >= 1 ==> -k * d >= d by { if -k >= 1 { AtLeastOnce(-k, d); } }
  }

  lemma Quotient(v: nat, q: nat, r: nat, d: nat)
    requires d > 0 && v == q * d + r && r < d
    ensures v / d == q && v % d == r
  {
    var k := v / d;
    assert v == k * d + v % d;
    assert (k - q) * d == k * d - q * d;
    SmallMultiple(k - q, d);
  }

  lemma HasVersion(v: nat, t: nat, low: nat)
    requires v == t * TWO80 + 7 * TWO76 + low && low < TWO76
    ensures Version(v) == 7
  {
    Quotient(v, t * 16 + 7, low, TWO76);
  }

  lemma HasVariant(v: nat, high: nat, low: nat)
    requires v == high * TWO64 + 2 * TWO62 + low && low < TWO62
    ensures Variant(v) == 2
  {
    Quotient(v, high * 4 + 2, low, TWO62);
  }

  lemma HasTime(v: nat, t: nat, low: nat)
    requires v == t * TWO80 + low && low < TWO80
    ensures TimestampMs(v) == t
  {
    Quotient(v, t, low, TWO80);
  }

  lemma Laid128IsV7(t: nat, a: nat, b: nat)
    requires t < TWO48 && a < 0x1000 && b < TWO62
    ensures var v := Laid128(t, a, b); Version(v) == 7 && Variant(v) == 2 && TimestampMs(v) == t && v < TWO80 * TWO48
  {
    var v := Laid128(t, a, b);
    HasVersion(v, t, a * TWO64 + 2 * TWO62 + b);
    HasVariant(v, t * 0x1_0000 + 7 * 0x1000 + a, b);
    HasTime(v, t, 7 * TWO76 + a * TWO64 + 2 * TWO62 + b);
  }

  /** Every minted value says it is version 7 of the RFC variant and gives back its millisecond. */
  lemma MintIsV7(ms: nat, rand: nat)
    ensures var v := Mint(ms, rand); Version(v) == 7 && Variant(v) == 2 && TimestampMs(v) == ms % TWO48
    ensures Mint(ms, rand) < TWO80 * TWO48
  {
    MintAdds(ms, rand);
    Laid128IsV7(ms % TWO48, rand / TWO62 % 0x1000, rand % TWO62);
  }

  lemma Laid128Sorts(t: nat, a: nat, b: nat, t': nat, a': nat, b': nat)
    requires t < t' && a < 0x1000 && b < TWO62
    ensures Laid128(t, a, b) < Laid128(t', a', b')
  {
    assert (t' - t) * TWO80 >= TWO80;
  }

  /** A later millisecond always sorts after, whatever the random bits. */
  lemma LaterSortsAfter(ms: nat, later: nat, rand: nat, rand': nat)
    requires ms < later < TWO48
    ensures Mint(ms, rand) < Mint(later, rand')
  {
    var a, b := MintLaid(ms, rand);
    var a', b' := MintLaid(later, rand');
    Laid128Sorts(ms, a, b, later, a', b');
  }

  lemma MintLaid(ms: nat, rand: nat) returns (a: nat, b: nat)
    requires ms < TWO48
    ensures a < 0x1000 && b < TWO62 && Mint(ms, rand) == Laid128(ms, a, b)
  {
    a, b := rand / TWO62 % 0x1000, rand % TWO62;
    MintAdds(ms, rand);
    Small(ms, TWO48);
  }

  // --- the device's layout ---

  predicate IsBytes(s: seq<nat>) { forall i | 0 <= i < |s| :: s[i] < 256 }

  /** Bytes read as one big-endian number. */
  function Value(s: seq<nat>): nat { if s == [] then 0 else Value(s[..|s| - 1]) * 256 + s[|s| - 1] }

  function Pow256(n: nat): nat { if n == 0 then 1 else 256 * Pow256(n - 1) }

  lemma {:induction false} ValueConcat(a: seq<nat>, b: seq<nat>)
    ensures Value(a + b) == Value(a) * Pow256(|b|) + Value(b)
  {
    if b == [] {
      assert a + b == a;
    } else {
      var n := |b| - 1;
      assert (a + b)[..|a + b| - 1] == a + b[..n];
      ValueConcat(a, b[..n]);
      assert Value(a) * Pow256(n) * 256 == Value(a) * Pow256(n + 1);
    }
  }

  lemma {:induction false} ValueBelow(s: seq<nat>)
    requires IsBytes(s)
    ensures Value(s) < Pow256(|s|)
  {
    if s != [] { ValueBelow(s[..|s| - 1]); }
  }

  function TimeBytes(ms: nat): seq<nat> {
    [ms / 0x100_0000_0000 % 256, ms / 0x1_0000_0000 % 256, ms / 0x100_0000 % 256, ms / 0x1_0000 % 256,
     ms / 0x100 % 256, ms % 256]
  }

  /** Writing the timestamp by division places it whole. */
  lemma TimeBytesHoldMs(ms: nat)
    requires ms < TWO48
    ensures Value(TimeBytes(ms)) == ms
  {
    var s := TimeBytes(ms);
    var q1, q2, q3, q4, q5 := ms / 0x100, ms / 0x1_0000, ms / 0x100_0000, ms / 0x1_0000_0000, ms / 0x100_0000_0000;
    assert q2 == q1 / 256 && q3 == q2 / 256 && q4 == q3 / 256 && q5 == q4 / 256 && q5 < 256;
    assert s[..1] == [q5] && Value(s[..1]) == q5 by { assert s[..1][..0] == []; }
    assert s[..2][..1] == s[..1] && Value(s[..2]) == q4;
    assert s[..3][..2] == s[..2] && Value(s[..3]) == q3;
    assert s[..4][..3] == s[..3] && Value(s[..4]) == q2;
    assert s[..5][..4] == s[..4] && Value(s[..5]) == q1;
    assert s[..6] == s && s[..6][..5] == s[..5];
  }

  /** The bytes the device sends, over 16 random ones. */
  function Laid(ms: nat, r: seq<nat>): seq<nat>
    requires |r| == 16
  {
    TimeBytes(ms) + ([r[6] % 16 + 0x70, r[7]] + ([r[8] % 64 + 0x80] + r[9..]))
  }

  lemma MaskedByte(x: nat)
    ensures And(x, 0xff) == x % 256
  {
    Pow2Values();
    AndMasks(x, 8);
  }

  /** The timestamp, byte by byte. */
  method FillTime(bytes: array<nat>, ms: nat)
    requires bytes.Length == 16
    modifies bytes
    ensures bytes[..6] == TimeBytes(ms) && bytes[6..] == old(bytes[6..])
  {
    MaskedByte(ms / 0x100_0000_0000);
    bytes[0] := And(ms / 0x100_0000_0000, 0xff);
    MaskedByte(ms / 0x1_0000_0000);
    bytes[1] := And(ms / 0x1_0000_0000, 0xff);
    MaskedByte(ms / 0x100_0000);
    bytes[2] := And(ms / 0x100_0000, 0xff);
    MaskedByte(ms / 0x1_0000);
    bytes[3] := And(ms / 0x1_0000, 0xff);
    MaskedByte(ms / 0x100);
    bytes[4] := And(ms / 0x100, 0xff);
    MaskedByte(ms);
    bytes[5] := And(ms, 0xff);
  }

  lemma MarkedBytes(six: nat, eight: nat)
    ensures Or(And(six, 0x0f), 0x70) == six % 16 + 0x70 && Or(And(eight, 0x3f), 0x80) == eight % 64 + 0x80
  {
    Pow2Values();
    Nibbled(six, 4, 7);
    Nibbled(eight, 6, 2);
  }

  lemma Nibbled(b: nat, n: nat, high: nat)
    ensures Or(And(b, Pow2(n) - 1), high * Pow2(n)) == b % Pow2(n) + high * Pow2(n)
  {
    AndMasks(b, n);
    OrCommutes(b % Pow2(n), high * Pow2(n));
    OrAdds(high, n, b % Pow2(n));
  }

  /** Fill the array in place, as the device does. */
  method Uuid7(bytes: array<nat>, ms: nat)
    requires bytes.Length == 16
    modifies bytes
    ensures bytes[..] == Laid(ms, old(bytes[..]))
  {
    FillTime(bytes, ms);
    ghost var r := old(bytes[..]);
    assert bytes[6..] == r[6..] && bytes[6] == bytes[6..][0] && bytes[7] == bytes[6..][1] && bytes[8] == bytes[6..][2];
    ghost var rest := bytes[9..];
    assert rest == bytes[6..][3..] == r[6..][3..] == r[9..];
    MarkedBytes(bytes[6], bytes[8]);
    bytes[6] := Or(And(bytes[6], 0x0f), 0x70);
    bytes[8] := Or(And(bytes[8], 0x3f), 0x80);
    assert bytes[9..] == rest && bytes[..6] == TimeBytes(ms);
    assert bytes[..] == bytes[..6] + ([bytes[6], bytes[7]] + ([bytes[8]] + bytes[9..]));
  }

  /** The 80-bit random number the server would have drawn to mint the same value. */
  function RandOf(r: seq<nat>): nat
    requires |r| == 16
  {
    ((r[6] % 16) * 256 + r[7]) * TWO62 + (r[8] % 64) * Pow256(7) + Value(r[9..])
  }

  lemma Pow256Seven()
    ensures Pow256(7) == 0x100_0000_0000_0000 && Pow256(8) == TWO64 && Pow256(10) == TWO80
  {
    assert Pow256(4) == 0x1_0000_0000;
    assert Pow256(6) == TWO48;
  }

  lemma TwoBytes(x: nat, y: nat)
    ensures Value([x, y]) == x * 256 + y && Value([x]) == x
  {
    assert [x][..0] == [] && Value([x][..0]) == 0;
    assert [x, y][..1] == [x];
  }

  lemma TailValue(r: seq<nat>)
    requires |r| == 16 && IsBytes(r)
    ensures var tail := [r[6] % 16 + 0x70, r[7]] + ([r[8] % 64 + 0x80] + r[9..]);
            Value(tail) == 7 * TWO76 + ((r[6] % 16) * 256 + r[7]) * TWO64 + 2 * TWO62
              + ((r[8] % 64) * Pow256(7) + Value(r[9..]))
  {
    BytesUnder(r[6] % 16, r[7], r[8] % 64, r[9..]);
  }

  lemma BytesUnder(x: nat, y: nat, z: nat, rest: seq<nat>)
    requires |rest| == 7
    ensures Value([x + 0x70, y] + ([z + 0x80] + rest))
            == 7 * TWO76 + (x * 256 + y) * TWO64 + 2 * TWO62 + (z * Pow256(7) + Value(rest))
  {
    ValueConcat([x + 0x70, y], [z + 0x80] + rest);
    ValueConcat([z + 0x80], rest);
    TwoBytes(x + 0x70, y);
    TwoBytes(z + 0x80, 0);
    Pow256Seven();
  }

  lemma RandParts(r: seq<nat>)
    requires |r| == 16 && IsBytes(r)
    ensures RandOf(r) / TWO62 == (r[6] % 16) * 256 + r[7] < 0x1000
    ensures RandOf(r) % TWO62 == (r[8] % 64) * Pow256(7) + Value(r[9..])
  {
    Pow256Seven();
    ValueBelow(r[9..]);
    Quotient(RandOf(r), (r[6] % 16) * 256 + r[7], (r[8] % 64) * Pow256(7) + Value(r[9..]), TWO62);
  }

  /** Byte by byte or by shifting, the layout is the same. */
  lemma LayoutsAgree(ms: nat, r: seq<nat>)
    requires ms < TWO48 && |r| == 16 && IsBytes(r)
    ensures Value(Laid(ms, r)) == Mint(ms, RandOf(r))
  {
    TimeBytesHoldMs(ms);
    Under(TimeBytes(ms), [r[6] % 16 + 0x70, r[7]] + ([r[8] % 64 + 0x80] + r[9..]));
    TailValue(r);
    RandParts(r);
    MintOf(ms, RandOf(r), (r[6] % 16) * 256 + r[7], (r[8] % 64) * Pow256(7) + Value(r[9..]));
  }

  lemma Under(time: seq<nat>, tail: seq<nat>)
    requires |tail| == 10
    ensures Value(time + tail) == Value(time) * TWO80 + Value(tail)
  {
    ValueConcat(time, tail);
    Pow256Seven();
  }

  lemma MintOf(ms: nat, rand: nat, a: nat, b: nat)
    requires ms < TWO48 && a < 0x1000 && rand / TWO62 == a && rand % TWO62 == b
    ensures Mint(ms, rand) == Laid128(ms, a, b)
  {
    MintAdds(ms, rand);
    Small(ms, TWO48);
    Small(a, 0x1000);
  }

  lemma Small(x: nat, d: nat)
    requires x < d
    ensures x % d == x
  {
  }
}
