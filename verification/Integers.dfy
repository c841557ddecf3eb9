/** C integer types and conversions between them (ISO/IEC 9899:2011, section 6.3.1.3),
    and the exact condition under which storing an error code in a `long` keeps its truth value. */
module Integers {

  function Pow2(w: nat): (p: int)
    ensures p >= 1
  {
    if w == 0 then 1 else 2 * Pow2(w - 1)
  }

  /** An integer type: its signedness and its width in bits. */
  datatype CType = CType(signed: bool, width: nat)

  predicate InRange(t: CType, v: int) {
    if t.signed then -Pow2(t.width) <= 2 * v < Pow2(t.width) else 0 <= v < Pow2(t.width)
  }

  /** Conversion of `v` to type `t`: the wrapping representative of `v` modulo 2^width. */
  function Convert(t: CType, v: int): (r: int)
    ensures InRange(t, r)
    ensures r == 0 <==> v % Pow2(t.width) == 0
  {
    var p := Pow2(t.width);
    var u := v % p;
    if t.signed && 2 * u >= p then u - p else u
  }

  /** The type `long` of a target whose `long` has `w` bits. */
  function Long(w: nat): CType { CType(true, w) }

  lemma {:induction false} Pow2Monotone(v: nat, w: nat)
    requires v <= w
    ensures Pow2(v) <= Pow2(w)
    ensures v < w ==> 2 * Pow2(v) <= Pow2(w)
    decreases w - v
  {
    if v < w {
      Pow2Monotone(v, w - 1);
    }
  }

  lemma SmallRemainder(v: int, p: int)
    requires p >= 1
    ensures 0 <= v < p ==> v % p == v
    ensures -p <= v < 0 ==> v % p == v + p
  {
    var q := v / p;
    assert v == p * q + v % p;
    assert q >= 1 ==> p * q >= p;
    assert q <= -1 ==> p * q <= -p;
    assert q <= -2 ==> p * q <= -2 * p;
    assert q == -1 ==> p * q == -p;
  }

  /** Conversion wraps: the result differs from `v` by a multiple of 2^width. */
  lemma ConvertWraps(t: CType, v: int) returns (k: int)
    ensures Convert(t, v) == v + k * Pow2(t.width)
  {
    var p := Pow2(t.width);
    k := if t.signed && 2 * (v % p) >= p then -(v / p) - 1 else -(v / p);
    assert v == p * (v / p) + v % p;
    assert k * p == -(p * (v / p)) - if t.signed && 2 * (v % p) >= p then p else 0;
  }

  lemma CloseMultiples(d: int, p: int)
    requires p >= 1 && -p < d * p < p
    ensures d == 0
  {
    assert d >= 1 ==> d * p >= p;
    assert d <= -1 ==> d * p <= -p;
  }

  /** And it is the only value of the type that does so. */
  lemma ConvertUnique(t: CType, v: int, w: int, k: int)
    requires InRange(t, w) && w == v + k * Pow2(t.width)
    ensures Convert(t, v) == w
  {
    var p := Pow2(t.width);
    var j := ConvertWraps(t, v);
    assert (k - j) * p == k * p - j * p;
    CloseMultiples(k - j, p);
  }

  /** A `long` holds the values from -2^(w-1) to 2^(w-1) - 1. */
  lemma LongHolds(w: nat, v: int)
    requires -Pow2(w) <= 2 * v < Pow2(w)
    ensures Convert(Long(w), v) == v
  {
    ConvertUnique(Long(w), v, v, 0);
  }

  lemma Pow2Values()
    ensures Pow2(8) == 256 && Pow2(32) == 0x1_0000_0000
  {
    assert Pow2(8) == 256;
    assert Pow2(16) == 256 * Pow2(8);
    assert Pow2(24) == 256 * Pow2(16);
    assert Pow2(32) == 256 * Pow2(24);
  }

  /** An error number of the I/O Kit as an `int`, and 300 as an `unsigned char`. */
  lemma ConvertExamples()
    ensures Convert(CType(true, 32), 0xE000_02BC) == -0x1FFF_FD44
    ensures Convert(CType(false, 8), 300) == 44
  {
    Pow2Values();
    ConvertUnique(CType(true, 32), 0xE000_02BC, -0x1FFF_FD44, -1);
    ConvertUnique(CType(false, 8), 300, 44, -1);
  }

  /** Conversion leaves a value of the type alone. */
  lemma ConvertInRange(t: CType, v: int)
    requires InRange(t, v)
    ensures Convert(t, v) == v
  {
    ConvertUnique(t, v, v, 0);
  }

  lemma MultipleOfItself(p: int)
    requires p >= 1
    ensures p % p == 0 && (-p) % p == 0
  {
    assert p == p * 1 + 0;
    assert -p == p * -1 + 0;
  }

  lemma NarrowRange(t: CType, w: nat, v: int)
    requires t.width <= w && InRange(t, v)
    ensures -Pow2(w) < v < Pow2(w)
  {
    Pow2Monotone(t.width, w);
  }

  lemma SmallMultiple(v: int, p: int)
    requires p >= 1 && -p < v < p
    ensures v % p == 0 <==> v == 0
  {
    SmallRemainder(v, p);
  }

  /** Every value of a type no wider than `long` is zero exactly when its `long` copy is. */
  lemma NarrowValueKeepsTruth(t: CType, w: nat, v: int)
    requires t.width <= w && InRange(t, v)
    ensures Convert(Long(w), v) == 0 <==> v == 0
  {
    NarrowRange(t, w, v);
    SmallMultiple(v, Pow2(w));
  }

  /** A type wider than `long` holds a nonzero value that its `long` copy turns into zero. */
  lemma WideTypeLosesTruth(t: CType, w: nat) returns (v: int)
    requires t.width > w
    ensures InRange(t, v) && v != 0 && Convert(Long(w), v) == 0
  {
    Pow2Monotone(w, t.width);
    MultipleOfItself(Pow2(w));
    v := if t.signed then -Pow2(w) else Pow2(w);
  }

  ghost predicate LongCopyKeepsTruth(t: CType, w: nat) {
    forall v: int | InRange(t, v) :: Convert(Long(w), v) == 0 <==> v == 0
  }

  /** Narrowing boundary: storing an operand of type `t` in a `w`-bit `long` never changes
      whether it is zero, if and only if `t` is no wider than `long`. */
  lemma NarrowingBoundary(t: CType, w: nat)
    ensures LongCopyKeepsTruth(t, w) <==> t.width <= w
  {
    if t.width <= w {
      forall v: int | InRange(t, v) ensures Convert(Long(w), v) == 0 <==> v == 0 {
        NarrowValueKeepsTruth(t, w, v);
      }
    } else {
      var v := WideTypeLosesTruth(t, w);
    }
  }
}
