/** Compact proof-of-work targets ("bits") and 256-bit comparison. */
module Compact {
  import opened Bytes
  import opened Wire
  import opened Transaction

  // ------------------------------------------------------------- digits again

  lemma {:induction false} ZerosValue(n: nat)
    ensures LeValue(Zeros(n)) == 0
    ensures forall i :: 0 <= i < n ==> Zeros(n)[i] == 0
  {
    if n > 0 {
      ZerosValue(n - 1);
      assert Zeros(n)[1..] == Zeros(n - 1);
    }
  }

  /** Cutting a number to `k` digits takes it modulo base^k. */
  lemma ValueTake(s: seq<byte>, k: nat)
    requires k <= |s|
    ensures LeValue(s[..k]) == LeValue(s) % Pow(256, k)
    ensures LeValue(s[k..]) == LeValue(s) / Pow(256, k)
  {
    hide Value;
    ValueConcat(256, s[..k], s[k..]);
    assert s[..k] + s[k..] == s;
    LeValueBound(s[..k]);
    ModUnique(LeValue(s), Pow(256, k), LeValue(s[k..]), LeValue(s[..k]));
  }

  lemma ThreeDigits(m0: byte, m1: byte, m2: byte)
    ensures LeValue([m0, m1, m2]) == m0 + 0x100 * m1 + 0x1_0000 * m2
  {
    assert [m0, m1, m2][1..] == [m1, m2];
    assert [m1, m2][1..] == [m2];
    assert [m2][1..] == [];
    assert Value(256, [m2]) == m2;
    assert Value(256, [m1, m2]) == m1 + 256 * m2;
  }

  // ------------------------------------------------------------------ ordering

  lemma HigherDigitDecides(s: seq<byte>, t: seq<byte>, k: nat)
    requires |s| == |t| && k < |s| && s[k + 1..] == t[k + 1..] && s[k] < t[k]
    ensures LeValue(s) < LeValue(t)
  {
    ValueConcat(256, s[..k + 1], s[k + 1..]);
    ValueConcat(256, t[..k + 1], t[k + 1..]);
    assert s[..k + 1] + s[k + 1..] == s && t[..k + 1] + t[k + 1..] == t;
    ValuePrefix(256, s, k);
    ValuePrefix(256, t, k);
    LeValueBound(s[..k]);
    MulLe(Pow(256, k), s[k] as int + 1, t[k]);
    assert Pow(256, k) * (s[k] as int + 1) == Pow(256, k) * s[k] + Pow(256, k);
  }

  datatype Ordering = Less | Equal | Greater

  /** The `Ord` of `Hash256`: bytes compared from the most significant end order the numbers. */
  method Compare(a: seq<byte>, b: seq<byte>) returns (c: Ordering)
    requires |a| == |b|
    ensures c == if LeValue(a) < LeValue(b) then Less else if LeValue(a) == LeValue(b) then Equal else Greater
  {
    var i := |a|;
    while i > 0
      invariant 0 <= i <= |a| && a[i..] == b[i..]
    {
      i := i - 1;
      if a[i] < b[i] {
        HigherDigitDecides(a, b, i);
        return Less;
      }
      if a[i] > b[i] {
        HigherDigitDecides(b, a, i);
        return Greater;
      }
      assert a[i..] == [a[i]] + a[i + 1..] && b[i..] == [b[i]] + b[i + 1..];
    }
    assert a == a[0..] && b == b[0..];
    return Equal;
  }

  // ------------------------------------------------------------ bits to target

  function Exponent(bits: u32): nat { bits / 0x100_0000 }
  function Mantissa(bits: u32): nat { bits % 0x100_0000 }

  function Place(t: Hash, at: nat, b: byte): Hash { if at < 32 then t[at := b] else t }

  function Placed(at: nat, a: byte, b: byte, c: byte): Hash {
    Place(Place(Place(ZERO_HASH, at, a), at + 1, b), at + 2, c)
  }

  /** `bits_to_target`: three mantissa bytes at the exponent's place; what falls off the top is lost. */
  function BitsToTarget(bits: u32): Hash {
    var m := Mantissa(bits);
    if Exponent(bits) == 0 then ZERO_HASH
    else
      var at := if Exponent(bits) < 3 then 0 else Exponent(bits) - 3;
      Placed(at, m % 0x100, m / 0x100 % 0x100, m / 0x1_0000)
  }

  function TargetOf(bits: u32): nat { LeValue(BitsToTarget(bits)) }

  /** The decoded target is mantissa * 256^place, cut to 256 bits. */
  lemma TargetValue(bits: u32)
    requires Exponent(bits) > 0
    ensures var at := if Exponent(bits) < 3 then 0 else Exponent(bits) - 3;
      TargetOf(bits) == (Mantissa(bits) * Pow(256, at)) % Pow(256, 32)
  {
    hide LeValue;
    var m := Mantissa(bits);
    var at := if Exponent(bits) < 3 then 0 else Exponent(bits) - 3;
    var wide := Zeros(at) + [m % 0x100, m / 0x100 % 0x100, m / 0x1_0000] + Zeros(32);
    PlacedBytes(at, m % 0x100, m / 0x100 % 0x100, m / 0x1_0000);
    ValueTake(wide, 32);
    WideValue(at, m);
  }

  lemma MantissaDigits(m: nat)
    requires m < 0x100_0000
    ensures LeValue([m % 0x100, m / 0x100 % 0x100, m / 0x1_0000]) == m
  {
    hide LeValue;
    ThreeDigits(m % 0x100, m / 0x100 % 0x100, m / 0x1_0000);
  }

  lemma WideValue(at: nat, m: nat)
    requires m < 0x100_0000
    ensures LeValue(Zeros(at) + [m % 0x100, m / 0x100 % 0x100, m / 0x1_0000] + Zeros(32)) == m * Pow(256, at)
  {
    hide Value, Pow;
    var digits: seq<byte> := [m % 0x100, m / 0x100 % 0x100, m / 0x1_0000];
    MantissaDigits(m);
    ZerosValue(at);
    ValueConcat(256, Zeros(at), digits);
    PaddedValue(Zeros(at) + digits, 32);
  }

  lemma PlacedBytes(at: nat, a: byte, b: byte, c: byte)
    ensures Placed(at, a, b, c) == (Zeros(at) + [a, b, c] + Zeros(32))[..32]
  {
    hide LeValue, Value;
    var wide := Zeros(at) + [a, b, c] + Zeros(32);
    ZerosValue(at);
    ZerosValue(32);
    forall i | 0 <= i < 32
      ensures Placed(at, a, b, c)[i] == wide[i]
    {
      if i < at {
        assert wide[i] == Zeros(at)[i] == 0;
      } else if i >= at + 3 {
        assert wide[i] == Zeros(32)[i - at - 3] == 0;
      } else {
        assert wide[i] == [a, b, c][i - at];
      }
    }
  }

  /** Targets from compact bits always have a zero byte, so they stay below 2^256 - 1. */
  lemma TargetNotMax(bits: u32)
    ensures TargetOf(bits) < Pow(256, 32) - 1
  {
    var t := BitsToTarget(bits);
    ZerosValue(32);
    var at := if Exponent(bits) < 3 then 0 else Exponent(bits) - 3;
    var i := if at == 0 then 3 else 0;
    assert t[i] == 0;
    var top := t[i := 1];
    LeValueBound(top);
    DigitUpdate(t, i, 1);
  }

  lemma DigitUpdate(s: seq<byte>, k: nat, d: byte)
    requires k < |s|
    ensures LeValue(s[k := d]) == LeValue(s) + Pow(256, k) * (d as int - s[k] as int)
    ensures d > s[k] ==> LeValue(s[k := d]) > LeValue(s)
  {
    var t := s[k := d];
    ValueConcat(256, s[..k + 1], s[k + 1..]);
    ValueConcat(256, t[..k + 1], t[k + 1..]);
    assert s[..k + 1] + s[k + 1..] == s && t[..k + 1] + t[k + 1..] == t;
    assert t[k + 1..] == s[k + 1..];
    assert t[..k] == s[..k];
    ValuePrefix(256, s, k);
    ValuePrefix(256, t, k);
    var p := Pow(256, k);
    assert p * (d as int - s[k] as int) == p * d - p * s[k];
    if d > s[k] { MulLe(p, 1, d as int - s[k] as int); }
  }

  // ------------------------------------------------------------ target to bits

  /** The number of significant bytes. */
  function Size(t: seq<byte>): (n: nat)
    ensures n <= |t| && (n > 0 ==> t[n - 1] != 0) && (forall i :: n <= i < |t| ==> t[i] == 0)
  {
    if t == [] then 0
    else if t[|t| - 1] != 0 then |t|
    else Size(t[..|t| - 1])
  }

  /** `high << 16 | mid << 8 | low`. */
  function Joined(high: nat, mid: nat, low: nat): nat { high * 0x1_0000 + mid * 0x100 + low }

  /** The three leading bytes of an `n`-byte number, padded below when it has fewer. */
  function Leading(t: Hash, n: nat): nat
    requires 0 < n <= 32
  {
    if n >= 3 then Joined(t[n - 1], t[n - 2], t[n - 3])
    else if n == 2 then Joined(t[1], t[0], 0)
    else Joined(t[0], 0, 0)
  }

  function TargetToBits(t: Hash): u32 {
    var n := Size(t);
    if n == 0 then 0
    else
      var m := Leading(t, n);
      if m >= 0x80_0000 then (n + 1) * 0x100_0000 + m / 0x100 else n * 0x100_0000 + m
  }

  /** `target_to_bits` with its scan for the most significant byte. */
  method EncodeCompact(t: Hash) returns (bits: u32)
    ensures bits == TargetToBits(t)
  {
    var n := 32;
    while n > 0 && t[n - 1] == 0
      invariant 0 <= n <= 32
      invariant Size(t[..n]) == Size(t)
    {
      assert t[..n][..n - 1] == t[..n - 1];
      n := n - 1;
    }
    assert n == Size(t[..n]);
    if n == 0 { return 0; }
    var exponent, mantissa := n, 0;
    if exponent >= 3 {
      mantissa := Joined(t[exponent - 1], t[exponent - 2], t[exponent - 3]);
    } else if exponent == 2 {
      mantissa := Joined(t[1], t[0], 0);
    } else {
      mantissa := Joined(t[0], 0, 0);
    }
    if mantissa >= 0x80_0000 {
      mantissa := mantissa / 0x100;
      exponent := exponent + 1;
    }
    return exponent * 0x100_0000 + mantissa;
  }

  // ------------------------------------------------------- rounding, exactly

  /** `bits` writes `v` as `m` units of 256^e: 15 to 23 significant bits, rounded down. */
  ghost predicate Rounds(bits: u32, v: nat, e: nat, m: nat) {
    && 0x8000 <= m <= 0x7F_FFFF
    && bits == (e + 3) * 0x100_0000 + m
    && Pow(256, e) * m <= v < Pow(256, e) * m + Pow(256, e)
  }

  /** The bytes from place `k` up, as a multiple of 256^k below the number. */
  lemma UpperPart(t: seq<byte>, k: nat)
    requires k <= |t|
    ensures Pow(256, k) * LeValue(t[k..]) <= LeValue(t) < Pow(256, k) * LeValue(t[k..]) + Pow(256, k)
  {
    hide Value, Pow;
    ValueConcat(256, t[..k], t[k..]);
    assert t[..k] + t[k..] == t;
    LeValueBound(t[..k]);
  }

  /** Digits padded with zeros above keep their value. */
  lemma PaddedValue(digits: seq<byte>, n: nat)
    ensures LeValue(digits + Zeros(n)) == LeValue(digits)
  {
    hide Value;
    ZerosValue(n);
    ValueConcat(256, digits, Zeros(n));
    var p := Pow(256, |digits|);
    assert p * 0 == 0;
  }

  lemma LeadingValue(t: Hash)
    requires Size(t) >= 3
    ensures Leading(t, Size(t)) == LeValue(t[Size(t) - 3..])
    ensures Leading(t, Size(t)) / 0x100 == LeValue(t[Size(t) - 2..])
  {
    hide LeValue;
    var n := Size(t);
    var a: seq<byte>, b: seq<byte> := [t[n - 3], t[n - 2], t[n - 1]], [t[n - 2], t[n - 1], 0];
    ZerosValue(32 - n);
    assert t[n - 3..] == a + Zeros(32 - n);
    PaddedValue(a, 32 - n);
    ThreeDigits(t[n - 3], t[n - 2], t[n - 1]);
    PaddedValue([t[n - 2], t[n - 1]], 32 - n);
    assert t[n - 2..] == [t[n - 2], t[n - 1]] + Zeros(32 - n);
    TwoDigits(t[n - 2], t[n - 1]);
  }

  lemma TwoDigits(a: byte, b: byte)
    ensures LeValue([a, b]) == a + 0x100 * b
  {
    assert [a, b][1..] == [b];
    assert [b][1..] == [];
    assert Value(256, [b]) == b;
  }

  lemma SmallTarget(t: Hash)
    requires Size(t) <= 2
    ensures LeValue(t) == t[0] as int + 0x100 * (t[1] as int)
  {
    hide LeValue;
    ZerosValue(30);
    assert t == [t[0], t[1]] + Zeros(30);
    PaddedValue([t[0], t[1]], 30);
    TwoDigits(t[0], t[1]);
  }

  /** Every target of at least 2^15 is rounded in its own unit. */
  lemma EncodeRounds(t: Hash) returns (e: nat, m: nat)
    requires LeValue(t) >= 0x8000
    ensures e <= 30 && Rounds(TargetToBits(t), LeValue(t), e, m)
  {
    hide LeValue, Pow;
    var n := Size(t);
    if n >= 3 {
      LeadingValue(t);
      if Leading(t, n) >= 0x80_0000 {
        e, m := n - 2, Leading(t, n) / 0x100;
      } else {
        e, m := n - 3, Leading(t, n);
      }
      UpperPart(t, e);
    } else {
      SmallTarget(t);
      e, m := 0, LeValue(t);
      PowZero();
    }
  }

  lemma PowZero()
    ensures Pow(256, 0) == 1
  {
  }

  lemma DecodeRounded(bits: u32, v: nat, e: nat, m: nat)
    requires Rounds(bits, v, e, m) && v < Pow(256, 32)
    ensures TargetOf(bits) == Pow(256, e) * m
  {
    hide LeValue, BitsToTarget, Pow;
    assert Exponent(bits) == e + 3 && Mantissa(bits) == m;
    TargetValue(bits);
    ModSmall(Pow(256, e) * m, Pow(256, 32));
  }

  /** Compact rounding never raises a target of at least 2^15 and loses less than one part in 2^15. */
  lemma RoundTripBelow(t: Hash)
    requires LeValue(t) >= 0x8000
    ensures var v, w := LeValue(t), TargetOf(TargetToBits(t));
      w <= v && (v - w) * 0x8000 < v
  {
    hide LeValue, TargetToBits, TargetOf, Pow;
    var e, m := EncodeRounds(t);
    LeValueBound(t);
    DecodeRounded(TargetToBits(t), LeValue(t), e, m);
    MulLe(Pow(256, e), 0x8000, m);
  }

  /** Below 2^15 the code scales the target up instead, so the bound above is exact. */
  lemma RoundTripIff(t: Hash)
    ensures TargetOf(TargetToBits(t)) <= LeValue(t) <==> LeValue(t) == 0 || LeValue(t) >= 0x8000
  {
    hide LeValue, TargetToBits, TargetOf;
    if LeValue(t) >= 0x8000 {
      RoundTripBelow(t);
    } else {
      SmallRoundTrip(t);
    }
  }

  lemma SizeOfSmall(t: Hash)
    ensures Size(t) > 2 ==> LeValue(t) >= 0x1_0000
  {
    hide Value, Pow;
    var n := Size(t);
    if n > 2 {
      UpperPart(t, 2);
      ValueZeros(256, t[2..]);
      assert t[2..][n - 3] != 0;
      SmallPowers();
    }
  }

  lemma SmallRoundTrip(t: Hash)
    requires LeValue(t) < 0x8000
    ensures TargetOf(TargetToBits(t)) == if LeValue(t) >= 0x80 then 0x100 * LeValue(t) else 0x1_0000 * LeValue(t)
  {
    hide LeValue, BitsToTarget, Pow;
    SizeOfSmall(t);
    SmallTarget(t);
    if Size(t) == 0 {
      ZeroBits();
    } else {
      var bits := TargetToBits(t);
      TargetValue(bits);
      PowZero();
      SmallPowers();
      PowMonotone(256, 4, 32);
      ModSmall(Mantissa(bits), Pow(256, 32));
    }
  }

  lemma ZeroBits()
    ensures TargetOf(0) == 0
  {
    ZerosValue(32);
  }

  // -------------------------------------------------------------- monotonicity

  lemma UnitsOrdered(a: u32, v: nat, e: nat, m: nat, b: u32, w: nat, f: nat, n: nat)
    requires Rounds(a, v, e, m) && Rounds(b, w, f, n) && v <= w
    ensures e <= f
  {
    hide Pow;
    UnitGap(Pow(256, f), Pow(256, e), m, n, v, w);
    if e > f {
      PowMonotone(256, f + 1, e);
      PowStep(f);
    }
  }

  lemma UnitGap(p: nat, q: nat, m: nat, n: nat, v: nat, w: nat)
    requires m >= 0x8000 && n <= 0x7F_FFFF && q * m <= v <= w < p * n + p
    ensures q < 256 * p
  {
    MulLe(q, 0x8000, m);
    MulLe(p, n, 0x7F_FFFF);
  }

  lemma PowStep(e: nat)
    ensures Pow(256, e + 1) == 256 * Pow(256, e)
  {
  }

  lemma MantissasOrdered(p: nat, v: nat, m: nat, w: nat, n: nat)
    requires v <= w && p * m <= v && w < p * n + p
    ensures m <= n
  {
    if m > n { MulLe(p, n + 1, m); }
  }

  /** A larger target never decodes to a smaller one after rounding. */
  lemma RoundTripMonotone(s: Hash, t: Hash)
    requires 0x8000 <= LeValue(s) <= LeValue(t)
    ensures TargetOf(TargetToBits(s)) <= TargetOf(TargetToBits(t))
  {
    hide LeValue, TargetToBits, TargetOf, Pow;
    var v, w := LeValue(s), LeValue(t);
    var e, m := EncodeRounds(s);
    var f, n := EncodeRounds(t);
    LeValueBound(s);
    LeValueBound(t);
    DecodeRounded(TargetToBits(s), v, e, m);
    DecodeRounded(TargetToBits(t), w, f, n);
    UnitsOrdered(TargetToBits(s), v, e, m, TargetToBits(t), w, f, n);
    var p, q := Pow(256, e), Pow(256, f);
    if e == f {
      MantissasOrdered(p, v, m, w, n);
      MulLe(p, m, n);
    } else {
      PowMonotone(256, e + 1, f);
      PowStep(e);
      MulLe(p, m, 0x80_0000);
      MulLe(q, 0x8000, n);
    }
  }

  /** What decoding makes of a target before rounding: below 2^15 it is scaled up, otherwise left alone. */
  function Raised(v: nat): nat { if v < 0x80 then 0x1_0000 * v else if v < 0x8000 then 0x100 * v else v }

  /** Targets of up to 23 bits keep all of them. */
  lemma ThreeByteFixed(t: Hash)
    requires 0x8000 <= LeValue(t) <= 0x7F_FFFF
    ensures TargetOf(TargetToBits(t)) == LeValue(t)
  {
    hide LeValue, TargetToBits, TargetOf, Pow;
    var e, m := EncodeRounds(t);
    LeValueBound(t);
    DecodeRounded(TargetToBits(t), LeValue(t), e, m);
    UnitIsOne(LeValue(t), e, m);
  }

  lemma UnitIsOne(v: nat, e: nat, m: nat)
    requires m >= 0x8000 && Pow(256, e) * m <= v <= 0x7F_FFFF && v < Pow(256, e) * m + Pow(256, e)
    ensures Pow(256, e) * m == v
  {
    hide Pow;
    PowZero();
    SmallPowers();
    if e > 0 {
      PowMonotone(256, 1, e);
      LargeProduct(Pow(256, e), m);
    }
  }

  lemma LargeProduct(p: nat, m: nat)
    requires p >= 256 && m >= 0x8000
    ensures p * m >= 0x80_0000
  {
    MulLe(p, 0x8000, m);
    MulLe(0x8000, 256, p);
  }

  lemma RaisedIsReached(v: nat)
    requires v < 0x8000
    ensures v > 0 ==> 0x8000 <= Raised(v) <= 0x7F_FFFF
  {
  }

  /** A raised small target is at most the rounded form of a large one exactly when it is at most the large one. */
  lemma SmallAgainstLarge(s: Hash, t: Hash)
    requires 0 < LeValue(s) < 0x8000 <= LeValue(t)
    ensures Raised(LeValue(s)) <= TargetOf(TargetToBits(t)) <==> Raised(LeValue(s)) <= LeValue(t)
  {
    hide LeValue, TargetToBits, TargetOf, Pow;
    RaisedIsReached(LeValue(s));
    RoundTripBelow(t);
    var x := Raised(LeValue(s));
    if x <= LeValue(t) {
      SmallPowers();
      PowMonotone(256, 4, 32);
      var h: Hash := LeBytes(32, x);
      LeBytesValue(32, x);
      ThreeByteFixed(h);
      RoundTripMonotone(h, t);
    }
  }

  /** Exactly when encoding keeps two targets in order. */
  lemma RoundTripOrdered(s: Hash, t: Hash)
    requires LeValue(s) <= LeValue(t)
    ensures TargetOf(TargetToBits(s)) <= TargetOf(TargetToBits(t)) <==> Raised(LeValue(s)) <= Raised(LeValue(t))
  {
    hide LeValue, TargetToBits, TargetOf;
    if LeValue(s) >= 0x8000 {
      RoundTripMonotone(s, t);
    } else {
      SmallRoundTrip(s);
      if LeValue(t) < 0x8000 {
        SmallRoundTrip(t);
      } else if LeValue(s) > 0 {
        SmallAgainstLarge(s, t);
      }
    }
  }

  /** The targets that no smaller target overtakes. */
  predicate NeverOvertaken(v: nat) { v < 0x80 || 0x7f00 <= v < 0x8000 || v >= 0x7f_ff00 }

  lemma OvertakenBy(v: nat) returns (w: nat)
    requires !NeverOvertaken(v)
    ensures w <= v && w < 0x8000 && Raised(w) > Raised(v)
  {
    w := if v < 0x7f00 then 0x7f else 0x7fff;
  }

  lemma RaisedOrdered(v: nat, w: nat)
    requires w <= v && NeverOvertaken(v)
    ensures Raised(w) <= Raised(v)
  {
  }

  /** Rounding is monotone up to a target if and only if that target is outside the two gaps. */
  lemma MonotoneIff(t: Hash)
    ensures (forall s: Hash :: LeValue(s) <= LeValue(t) ==> TargetOf(TargetToBits(s)) <= TargetOf(TargetToBits(t)))
      <==> NeverOvertaken(LeValue(t))
  {
    hide LeValue, TargetToBits, TargetOf, Raised, NeverOvertaken;
    if NeverOvertaken(LeValue(t)) {
      forall s: Hash | LeValue(s) <= LeValue(t) ensures TargetOf(TargetToBits(s)) <= TargetOf(TargetToBits(t)) {
        RaisedOrdered(LeValue(t), LeValue(s));
        RoundTripOrdered(s, t);
      }
    } else {
      var w := OvertakenBy(LeValue(t));
      SmallPowers();
      PowMonotone(256, 4, 32);
      var s: Hash := LeBytes(32, w);
      LeBytesValue(32, w);
      RoundTripOrdered(s, t);
      assert LeValue(s) <= LeValue(t) && !(TargetOf(TargetToBits(s)) <= TargetOf(TargetToBits(t)));
    }
  }

  /** 0x7f encodes to a target 254 times that of 0x80. */
  lemma MonotoneFails(s: Hash, t: Hash)
    requires LeValue(s) == 0x7f && LeValue(t) == 0x80
    ensures TargetOf(TargetToBits(s)) == 0x7f_0000 && TargetOf(TargetToBits(t)) == 0x8000
  {
    hide LeValue, TargetToBits, TargetOf;
    SmallRoundTrip(s);
    SmallRoundTrip(t);
  }

  // ------------------------------------------------------- canonical compact values

  /** The bits that encoding produces: a normalised mantissa at a place that fits 256 bits. */
  predicate Canonical(bits: u32) {
    && 0x8000 <= Mantissa(bits) <= 0x7F_FFFF
    && (3 <= Exponent(bits) <= 32 || (Exponent(bits) == 33 && Mantissa(bits) <= 0xFFFF))
  }

  lemma CanonicalFits(e: nat, m: nat)
    requires m < 0x100_0000 && (e <= 29 || (e == 30 && m < 0x1_0000))
    ensures Pow(256, e) * m < Pow(256, 32)
  {
    hide Pow;
    SmallPowers();
    var digits := if e <= 29 then 3 else 2;
    PowAdd(256, e, digits);
    PowMonotone(256, e + digits, 32);
    assert Pow(256, e) > 0;
    MulStrict(Pow(256, e), m, Pow(256, digits));
  }

  lemma MulStrict(k: nat, a: nat, b: nat)
    requires k > 0 && a < b
    ensures k * a < k * b
  {
    MulLe(k, a + 1, b);
    assert k * (a + 1) == k * a + k;
  }

  lemma CanonicalRounds(bits: u32)
    requires Canonical(bits)
    ensures Rounds(bits, TargetOf(bits), Exponent(bits) - 3, Mantissa(bits)) && TargetOf(bits) >= 0x8000
  {
    hide LeValue, BitsToTarget, Pow;
    var m, e := Mantissa(bits), Exponent(bits) - 3;
    TargetValue(bits);
    CanonicalFits(e, m);
    ModSmall(Pow(256, e) * m, Pow(256, 32));
    MulZero(Pow(256, e), m);
  }

  lemma RoundsUnique(a: u32, b: u32, v: nat, e: nat, m: nat, f: nat, n: nat)
    requires Rounds(a, v, e, m) && Rounds(b, v, f, n)
    ensures a == b
  {
    hide Pow;
    UnitsOrdered(a, v, e, m, b, v, f, n);
    UnitsOrdered(b, v, f, n, a, v, e, m);
    MantissasOrdered(Pow(256, e), v, m, v, n);
    MantissasOrdered(Pow(256, e), v, n, v, m);
  }

  /** Encoding inverts decoding on canonical bits. */
  lemma BitsRoundTrip(bits: u32)
    requires Canonical(bits)
    ensures TargetToBits(BitsToTarget(bits)) == bits
  {
    hide LeValue, BitsToTarget, TargetToBits;
    CanonicalRounds(bits);
    var e, m := EncodeRounds(BitsToTarget(bits));
    RoundsUnique(bits, TargetToBits(BitsToTarget(bits)), TargetOf(bits), Exponent(bits) - 3, Mantissa(bits), e, m);
  }

  lemma LargeIsCanonical(t: Hash)
    requires LeValue(t) >= 0x8000
    ensures Canonical(TargetToBits(t))
  {
    hide LeValue, TargetToBits, Pow;
    var e, m := EncodeRounds(t);
    LeValueBound(t);
    if e == 30 && m >= 0x1_0000 {
      SmallPowers();
      PowAdd(256, 30, 2);
      MulLe(Pow(256, 30), 0x1_0000, m);
    }
  }

  /** The targets of at least 2^15 are exactly those that encode to canonical bits. */
  lemma EncodeCanonical(t: Hash)
    ensures Canonical(TargetToBits(t)) <==> LeValue(t) >= 0x8000
  {
    hide LeValue;
    if LeValue(t) >= 0x8000 {
      LargeIsCanonical(t);
    } else {
      SizeOfSmall(t);
      SmallTarget(t);
    }
  }
}
