/** Little-endian positional notation: the arithmetic under every byte string and limb array. */
module Bytes {

  type byte = b: int | 0 <= b < 256

  datatype Option<+T> = None | Some(value: T)

  function Pow(base: nat, n: nat): (p: nat)
    ensures base > 0 ==> p > 0
  {
    if n == 0 then 1 else base * Pow(base, n - 1)
  }

  /** The number that `digits` spells in `base`, least significant digit first. */
  function Value(base: nat, digits: seq<nat>): nat
  {
    if digits == [] then 0 else digits[0] + base * Value(base, digits[1..])
  }

  ghost predicate Digits(base: nat, digits: seq<nat>) {
    forall i :: 0 <= i < |digits| ==> digits[i] < base
  }

  function LeValue(bytes: seq<byte>): nat { Value(256, bytes) }

  /** The low `n` bytes of `v`, as `to_le_bytes` lays them out. */
  function LeBytes(n: nat, v: nat): (s: seq<byte>)
    ensures |s| == n
  {
    if n == 0 then [] else [v % 256] + LeBytes(n - 1, v / 256)
  }

  lemma MulLe(k: nat, a: int, b: int)
    requires a <= b
    ensures k * a <= k * b
  {
  }

  lemma MulZero(a: nat, b: nat)
    requires a > 0
    ensures a * b == 0 <==> b == 0
    ensures a * b >= b
  {
  }

  lemma DigitBound(base: nat, d: nat, x: nat, p: nat)
    requires d < base && x < p
    ensures d + base * x < base * p
  {
    MulLe(base, x + 1, p);
    assert base * (x + 1) == base * x + base;
  }

  lemma DistributeProduct(a: nat, x: nat, p: nat, v: nat)
    ensures a * (x + p * v) == a * x + (a * p) * v
  {
    assert a * (p * v) == (a * p) * v;
  }

  lemma {:induction false} PowAdd(base: nat, m: nat, n: nat)
    ensures Pow(base, m + n) == Pow(base, m) * Pow(base, n)
  {
    if m == 0 {
    } else {
      PowAdd(base, m - 1, n);
      var x, y := Pow(base, m - 1), Pow(base, n);
      assert base * (x * y) == (base * x) * y;
    }
  }

  lemma {:induction false} PowMonotone(base: nat, m: nat, n: nat)
    requires base > 0 && m <= n
    ensures Pow(base, m) <= Pow(base, n)
  {
    if m < n {
      PowMonotone(base, m, n - 1);
      var x := Pow(base, n - 1);
      assert x <= base * x;
    }
  }

  lemma {:induction false} ValueConcat(base: nat, s: seq<nat>, t: seq<nat>)
    ensures Value(base, s + t) == Value(base, s) + Pow(base, |s|) * Value(base, t)
  {
    if s == [] {
      assert s + t == t;
    } else {
      assert (s + t)[1..] == s[1..] + t;
      ValueConcat(base, s[1..], t);
      var x, p, v := Value(base, s[1..]), Pow(base, |s| - 1), Value(base, t);
      DistributeProduct(base, x, p, v);
    }
  }

  lemma ValueAppend(base: nat, s: seq<nat>, d: nat)
    ensures Value(base, s + [d]) == Value(base, s) + Pow(base, |s|) * d
  {
    ValueConcat(base, s, [d]);
    assert Value(base, [d]) == d + base * Value(base, []);
  }

  lemma ValuePrefix(base: nat, s: seq<nat>, k: nat)
    requires k < |s|
    ensures Value(base, s[..k + 1]) == Value(base, s[..k]) + Pow(base, k) * s[k]
  {
    assert s[..k + 1] == s[..k] + [s[k]];
    ValueAppend(base, s[..k], s[k]);
  }

  lemma {:induction false} ValueBound(base: nat, s: seq<nat>)
    requires Digits(base, s)
    ensures Value(base, s) < Pow(base, |s|)
  {
    if s != [] {
      assert Digits(base, s[1..]) by { assert forall i :: 0 <= i < |s| - 1 ==> s[1..][i] == s[i + 1]; }
      ValueBound(base, s[1..]);
      DigitBound(base, s[0], Value(base, s[1..]), Pow(base, |s| - 1));
    }
  }

  lemma {:induction false} ValueZeros(base: nat, s: seq<nat>)
    ensures Value(base, s) == 0 || base == 0 <==> base == 0 || forall i :: 0 <= i < |s| ==> s[i] == 0
  {
    if s != [] && base > 0 {
      ValueZeros(base, s[1..]);
      var x := Value(base, s[1..]);
      assert base * x == 0 <==> x == 0;
      assert forall i :: 0 < i < |s| ==> s[i] == s[1..][i - 1];
      assert forall i :: 0 <= i < |s| - 1 ==> s[1..][i] == s[i + 1];
    }
  }

  lemma {:induction false} ValueInjective(base: nat, s: seq<nat>, t: seq<nat>)
    requires Digits(base, s) && Digits(base, t) && |s| == |t|
    requires Value(base, s) == Value(base, t)
    ensures s == t
  {
    if s != [] {
      var x, y := Value(base, s[1..]), Value(base, t[1..]);
      DigitUnique(base, s[0], x, t[0], y);
      ValueInjective(base, s[1..], t[1..]);
      assert s == [s[0]] + s[1..];
      assert t == [t[0]] + t[1..];
    }
  }

  lemma DigitUnique(base: nat, a: nat, x: nat, b: nat, y: nat)
    requires a < base && b < base && a + base * x == b + base * y
    ensures a == b && x == y
  {
    if x < y {
      MulLe(base, x + 1, y);
    } else if y < x {
      MulLe(base, y + 1, x);
    }
  }

  lemma BytesAreDigits(s: seq<byte>)
    ensures Digits(256, s)
  {
  }

  /** `from_le_bytes` after `to_le_bytes` keeps the low bits: nothing is lost below 256^n. */
  lemma {:induction false} LeBytesValue(n: nat, v: nat)
    ensures LeValue(LeBytes(n, v)) == v % Pow(256, n)
    ensures v < Pow(256, n) ==> LeValue(LeBytes(n, v)) == v
  {
    if n > 0 {
      LeBytesValue(n - 1, v / 256);
      var p := Pow(256, n - 1);
      assert LeBytes(n, v)[1..] == LeBytes(n - 1, v / 256);
      ModSplit(v, p);
    }
    if v < Pow(256, n) {
      assert v % Pow(256, n) == v;
    }
  }

  lemma ModSplit(v: nat, p: nat)
    requires p > 0
    ensures v % (256 * p) == v % 256 + 256 * ((v / 256) % p)
  {
    var q, r := (v / 256) / p, (v / 256) % p;
    assert v / 256 == q * p + r;
    assert v == 256 * (q * p + r) + v % 256;
    assert v == q * (256 * p) + (256 * r + v % 256);
    assert 256 * r + v % 256 < 256 * p;
    ModUnique(v, 256 * p, q, 256 * r + v % 256);
  }

  lemma ModUnique(v: int, d: int, q: int, r: int)
    requires d > 0 && v == q * d + r && 0 <= r < d
    ensures v / d == q && v % d == r
  {
    var q', r' := v / d, v % d;
    assert v == q' * d + r';
    if q < q' {
      MulLe(d, q + 1, q');
    } else if q' < q {
      MulLe(d, q' + 1, q);
    }
  }

  lemma ModSmall(x: nat, p: nat)
    requires x < p
    ensures x % p == x
  {
  }

  /** The converse: `to_le_bytes` after `from_le_bytes` is the identity on `n`-byte strings. */
  lemma {:induction false} LeValueBytes(s: seq<byte>)
    ensures LeBytes(|s|, LeValue(s)) == s
  {
    if s != [] {
      var x := LeValue(s[1..]);
      assert LeValue(s) == s[0] + 256 * x;
      ModUnique(LeValue(s), 256, x, s[0]);
      LeValueBytes(s[1..]);
      assert s == [s[0]] + s[1..];
    }
  }

  lemma LeValueBound(s: seq<byte>)
    ensures LeValue(s) < Pow(256, |s|)
  {
    BytesAreDigits(s);
    ValueBound(256, s);
  }

  lemma SliceOfSuffix<T>(s: seq<T>, pos: nat, i: nat, j: nat)
    requires i <= j && pos + j <= |s|
    ensures s[pos..][i..j] == s[pos + i..pos + j]
  {
  }

  lemma SmallPowers()
    ensures Pow(256, 1) == 0x100
    ensures Pow(256, 2) == 0x1_0000
    ensures Pow(256, 3) == 0x100_0000
    ensures Pow(256, 4) == 0x1_0000_0000
    ensures Pow(256, 8) == 0x1_0000_0000_0000_0000
  {
    assert Pow(256, 1) == 256 * Pow(256, 0);
    assert Pow(256, 2) == 256 * Pow(256, 1);
    assert Pow(256, 3) == 256 * Pow(256, 2);
    assert Pow(256, 4) == 256 * Pow(256, 3);
    assert Pow(256, 5) == 256 * Pow(256, 4);
    assert Pow(256, 6) == 256 * Pow(256, 5);
    assert Pow(256, 7) == 256 * Pow(256, 6);
    assert Pow(256, 8) == 256 * Pow(256, 7);
  }

  lemma PowersOfTwo()
    ensures Pow(2, 0) == 1 && Pow(2, 1) == 2 && Pow(2, 2) == 4 && Pow(2, 3) == 8 && Pow(2, 4) == 16
    ensures Pow(2, 5) == 32 && Pow(2, 6) == 64 && Pow(2, 7) == 128 && Pow(2, 8) == 256
    ensures Pow(2, 9) == 512 && Pow(2, 10) == 1024
  {
    assert Pow(2, 1) == 2 * Pow(2, 0);
    assert Pow(2, 2) == 2 * Pow(2, 1);
    assert Pow(2, 3) == 2 * Pow(2, 2);
    assert Pow(2, 4) == 2 * Pow(2, 3);
    assert Pow(2, 5) == 2 * Pow(2, 4);
    assert Pow(2, 6) == 2 * Pow(2, 5);
    assert Pow(2, 7) == 2 * Pow(2, 6);
    assert Pow(2, 8) == 2 * Pow(2, 7);
    assert Pow(2, 9) == 2 * Pow(2, 8);
    assert Pow(2, 10) == 2 * Pow(2, 9);
  }
}
