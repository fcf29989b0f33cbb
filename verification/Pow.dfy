/** Proof-of-work arithmetic on byte and limb arrays. */
module ProofOfWork {
  import opened Bytes
  import opened Wire
  import opened Transaction
  import opened Compact

  // ----------------------------------------------------------- in-place byte loops

  lemma CarryStep(p: nat, x: nat, carry: nat, d: nat, was: nat, c: nat)
    requires d + 256 * c == was + carry
    ensures x + p * carry + p * was == x + p * d + (256 * p) * c
  {
    assert p * (d + 256 * c) == p * d + p * (256 * c);
    assert p * (was + carry) == p * was + p * carry;
    assert p * (256 * c) == (256 * p) * c;
  }

  /** The carry loops that add one: the number grows by one, modulo the array's range. */
  method Increment(a: array<byte>)
    modifies a
    ensures LeValue(a[..]) == (LeValue(old(a[..])) + 1) % Pow(256, a.Length)
  {
    hide Value, Pow;
    ghost var was := a[..];
    var carry: nat := 1;
    EmptyPrefix(a[..]);
    for i := 0 to a.Length
      invariant carry <= 1 && a[i..] == was[i..]
      invariant LeValue(a[..i]) + Pow(256, i) * carry == LeValue(was[..i]) + 1
    {
      ghost var done := a[..i];
      var sum: nat := a[i] as int + carry;
      a[i] := sum % 256;
      assert a[..i] == done && a[i + 1..] == was[i + 1..];
      ValuePrefix(256, a[..], i);
      ValuePrefix(256, was, i);
      assert a[..][..i + 1] == a[..i + 1] && a[..][..i] == done;
      PowStep(i);
      CarryStep(Pow(256, i), LeValue(done), carry, sum % 256, was[i], sum / 256);
      carry := sum / 256;
    }
    assert a[..a.Length] == a[..] && was[..a.Length] == was;
    LeValueBound(a[..]);
    WrapOnce(LeValue(was) + 1, Pow(256, a.Length), LeValue(a[..]), carry);
  }

  lemma EmptyPrefix(s: seq<byte>)
    ensures LeValue(s[..0]) == 0 && Pow(256, 0) == 1
  {
  }

  lemma WrapOnce(x: nat, p: nat, r: nat, c: nat)
    requires x == r + p * c && r < p
    ensures x % p == r
  {
    ModUnique(x, p, c, r);
  }

  /** `add_chain_work`: addition of two 256-bit numbers, wrapping at 2^256. */
  method AddChainWork(a: Hash, b: Hash) returns (sum: Hash)
    ensures LeValue(sum) == (LeValue(a) + LeValue(b)) % Pow(256, 32)
  {
    hide Value, Pow;
    var res := new byte[32](_ => 0);
    var carry: nat := 0;
    EmptyPrefix(a);
    EmptyPrefix(b);
    EmptyPrefix(res[..]);
    for i := 0 to 32
      invariant carry <= 1
      invariant LeValue(res[..i]) + Pow(256, i) * carry == LeValue(a[..i]) + LeValue(b[..i])
    {
      ghost var done := res[..i];
      var total: nat := a[i] as int + b[i] as int + carry;
      res[i] := total % 256;
      assert res[..][..i + 1] == res[..i + 1] && res[..][..i] == done;
      ValuePrefix(256, res[..], i);
      ValuePrefix(256, a, i);
      ValuePrefix(256, b, i);
      PowStep(i);
      CarryStep(Pow(256, i), LeValue(done), carry, total % 256, a[i] as int + b[i] as int, total / 256);
      SplitProduct(Pow(256, i), a[i], b[i]);
      carry := total / 256;
    }
    assert res[..32] == res[..] && a[..32] == a && b[..32] == b;
    LeValueBound(res[..]);
    WrapOnce(LeValue(a) + LeValue(b), Pow(256, 32), LeValue(res[..]), carry);
    return res[..];
  }

  lemma SplitProduct(p: nat, a: nat, b: nat)
    ensures p * (a + b) == p * a + p * b
  {
  }

  /** The shift loop: double the number; the bit that falls off the top is returned. */
  method ShiftLeft(a: array<byte>) returns (c: nat)
    modifies a
    ensures c <= 1 && LeValue(a[..]) + Pow(256, a.Length) * c == 2 * LeValue(old(a[..]))
    ensures a.Length > 0 ==> a[0] % 2 == 0
  {
    hide Value, Pow;
    ghost var was := a[..];
    c := 0;
    EmptyPrefix(a[..]);
    for j := 0 to a.Length
      invariant c <= 1 && a[j..] == was[j..]
      invariant LeValue(a[..j]) + Pow(256, j) * c == 2 * LeValue(was[..j])
      invariant j > 0 ==> a[0] % 2 == 0
      invariant j == 0 ==> c == 0
    {
      ghost var done := a[..j];
      var next := a[j] / 128;
      a[j] := (a[j] as int * 2) % 256 + c;
      assert a[..j] == done && a[j + 1..] == was[j + 1..];
      ValuePrefix(256, a[..], j);
      ValuePrefix(256, was, j);
      assert a[..][..j + 1] == a[..j + 1] && a[..][..j] == done;
      PowStep(j);
      ShiftStep(Pow(256, j), LeValue(done), c, was[j], next);
      c := next;
    }
    assert a[..a.Length] == a[..] && was[..a.Length] == was;
  }

  /** Shift left and put `bit` at the bottom. */
  method ShiftIn(a: array<byte>, bit: nat)
    requires bit <= 1 && a.Length > 0
    modifies a
    ensures LeValue(a[..]) == (2 * LeValue(old(a[..])) + bit) % Pow(256, a.Length)
  {
    hide LeValue, Pow;
    var c := ShiftLeft(a);
    ghost var shifted := a[..];
    a[0] := a[0] + bit;
    assert a[..] == shifted[0 := shifted[0] + bit];
    DigitUpdate(shifted, 0, shifted[0] + bit);
    EmptyPrefix(shifted);
    LeValueBound(a[..]);
    WrapOnce(2 * LeValue(old(a[..])) + bit, Pow(256, a.Length), LeValue(a[..]), c);
  }

  lemma ShiftStep(p: nat, x: nat, c: nat, was: nat, next: nat)
    requires was < 256 && next == was / 128
    ensures x + p * ((was * 2) % 256 + c) + (256 * p) * next == x + p * c + 2 * (p * was)
  {
    var low := (was * 2) % 256;
    assert low + 256 * next == 2 * was;
    assert p * (low + 256 * next) == p * low + p * (256 * next);
    assert p * (256 * next) == (256 * p) * next;
    assert p * (low + c) == p * low + p * c;
    assert p * (2 * was) == 2 * (p * was);
  }

  /** The subtract-with-borrow loop. */
  method Subtract(a: array<byte>, b: array<byte>)
    requires a != b && a.Length == b.Length && LeValue(a[..]) >= LeValue(b[..])
    modifies a
    ensures LeValue(a[..]) == LeValue(old(a[..])) - LeValue(b[..])
  {
    hide Value, Pow;
    ghost var was := a[..];
    var borrow: nat := 0;
    EmptyPrefix(a[..]);
    EmptyPrefix(b[..]);
    for j := 0 to a.Length
      invariant borrow <= 1 && a[j..] == was[j..] && b[..] == old(b[..])
      invariant LeValue(a[..j]) + LeValue(b[..j]) == LeValue(was[..j]) + Pow(256, j) * borrow
    {
      ghost var done := a[..j];
      ghost var before := borrow;
      var diff: int := a[j] as int - b[j] as int - borrow;
      if diff < 0 {
        a[j] := diff + 256;
        borrow := 1;
      } else {
        a[j] := diff;
        borrow := 0;
      }
      assert a[..j] == done && a[j + 1..] == was[j + 1..];
      ValuePrefix(256, a[..], j);
      ValuePrefix(256, b[..], j);
      ValuePrefix(256, was, j);
      assert a[..][..j + 1] == a[..j + 1] && a[..][..j] == done;
      assert b[..][..j + 1] == b[..j + 1] && b[..][..j] == b[..j];
      PowStep(j);
      BorrowStep(Pow(256, j), a[j], b[j], was[j], before, borrow);
    }
    assert a[..a.Length] == a[..] && was[..a.Length] == was && b[..a.Length] == b[..];
    LeValueBound(a[..]);
  }

  lemma BorrowStep(p: nat, d: nat, b: nat, was: nat, before: nat, after: nat)
    requires d + b + before == was + 256 * after
    ensures p * d + p * b + p * before == p * was + (256 * p) * after
  {
    assert p * (d + b + before) == p * d + p * b + p * before;
    assert p * (was + 256 * after) == p * was + p * (256 * after);
    assert p * (256 * after) == (256 * p) * after;
  }

  /** The comparison scan from the most significant byte. */
  method AtLeast(a: array<byte>, b: array<byte>) returns (ge: bool)
    requires a.Length == b.Length
    ensures ge <==> LeValue(a[..]) >= LeValue(b[..])
  {
    hide LeValue;
    var j := a.Length;
    while j > 0
      invariant 0 <= j <= a.Length && a[j..] == b[j..]
    {
      j := j - 1;
      assert a[..][j + 1..] == a[j + 1..] && b[..][j + 1..] == b[j + 1..];
      if a[j] < b[j] {
        HigherDigitDecides(a[..], b[..], j);
        return false;
      } else if a[j] > b[j] {
        HigherDigitDecides(b[..], a[..], j);
        return true;
      }
      assert a[j..] == [a[j]] + a[j + 1..] && b[j..] == [b[j]] + b[j + 1..];
    }
    assert a[..] == a[0..] && b[..] == b[0..];
    return true;
  }

  // ------------------------------------------------------------- bits of a number

  lemma {:induction false} PowOfTwo(k: nat, j: nat)
    ensures Pow(2, 8 * k + j) == Pow(256, k) * Pow(2, j)
  {
    if k > 0 {
      PowOfTwo(k - 1, j);
      PowEight(8 * (k - 1) + j);
      var x, y := Pow(256, k - 1), Pow(2, j);
      assert 256 * (x * y) == (256 * x) * y;
    }
  }

  lemma PowEight(n: nat)
    ensures Pow(2, n + 8) == 256 * Pow(2, n)
  {
    assert Pow(2, n + 1) == 2 * Pow(2, n);
    assert Pow(2, n + 2) == 2 * Pow(2, n + 1);
    assert Pow(2, n + 3) == 2 * Pow(2, n + 2);
    assert Pow(2, n + 4) == 2 * Pow(2, n + 3);
    assert Pow(2, n + 5) == 2 * Pow(2, n + 4);
    assert Pow(2, n + 6) == 2 * Pow(2, n + 5);
    assert Pow(2, n + 7) == 2 * Pow(2, n + 6);
    assert Pow(2, n + 8) == 2 * Pow(2, n + 7);
  }

  function BitAt(s: seq<byte>, i: nat): nat
    requires i < 8 * |s|
  {
    s[i / 8] / Pow(2, i % 8) % 2
  }

  lemma DivMul(v: nat, a: nat, b: nat)
    requires a > 0 && b > 0
    ensures a * b > 0 && v / (a * b) == v / a / b
  {
    var q, r := v / a, v % a;
    var h, l := q / b, q % b;
    assert v == q * a + r && q == h * b + l;
    var rest := l * a + r;
    assert (h * b + l) * a == h * (a * b) + l * a;
    assert rest < a * b by { MulLe(a, l + 1, b); assert a * (l + 1) == l * a + a; }
    ModUnique(v, a * b, h, rest);
  }

  /** Taking bit `i` of a byte string is taking it of the number. */
  lemma BitOfValue(s: seq<byte>, i: nat)
    requires i < 8 * |s|
    ensures LeValue(s) / Pow(2, i) % 2 == BitAt(s, i)
  {
    hide LeValue, Pow;
    var k, j := i / 8, i % 8;
    var v := LeValue(s);
    var y, h := LeValue(s[k..]), LeValue(s[k + 1..]);
    ValueTake(s, k);
    assert y == s[k] + 256 * h by {
      UnfoldValue(s[k..]);
      assert s[k..][1..] == s[k + 1..];
    }
    assert Pow(2, i) == Pow(256, k) * Pow(2, j) by {
      PowOfTwo(k, j);
      assert i == 8 * k + j;
    }
    assert v / Pow(2, i) == y / Pow(2, j) by { DivMul(v, Pow(256, k), Pow(2, j)); }
    LowBits(s[k], h, j);
  }

  lemma UnfoldValue(s: seq<byte>)
    requires s != []
    ensures LeValue(s) == s[0] + 256 * LeValue(s[1..])
  {
  }

  lemma DivShift(d: nat, p: nat, t: nat)
    requires p > 0
    ensures (d + p * t) / p == d / p + t
  {
    var q, r := d / p, d % p;
    assert d == q * p + r;
    assert (q + t) * p == q * p + p * t;
    ModUnique(d + p * t, p, q + t, r);
  }

  lemma ByteSplit(j: nat)
    requires j < 8
    ensures Pow(2, j) * (2 * Pow(2, 7 - j)) == 256 && Pow(2, j + 1) == 2 * Pow(2, j)
  {
    PowAdd(2, j, 7 - j);
    PowersOfTwo();
  }

  /** Whole bytes above do not disturb a bit below. */
  lemma LowBits(d: nat, h: nat, j: nat)
    requires j < 8
    ensures (d + 256 * h) / Pow(2, j) % 2 == d / Pow(2, j) % 2
  {
    hide Pow;
    ByteSplit(j);
    EvenShift(d, h, Pow(2, j), Pow(2, 7 - j));
  }

  lemma EvenShift(d: nat, h: nat, p: nat, t: nat)
    requires p > 0 && p * (2 * t) == 256
    ensures (d + 256 * h) / p % 2 == d / p % 2
  {
    var u := t * h;
    MulAssoc(p, 2 * t, h);
    MulAssoc(2, t, h);
    DivShift(d, p, 2 * u);
    EvenMod(d / p, u);
  }

  lemma MulAssoc(a: nat, b: nat, c: nat)
    ensures (a * b) * c == a * (b * c)
  {
  }

  lemma EvenMod(x: nat, u: nat)
    ensures (x + 2 * u) % 2 == x % 2
  {
  }

  /** The numerator's prefix grows by one bit at a time. */
  lemma PrefixStep(s: seq<byte>, i: nat)
    requires i < 8 * |s|
    ensures LeValue(s) / Pow(2, i) == 2 * (LeValue(s) / Pow(2, i + 1)) + BitAt(s, i)
  {
    hide LeValue, BitAt;
    BitOfValue(s, i);
    DivMul(LeValue(s), Pow(2, i), 2);
    assert Pow(2, i + 1) == Pow(2, i) * 2;
  }

  // ----------------------------------------------------------- long division

  /** All bits below `i` are clear. */
  ghost predicate ClearBelow(s: seq<byte>, i: nat) {
    && (forall m :: 0 <= m < |s| && m < i / 8 ==> s[m] == 0)
    && (i / 8 < |s| ==> s[i / 8] % Pow(2, i % 8) == 0)
  }

  function SetBit(x: byte, j: nat): nat
  {
    if x / Pow(2, j) % 2 == 1 then x else x + Pow(2, j)
  }

  lemma SetBitFits(x: byte, j: nat)
    requires j < 8 && x % Pow(2, j + 1) == 0
    ensures SetBit(x, j) == x + Pow(2, j) < 256
    ensures SetBit(x, j) % Pow(2, j) == 0 && x % Pow(2, j) == 0
  {
    hide Pow;
    ByteSplit(j);
    ClearByte(x, Pow(2, j), Pow(2, 7 - j));
  }

  /** A byte divisible by 2p, where p * 2t is the byte range, has room for p. */
  lemma ClearByte(x: nat, p: nat, t: nat)
    requires p > 0 && p * (2 * t) == 256 && x < 256 && x % (2 * p) == 0
    ensures x / p % 2 == 0 && x % p == 0 && (x + p) % p == 0 && x + p < 256
  {
    var c := x / (2 * p);
    assert x == c * (2 * p);
    TwiceMultiple(c, p);
    ModUnique(x, p, 2 * c, 0);
    ModUnique(x + p, p, 2 * c + 1, 0);
    assert (2 * p) * t == 256;
    MultipleBelow(c, 2 * p, t);
  }

  lemma TwiceMultiple(c: nat, p: nat)
    ensures c * (2 * p) == (2 * c) * p && (2 * c) * p + p == (2 * c + 1) * p
  {
  }

  lemma MultipleBelow(c: nat, a: nat, b: nat)
    requires a > 0 && c * a < a * b
    ensures c * a + a <= a * b
  {
    if c >= b { MulLe(a, b, c); }
    MulLe(a, c + 1, b);
    assert a * (c + 1) == c * a + a;
  }

  lemma ClearStep(s: seq<byte>, i: nat)
    requires i < 8 * |s| && ClearBelow(s, i + 1)
    ensures var k, j := i / 8, i % 8;
      && ClearBelow(s, i)
      && SetBit(s[k], j) < 256
      && ClearBelow(s[k := SetBit(s[k], j)], i)
      && LeValue(s[k := SetBit(s[k], j)]) == LeValue(s) + Pow(2, i)
  {
    hide LeValue, SetBit, Pow;
    var k, j := i / 8, i % 8;
    assert s[k] % Pow(2, j + 1) == 0 by {
      if j < 7 {
        assert (i + 1) / 8 == k && (i + 1) % 8 == j + 1;
      } else {
        assert (i + 1) / 8 == k + 1;
        ByteSplit(7);
        ModSmall(0, Pow(2, 8));
      }
    }
    SetBitFits(s[k], j);
    DigitUpdate(s, k, SetBit(s[k], j));
    PowOfTwo(k, j);
    assert i == 8 * k + j;
  }

  lemma DivisionStep(n: nat, next: nat, d: nat, q: nat, r: nat, bit: nat)
    requires d > 0 && bit <= 1 && r < d && n == q * d + r && next == 2 * n + bit
    ensures 2 * r + bit <= next
    ensures 2 * r + bit < d ==> next == (2 * q) * d + (2 * r + bit)
    ensures 2 * r + bit >= d ==> next == (2 * q + 1) * d + (2 * r + bit - d) && 2 * r + bit - d < d
  {
    assert (2 * q) * d == 2 * (q * d);
    assert (2 * q + 1) * d == 2 * (q * d) + d;
  }

  lemma QuotientStep(q: nat, p: nat)
    ensures (2 * q) * p == q * (2 * p) && (2 * q + 1) * p == q * (2 * p) + p
  {
    assert (2 * q + 1) * p == (2 * q) * p + p;
  }

  /** One round of the division loop: shift a bit in, compare, subtract, set the quotient bit. */
  method DivideBit(num: array<byte>, den: array<byte>, quot: array<byte>, rem: array<byte>, i: nat, ghost q: nat)
    returns (ghost q': nat)
    requires num.Length == den.Length == quot.Length == rem.Length && i < 8 * num.Length
    requires quot != rem && num != quot && num != rem && den != quot && den != rem
    requires LeValue(rem[..]) < LeValue(den[..])
    requires LeValue(num[..]) / Pow(2, i + 1) == q * LeValue(den[..]) + LeValue(rem[..])
    requires LeValue(quot[..]) == q * Pow(2, i + 1) && ClearBelow(quot[..], i + 1)
    modifies quot, rem
    ensures LeValue(rem[..]) < LeValue(den[..])
    ensures LeValue(num[..]) / Pow(2, i) == q' * LeValue(den[..]) + LeValue(rem[..])
    ensures LeValue(quot[..]) == q' * Pow(2, i) && ClearBelow(quot[..], i)
  {
    hide LeValue, BitAt, SetBit, ClearBelow, Pow;
    ghost var n, d, r := LeValue(num[..]), LeValue(den[..]), LeValue(rem[..]);
    var bit := num[i / 8] / Pow(2, i % 8) % 2;
    assert bit == BitAt(num[..], i) by { BitAtDef(num[..], i); }
    PrefixStep(num[..], i);
    ClearStep(quot[..], i);
    QuotientStep(q, Pow(2, i));
    DoublePow(i);
    DivisionStep(n / Pow(2, i + 1), n / Pow(2, i), d, q, r, bit);
    ShiftIn(rem, bit);
    LeValueBound(num[..]);
    DivBelow(n, Pow(2, i));
    ModSmall(2 * r + bit, Pow(256, rem.Length));
    var ge := AtLeast(rem, den);
    if ge {
      Subtract(rem, den);
      ghost var was := quot[..];
      quot[i / 8] := SetBit(quot[i / 8], i % 8);
      assert quot[..] == was[i / 8 := SetBit(was[i / 8], i % 8)];
      q' := 2 * q + 1;
    } else {
      q' := 2 * q;
    }
  }

  lemma BitAtDef(s: seq<byte>, i: nat)
    requires i < 8 * |s|
    ensures BitAt(s, i) == s[i / 8] / Pow(2, i % 8) % 2
    ensures BitAt(s, i) <= 1
  {
  }

  lemma DoublePow(i: nat)
    ensures Pow(2, i + 1) == 2 * Pow(2, i) && Pow(2, i) > 0
  {
  }

  lemma DivBelow(n: nat, p: nat)
    requires p > 0
    ensures n / p <= n
  {
    assert n == (n / p) * p + n % p;
    MulZero(p, n / p);
  }

  // --------------------------------------------------------------- block work

  /** What `calculate_block_work` is meant to compute. */
  function BlockWork(bits: u32): nat {
    if TargetOf(bits) == 0 then 0 else FloorDiv(Pow(256, 32), TargetOf(bits) + 1)
  }

  function FloorDiv(a: nat, b: nat): nat
    requires b > 0
  {
    a / b
  }

  method Complement(t: Hash) returns (num: array<byte>)
    ensures fresh(num) && num.Length == 32 && LeValue(num[..]) == Pow(256, 32) - 1 - LeValue(t)
  {
    hide Value, Pow;
    num := new byte[32](_ => 0);
    EmptyPrefix(num[..]);
    EmptyPrefix(t);
    for i := 0 to 32
      invariant LeValue(num[..i]) + LeValue(t[..i]) == Pow(256, i) - 1
    {
      ghost var done := num[..i];
      num[i] := 255 - t[i];
      assert num[..][..i + 1] == num[..i + 1] && num[..][..i] == done;
      ValuePrefix(256, num[..], i);
      ValuePrefix(256, t, i);
      PowStep(i);
      SplitProduct(Pow(256, i), 255 - t[i], t[i]);
    }
    assert num[..32] == num[..] && t[..32] == t;
  }

  method Copy(t: seq<byte>) returns (a: array<byte>)
    ensures fresh(a) && a[..] == t
  {
    a := new byte[|t|](i requires 0 <= i < |t| => t[i]);
    assert a[..] == t;
  }

  /** `calculate_block_work`: bit-serial long division gives floor(2^256 / (target + 1)). */
  method CalculateBlockWork(bits: u32) returns (work: Hash)
    ensures LeValue(work) == BlockWork(bits)
  {
    hide Value, Pow, BitsToTarget;
    var target := BitsToTarget(bits);
    ZerosValue(32);
    if target == ZERO_HASH { return ZERO_HASH; }
    assert LeValue(target) > 0 by { NonZeroTarget(target); }
    TargetNotMax(bits);
    var num := Complement(target);
    var den := Copy(target);
    Increment(den);
    ghost var d := LeValue(target) + 1;
    ModSmall(d, Pow(256, 32));
    var quot := Copy(ZERO_HASH);
    var rem := Copy(ZERO_HASH);
    ghost var n := LeValue(num[..]);
    ghost var q: nat := 0;
    LeValueBound(num[..]);
    StartDivision(n, d, quot[..]);
    for i := 256 downto 0
      invariant quot.Length == rem.Length == 32 && LeValue(num[..]) == n && LeValue(den[..]) == d
      invariant LeValue(rem[..]) < d && n / Pow(2, i) == q * d + LeValue(rem[..])
      invariant LeValue(quot[..]) == q * Pow(2, i) && ClearBelow(quot[..], i)
    {
      q := DivideBit(num, den, quot, rem, i, q);
    }
    EndDivision(n, d, q, LeValue(rem[..]));
    var res := Copy(quot[..]);
    Increment(res);
    ModSmall(q + 1, Pow(256, 32));
    return res[..];
  }

  lemma NonZeroTarget(t: Hash)
    requires t != ZERO_HASH
    ensures LeValue(t) > 0
  {
    ZerosValue(32);
    ValueZeros(256, t);
    var i :| 0 <= i < 32 && t[i] != ZERO_HASH[i];
  }

  lemma StartDivision(n: nat, d: nat, quot: seq<byte>)
    requires n < Pow(256, 32) && d > 0 && quot == ZERO_HASH
    ensures n / Pow(2, 256) == 0 * d + LeValue(quot) && LeValue(quot) == 0 * Pow(2, 256) && ClearBelow(quot, 256)
  {
    hide Pow;
    ZerosValue(32);
    PowOfTwo(32, 0);
    PowersOfTwo();
  }

  lemma EndDivision(n: nat, d: nat, q: nat, r: nat)
    requires d >= 2 && n + d == Pow(256, 32) && r < d && n / Pow(2, 0) == q * d + r
    ensures Pow(256, 32) / d == q + 1 && q + 1 < Pow(256, 32)
    ensures q * Pow(2, 0) == q
  {
    hide Pow;
    PowersOfTwo();
    assert (q + 1) * d == q * d + d;
    ModUnique(n + d, d, q + 1, r);
    MulLe(q + 1, 2, d);
  }

  // ----------------------------------------------------------- retargeting

  const LIMB: nat := 0x1_0000_0000

  /** The target as eight 32-bit limbs, then eight zero limbs of head room. */
  method Expand(t: Hash) returns (limbs: array<nat>)
    ensures fresh(limbs) && limbs.Length == 16 && Digits(LIMB, limbs[..]) && Value(LIMB, limbs[..]) == LeValue(t)
  {
    hide Value;
    limbs := new nat[16](_ => 0);
    EmptyLimbs(limbs[..]);
    EmptyPrefix(t);
    for i := 0 to 8
      invariant Digits(LIMB, limbs[..i]) && Value(LIMB, limbs[..i]) == LeValue(t[..4 * i])
      invariant forall k :: i <= k < 16 ==> limbs[k] == 0
    {
      ghost var done := limbs[..i];
      var word := t[i * 4..(i + 1) * 4];
      LeValueBound(word);
      SmallPowers();
      limbs[i] := LeValue(word);
      assert limbs[..][..i + 1] == limbs[..i + 1] && limbs[..][..i] == done && limbs[..i + 1] == done + [limbs[i]];
      ValuePrefix(LIMB, limbs[..], i);
      assert t[..4 * (i + 1)] == t[..4 * i] + word;
      ValueConcat(256, t[..4 * i], word);
      LimbPower(i);
    }
    assert t[..32] == t;
    assert limbs[..] == limbs[..8] + limbs[8..];
    ValueConcat(LIMB, limbs[..8], limbs[8..]);
    ValueZeros(LIMB, limbs[8..]);
    var p := Pow(LIMB, 8);
    assert p * 0 == 0;
  }

  lemma {:induction false} LimbPower(i: nat)
    ensures Pow(LIMB, i) == Pow(256, 4 * i)
  {
    if i > 0 {
      LimbPower(i - 1);
      PowAdd(256, 4, 4 * (i - 1));
      SmallPowers();
      assert 4 + 4 * (i - 1) == 4 * i;
    }
  }

  lemma EmptyLimbs(s: seq<nat>)
    ensures Value(LIMB, s[..0]) == 0 && Pow(LIMB, 0) == 1
  {
  }

  lemma LimbCarry(p: nat, x: nat, w: nat, carry: nat, d: nat, was: nat, mul: nat, c: nat)
    requires d + LIMB * c == was * mul + carry && x + p * carry == w * mul
    ensures (x + p * d) + (LIMB * p) * c == (w + p * was) * mul
  {
    calc {
      (x + p * d) + (LIMB * p) * c;
      { assert (LIMB * p) * c == p * (LIMB * c); }
      x + p * (d + LIMB * c);
      x + p * (was * mul + carry);
      { assert p * (was * mul) == (p * was) * mul; }
      x + p * carry + (p * was) * mul;
      (w + p * was) * mul;
    }
  }

  /** The low limbs of the product and a carry. */
  ghost predicate IsProduct(done: seq<nat>, carry: nat, was: seq<nat>, mul: nat) {
    Value(LIMB, done) + Pow(LIMB, |done|) * carry == Value(LIMB, was) * mul
  }

  /** One limb of the product, with the carry passed on. */
  lemma MultiplyStep(done: seq<nat>, was: seq<nat>, i: nat, carry: nat, mul: nat)
    requires i < |was| && |done| == i && IsProduct(done, carry, was[..i], mul)
    ensures var val := was[i] * mul + carry; IsProduct(done + [val % LIMB], val / LIMB, was[..i + 1], mul)
  {
    hide Value, Pow;
    var val := was[i] * mul + carry;
    var more := done + [val % LIMB];
    assert more[..i] == done && more[..i + 1] == more;
    ValuePrefix(LIMB, more, i);
    ValuePrefix(LIMB, was, i);
    LimbPowStep(i);
    LimbCarry(Pow(LIMB, i), Value(LIMB, done), Value(LIMB, was[..i]), carry, val % LIMB, was[i], mul, val / LIMB);
  }

  /** Multiply in place; the carry left over is zero when the product has room. */
  method MultiplyLimbs(limbs: array<nat>, mul: nat) returns (carry: nat)
    requires Digits(LIMB, limbs[..])
    modifies limbs
    ensures Digits(LIMB, limbs[..]) && carry <= mul
    ensures Value(LIMB, limbs[..]) + Pow(LIMB, limbs.Length) * carry == Value(LIMB, old(limbs[..])) * mul
  {
    hide Value, Pow, IsProduct;
    ghost var was := limbs[..];
    carry := 0;
    EmptyProduct(limbs[..], was, mul);
    for i := 0 to limbs.Length
      invariant Digits(LIMB, limbs[..i]) && limbs[i..] == was[i..] && carry <= mul
      invariant IsProduct(limbs[..i], carry, was[..i], mul)
    {
      ghost var done := limbs[..i];
      assert limbs[i] == limbs[i..][0] == was[i..][0] == was[i];
      MultiplyStep(done, was, i, carry, mul);
      CarryFits(limbs[i], mul, carry);
      var val := limbs[i] * mul + carry;
      limbs[i] := val % LIMB;
      carry := val / LIMB;
      assert limbs[..i + 1] == done + [limbs[i]];
      assert limbs[i + 1..] == was[i + 1..];
    }
    assert limbs[..limbs.Length] == limbs[..] && was[..limbs.Length] == was;
    ProductMeans(limbs[..], carry, was, mul);
  }

  lemma EmptyProduct(done: seq<nat>, was: seq<nat>, mul: nat)
    ensures IsProduct(done[..0], 0, was[..0], mul)
  {
    EmptyLimbs(done);
    EmptyLimbs(was);
  }

  lemma ProductMeans(done: seq<nat>, carry: nat, was: seq<nat>, mul: nat)
    requires IsProduct(done, carry, was, mul)
    ensures Value(LIMB, done) + Pow(LIMB, |done|) * carry == Value(LIMB, was) * mul
  {
  }

  /** With 64-bit factors every intermediate value stays below 2^96, well inside 128 bits. */
  lemma CarryFits(d: nat, mul: nat, carry: nat)
    requires d < LIMB && carry <= mul
    ensures d * mul + carry <= LIMB * mul && (d * mul + carry) / LIMB <= mul
  {
    MulLe(mul, d + 1, LIMB);
  }

  lemma LimbPowStep(i: nat)
    ensures Pow(LIMB, i + 1) == LIMB * Pow(LIMB, i)
  {
  }

  /** Divide in place from the top limb; each partial quotient fits its limb. */
  method DivideLimbs(limbs: array<nat>, div: nat) returns (remainder: nat)
    requires Digits(LIMB, limbs[..]) && div > 0
    modifies limbs
    ensures Digits(LIMB, limbs[..]) && remainder < div
    ensures Value(LIMB, old(limbs[..])) == Value(LIMB, limbs[..]) * div + remainder
  {
    hide Value, Pow;
    ghost var was := limbs[..];
    ghost var n := limbs.Length;
    remainder := 0;
    assert was[n..] == [] && limbs[n..] == [];
    EmptyValue();
    for i := limbs.Length downto 0
      invariant remainder < div && limbs[..i] == was[..i] && Digits(LIMB, limbs[i..])
      invariant Value(LIMB, was[i..]) == Value(LIMB, limbs[i..]) * div + remainder
    {
      ghost var above := limbs[i + 1..];
      var val := limbs[i] + remainder * LIMB;
      QuotientFits(was[i], remainder, div);
      limbs[i] := (val / div) % LIMB;
      assert limbs[i + 1..] == above && limbs[..i] == was[..i];
      assert limbs[i..] == [limbs[i]] + above && was[i..] == [was[i]] + was[i + 1..];
      HeadValue(was[i], was[i + 1..]);
      HeadValue(limbs[i], above);
      LimbDivStep(Value(LIMB, was[i + 1..]), Value(LIMB, above), was[i], div, remainder);
      remainder := val % div;
    }
    assert limbs[0..] == limbs[..] && was[0..] == was;
  }

  lemma EmptyValue()
    ensures Value(LIMB, []) == 0
  {
  }

  lemma HeadValue(d: nat, rest: seq<nat>)
    ensures Value(LIMB, [d] + rest) == d + LIMB * Value(LIMB, rest)
  {
    assert ([d] + rest)[1..] == rest;
  }

  lemma QuotientFits(d: nat, r: nat, div: nat)
    requires d < LIMB && r < div
    ensures (d + r * LIMB) / div < LIMB && (d + r * LIMB) / div % LIMB == (d + r * LIMB) / div
  {
    var val := d + r * LIMB;
    var q := val / div;
    assert val == q * div + val % div;
    MulLe(LIMB, r + 1, div);
    if q >= LIMB { MulLe(div, LIMB, q); }
    ModSmall(q, LIMB);
  }

  lemma LimbDivStep(above: nat, q: nat, d: nat, div: nat, r: nat)
    requires div > 0 && above == q * div + r
    ensures var val := d + r * LIMB; d + LIMB * above == (val / div + LIMB * q) * div + val % div
  {
    var val := d + r * LIMB;
    var x := val / div;
    assert val == x * div + val % div;
    assert LIMB * (q * div + r) == (LIMB * q) * div + LIMB * r;
    assert (x + LIMB * q) * div == x * div + (LIMB * q) * div;
  }

  /** The 256-bit result of the limb arithmetic: the quotient, or the maximum when it does not fit. */
  function Saturated(q: nat): nat { if q < Pow(256, 32) then q else Pow(256, 32) - 1 }

  method Collapse(limbs: array<nat>) returns (r: Hash)
    requires limbs.Length == 16 && Digits(LIMB, limbs[..])
    ensures LeValue(r) == Value(LIMB, limbs[..8])
  {
    hide Value, Pow;
    var bytes: seq<byte> := [];
    EmptyLimbs(limbs[..]);
    EmptyPrefix(bytes);
    for i := 0 to 8
      invariant |bytes| == 4 * i && LeValue(bytes) == Value(LIMB, limbs[..i])
    {
      var word := LeBytes(4, limbs[i]);
      LeBytesValue(4, limbs[i]);
      SmallPowers();
      ValueConcat(256, bytes, word);
      ValuePrefix(LIMB, limbs[..], i);
      assert limbs[..][..i + 1] == limbs[..i + 1] && limbs[..][..i] == limbs[..i];
      LimbPower(i);
      bytes := bytes + word;
    }
    return bytes;
  }

  lemma NoCarryOut(v: nat, mul: nat, product: nat, carry: nat)
    requires v < Pow(256, 32) && mul < Pow(256, 8) && product + Pow(LIMB, 16) * carry == v * mul
    ensures carry == 0
  {
    hide Pow;
    LimbPower(16);
    PowAdd(256, 32, 8);
    PowMonotone(256, 40, 64);
    MulLe(mul, v, Pow(256, 32));
    MulLe(Pow(256, 32), mul, Pow(256, 8));
    if carry > 0 { MulLe(Pow(LIMB, 16), 1, carry); }
    ProductBound(v, mul, Pow(256, 32), Pow(256, 8));
  }

  lemma ProductBound(a: nat, b: nat, c: nat, d: nat)
    requires a < c && b < d
    ensures a * b < c * d
  {
    MulLe(b, a, c);
    MulStrict(c, b, d);
  }

  lemma UpperLimbs(limbs: seq<nat>)
    requires |limbs| == 16 && Digits(LIMB, limbs)
    ensures (forall i :: 8 <= i < 16 ==> limbs[i] == 0) ==> Value(LIMB, limbs) == Value(LIMB, limbs[..8])
    ensures Value(LIMB, limbs[..8]) < Pow(256, 32)
    ensures (exists i :: 8 <= i < 16 && limbs[i] != 0) ==> Value(LIMB, limbs) >= Pow(256, 32)
  {
    hide Value, Pow;
    assert limbs == limbs[..8] + limbs[8..];
    ValueConcat(LIMB, limbs[..8], limbs[8..]);
    ValueZeros(LIMB, limbs[8..]);
    ValueBound(LIMB, limbs[..8]);
    LimbPower(8);
    assert forall i :: 8 <= i < 16 ==> limbs[i] == limbs[8..][i - 8];
    assert forall i :: 0 <= i < 8 ==> limbs[8..][i] == limbs[i + 8];
    MulZero(Pow(LIMB, 8), Value(LIMB, limbs[8..]));
    if Value(LIMB, limbs[8..]) > 0 { MulLe(Pow(LIMB, 8), 1, Value(LIMB, limbs[8..])); }
  }

  method MaxHash() returns (r: Hash)
    ensures LeValue(r) == Pow(256, 32) - 1
  {
    hide Value, Pow;
    var num := Complement(ZERO_HASH);
    ZerosValue(32);
    return num[..];
  }

  function Scaled(t: nat, mul: nat, div: nat): nat
    requires div > 0
  {
    FloorDiv(t * mul, div)
  }

  /** `multiply_and_divide`: floor(target * mul / div), saturating at 2^256 - 1. */
  method MultiplyAndDivide(target: Hash, mul: u64, div: nat) returns (r: Hash)
    requires div > 0
    ensures LeValue(r) == Saturated(Scaled(LeValue(target), mul, div))
  {
    hide Value, Pow, Digits;
    var limbs := Expand(target);
    LeValueBound(target);
    SmallPowers();
    var carry := MultiplyLimbs(limbs, mul);
    NoCarryOut(LeValue(target), mul, Value(LIMB, limbs[..]), carry);
    var remainder := DivideLimbs(limbs, div);
    ModUnique(LeValue(target) * mul, div, Value(LIMB, limbs[..]), remainder);
    UpperLimbs(limbs[..]);
    assert limbs[..][..8] == limbs[..8];
    var overflow := false;
    for i := 8 to 16
      invariant !overflow
      invariant forall k :: 8 <= k < i ==> limbs[k] == 0
    {
      if limbs[i] != 0 {
        overflow := true;
        break;
      }
    }
    if overflow {
      r := MaxHash();
    } else {
      r := Collapse(limbs);
    }
  }

  // --------------------------------------------------- the retarget rule

  datatype Params = Params(powLimit: Hash, targetTimespan: nat, noRetargeting: bool)

  /** A timespan that the code's 64-bit arithmetic can hold. */
  predicate GoodParams(p: Params) { 0 < p.targetTimespan < 0x2000_0000_0000_0000 }

  function Measured(prevTime: u32, firstTime: u32): nat { if prevTime >= firstTime then prevTime - firstTime else 0 }

  /** The measured timespan, kept within a quarter and four times the target. */
  function Clamped(actual: nat, p: Params): nat {
    if actual < p.targetTimespan / 4 then p.targetTimespan / 4
    else if actual > p.targetTimespan * 4 then p.targetTimespan * 4
    else actual
  }

  /** The exact new target before compact rounding. */
  function ExactTarget(bits: u32, actual: nat, p: Params): nat
    requires GoodParams(p)
  {
    var q := Scaled(TargetOf(bits), Clamped(actual, p), p.targetTimespan);
    if q > LeValue(p.powLimit) then LeValue(p.powLimit) else q
  }

  /** The 256-bit number `v` as a hash. */
  function HashOf(v: nat): Hash { LeBytes(32, v) }

  lemma HashOfValue(t: Hash)
    ensures HashOf(LeValue(t)) == t
  {
    LeValueBytes(t);
  }

  function Least(a: nat, b: nat): nat { if a < b then a else b }

  /**
   * What a retarget is for, given the seconds the period took: the old target times the time taken over the time
   * planned, counted as no less than a quarter and no more than four times that, and never above the limit.
   */
  function Retargeted(before: nat, elapsed: int, p: Params): nat
    requires GoodParams(p)
  {
    var planned, limit := p.targetTimespan, LeValue(p.powLimit);
    if elapsed < planned / 4 then Least(limit, FloorDiv(before * (planned / 4), planned))
    else if elapsed > 4 * planned then Least(limit, 4 * before)
    else
      var taken: nat := elapsed;
      Least(limit, FloorDiv(before * taken, planned))
  }

  lemma FourPeriods(before: nat, planned: nat)
    requires planned > 0
    ensures before * (planned * 4) / planned == 4 * before
  {
    assert before * (planned * 4) == (4 * before) * planned + 0;
    ModUnique(before * (planned * 4), planned, 4 * before, 0);
  }

  /** Measuring, clamping and scaling come to exactly that. */
  lemma ExactIsRetargeted(bits: u32, prevTime: u32, firstTime: u32, p: Params)
    requires GoodParams(p)
    ensures ExactTarget(bits, Measured(prevTime, firstTime), p) == Retargeted(TargetOf(bits), prevTime - firstTime, p)
  {
    hide LeValue, BitsToTarget, TargetOf, Pow;
    FourPeriods(TargetOf(bits), p.targetTimespan);
  }

  /** A period that ends later never gives a smaller exact target. */
  lemma RetargetedMonotone(bits: u32, prevTime: u32, later: u32, firstTime: u32, p: Params)
    requires GoodParams(p) && prevTime <= later
    ensures Retargeted(TargetOf(bits), prevTime - firstTime, p) <= Retargeted(TargetOf(bits), later - firstTime, p)
  {
    hide Retargeted, ExactTarget, TargetOf;
    ExactIsRetargeted(bits, prevTime, firstTime, p);
    ExactIsRetargeted(bits, later, firstTime, p);
    ExactMonotone(bits, Measured(prevTime, firstTime), Measured(later, firstTime), p);
  }

  /** A period of exactly the planned length keeps the target. */
  lemma OnTimeKeepsTarget(before: nat, p: Params)
    requires GoodParams(p) && before <= LeValue(p.powLimit)
    ensures Retargeted(before, p.targetTimespan, p) == before
  {
    hide LeValue;
    ModUnique(before * p.targetTimespan, p.targetTimespan, before, 0);
  }

  /** `calculate_next_work_required`: the exact target, compactly encoded. */
  method CalculateNextWorkRequired(prevBits: u32, prevTime: u32, firstTime: u32, p: Params) returns (bits: u32)
    requires GoodParams(p)
    ensures !p.noRetargeting ==>
      bits == TargetToBits(HashOf(Retargeted(TargetOf(prevBits), prevTime - firstTime, p)))
    ensures bits == if p.noRetargeting then prevBits
                    else TargetToBits(HashOf(ExactTarget(prevBits, Measured(prevTime, firstTime), p)))
  {
    hide LeValue, Pow, BitsToTarget, TargetToBits, HashOf, Retargeted;
    if p.noRetargeting { return prevBits; }
    var actual := Measured(prevTime, firstTime);
    var low, high := p.targetTimespan / 4, p.targetTimespan * 4;
    if actual < low { actual := low; }
    if actual > high { actual := high; }
    var target := BitsToTarget(prevBits);
    target := MultiplyAndDivide(target, actual, p.targetTimespan);
    LeValueBound(p.powLimit);
    var order := Compare(target, p.powLimit);
    if order == Greater { target := p.powLimit; }
    HashOfValue(target);
    bits := EncodeCompact(target);
    ExactIsRetargeted(prevBits, prevTime, firstTime, p);
  }

  /** The decoded target that a retarget yields. */
  function NewTarget(bits: u32, actual: nat, p: Params): nat
    requires GoodParams(p)
  {
    TargetOf(TargetToBits(HashOf(ExactTarget(bits, actual, p))))
  }

  lemma FloorDivFacts(a: nat, b: nat)
    requires b > 0
    ensures b * FloorDiv(a, b) <= a < b * FloorDiv(a, b) + b
  {
  }

  lemma FloorDivMonotone(a: nat, c: nat, b: nat)
    requires b > 0 && a <= c
    ensures FloorDiv(a, b) <= FloorDiv(c, b)
  {
    hide FloorDiv;
    FloorDivFacts(a, b);
    FloorDivFacts(c, b);
    MantissasOrdered(b, a, FloorDiv(a, b), c, FloorDiv(c, b));
  }

  lemma ExactTargetFacts(bits: u32, actual: nat, p: Params)
    requires GoodParams(p)
    ensures ExactTarget(bits, actual, p) <= LeValue(p.powLimit)
    ensures var scaled := Scaled(TargetOf(bits), Clamped(actual, p), p.targetTimespan);
      ExactTarget(bits, actual, p) <= scaled <= 4 * TargetOf(bits)
    ensures LeValue(HashOf(ExactTarget(bits, actual, p))) == ExactTarget(bits, actual, p)
  {
    hide LeValue, Pow, BitsToTarget, Scaled;
    ScaledFacts(TargetOf(bits), Clamped(actual, p), p.targetTimespan);
    LeValueBound(p.powLimit);
    LeBytesValue(32, ExactTarget(bits, actual, p));
  }

  lemma ScaledFacts(t: nat, c: nat, span: nat)
    requires 0 < span && c <= 4 * span
    ensures Scaled(t, c, span) <= 4 * t
  {
    hide FloorDiv;
    MulLe(t, c, 4 * span);
    FloorDivMonotone(t * c, t * (4 * span), span);
    FourTimes(t, span);
  }

  lemma ScaledMonotone(t: nat, c: nat, d: nat, span: nat)
    requires 0 < span && c <= d
    ensures Scaled(t, c, span) <= Scaled(t, d, span)
  {
    hide FloorDiv;
    MulLe(t, c, d);
    FloorDivMonotone(t * c, t * d, span);
  }

  lemma FourTimes(t: nat, span: nat)
    requires span > 0
    ensures FloorDiv(t * (4 * span), span) == 4 * t
  {
    assert t * (4 * span) == (4 * t) * span;
    ModUnique(t * (4 * span), span, 4 * t, 0);
  }

  /**
   * Retargeting is exact up to compact rounding: never above the limit, the exact quotient or four times the old
   * target, and less than one part in 2^15 below the exact result, whenever that result is at least 2^15.
   */
  lemma RetargetBounds(bits: u32, actual: nat, p: Params)
    requires GoodParams(p) && ExactTarget(bits, actual, p) >= 0x8000
    ensures var x, w := ExactTarget(bits, actual, p), NewTarget(bits, actual, p);
      && w <= x && (x - w) * 0x8000 < x
      && w <= LeValue(p.powLimit) && w <= 4 * TargetOf(bits)
  {
    hide LeValue, Pow, BitsToTarget, TargetToBits, HashOf, ExactTarget, FloorDiv, TargetOf;
    ExactTargetFacts(bits, actual, p);
    RoundTripBelow(HashOf(ExactTarget(bits, actual, p)));
  }

  /** And that threshold is exact: a smaller nonzero result comes out larger than it should. */
  lemma RetargetIff(bits: u32, actual: nat, p: Params)
    requires GoodParams(p)
    ensures var x := ExactTarget(bits, actual, p);
      NewTarget(bits, actual, p) <= x <==> x == 0 || x >= 0x8000
  {
    hide LeValue, Pow, BitsToTarget, TargetToBits, HashOf, ExactTarget, FloorDiv, TargetOf;
    ExactTargetFacts(bits, actual, p);
    RoundTripIff(HashOf(ExactTarget(bits, actual, p)));
  }

  /** A longer measured timespan never gives a smaller exact target. */
  lemma ExactMonotone(bits: u32, a: nat, b: nat, p: Params)
    requires GoodParams(p) && a <= b
    ensures ExactTarget(bits, a, p) <= ExactTarget(bits, b, p)
  {
    hide LeValue, Pow, BitsToTarget, Scaled, TargetOf;
    ScaledMonotone(TargetOf(bits), Clamped(a, p), Clamped(b, p), p.targetTimespan);
  }

  /**
   * It gives a target that is no harder if and only if the exact targets are still in order once those below 2^15
   * are scaled up, which they are whenever the smaller one is at least 2^15 or the larger one lies in no gap.
   */
  lemma RetargetMonotone(bits: u32, a: nat, b: nat, p: Params)
    requires GoodParams(p) && a <= b
    ensures var x, y := ExactTarget(bits, a, p), ExactTarget(bits, b, p);
      && (NewTarget(bits, a, p) <= NewTarget(bits, b, p) <==> Raised(x) <= Raised(y))
      && (x >= 0x8000 || NeverOvertaken(y) ==> NewTarget(bits, a, p) <= NewTarget(bits, b, p))
  {
    hide LeValue, Pow, BitsToTarget, TargetToBits, HashOf, ExactTarget, TargetOf;
    ExactMonotone(bits, a, b, p);
    ExactTargetFacts(bits, a, p);
    ExactTargetFacts(bits, b, p);
    RoundTripOrdered(HashOf(ExactTarget(bits, a, p)), HashOf(ExactTarget(bits, b, p)));
    if NeverOvertaken(ExactTarget(bits, b, p)) { RaisedOrdered(ExactTarget(bits, b, p), ExactTarget(bits, a, p)); }
  }

  lemma TargetOf128()
    ensures TargetOf(0x0300_0080) == 0x80
  {
    hide BitsToTarget, LeValue, Pow;
    TargetValue(0x0300_0080);
    PowZero();
    SmallPowers();
    PowMonotone(256, 4, 32);
    ModSmall(0x80, Pow(256, 32));
  }

  /** At a target of 128 a period 9450 seconds short of two weeks makes the next target 254 times as easy. */
  lemma RetargetOvertakes(p: Params)
    requires p.targetTimespan == 1_209_600 && LeValue(p.powLimit) >= 0x80
    ensures NewTarget(0x0300_0080, 1_200_150, p) == 0x7f_0000
    ensures NewTarget(0x0300_0080, 1_209_600, p) == 0x8000
  {
    hide LeValue, Pow, BitsToTarget, TargetToBits, HashOf, TargetOf;
    TargetOf128();
    assert Scaled(0x80, 1_200_150, 1_209_600) == 0x7f && Scaled(0x80, 1_209_600, 1_209_600) == 0x80;
    ExactTargetFacts(0x0300_0080, 1_200_150, p);
    ExactTargetFacts(0x0300_0080, 1_209_600, p);
    MonotoneFails(HashOf(0x7f), HashOf(0x80));
  }

  /** The bits a retarget writes are canonical exactly from 2^15 on, and then they read back as themselves. */
  lemma RetargetCanonical(bits: u32, actual: nat, p: Params)
    requires GoodParams(p)
    ensures var x := ExactTarget(bits, actual, p);
      var next := TargetToBits(HashOf(x));
      (Canonical(next) <==> x >= 0x8000) && (x >= 0x8000 ==> TargetToBits(BitsToTarget(next)) == next)
  {
    hide LeValue, Pow, BitsToTarget, TargetToBits, HashOf, ExactTarget, Canonical;
    ExactTargetFacts(bits, actual, p);
    EncodeCanonical(HashOf(ExactTarget(bits, actual, p)));
    if ExactTarget(bits, actual, p) >= 0x8000 { BitsRoundTrip(TargetToBits(HashOf(ExactTarget(bits, actual, p)))); }
  }
}
