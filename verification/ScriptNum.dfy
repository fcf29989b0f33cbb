/** Script numbers: little-endian, sign-magnitude, variable length. */
module ScriptNum {
  import opened Bytes

  datatype Error = UnknownError | MinimalData
  datatype Decoded = Ok(num: int) | Err(error: Error)

  function Abs(v: int): nat { if v < 0 then -v else v }

  /** The bytes of `m` without leading zeros. */
  function Magnitude(m: nat): (s: seq<byte>)
    ensures m > 0 ==> s != []
  {
    if m == 0 then [] else [m % 256] + Magnitude(m / 256)
  }

  /** The sign goes into the spare top bit, or into a new byte when that bit is taken. */
  function PlaceSign(r: seq<byte>, negative: bool): seq<byte>
    requires r != []
  {
    if r[|r| - 1] >= 0x80 then r + [if negative then 0x80 else 0x00]
    else if negative then r[|r| - 1 := r[|r| - 1] + 0x80]
    else r
  }

  function Encode(v: int): seq<byte>
  {
    if v == 0 then [] else PlaceSign(Magnitude(Abs(v)), v < 0)
  }

  /** The value of a stack element: the top bit of the last byte is the sign. */
  function DecodeUnchecked(data: seq<byte>): int
  {
    if data == [] then 0
    else if data[|data| - 1] >= 0x80 then
      -(LeValue(data[..|data| - 1]) + Pow(256, |data| - 1) * (data[|data| - 1] - 0x80))
    else LeValue(data)
  }

  predicate IsMinimallyEncoded(data: seq<byte>)
  {
    if data == [] then true
    else if data[|data| - 1] % 0x80 == 0 then |data| > 1 && data[|data| - 2] >= 0x80
    else true
  }

  function Decode(data: seq<byte>, requireMinimal: bool, maxSize: nat): Decoded
  {
    if |data| > maxSize then Err(UnknownError)
    else if requireMinimal && !IsMinimallyEncoded(data) then Err(MinimalData)
    else Ok(DecodeUnchecked(data))
  }

  // ---------------------------------------------------------------- the loops

  /** The byte loop of `ScriptNum::encode`. */
  method ShiftOut(m: nat) returns (result: seq<byte>)
    ensures result == Magnitude(m)
  {
    hide Magnitude;
    var absolute := m;
    result := [];
    while absolute > 0
      invariant result + Magnitude(absolute) == Magnitude(m)
    {
      MagnitudeStep(result, absolute);
      result := result + [absolute % 256];
      absolute := absolute / 256;
    }
    MagnitudeZero();
  }

  /** `ScriptNum::encode`: shift bytes out, then place the sign. */
  method EncodeNum(v: int) returns (result: seq<byte>)
    ensures result == Encode(v)
  {
    if v == 0 { return []; }
    result := ShiftOut(Abs(v));
    var top := |result| - 1;
    if result[top] >= 0x80 {
      result := result + [if v < 0 then 0x80 else 0x00];
    } else if v < 0 {
      result := result[top := result[top] + 0x80];
    }
  }

  lemma MagnitudeZero()
    ensures Magnitude(0) == []
  {
  }

  lemma MagnitudeStep(done: seq<byte>, rest: nat)
    requires rest > 0
    ensures done + Magnitude(rest) == (done + [rest % 256]) + Magnitude(rest / 256)
  {
  }

  /** `decode_unchecked`: accumulate shifted bytes, then strip the sign bit. */
  method DecodeNum(data: seq<byte>) returns (value: int)
    ensures value == DecodeUnchecked(data)
  {
    if data == [] { return 0; }
    var result := 0;
    for i := 0 to |data|
      invariant result == LeValue(data[..i])
    {
      ValuePrefix(256, data, i);
      result := result + Pow(256, i) * data[i];
    }
    assert data[..|data|] == data;
    var n := |data| - 1;
    ValuePrefix(256, data, n);
    assert data[..n + 1] == data;
    if data[n] >= 0x80 {
      var p := Pow(256, n);
      assert p * data[n] - p * 0x80 == p * (data[n] - 0x80);
      return -(result - 0x80 * p);
    }
    return result;
  }

  /** `CastToBool`: true exactly when the element's number is not zero, negative zero included. */
  method CastToBool(data: seq<byte>) returns (truth: bool)
    ensures truth <==> DecodeUnchecked(data) != 0
  {
    for i := 0 to |data|
      invariant forall j :: 0 <= j < i ==> data[j] == 0
    {
      if data[i] != 0 {
        NonZero(data, i);
        return !(i == |data| - 1 && data[i] == 0x80);
      }
    }
    ValueZeros(256, data);
    return false;
  }

  /** The same test as a function, for use inside larger functions. */
  predicate Truthy(data: seq<byte>) { DecodeUnchecked(data) != 0 }

  lemma NonZero(data: seq<byte>, i: nat)
    requires i < |data| && data[i] != 0 && forall j :: 0 <= j < i ==> data[j] == 0
    ensures DecodeUnchecked(data) == 0 <==> i == |data| - 1 && data[i] == 0x80
  {
    var n := |data| - 1;
    ValueZeros(256, data);
    ValueZeros(256, data[..n]);
    if data[n] >= 0x80 {
      MulZero(Pow(256, n), data[n] - 0x80);
      assert i < n ==> data[..n][i] != 0;
    }
  }

  // ------------------------------------------------------------ the inversion

  lemma {:induction false} MagnitudeValue(m: nat)
    ensures LeValue(Magnitude(m)) == m
    ensures m > 0 ==> Magnitude(m) != [] && Magnitude(m)[|Magnitude(m)| - 1] != 0
  {
    if m > 0 {
      MagnitudeValue(m / 256);
      var t := Magnitude(m / 256);
      assert Magnitude(m)[1..] == t;
      if t != [] {
        assert Magnitude(m)[|t|] == t[|t| - 1];
      }
    }
  }

  lemma {:induction false} MagnitudeUnique(s: seq<byte>)
    requires s == [] || s[|s| - 1] != 0
    ensures Magnitude(LeValue(s)) == s
  {
    if s != [] {
      var x := LeValue(s[1..]);
      assert LeValue(s) == s[0] + 256 * x;
      ModUnique(LeValue(s), 256, x, s[0]);
      ValueZeros(256, s);
      assert s[1..] == [] || s[1..][|s| - 2] == s[|s| - 1];
      MagnitudeUnique(s[1..]);
      assert s == [s[0]] + s[1..];
    }
  }

  lemma SplitLast(data: seq<byte>)
    requires data != []
    ensures LeValue(data) == LeValue(data[..|data| - 1]) + Pow(256, |data| - 1) * data[|data| - 1]
  {
    ValuePrefix(256, data, |data| - 1);
    assert data[..|data|] == data;
  }

  /** Decoding undoes encoding for every integer, and the encoding is minimal. */
  lemma DecodeEncode(v: int)
    ensures DecodeUnchecked(Encode(v)) == v
    ensures IsMinimallyEncoded(Encode(v))
  {
    if v != 0 {
      var r := Magnitude(Abs(v));
      MagnitudeValue(Abs(v));
      var n := |r| - 1;
      var data := Encode(v);
      SplitLast(data);
      SplitLast(r);
      if r[n] >= 0x80 {
        assert data[..n + 1] == r;
      } else {
        assert data[..n] == r[..n];
      }
    }
  }

  lemma EncodeDecodeSpareByte(init: seq<byte>, sign: byte)
    requires init != [] && init[|init| - 1] >= 0x80 && sign % 0x80 == 0
    ensures Encode(DecodeUnchecked(init + [sign])) == init + [sign]
  {
    var data := init + [sign];
    SplitLast(data);
    assert data[..|init|] == init;
    var m: int := LeValue(init);
    assert DecodeUnchecked(data) == if sign == 0 then m else -m by {
      assert sign == 0 || sign == 0x80;
      assert Pow(256, |init|) * 0 == 0;
    }
    MagnitudeNonZero(init);
    assert Magnitude(m) == init by { MagnitudeUnique(init); }
  }

  lemma EncodeDecodeSpareBit(init: seq<byte>, last: byte)
    requires last % 0x80 != 0
    ensures Encode(DecodeUnchecked(init + [last])) == init + [last]
  {
    var data, s := init + [last], init + [last % 0x80];
    SplitLast(data);
    SplitLast(s);
    assert data[..|init|] == init && s[..|init|] == init;
    MagnitudeUnique(s);
    MagnitudeNonZero(s);
  }

  /** Encoding undoes decoding exactly on the minimally encoded strings. */
  lemma EncodeDecode(data: seq<byte>)
    ensures Encode(DecodeUnchecked(data)) == data <==> IsMinimallyEncoded(data)
  {
    DecodeEncode(DecodeUnchecked(data));
    if data != [] && IsMinimallyEncoded(data) {
      var n := |data| - 1;
      assert data == data[..n] + [data[n]];
      if data[n] % 0x80 == 0 {
        EncodeDecodeSpareByte(data[..n], data[n]);
      } else {
        EncodeDecodeSpareBit(data[..n], data[n]);
      }
    }
  }

  lemma MagnitudeNonZero(s: seq<byte>)
    requires s != [] && s[|s| - 1] != 0
    ensures LeValue(s) > 0
  {
    ValueZeros(256, s);
  }

  /** The image of `encode` is exactly what the minimality test accepts. */
  lemma MinimalIsImage(data: seq<byte>)
    ensures IsMinimallyEncoded(data) <==> exists v: int :: Encode(v) == data
  {
    EncodeDecode(data);
    forall v: int | Encode(v) == data
      ensures IsMinimallyEncoded(data)
    {
      DecodeEncode(v);
    }
  }

  /** Different numbers never share an encoding. */
  lemma EncodeInjective(v: int, w: int)
    requires Encode(v) == Encode(w)
    ensures v == w
  {
    DecodeEncode(v);
    DecodeEncode(w);
  }

  /** A magnitude whose top digit is `d` at place `k` lies between d*256^k and (d+1)*256^k. */
  lemma TopDigit(s: seq<byte>)
    requires s != []
    ensures var k := |s| - 1; Pow(256, k) * s[k] <= LeValue(s) < Pow(256, k) * (s[k] as int + 1)
  {
    SplitLast(s);
    LeValueBound(s[..|s| - 1]);
  }

  lemma PlaceBound(k: nat, d: nat, n: nat)
    requires n > 0 && d < 256
    ensures k < n - 1 || (k == n - 1 && d < 0x80) ==> Pow(256, k) * (d + 1) <= 0x80 * Pow(256, n - 1)
    ensures (d > 0 && k > n - 1) || (k == n - 1 && d >= 0x80) ==> Pow(256, k) * d >= 0x80 * Pow(256, n - 1)
  {
    var p := Pow(256, k);
    if k < n - 1 {
      PowMonotone(256, k + 1, n - 1);
      MulLe(p, d + 1, 256);
    } else if k == n - 1 {
      if d >= 0x80 { MulLe(p, 0x80, d); } else { MulLe(p, d + 1, 0x80); }
    } else {
      PowMonotone(256, n, k);
      if d > 0 { MulLe(p, 1, d); }
    }
  }

  /** How many bytes a number takes: at most `n` exactly below 2^(8n-1). */
  lemma EncodeLength(v: int, n: nat)
    requires n > 0
    ensures |Encode(v)| <= n <==> Abs(v) < 0x80 * Pow(256, n - 1)
  {
    if v != 0 {
      var r := Magnitude(Abs(v));
      MagnitudeValue(Abs(v));
      TopDigit(r);
      PlaceBound(|r| - 1, r[|r| - 1], n);
    }
  }

  lemma PowSeven()
    ensures 0x80 * Pow(256, 7) == 0x8000_0000_0000_0000
    ensures 0x80 * Pow(256, 4) == 0x80_0000_0000
    ensures 0x80 * Pow(256, 3) == 0x8000_0000
  {
    SmallPowers();
    assert Pow(256, 8) == 256 * Pow(256, 7);
  }

  /** On 64-bit numbers above i64::MIN the checked decoder inverts the encoder and rejects nothing. */
  lemma Int64RoundTrip(v: int)
    ensures Abs(v) < 0x8000_0000_0000_0000 <==> Decode(Encode(v), true, 8) == Ok(v)
  {
    DecodeEncode(v);
    EncodeLength(v, 8);
    PowSeven();
  }

  /** A number the checked decoder returns fits the sign-magnitude range of its byte limit. */
  lemma {:induction false} DecodeRange(data: seq<byte>, n: nat)
    requires 0 < |data| <= n
    ensures Abs(DecodeUnchecked(data)) < 0x80 * Pow(256, n - 1)
  {
    var k := |data| - 1;
    var low := data[k] % 0x80;
    var magnitude := data[..k] + [low];
    SplitLast(data);
    SplitLast(magnitude);
    assert magnitude[..k] == data[..k];
    TopDigit(magnitude);
    PlaceBound(k, low, n);
  }

  /** The form of the numbers: little-endian magnitude, the sign in the top bit of the last byte. */
  lemma KnownEncodings()
    ensures Encode(0) == [] && Encode(1) == [1] && Encode(-1) == [0x81] && Encode(127) == [0x7f]
    ensures Encode(128) == [0x80, 0] && Encode(-128) == [0x80, 0x80]
    ensures Encode(256) == [0, 1] && Encode(-255) == [0xff, 0x80]
  {
    assert Magnitude(0) == [];
    assert Magnitude(1) == [1] + Magnitude(0) && Magnitude(127) == [127] + Magnitude(0);
    assert Magnitude(128) == [128] + Magnitude(0) && Magnitude(255) == [255] + Magnitude(0);
    assert Magnitude(256) == [0] + Magnitude(1);
  }
}
