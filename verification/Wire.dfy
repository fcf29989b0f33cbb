/** The binary wire format: a decoder is modelled by its unread bytes. */
module Wire {
  import opened Bytes

  type u32 = n: int | 0 <= n < 0x1_0000_0000
  type u64 = n: int | 0 <= n < 0x1_0000_0000_0000_0000

  const MAX_WIRE_ALLOCATION: nat := 4 * 1024 * 1024

  datatype DecodeError =
    BufferTooShort | TruncatedVarint | NonCanonicalVarint | AllocationTooLarge | InvalidSegwitFlag

  /** A decoded value and the bytes after it, or the reason there is none. */
  datatype Read<+T> = Read(value: T, rest: seq<byte>) | Fail(error: DecodeError) {
    predicate IsFailure() { Fail? }
    function PropagateFailure<U>(): Read<U>
      requires Fail?
    {
      Fail(error)
    }
    function Extract(): (T, seq<byte>)
      requires Read?
    {
      (value, rest)
    }
  }

  // --------------------------------------------------------------- primitives

  function ReadBytes(n: nat, s: seq<byte>): Read<seq<byte>> {
    if |s| < n then Fail(BufferTooShort) else Read(s[..n], s[n..])
  }

  function ReadUint(n: nat, s: seq<byte>): Read<nat> {
    var (bytes, s) :- ReadBytes(n, s);
    Read(LeValue(bytes), s)
  }

  function ReadU8(s: seq<byte>): Read<byte> {
    if s == [] then Fail(BufferTooShort) else Read(s[0], s[1..])
  }

  function U32(n: u32): (s: seq<byte>)
    ensures |s| == 4
  {
    LeBytes(4, n)
  }

  function U64(n: u64): seq<byte> { LeBytes(8, n) }

  function ReadU32(s: seq<byte>): Read<u32> {
    SmallPowers();
    if |s| < 4 then Fail(BufferTooShort) else LeValueBound(s[..4]); Read(LeValue(s[..4]), s[4..])
  }

  function ReadU64(s: seq<byte>): Read<u64> {
    SmallPowers();
    if |s| < 8 then Fail(BufferTooShort) else LeValueBound(s[..8]); Read(LeValue(s[..8]), s[8..])
  }

  lemma UintRoundTrip(n: nat, v: nat, rest: seq<byte>)
    requires v < Pow(256, n)
    ensures ReadUint(n, LeBytes(n, v) + rest) == Read(v, rest)
  {
    LeBytesValue(n, v);
    assert (LeBytes(n, v) + rest)[..n] == LeBytes(n, v);
    assert (LeBytes(n, v) + rest)[n..] == rest;
  }

  lemma UintExact(n: nat, s: seq<byte>)
    requires n <= |s|
    ensures s == LeBytes(n, LeValue(s[..n])) + s[n..]
    ensures LeValue(s[..n]) < Pow(256, n)
  {
    LeValueBytes(s[..n]);
    LeValueBound(s[..n]);
    assert s == s[..n] + s[n..];
  }

  lemma U32RoundTrip(v: u32, rest: seq<byte>)
    ensures ReadU32(U32(v) + rest) == Read(v, rest)
  {
    SmallPowers();
    UintRoundTrip(4, v, rest);
  }

  lemma U64RoundTrip(v: u64, rest: seq<byte>)
    ensures ReadU64(U64(v) + rest) == Read(v, rest)
  {
    SmallPowers();
    UintRoundTrip(8, v, rest);
  }

  // ------------------------------------------------------------------- varint

  function VarIntSize(n: nat): nat {
    if n <= 0xFC then 1 else if n <= 0xFFFF then 3 else if n <= 0xFFFF_FFFF then 5 else 9
  }

  function VarInt(n: nat): seq<byte> {
    if n <= 0xFC then [n]
    else if n <= 0xFFFF then [0xFD] + LeBytes(2, n)
    else if n <= 0xFFFF_FFFF then [0xFE] + LeBytes(4, n)
    else [0xFF] + LeBytes(8, n)
  }

  /** A wide varint: `n` little-endian bytes that must not fit a narrower form. */
  function ReadWide(n: nat, least: nat, s: seq<byte>): Read<u64>
    requires n <= 8
  {
    PowMonotone(256, n, 8);
    SmallPowers();
    if |s| < 1 + n then Fail(TruncatedVarint)
    else
      LeValueBound(s[1..1 + n]);
      if LeValue(s[1..1 + n]) < least then Fail(NonCanonicalVarint)
      else Read(LeValue(s[1..1 + n]), s[1 + n..])
  }

  function ReadVarInt(s: seq<byte>): Read<u64> {
    if s == [] then Fail(TruncatedVarint)
    else if s[0] <= 0xFC then Read(s[0], s[1..])
    else if s[0] == 0xFD then ReadWide(2, 0xFD, s)
    else if s[0] == 0xFE then ReadWide(4, 0x1_0000, s)
    else ReadWide(8, 0x1_0000_0000, s)
  }

  lemma WideRoundTrip(tag: byte, n: nat, least: nat, v: nat, rest: seq<byte>)
    requires n <= 8 && least <= v < Pow(256, n)
    ensures ReadWide(n, least, [tag] + LeBytes(n, v) + rest) == Read(v, rest)
  {
    LeBytesValue(n, v);
    var s := [tag] + LeBytes(n, v) + rest;
    assert s[1..1 + n] == LeBytes(n, v);
    assert s[1 + n..] == rest;
  }

  lemma VarIntRoundTrip(n: u64, rest: seq<byte>)
    ensures ReadVarInt(VarInt(n) + rest) == Read(n, rest)
    ensures |VarInt(n)| == VarIntSize(n)
    ensures VarInt(n)[0] == 0 <==> n == 0
  {
    hide ReadWide, LeValue;
    SmallPowers();
    if n <= 0xFC {
      assert ([n] + rest)[1..] == rest;
    } else if n <= 0xFFFF {
      WideRoundTrip(0xFD, 2, 0xFD, n, rest);
    } else if n <= 0xFFFF_FFFF {
      WideRoundTrip(0xFE, 4, 0x1_0000, n, rest);
    } else {
      WideRoundTrip(0xFF, 8, 0x1_0000_0000, n, rest);
    }
  }

  /** The canonicality test leaves one encoding per number: what was read is what would be written. */
  lemma VarIntExact(s: seq<byte>)
    requires ReadVarInt(s).Read?
    ensures s == VarInt(ReadVarInt(s).value) + ReadVarInt(s).rest
  {
    SmallPowers();
    if s[0] <= 0xFC {
    } else {
      var n := if s[0] == 0xFD then 2 else if s[0] == 0xFE then 4 else 8;
      LeValueBytes(s[1..1 + n]);
      LeValueBound(s[1..1 + n]);
      assert s == [s[0]] + s[1..1 + n] + s[1 + n..];
    }
  }

  // -------------------------------------------------------------- byte arrays

  function VarBytes(b: seq<byte>): seq<byte> { VarInt(|b|) + b }

  function ReadVarBytes(s: seq<byte>): (r: Read<seq<byte>>)
    ensures r.Read? ==> |r.value| <= MAX_WIRE_ALLOCATION
  {
    var (len, s) :- ReadVarInt(s);
    if len > MAX_WIRE_ALLOCATION then Fail(AllocationTooLarge) else ReadBytes(len, s)
  }

  lemma VarBytesRoundTrip(b: seq<byte>, rest: seq<byte>)
    requires |b| <= MAX_WIRE_ALLOCATION
    ensures ReadVarBytes(VarBytes(b) + rest) == Read(b, rest)
  {
    VarIntRoundTrip(|b|, b + rest);
    assert VarBytes(b) + rest == VarInt(|b|) + (b + rest);
    assert (b + rest)[..|b|] == b && (b + rest)[|b|..] == rest;
  }

  lemma VarBytesExact(s: seq<byte>)
    requires ReadVarBytes(s).Read?
    ensures s == VarBytes(ReadVarBytes(s).value) + ReadVarBytes(s).rest
  {
    VarIntExact(s);
    var t, len := ReadVarInt(s).rest, ReadVarInt(s).value;
    assert t == t[..len] + t[len..];
  }

  // -------------------------------------------------------------------- lists

  function Concat<T>(enc: T -> seq<byte>, items: seq<T>): seq<byte> {
    if items == [] then [] else enc(items[0]) + Concat(enc, items[1..])
  }

  function VarList<T>(enc: T -> seq<byte>, items: seq<T>): seq<byte> {
    VarInt(|items|) + Concat(enc, items)
  }

  function ReadItems<T>(dec: seq<byte> -> Read<T>, count: nat, s: seq<byte>): (r: Read<seq<T>>)
    ensures r.Read? ==> |r.value| == count
  {
    if count == 0 then Read([], s)
    else
      var (item, s) :- dec(s);
      var (items, s) :- ReadItems(dec, count - 1, s);
      Read([item] + items, s)
  }

  function ReadVarList<T>(dec: seq<byte> -> Read<T>, s: seq<byte>): (r: Read<seq<T>>)
    ensures r.Read? ==> |r.value| <= MAX_WIRE_ALLOCATION
  {
    var (count, s) :- ReadVarInt(s);
    if count > MAX_WIRE_ALLOCATION || count > |s| then Fail(AllocationTooLarge)
    else ReadItems(dec, count, s)
  }

  /** The vector-filling loop of `read_var_list`. */
  method ReadVarListLoop<T>(dec: seq<byte> -> Read<T>, s: seq<byte>) returns (r: Read<seq<T>>)
    ensures r == ReadVarList(dec, s)
  {
    var head := ReadVarInt(s);
    if head.Fail? { return Fail(head.error); }
    var count, rest := head.value, head.rest;
    if count > MAX_WIRE_ALLOCATION || count > |rest| { return Fail(AllocationTooLarge); }
    var items: seq<T> := [];
    ghost var all := ReadItems(dec, count, rest);
    assert all.Read? ==> [] + all.value == all.value;
    for i := 0 to count
      invariant |items| == i
      invariant all == Prepend(items, ReadItems(dec, count - i, rest))
    {
      var item := dec(rest);
      if item.Fail? { return Fail(item.error); }
      ghost var more := ReadItems(dec, count - i - 1, item.rest);
      assert more.Read? ==> items + ([item.value] + more.value) == (items + [item.value]) + more.value;
      items := items + [item.value];
      rest := item.rest;
    }
    assert items + [] == items;
    return Read(items, rest);
  }

  ghost function Prepend<T>(items: seq<T>, r: Read<seq<T>>): Read<seq<T>> {
    if r.Read? then Read(items + r.value, r.rest) else r
  }

  ghost predicate RoundTrips<T(!new)>(enc: T -> seq<byte>, dec: seq<byte> -> Read<T>, x: T, y: T) {
    && |enc(x)| > 0
    && forall rest: seq<byte> :: dec(enc(x) + rest) == Read(y, rest)
  }

  ghost predicate Exact<T(!new)>(enc: T -> seq<byte>, dec: seq<byte> -> Read<T>) {
    forall s: seq<byte> :: dec(s).Read? ==> s == enc(dec(s).value) + dec(s).rest
  }

  lemma {:induction false} ItemsRoundTrip<T(!new)>(
    enc: T -> seq<byte>, dec: seq<byte> -> Read<T>, xs: seq<T>, ys: seq<T>, rest: seq<byte>)
    requires |xs| == |ys| && forall i :: 0 <= i < |xs| ==> RoundTrips(enc, dec, xs[i], ys[i])
    ensures ReadItems(dec, |xs|, Concat(enc, xs) + rest) == Read(ys, rest)
    ensures |Concat(enc, xs)| >= |xs|
  {
    if xs == [] {
      assert Concat(enc, xs) + rest == rest;
    } else {
      var tail := Concat(enc, xs[1..]) + rest;
      assert Concat(enc, xs) + rest == enc(xs[0]) + tail;
      assert RoundTrips(enc, dec, xs[0], ys[0]);
      ItemsRoundTrip(enc, dec, xs[1..], ys[1..], rest);
      assert ys == [ys[0]] + ys[1..];
    }
  }

  lemma ListRoundTrip<T(!new)>(
    enc: T -> seq<byte>, dec: seq<byte> -> Read<T>, xs: seq<T>, ys: seq<T>, rest: seq<byte>)
    requires |xs| == |ys| <= MAX_WIRE_ALLOCATION
    requires forall i :: 0 <= i < |xs| ==> RoundTrips(enc, dec, xs[i], ys[i])
    ensures ReadVarList(dec, VarList(enc, xs) + rest) == Read(ys, rest)
  {
    var body := Concat(enc, xs) + rest;
    assert VarList(enc, xs) + rest == VarInt(|xs|) + body;
    VarIntRoundTrip(|xs|, body);
    ItemsRoundTrip(enc, dec, xs, ys, rest);
  }

  lemma {:induction false} ItemsExact<T(!new)>(
    enc: T -> seq<byte>, dec: seq<byte> -> Read<T>, count: nat, s: seq<byte>)
    requires Exact(enc, dec) && ReadItems(dec, count, s).Read?
    ensures var r := ReadItems(dec, count, s); s == Concat(enc, r.value) + r.rest
  {
    if count == 0 {
      assert s == [] + s;
    } else {
      var item := dec(s);
      ItemsExact(enc, dec, count - 1, item.rest);
      var more := ReadItems(dec, count - 1, item.rest);
      assert ([item.value] + more.value)[1..] == more.value;
    }
  }

  lemma ListExact<T(!new)>(enc: T -> seq<byte>, dec: seq<byte> -> Read<T>, s: seq<byte>)
    requires Exact(enc, dec) && ReadVarList(dec, s).Read?
    ensures var r := ReadVarList(dec, s); s == VarList(enc, r.value) + r.rest
  {
    VarIntExact(s);
    var head := ReadVarInt(s);
    ItemsExact(enc, dec, head.value, head.rest);
  }
}
