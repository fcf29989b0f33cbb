/** Transactions and blocks on the wire, with the segwit marker, and block weight. */
module Transaction {
  import opened Bytes
  import opened Wire

  type Hash = h: seq<byte> | |h| == 32 witness Zeros(32)
  function Zeros(n: nat): (s: seq<byte>)
    ensures |s| == n
  {
    if n == 0 then [] else [0] + Zeros(n - 1)
  }

  type i32 = n: int | -0x8000_0000 <= n < 0x8000_0000

  const ZERO_HASH: Hash := Zeros(32)

  datatype OutPoint = OutPoint(txid: Hash, vout: u32)
  datatype TxIn = TxIn(prev: OutPoint, scriptSig: seq<byte>, sequence: u32, stack: seq<seq<byte>>)
  datatype TxOut = TxOut(value: u64, scriptPubkey: seq<byte>)
  datatype Tx = Tx(version: u32, inputs: seq<TxIn>, outputs: seq<TxOut>, lockTime: u32)
  datatype Header =
    Header(version: i32, prevHash: Hash, merkleRoot: Hash, time: u32, bits: u32, nonce: u32)
  datatype Block = Block(header: Header, txs: seq<Tx>)

  predicate IsNull(o: OutPoint) { o.txid == ZERO_HASH && o.vout == 0xFFFF_FFFF }

  predicate IsCoinbase(tx: Tx) { |tx.inputs| == 1 && IsNull(tx.inputs[0].prev) }

  predicate IsSegwit(tx: Tx) { exists i :: 0 <= i < |tx.inputs| && tx.inputs[i].stack != [] }

  // ----------------------------------------------------------------- encoding

  function EncodeOutPoint(o: OutPoint): seq<byte> { o.txid + U32(o.vout) }
  function EncodeIn(i: TxIn): seq<byte> { EncodeOutPoint(i.prev) + VarBytes(i.scriptSig) + U32(i.sequence) }
  function EncodeOut(o: TxOut): seq<byte> { U64(o.value) + VarBytes(o.scriptPubkey) }
  function EncodeWitness(i: TxIn): seq<byte> { VarList(VarBytes, i.stack) }

  /** The serialisation without witness data, which is also what the txid hashes. */
  function Legacy(tx: Tx): seq<byte> {
    U32(tx.version) + (VarList(EncodeIn, tx.inputs) + (VarList(EncodeOut, tx.outputs) + U32(tx.lockTime)))
  }

  type Hasher = seq<byte> -> Hash

  function Txid(hash: Hasher, tx: Tx): Hash { hash(Legacy(tx)) }

  function Txids(hash: Hasher, txs: seq<Tx>): (ids: seq<Hash>)
    ensures |ids| == |txs| && forall i :: 0 <= i < |txs| ==> ids[i] == Txid(hash, txs[i])
  {
    if txs == [] then [] else [Txid(hash, txs[0])] + Txids(hash, txs[1..])
  }

  function Segwit(tx: Tx): seq<byte> {
    U32(tx.version) + ([0, 1] + (VarList(EncodeIn, tx.inputs) + (VarList(EncodeOut, tx.outputs)
      + (Concat(EncodeWitness, tx.inputs) + U32(tx.lockTime)))))
  }

  function EncodeTx(tx: Tx): seq<byte> { if IsSegwit(tx) then Segwit(tx) else Legacy(tx) }

  // ----------------------------------------------------------------- decoding

  function ReadHash(s: seq<byte>): Read<Hash> {
    if |s| < 32 then Fail(BufferTooShort) else Read(s[..32], s[32..])
  }

  function ReadOutPoint(s: seq<byte>): Read<OutPoint> {
    var (txid, s) :- ReadHash(s);
    var (vout, s) :- ReadU32(s);
    Read(OutPoint(txid, vout), s)
  }

  function ReadIn(s: seq<byte>): Read<TxIn> {
    var (prev, s) :- ReadOutPoint(s);
    var (sig, s) :- ReadVarBytes(s);
    var (sequence, s) :- ReadU32(s);
    Read(TxIn(prev, sig, sequence, []), s)
  }

  function ReadOut(s: seq<byte>): Read<TxOut> {
    var (value, s) :- ReadU64(s);
    var (script, s) :- ReadVarBytes(s);
    Read(TxOut(value, script), s)
  }

  /** One witness stack per input, filled in after the outputs. */
  function ReadWitnesses(inputs: seq<TxIn>, s: seq<byte>): Read<seq<TxIn>> {
    if inputs == [] then Read([], s)
    else
      var (items, s) :- ReadVarList(ReadVarBytes, s);
      var (rest, s) :- ReadWitnesses(inputs[1..], s);
      Read([inputs[0].(stack := items)] + rest, s)
  }

  /** The witness loop of the transaction decoder. */
  method FillWitnesses(inputs: seq<TxIn>, s: seq<byte>) returns (r: Read<seq<TxIn>>)
    ensures r == ReadWitnesses(inputs, s)
  {
    var filled: seq<TxIn> := [];
    var rest := s;
    ghost var all := ReadWitnesses(inputs, s);
    assert all.Read? ==> [] + all.value == all.value;
    assert inputs[0..] == inputs;
    for i := 0 to |inputs|
      invariant all == Prepend(filled, ReadWitnesses(inputs[i..], rest))
    {
      var w := ReadVarList(ReadVarBytes, rest);
      if w.Fail? { return Fail(w.error); }
      ghost var more := ReadWitnesses(inputs[i + 1..], w.rest);
      assert inputs[i..][1..] == inputs[i + 1..];
      var item := inputs[i].(stack := w.value);
      assert more.Read? ==> filled + ([item] + more.value) == (filled + [item]) + more.value;
      filled := filled + [item];
      rest := w.rest;
    }
    assert filled + [] == filled;
    return Read(filled, rest);
  }

  function ReadLegacyBody(version: u32, s: seq<byte>): Read<Tx> {
    var (inputs, s) :- ReadVarList(ReadIn, s);
    var (outputs, s) :- ReadVarList(ReadOut, s);
    var (lockTime, s) :- ReadU32(s);
    Read(Tx(version, inputs, outputs, lockTime), s)
  }

  function ReadSegwitBody(version: u32, s: seq<byte>): Read<Tx> {
    var (inputs, s) :- ReadVarList(ReadIn, s);
    var (outputs, s) :- ReadVarList(ReadOut, s);
    var (filled, s) :- ReadWitnesses(inputs, s);
    var (lockTime, s) :- ReadU32(s);
    Read(Tx(version, filled, outputs, lockTime), s)
  }

  function ReadTx(s: seq<byte>): Read<Tx> {
    var (version, s) :- ReadU32(s);
    var (marker, afterMarker) :- ReadU8(s);
    if marker == 0 then
      var (flag, s) :- ReadU8(afterMarker);
      if flag != 1 then Fail(InvalidSegwitFlag) else ReadSegwitBody(version, s)
    else ReadLegacyBody(version, s)
  }

  // --------------------------------------------------------------- round trip

  /** Every length is within what the decoder agrees to allocate. */
  ghost predicate Fits(tx: Tx) {
    && |tx.inputs| <= MAX_WIRE_ALLOCATION
    && |tx.outputs| <= MAX_WIRE_ALLOCATION
    && (forall i :: 0 <= i < |tx.inputs| ==> FitsIn(tx.inputs[i]))
    && (forall i :: 0 <= i < |tx.outputs| ==> |tx.outputs[i].scriptPubkey| <= MAX_WIRE_ALLOCATION)
  }

  ghost predicate FitsIn(i: TxIn) {
    && |i.scriptSig| <= MAX_WIRE_ALLOCATION
    && |i.stack| <= MAX_WIRE_ALLOCATION
    && forall k :: 0 <= k < |i.stack| ==> |i.stack[k]| <= MAX_WIRE_ALLOCATION
  }

  function StripInput(i: TxIn): TxIn { i.(stack := []) }

  function StripInputs(inputs: seq<TxIn>): (r: seq<TxIn>)
    ensures |r| == |inputs| && forall i :: 0 <= i < |r| ==> r[i] == StripInput(inputs[i])
  {
    if inputs == [] then [] else [StripInput(inputs[0])] + StripInputs(inputs[1..])
  }

  function Strip(tx: Tx): Tx { tx.(inputs := StripInputs(tx.inputs)) }

  lemma HashRoundTrip(h: Hash, rest: seq<byte>)
    ensures ReadHash(h + rest) == Read(h, rest)
  {
    assert (h + rest)[..32] == h && (h + rest)[32..] == rest;
  }

  lemma InRoundTrip(i: TxIn)
    requires |i.scriptSig| <= MAX_WIRE_ALLOCATION
    ensures RoundTrips(EncodeIn, ReadIn, i, StripInput(i))
  {
    hide ReadHash, ReadU32, ReadVarBytes, VarBytes, U32;
    forall rest: seq<byte>
      ensures ReadIn(EncodeIn(i) + rest) == Read(StripInput(i), rest)
    {
      var s3 := U32(i.sequence) + rest;
      var s2 := VarBytes(i.scriptSig) + s3;
      var s1 := U32(i.prev.vout) + s2;
      assert EncodeIn(i) + rest == i.prev.txid + s1;
      HashRoundTrip(i.prev.txid, s1);
      U32RoundTrip(i.prev.vout, s2);
      VarBytesRoundTrip(i.scriptSig, s3);
      U32RoundTrip(i.sequence, rest);
    }
  }

  lemma OutRoundTrip(o: TxOut)
    requires |o.scriptPubkey| <= MAX_WIRE_ALLOCATION
    ensures RoundTrips(EncodeOut, ReadOut, o, o)
  {
    hide ReadU64, ReadVarBytes, VarBytes;
    forall rest: seq<byte>
      ensures ReadOut(EncodeOut(o) + rest) == Read(o, rest)
    {
      var s1 := VarBytes(o.scriptPubkey) + rest;
      assert EncodeOut(o) + rest == U64(o.value) + s1;
      U64RoundTrip(o.value, s1);
      VarBytesRoundTrip(o.scriptPubkey, rest);
    }
  }

  lemma InputsRoundTrip(inputs: seq<TxIn>, rest: seq<byte>)
    requires |inputs| <= MAX_WIRE_ALLOCATION && forall i :: 0 <= i < |inputs| ==> FitsIn(inputs[i])
    ensures ReadVarList(ReadIn, VarList(EncodeIn, inputs) + rest) == Read(StripInputs(inputs), rest)
  {
    forall i | 0 <= i < |inputs|
      ensures RoundTrips(EncodeIn, ReadIn, inputs[i], StripInputs(inputs)[i])
    {
      InRoundTrip(inputs[i]);
    }
    ListRoundTrip(EncodeIn, ReadIn, inputs, StripInputs(inputs), rest);
  }

  lemma OutputsRoundTrip(outputs: seq<TxOut>, rest: seq<byte>)
    requires |outputs| <= MAX_WIRE_ALLOCATION
    requires forall i :: 0 <= i < |outputs| ==> |outputs[i].scriptPubkey| <= MAX_WIRE_ALLOCATION
    ensures ReadVarList(ReadOut, VarList(EncodeOut, outputs) + rest) == Read(outputs, rest)
  {
    forall i | 0 <= i < |outputs|
      ensures RoundTrips(EncodeOut, ReadOut, outputs[i], outputs[i])
    {
      OutRoundTrip(outputs[i]);
    }
    ListRoundTrip(EncodeOut, ReadOut, outputs, outputs, rest);
  }

  lemma WitnessRoundTrip(i: TxIn, rest: seq<byte>)
    requires FitsIn(i)
    ensures ReadVarList(ReadVarBytes, EncodeWitness(i) + rest) == Read(i.stack, rest)
  {
    forall k | 0 <= k < |i.stack|
      ensures RoundTrips(VarBytes, ReadVarBytes, i.stack[k], i.stack[k])
    {
      forall rest: seq<byte> { VarBytesRoundTrip(i.stack[k], rest); }
    }
    ListRoundTrip(VarBytes, ReadVarBytes, i.stack, i.stack, rest);
  }

  lemma {:induction false} WitnessesRoundTrip(inputs: seq<TxIn>, rest: seq<byte>)
    requires forall i :: 0 <= i < |inputs| ==> FitsIn(inputs[i])
    ensures ReadWitnesses(StripInputs(inputs), Concat(EncodeWitness, inputs) + rest) == Read(inputs, rest)
  {
    hide ReadVarList, EncodeWitness, FitsIn;
    if inputs == [] {
      assert Concat(EncodeWitness, inputs) + rest == rest;
    } else {
      var s1 := Concat(EncodeWitness, inputs[1..]) + rest;
      assert Concat(EncodeWitness, inputs) + rest == EncodeWitness(inputs[0]) + s1;
      WitnessRoundTrip(inputs[0], s1);
      WitnessesRoundTrip(inputs[1..], rest);
      assert StripInputs(inputs)[1..] == StripInputs(inputs[1..]);
      assert inputs == [inputs[0]] + inputs[1..];
    }
  }

  lemma LegacyBodyRoundTrip(tx: Tx, rest: seq<byte>)
    requires Fits(tx)
    ensures var body := VarList(EncodeIn, tx.inputs) + (VarList(EncodeOut, tx.outputs) + U32(tx.lockTime));
      ReadLegacyBody(tx.version, body + rest) == Read(Strip(tx), rest)
  {
    hide ReadVarList, VarList, ReadU32, U32;
    var s2 := U32(tx.lockTime) + rest;
    var s1 := VarList(EncodeOut, tx.outputs) + s2;
    assert VarList(EncodeIn, tx.inputs) + (VarList(EncodeOut, tx.outputs) + U32(tx.lockTime)) + rest
        == VarList(EncodeIn, tx.inputs) + s1;
    InputsRoundTrip(tx.inputs, s1);
    OutputsRoundTrip(tx.outputs, s2);
    U32RoundTrip(tx.lockTime, rest);
  }

  lemma SegwitBodyRoundTrip(tx: Tx, rest: seq<byte>)
    requires Fits(tx)
    ensures ReadSegwitBody(tx.version, VarList(EncodeIn, tx.inputs) + (VarList(EncodeOut, tx.outputs)
      + (Concat(EncodeWitness, tx.inputs) + U32(tx.lockTime))) + rest) == Read(tx, rest)
  {
    hide ReadVarList, VarList, ReadU32, U32, ReadWitnesses;
    var s3 := U32(tx.lockTime) + rest;
    var s2 := Concat(EncodeWitness, tx.inputs) + s3;
    var s1 := VarList(EncodeOut, tx.outputs) + s2;
    assert VarList(EncodeIn, tx.inputs) + (VarList(EncodeOut, tx.outputs)
      + (Concat(EncodeWitness, tx.inputs) + U32(tx.lockTime))) + rest == VarList(EncodeIn, tx.inputs) + s1;
    InputsRoundTrip(tx.inputs, s1);
    OutputsRoundTrip(tx.outputs, s2);
    WitnessesRoundTrip(tx.inputs, s3);
    U32RoundTrip(tx.lockTime, rest);
  }

  lemma StripIdentity(tx: Tx)
    requires !IsSegwit(tx)
    ensures Strip(tx) == tx
  {
    assert StripInputs(tx.inputs) == tx.inputs;
  }

  /** A nonempty list starts with a nonzero count byte, so it cannot pass for the segwit marker. */
  lemma CountByte<T>(enc: T -> seq<byte>, items: seq<T>)
    requires |items| <= MAX_WIRE_ALLOCATION
    ensures VarList(enc, items) != [] && (VarList(enc, items)[0] == 0 <==> items == [])
  {
    VarIntRoundTrip(|items|, []);
  }

  /** The marker form decodes to its transaction, whether or not that has a witness. */
  lemma SegwitRoundTrip(tx: Tx, rest: seq<byte>)
    requires Fits(tx)
    ensures ReadTx(Segwit(tx) + rest) == Read(tx, rest)
  {
    hide ReadVarList, VarList, ReadU32, U32, ReadLegacyBody, ReadSegwitBody;
    var body := VarList(EncodeIn, tx.inputs) + (VarList(EncodeOut, tx.outputs)
      + (Concat(EncodeWitness, tx.inputs) + U32(tx.lockTime))) + rest;
    var s := [0, 1] + body;
    assert Segwit(tx) + rest == U32(tx.version) + s;
    U32RoundTrip(tx.version, s);
    assert s[1..][1..] == body;
    SegwitBodyRoundTrip(tx, rest);
  }

  /** Decoding an encoded transaction that has an input returns it and leaves exactly the rest. */
  lemma TxRoundTrip(tx: Tx, rest: seq<byte>)
    requires Fits(tx) && tx.inputs != []
    ensures ReadTx(EncodeTx(tx) + rest) == Read(tx, rest)
  {
    hide ReadVarList, VarList, ReadU32, U32, ReadLegacyBody, ReadSegwitBody;
    CountByte(EncodeIn, tx.inputs);
    if IsSegwit(tx) {
      SegwitRoundTrip(tx, rest);
    } else {
      var s := VarList(EncodeIn, tx.inputs) + (VarList(EncodeOut, tx.outputs) + U32(tx.lockTime)) + rest;
      assert EncodeTx(tx) + rest == U32(tx.version) + s;
      U32RoundTrip(tx.version, s);
      LegacyBodyRoundTrip(tx, rest);
      StripIdentity(tx);
    }
  }

  // -------------------------------------------------------------- exactness

  lemma InExact()
    ensures Exact(EncodeIn, ReadIn)
  {
    hide ReadVarBytes, VarBytes, ReadU32, U32, ReadHash;
    forall s: seq<byte> | ReadIn(s).Read?
      ensures s == EncodeIn(ReadIn(s).value) + ReadIn(s).rest
    {
      var s1 := ReadHash(s).rest;
      var s2 := ReadU32(s1).rest;
      var s3 := ReadVarBytes(s2).rest;
      HashExact(s);
      U32Exact(s1);
      VarBytesExact(s2);
      U32Exact(s3);
    }
  }

  lemma HashExact(s: seq<byte>)
    ensures ReadHash(s).Read? ==> s == ReadHash(s).value + ReadHash(s).rest
  {
  }

  lemma OutExact()
    ensures Exact(EncodeOut, ReadOut)
  {
    hide ReadVarBytes, VarBytes;
    forall s: seq<byte> | ReadOut(s).Read?
      ensures s == EncodeOut(ReadOut(s).value) + ReadOut(s).rest
    {
      UintExact(8, s);
      VarBytesExact(s[8..]);
    }
  }

  lemma StackExact()
    ensures Exact(VarBytes, ReadVarBytes)
  {
    forall s: seq<byte> | ReadVarBytes(s).Read?
      ensures s == VarBytes(ReadVarBytes(s).value) + ReadVarBytes(s).rest
    {
      VarBytesExact(s);
    }
  }

  /** Input encodings carry no witness, so filling witnesses in does not change them. */
  ghost predicate SameButStacks(a: seq<TxIn>, b: seq<TxIn>) {
    |a| == |b| && forall i :: 0 <= i < |a| ==> StripInput(a[i]) == StripInput(b[i])
  }

  lemma {:induction false} SameEncoding(a: seq<TxIn>, b: seq<TxIn>)
    requires SameButStacks(a, b)
    ensures Concat(EncodeIn, a) == Concat(EncodeIn, b)
    ensures VarList(EncodeIn, a) == VarList(EncodeIn, b)
  {
    if a != [] {
      assert StripInput(a[0]) == StripInput(b[0]);
      SameEncoding(a[1..], b[1..]);
    }
  }

  lemma {:induction false} WitnessesKeepInputs(inputs: seq<TxIn>, s: seq<byte>)
    requires ReadWitnesses(inputs, s).Read?
    ensures SameButStacks(inputs, ReadWitnesses(inputs, s).value)
  {
    hide ReadVarList;
    if inputs != [] {
      var w := ReadVarList(ReadVarBytes, s);
      WitnessesKeepInputs(inputs[1..], w.rest);
      assert forall i :: 1 <= i < |inputs| ==> inputs[i] == inputs[1..][i - 1];
    }
  }

  lemma {:induction false} WitnessesExact(inputs: seq<TxIn>, s: seq<byte>)
    requires ReadWitnesses(inputs, s).Read?
    ensures var r := ReadWitnesses(inputs, s); s == Concat(EncodeWitness, r.value) + r.rest
  {
    hide ReadVarList, VarList;
    if inputs == [] {
      assert s == [] + s;
    } else {
      StackExact();
      var w := ReadVarList(ReadVarBytes, s);
      ListExact(VarBytes, ReadVarBytes, s);
      WitnessesExact(inputs[1..], w.rest);
      var more := ReadWitnesses(inputs[1..], w.rest);
      var first := inputs[0].(stack := w.value);
      assert ([first] + more.value)[1..] == more.value;
      assert s == EncodeWitness(first) + (Concat(EncodeWitness, more.value) + more.rest);
    }
  }

  lemma {:induction false} LegacyStacks(count: nat, s: seq<byte>)
    requires ReadItems(ReadIn, count, s).Read?
    ensures forall i :: 0 <= i < count ==> ReadItems(ReadIn, count, s).value[i].stack == []
  {
    hide ReadIn;
    if count > 0 {
      InStack(s);
      LegacyStacks(count - 1, ReadIn(s).rest);
    }
  }

  lemma InStack(s: seq<byte>)
    ensures ReadIn(s).Read? ==> ReadIn(s).value.stack == []
  {
  }

  lemma LegacyBodyExact(version: u32, s: seq<byte>)
    requires ReadLegacyBody(version, s).Read?
    ensures var r := ReadLegacyBody(version, s);
      && U32(version) + s == Legacy(r.value) + r.rest
      && !IsSegwit(r.value)
  {
    hide ReadIn, ReadOut, VarList;
    InExact();
    OutExact();
    ListExact(EncodeIn, ReadIn, s);
    var s1 := ReadVarList(ReadIn, s).rest;
    ListExact(EncodeOut, ReadOut, s1);
    var s2 := ReadVarList(ReadOut, s1).rest;
    UintExact(4, s2);
    LegacyStacks(ReadVarInt(s).value, ReadVarInt(s).rest);
  }

  lemma SegwitBodyExact(version: u32, s: seq<byte>)
    requires ReadSegwitBody(version, s).Read?
    ensures var r := ReadSegwitBody(version, s); U32(version) + ([0, 1] + s) == Segwit(r.value) + r.rest
  {
    hide ReadIn, ReadOut, ReadVarList, VarList, Concat, ReadWitnesses, U32;
    InExact();
    OutExact();
    ListExact(EncodeIn, ReadIn, s);
    var inputs, s1 := ReadVarList(ReadIn, s).value, ReadVarList(ReadIn, s).rest;
    ListExact(EncodeOut, ReadOut, s1);
    var s2 := ReadVarList(ReadOut, s1).rest;
    WitnessesExact(inputs, s2);
    WitnessesKeepInputs(inputs, s2);
    var filled, s3 := ReadWitnesses(inputs, s2).value, ReadWitnesses(inputs, s2).rest;
    SameEncoding(inputs, filled);
    U32Exact(s3);
    var tx, rest := ReadSegwitBody(version, s).value, ReadSegwitBody(version, s).rest;
    var w := Concat(EncodeWitness, filled);
    assert s2 == (w + U32(tx.lockTime)) + rest;
    assert s1 == (VarList(EncodeOut, tx.outputs) + (w + U32(tx.lockTime))) + rest;
    assert s == (VarList(EncodeIn, filled) + (VarList(EncodeOut, tx.outputs) + (w + U32(tx.lockTime)))) + rest;
  }

  lemma U32Exact(s: seq<byte>)
    ensures ReadU32(s).Read? ==> s == U32(ReadU32(s).value) + ReadU32(s).rest
  {
    if |s| >= 4 { UintExact(4, s); }
  }

  /** Whatever bytes the decoder accepts are one of the two serialisations of what it returns. */
  lemma TxExact(s: seq<byte>)
    requires ReadTx(s).Read?
    ensures var r := ReadTx(s);
      && |s| > 4
      && s == (if s[4] == 0 then Segwit(r.value) else Legacy(r.value)) + r.rest
      && (s[4] != 0 ==> !IsSegwit(r.value))
  {
    hide ReadLegacyBody, ReadSegwitBody, Legacy, Segwit;
    UintExact(4, s);
    var version, body := LeValue(s[..4]), s[4..];
    SmallPowers();
    if s[4] == 0 {
      var rest := body[1..][1..];
      assert body == [0, 1] + rest;
      SegwitBodyExact(version, rest);
    } else {
      LegacyBodyExact(version, body);
    }
  }

  /** Re-encoding gives the same bytes back, except for a segwit form that carries no witness at all. */
  lemma TxReencode(s: seq<byte>)
    requires ReadTx(s).Read?
    ensures var r := ReadTx(s);
      |s| > 4 && (EncodeTx(r.value) + r.rest == s <==> s[4] != 0 || IsSegwit(r.value))
  {
    hide ReadTx, Legacy, Segwit;
    TxExact(s);
    SegwitLength(ReadTx(s).value);
  }

  /** Such bytes exist for every transaction without a witness: its marker form decodes to it all the same. */
  lemma MarkerWithoutWitness(tx: Tx, rest: seq<byte>)
    requires Fits(tx) && !IsSegwit(tx)
    ensures ReadTx(Segwit(tx) + rest) == Read(tx, rest)
    ensures EncodeTx(tx) + rest != Segwit(tx) + rest
  {
    hide ReadTx, Legacy, Segwit;
    SegwitRoundTrip(tx, rest);
    SegwitLength(tx);
  }

  /** The round trip holds for exactly the transactions that have an input. */
  lemma TxRoundTripIff(tx: Tx, rest: seq<byte>)
    requires Fits(tx)
    ensures ReadTx(EncodeTx(tx) + rest) == Read(tx, rest) <==> tx.inputs != []
  {
    hide ReadTx, Segwit;
    if tx.inputs != [] {
      TxRoundTrip(tx, rest);
    } else {
      var s := EncodeTx(tx) + rest;
      CountByte(EncodeIn, tx.inputs);
      assert s[4] == VarList(EncodeIn, tx.inputs)[0];
      assert |s| == |Legacy(tx)| + |rest|;
      SegwitLength(tx);
      if ReadTx(s) == Read(tx, rest) { TxExact(s); }
    }
  }

  /** Lengths of the parts that the txid covers. */
  ghost predicate FitsLegacy(tx: Tx) {
    && |tx.inputs| <= MAX_WIRE_ALLOCATION
    && |tx.outputs| <= MAX_WIRE_ALLOCATION
    && (forall i :: 0 <= i < |tx.inputs| ==> |tx.inputs[i].scriptSig| <= MAX_WIRE_ALLOCATION)
    && (forall i :: 0 <= i < |tx.outputs| ==> |tx.outputs[i].scriptPubkey| <= MAX_WIRE_ALLOCATION)
  }

  lemma LegacyOfStripped(tx: Tx)
    requires FitsLegacy(tx)
    ensures Legacy(Strip(tx)) == Legacy(tx) && Fits(Strip(tx)) && Strip(Strip(tx)) == Strip(tx)
  {
    SameEncoding(StripInputs(tx.inputs), tx.inputs);
    assert StripInputs(StripInputs(tx.inputs)) == StripInputs(tx.inputs);
  }

  /** The txid preimage determines the transaction up to its witnesses. */
  lemma LegacyInjective(a: Tx, b: Tx)
    requires FitsLegacy(a) && FitsLegacy(b) && Legacy(a) == Legacy(b)
    ensures Strip(a) == Strip(b)
  {
    hide VarList, U32, ReadLegacyBody;
    LegacyOfStripped(a);
    LegacyOfStripped(b);
    var x, y := Strip(a), Strip(b);
    var s := VarList(EncodeIn, x.inputs) + (VarList(EncodeOut, x.outputs) + U32(x.lockTime));
    var t := VarList(EncodeIn, y.inputs) + (VarList(EncodeOut, y.outputs) + U32(y.lockTime));
    U32RoundTrip(x.version, s);
    U32RoundTrip(y.version, t);
    LegacyBodyRoundTrip(x, []);
    LegacyBodyRoundTrip(y, []);
    assert s + [] == s && t + [] == t;
  }

  // ------------------------------------------------------------------- sizes

  function StackSize(items: seq<seq<byte>>): nat {
    if items == [] then 0 else VarIntSize(|items[0]|) + |items[0]| + StackSize(items[1..])
  }

  function StacksSize(inputs: seq<TxIn>): nat {
    if inputs == [] then 0
    else VarIntSize(|inputs[0].stack|) + StackSize(inputs[0].stack) + StacksSize(inputs[1..])
  }

  function WitnessSerializedSize(tx: Tx): nat {
    if !IsSegwit(tx) then 0 else 2 + StacksSize(tx.inputs)
  }

  /** The accumulating loops of `witness_serialized_size`. */
  method WitnessSize(tx: Tx) returns (size: nat)
    ensures size == WitnessSerializedSize(tx)
  {
    if !IsSegwit(tx) { return 0; }
    size := 2;
    for i := 0 to |tx.inputs|
      invariant size + StacksSize(tx.inputs[i..]) == 2 + StacksSize(tx.inputs)
    {
      var stack := tx.inputs[i].stack;
      assert tx.inputs[i..][1..] == tx.inputs[i + 1..];
      size := size + VarIntSize(|stack|);
      ghost var before := size;
      for k := 0 to |stack|
        invariant size + StackSize(stack[k..]) == before + StackSize(stack)
      {
        assert stack[k..][1..] == stack[k + 1..];
        size := size + VarIntSize(|stack[k]|) + |stack[k]|;
      }
    }
  }

  lemma VarIntLength(n: nat)
    ensures |VarInt(n)| == VarIntSize(n)
  {
  }

  lemma {:induction false} StackSizeIsLength(items: seq<seq<byte>>)
    ensures |Concat(VarBytes, items)| == StackSize(items)
  {
    if items != [] {
      VarIntLength(|items[0]|);
      StackSizeIsLength(items[1..]);
    }
  }

  lemma {:induction false} StacksSizeIsLength(inputs: seq<TxIn>)
    ensures |Concat(EncodeWitness, inputs)| == StacksSize(inputs)
  {
    if inputs != [] {
      VarIntLength(|inputs[0].stack|);
      StackSizeIsLength(inputs[0].stack);
      StacksSizeIsLength(inputs[1..]);
    }
  }

  lemma SegwitLength(tx: Tx)
    ensures |Segwit(tx)| == |Legacy(tx)| + 2 + StacksSize(tx.inputs)
    ensures |EncodeTx(tx)| == |Legacy(tx)| + WitnessSerializedSize(tx)
  {
    hide VarList, U32;
    StacksSizeIsLength(tx.inputs);
  }

  // ------------------------------------------------------------------- blocks

  function I32(n: i32): seq<byte> { LeBytes(4, if n < 0 then n + 0x1_0000_0000 else n) }

  function AsI32(n: u32): i32 { if n < 0x8000_0000 then n else n - 0x1_0000_0000 }

  function EncodeHeader(h: Header): (s: seq<byte>)
    ensures |s| == 80
  {
    I32(h.version) + h.prevHash + h.merkleRoot + U32(h.time) + U32(h.bits) + U32(h.nonce)
  }

  function U32At(s: seq<byte>, at: nat): u32
    requires at + 4 <= |s|
  {
    SmallPowers();
    LeValueBound(s[at..at + 4]);
    LeValue(s[at..at + 4])
  }

  function Deserialize(s: seq<byte>): Header
    requires |s| == 80
  {
    Header(AsI32(U32At(s, 0)), s[4..36], s[36..68], U32At(s, 68), U32At(s, 72), U32At(s, 76))
  }

  function EncodeBlock(b: Block): seq<byte> { EncodeHeader(b.header) + VarList(EncodeTx, b.txs) }

  function ReadBlock(s: seq<byte>): Read<Block> {
    if |s| < 80 then Fail(BufferTooShort)
    else
      var header := Deserialize(s[..80]);
      var (txs, s) :- ReadVarList(ReadTx, s[80..]);
      Read(Block(header, txs), s)
  }

  lemma U32AtField(pre: seq<byte>, v: u32, post: seq<byte>)
    ensures U32At(pre + U32(v) + post, |pre|) == v
  {
    SmallPowers();
    LeBytesValue(4, v);
    assert (pre + U32(v) + post)[|pre|..|pre| + 4] == U32(v);
  }

  lemma I32AsU32(n: i32)
    ensures I32(n) == U32(if n < 0 then n + 0x1_0000_0000 else n)
  {
  }

  lemma HeaderRoundTrip(h: Header)
    ensures Deserialize(EncodeHeader(h)) == h
  {
    hide U32At, U32;
    var s := EncodeHeader(h);
    var v: u32 := if h.version < 0 then h.version + 0x1_0000_0000 else h.version;
    I32AsU32(h.version);
    var t := h.prevHash + h.merkleRoot + U32(h.time) + U32(h.bits) + U32(h.nonce);
    var p := I32(h.version) + h.prevHash + h.merkleRoot;
    assert U32At(s, 0) == v by {
      U32AtField([], v, t);
      assert s == [] + U32(v) + t;
    }
    assert U32At(s, 68) == h.time by {
      U32AtField(p, h.time, U32(h.bits) + U32(h.nonce));
      assert s == p + U32(h.time) + (U32(h.bits) + U32(h.nonce));
    }
    assert U32At(s, 72) == h.bits by { U32AtField(p + U32(h.time), h.bits, U32(h.nonce)); }
    assert U32At(s, 76) == h.nonce by {
      U32AtField(p + U32(h.time) + U32(h.bits), h.nonce, []);
      assert s == p + U32(h.time) + U32(h.bits) + U32(h.nonce) + [];
    }
    assert s[4..36] == h.prevHash;
    assert s[36..68] == h.merkleRoot;
  }

  /** Decoding an encoded block returns it and leaves exactly the rest. */
  lemma BlockRoundTrip(b: Block, rest: seq<byte>)
    requires |b.txs| <= MAX_WIRE_ALLOCATION
    requires forall i :: 0 <= i < |b.txs| ==> Fits(b.txs[i]) && b.txs[i].inputs != []
    ensures ReadBlock(EncodeBlock(b) + rest) == Read(b, rest)
  {
    hide ReadTx, EncodeTx, Fits, EncodeHeader, Deserialize, ReadVarList, VarList;
    forall i | 0 <= i < |b.txs|
      ensures RoundTrips(EncodeTx, ReadTx, b.txs[i], b.txs[i])
    {
      forall r: seq<byte> { TxRoundTrip(b.txs[i], r); }
      TxNonempty(b.txs[i]);
    }
    ListRoundTrip(EncodeTx, ReadTx, b.txs, b.txs, rest);
    HeaderRoundTrip(b.header);
    var s := EncodeBlock(b) + rest;
    assert s[..80] == EncodeHeader(b.header);
    assert s[80..] == VarList(EncodeTx, b.txs) + rest;
  }

  lemma TxNonempty(tx: Tx)
    ensures |EncodeTx(tx)| > 0
  {
  }

  function WitnessTotal(txs: seq<Tx>): nat {
    if txs == [] then 0 else WitnessSerializedSize(txs[0]) + WitnessTotal(txs[1..])
  }

  /** `Block::weight`. */
  function Weight(b: Block): nat {
    var total := |EncodeBlock(b)|;
    var stripped := if total < WitnessTotal(b.txs) then 0 else total - WitnessTotal(b.txs);
    stripped * 3 + total
  }

  /** The block as a node without segwit would serialise it. */
  function StrippedBlock(b: Block): seq<byte> { EncodeHeader(b.header) + VarList(Legacy, b.txs) }

  lemma {:induction false} WitnessTotalIsDifference(txs: seq<Tx>)
    ensures |Concat(EncodeTx, txs)| == |Concat(Legacy, txs)| + WitnessTotal(txs)
  {
    hide EncodeTx, Legacy, WitnessSerializedSize;
    if txs != [] {
      SegwitLength(txs[0]);
      WitnessTotalIsDifference(txs[1..]);
    }
  }

  /** Weight is three times the stripped size plus the total size; the saturating difference never saturates. */
  lemma WeightFormula(b: Block)
    ensures Weight(b) == 3 * |StrippedBlock(b)| + |EncodeBlock(b)|
  {
    hide EncodeTx, Legacy, WitnessSerializedSize, EncodeHeader, VarInt;
    WitnessTotalIsDifference(b.txs);
  }

  lemma {:induction false} ConcatLength<T>(enc: T -> seq<byte>, items: seq<T>, i: nat)
    requires i < |items|
    ensures |enc(items[i])| <= |Concat(enc, items)|
  {
    if i > 0 { ConcatLength(enc, items[1..], i - 1); }
  }

  lemma {:induction false} ConcatCount<T(!new)>(enc: T -> seq<byte>, items: seq<T>)
    requires forall x :: |enc(x)| >= 1
    ensures |items| <= |Concat(enc, items)|
  {
    if items != [] { ConcatCount(enc, items[1..]); }
  }

  /** Nothing inside a transaction is longer than its serialisation. */
  lemma LegacyBounds(tx: Tx)
    ensures |tx.inputs| <= |Legacy(tx)| && |tx.outputs| <= |Legacy(tx)|
    ensures forall i :: 0 <= i < |tx.inputs| ==> |tx.inputs[i].scriptSig| <= |Legacy(tx)|
    ensures forall i :: 0 <= i < |tx.outputs| ==> |tx.outputs[i].scriptPubkey| <= |Legacy(tx)|
  {
    ConcatCount(EncodeIn, tx.inputs);
    ConcatCount(EncodeOut, tx.outputs);
    forall i | 0 <= i < |tx.inputs|
      ensures |tx.inputs[i].scriptSig| <= |Legacy(tx)|
    {
      ConcatLength(EncodeIn, tx.inputs, i);
    }
    forall i | 0 <= i < |tx.outputs|
      ensures |tx.outputs[i].scriptPubkey| <= |Legacy(tx)|
    {
      ConcatLength(EncodeOut, tx.outputs, i);
    }
  }

  /** The weight limit alone keeps every length and output index in range. */
  lemma WeightBoundsParts(b: Block, i: nat)
    requires i < |b.txs| && Weight(b) <= MAX_WIRE_ALLOCATION
    ensures FitsLegacy(b.txs[i]) && |b.txs[i].outputs| < 0x1_0000_0000
  {
    hide Legacy, EncodeHeader, VarInt, EncodeTx, Weight;
    WeightFormula(b);
    ConcatLength(Legacy, b.txs, i);
    LegacyBounds(b.txs[i]);
  }
}
