/** Where each field lies in the bytes: what the round trips alone would leave open. */
module Layouts {
  import opened Bytes
  import opened Wire
  import opened Transaction

  lemma U32At(n: u32)
    ensures LeValue(U32(n)) == n
  {
    hide LeValue, LeBytes, Pow;
    SmallPowers();
    LeBytesValue(4, n);
  }

  /** The 80 bytes of a header, in order; the version is two's complement. */
  lemma HeaderLayout(h: Header)
    ensures var s := EncodeHeader(h);
      && LeValue(s[0..4]) == (if h.version < 0 then h.version + 0x1_0000_0000 else h.version)
      && s[4..36] == h.prevHash && s[36..68] == h.merkleRoot
      && LeValue(s[68..72]) == h.time && LeValue(s[72..76]) == h.bits && LeValue(s[76..80]) == h.nonce
  {
    hide LeValue, LeBytes, Pow, U32;
    SmallPowers();
    LeBytesValue(4, if h.version < 0 then h.version + 0x1_0000_0000 else h.version);
    U32At(h.time);
    U32At(h.bits);
    U32At(h.nonce);
    var s := EncodeHeader(h);
    assert s[0..4] == I32(h.version) && s[4..36] == h.prevHash && s[36..68] == h.merkleRoot;
    assert s[68..72] == U32(h.time) && s[72..76] == U32(h.bits) && s[76..80] == U32(h.nonce);
  }

  /** An input: 32 bytes of txid, output index, script, sequence. */
  lemma InputLayout(i: TxIn)
    ensures var s := EncodeIn(i);
      && |s| == 40 + |VarBytes(i.scriptSig)|
      && s[0..32] == i.prev.txid && LeValue(s[32..36]) == i.prev.vout
      && s[36..|s| - 4] == VarBytes(i.scriptSig) && LeValue(s[|s| - 4..]) == i.sequence
  {
    hide LeValue, U32, VarBytes;
    U32At(i.prev.vout);
    U32At(i.sequence);
    var s := EncodeIn(i);
    assert s[0..32] == i.prev.txid && s[32..36] == U32(i.prev.vout);
    assert s[36..|s| - 4] == VarBytes(i.scriptSig) && s[|s| - 4..] == U32(i.sequence);
  }

  /** An output: eight bytes of value, then the script. */
  lemma OutputLayout(o: TxOut)
    ensures var s := EncodeOut(o);
      && |s| == 8 + |VarBytes(o.scriptPubkey)|
      && LeValue(s[0..8]) == o.value && s[8..] == VarBytes(o.scriptPubkey)
  {
    hide LeValue, LeBytes, VarBytes, Pow;
    SmallPowers();
    PowAdd(256, 4, 4);
    LeBytesValue(8, o.value);
    var s := EncodeOut(o);
    assert s[0..8] == U64(o.value) && s[8..] == VarBytes(o.scriptPubkey);
  }

  /** A transaction: version first, lock time last, and the marker and flag right after the version if there are any. */
  lemma TxLayout(tx: Tx)
    ensures var s := Legacy(tx);
      && |s| >= 8 && LeValue(s[0..4]) == tx.version && LeValue(s[|s| - 4..]) == tx.lockTime
      && s[4..|s| - 4] == VarList(EncodeIn, tx.inputs) + VarList(EncodeOut, tx.outputs)
    ensures var s := Segwit(tx);
      && |s| >= 10 && LeValue(s[0..4]) == tx.version && s[4..6] == [0, 1] && LeValue(s[|s| - 4..]) == tx.lockTime
      && s[6..|s| - 4]
        == VarList(EncodeIn, tx.inputs) + VarList(EncodeOut, tx.outputs) + Concat(EncodeWitness, tx.inputs)
  {
    hide LeValue, U32, VarList, Concat;
    U32At(tx.version);
    U32At(tx.lockTime);
    LegacyParts(tx);
    SegwitParts(tx);
  }

  lemma LegacyParts(tx: Tx)
    ensures var s := Legacy(tx);
      && |s| >= 8 && s[0..4] == U32(tx.version) && s[|s| - 4..] == U32(tx.lockTime)
      && s[4..|s| - 4] == VarList(EncodeIn, tx.inputs) + VarList(EncodeOut, tx.outputs)
  {
    hide U32, VarList;
    var ins, outs := VarList(EncodeIn, tx.inputs), VarList(EncodeOut, tx.outputs);
    assert Legacy(tx) == U32(tx.version) + ((ins + outs) + U32(tx.lockTime));
  }

  lemma SegwitParts(tx: Tx)
    ensures var s := Segwit(tx);
      && |s| >= 10 && s[0..4] == U32(tx.version) && s[4..6] == [0, 1] && s[|s| - 4..] == U32(tx.lockTime)
      && s[6..|s| - 4]
        == VarList(EncodeIn, tx.inputs) + VarList(EncodeOut, tx.outputs) + Concat(EncodeWitness, tx.inputs)
  {
    hide U32, VarList, Concat;
    var ins, outs, w := VarList(EncodeIn, tx.inputs), VarList(EncodeOut, tx.outputs), Concat(EncodeWitness, tx.inputs);
    assert Segwit(tx) == U32(tx.version) + ([0, 1] + ((ins + outs + w) + U32(tx.lockTime)));
  }

  /** A count: itself below 0xfd, and otherwise two, four or eight little-endian bytes behind the tag for that width. */
  lemma CountLayout(n: u64)
    ensures var s := VarInt(n);
      && (n < 0xfd ==> s == [n])
      && (0xfd <= n <= 0xffff ==> |s| == 3 && s[0] == 0xfd)
      && (0xffff < n <= 0xffff_ffff ==> |s| == 5 && s[0] == 0xfe)
      && (n > 0xffff_ffff ==> |s| == 9 && s[0] == 0xff)
      && (n >= 0xfd ==> LeValue(s[1..]) == n)
  {
    hide LeValue, LeBytes, Pow;
    SmallPowers();
    PowAdd(256, 4, 4);
    LeBytesValue(2, n % 0x1_0000);
    LeBytesValue(4, n % 0x1_0000_0000);
    LeBytesValue(8, n);
    var s := VarInt(n);
    if n > 0xffff_ffff { assert s[1..] == LeBytes(8, n); }
    else if n > 0xffff { assert s[1..] == LeBytes(4, n); }
    else if n >= 0xfd { assert s[1..] == LeBytes(2, n); }
  }
}
