/** The undo list on disk: what a block spent, written, read back and put back. */
module UndoLog {
  import opened Wire
  import opened Transaction
  import opened Coins
  import opened Validation
  import opened Undo
  import Files = BlockFiles
  import Merkle

  // ------------------------------------------------------- undo lists fit the decoder

  /** Scripts no longer than the decoder admits. */
  ghost predicate Short(c: Coin) { |c.output.scriptPubkey| <= MAX_WIRE_ALLOCATION }

  ghost predicate ShortCoins(u: Utxo) { forall o :: o in u ==> Short(u[o]) }

  ghost predicate AllShort(coins: seq<Coin>) { forall i :: 0 <= i < |coins| ==> Short(coins[i]) }

  ghost predicate ShortOutputs(outputs: seq<TxOut>) {
    forall i :: 0 <= i < |outputs| ==> |outputs[i].scriptPubkey| <= MAX_WIRE_ALLOCATION
  }

  function InputCount(txs: seq<Tx>): nat { if txs == [] then 0 else |txs[0].inputs| + InputCount(txs[1..]) }

  lemma {:induction false} InputCountLast(txs: seq<Tx>)
    requires txs != []
    ensures InputCount(txs) == InputCount(txs[..|txs| - 1]) + |txs[|txs| - 1].inputs|
  {
    if |txs| > 1 {
      InputCountLast(txs[1..]);
      assert txs[1..][..|txs| - 2] == txs[..|txs| - 1][1..];
    }
  }

  lemma {:induction false} InputCountBound(txs: seq<Tx>)
    ensures InputCount(txs) <= |Concat(Legacy, txs)|
  {
    hide Legacy;
    if txs != [] {
      LegacyBounds(txs[0]);
      InputCountBound(txs[1..]);
    }
  }

  /** One coin per input, each of them one that was there. */
  lemma {:induction false} GatheredCoins(inputs: seq<TxIn>, u: Utxo, height: u32)
    requires Gather(inputs, u, height).Gathered? && ShortCoins(u)
    ensures var g := Gather(inputs, u, height); |g.coins| == |inputs| && AllShort(g.coins)
  {
    if inputs != [] { GatheredCoins(inputs[..|inputs| - 1], u, height); }
  }

  lemma {:induction false} CreatedShort(txid: Hash, outputs: seq<TxOut>, height: u32, isCoinbase: bool)
    requires ShortOutputs(outputs)
    ensures ShortCoins(Created(txid, outputs, height, isCoinbase))
  {
    if outputs != [] { CreatedShort(txid, outputs[..|outputs| - 1], height, isCoinbase); }
  }

  lemma ApplyShort(u: Utxo, tx: Tx, txid: Hash, height: u32)
    requires ShortCoins(u) && ShortOutputs(tx.outputs)
    ensures ShortCoins(Apply(u, tx, txid, height))
  {
    CreatedShort(txid, tx.outputs, height, false);
    hide Created, Spent, Short;
  }

  lemma JudgedCoins(tx: Tx, u: Utxo, height: u32)
    requires ShortCoins(u) && Judge(tx, u, height).Accepted?
    ensures |Judge(tx, u, height).coins| <= |tx.inputs| && AllShort(Judge(tx, u, height).coins)
  {
    hide Gather;
    if !IsCoinbase(tx) { GatheredCoins(tx.inputs, u, height); }
  }

  lemma {:induction false} AdvanceShort(u: Utxo, txs: seq<Tx>, height: u32, rules: Rules)
    requires ShortCoins(u) && (forall k :: 0 <= k < |txs| ==> ShortOutputs(txs[k].outputs))
    requires AdvanceAll(u, txs, height, rules).Progress?
    ensures var p := AdvanceAll(u, txs, height, rules);
      |p.undo| <= InputCount(txs) && AllShort(p.undo) && ShortCoins(p.utxo)
  {
    hide Judge, Apply, Txid, ShortCoins, ShortOutputs, InputCount;
    if txs == [] {
      assert AdvanceAll(u, txs, height, rules) == Progress(u, 0, [], true);
    } else {
      var n := |txs| - 1;
      var p := AdvanceAll(u, txs[..n], height, rules);
      AdvanceShort(u, txs[..n], height, rules);
      InputCountLast(txs);
      JudgedCoins(txs[n], p.utxo, height);
      ApplyShort(p.utxo, txs[n], Txid(rules.hash, txs[n]), height);
    }
  }

  lemma BlockParts(block: Block, height: u32, rules: Rules)
    requires GoodInContext(block, height, rules)
    ensures block.txs != [] && InputCount(block.txs[1..]) <= MAX_WIRE_ALLOCATION
    ensures forall k :: 0 <= k < |block.txs| ==> ShortOutputs(block.txs[k].outputs)
  {
    hide Legacy, EncodeTx, EncodeHeader, GoodTx, EncodesHeight, Merkle.Root;
    InputCountBound(block.txs);
    WeightFormula(block);
    forall k | 0 <= k < |block.txs| ensures ShortOutputs(block.txs[k].outputs) { WeightBoundsParts(block, k); }
  }

  /** What a connected block spent can be decoded again, and its own coins will be decodable in turn. */
  lemma ConnectedUndoFits(u: Utxo, block: Block, height: u32, rules: Rules, checkScripts: bool)
    requires GoodInContext(block, height, rules) && ShortCoins(u)
    requires Connect(u, block, height, rules, checkScripts).Connected?
    ensures var c := Connect(u, block, height, rules, checkScripts); Files.FitsUndo(c.undo) && ShortCoins(c.utxo)
  {
    BlockParts(block, height, rules);
    hide AdvanceAll, GoodInContext, ShortOutputs, Txid, CoinbaseError, InputCount;
    AdvanceShort(u, block.txs[1..], height, rules);
    CreatedShort(Txid(rules.hash, block.txs[0]), block.txs[0].outputs, height, true);
    hide Created, Short;
  }

  // ------------------------------------------------------------------ the whole way round

  /**
   * Connect a block, encode its undo list, store it at any time in any run of writes, rotations and reopenings;
   * at the end of the run the record reads back and decodes to coins with which disconnecting the block restores
   * exactly the map from before it.
   */
  lemma StoredUndoDisconnects(
    u: Utxo, block: Block, height: u32, rules: Rules, checkScripts: bool, magic: Files.Magic, ops: seq<Files.Op>,
    r: Files.Receipt)
    requires GoodInContext(block, height, rules) && (forall k :: 1 <= k < |block.txs| ==> !IsCoinbase(block.txs[k]))
    requires FreshBlock(u, block, height, rules) && ShortCoins(u)
    requires Connect(u, block, height, rules, checkScripts).Connected?
    requires Files.Reasonable(magic, ops) && r in Files.Receipts(magic, ops) && r.undo
    requires r.data == Files.EncodeUndo(Connect(u, block, height, rules, checkScripts).undo)
    ensures var c := Connect(u, block, height, rules, checkScripts);
      var read := Files.ReadRecord(Files.After(magic, ops).rev, r.pos);
      && read.Data? && Files.ReadUndo(read.data) == Read(c.undo, [])
      && Disconnect(c.utxo, block, Files.ReadUndo(read.data).value, height, rules) == u
  {
    ConnectedUndoFits(u, block, height, rules, checkScripts);
    hide *;
    Files.UndoReadsBack(magic, ops, r, Connect(u, block, height, rules, checkScripts).undo);
    DisconnectConnect(u, block, height, rules, checkScripts);
  }
}
