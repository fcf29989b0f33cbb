/** The undo list recorded by `connect_block` is enough to take the block back. */
module Undo {
  import opened Wire
  import opened Transaction
  import opened Coins
  import opened Validation

  /** Put `coins` back at the outpoints that `inputs` spent, in order. */
  function Restored(inputs: seq<TxIn>, coins: seq<Coin>): Utxo
    requires |inputs| == |coins|
  {
    if inputs == [] then map[]
    else
      var n := |inputs| - 1;
      Restored(inputs[..n], coins[..n])[inputs[n].prev := coins[n]]
  }

  function UndoTx(u: Utxo, tx: Tx, coins: seq<Coin>, txid: Hash, height: u32): Utxo
    requires |tx.inputs| == |coins|
  {
    (u - Created(txid, tx.outputs, height, false).Keys) + Restored(tx.inputs, coins)
  }

  /** Walk the transactions backwards, each taking its coins from the end of what is left of the list. */
  function UndoTxs(u: Utxo, txs: seq<Tx>, undo: seq<Coin>, height: u32, rules: Rules): Utxo
    decreases |txs|
  {
    if txs == [] then u
    else
      var n := |txs| - 1;
      var tx := txs[n];
      if |undo| < |tx.inputs| then u
      else
        var split := |undo| - |tx.inputs|;
        UndoTxs(UndoTx(u, tx, undo[split..], Txid(rules.hash, tx), height), txs[..n], undo[..split], height, rules)
  }

  function Disconnect(u: Utxo, block: Block, undo: seq<Coin>, height: u32, rules: Rules): Utxo
    requires block.txs != []
  {
    var coinbase := block.txs[0];
    var made := Created(Txid(rules.hash, coinbase), coinbase.outputs, height, true).Keys;
    UndoTxs(u - made, block.txs[1..], undo, height, rules)
  }

  /** The coins gathered are the ones in the map, and putting them back undoes the spending. */
  lemma {:induction false} GatherRestores(inputs: seq<TxIn>, u: Utxo, height: u32)
    requires Gather(inputs, u, height).Gathered?
    ensures |Gather(inputs, u, height).coins| == |inputs|
    ensures var r := Restored(inputs, Gather(inputs, u, height).coins);
      && r.Keys == Spent(inputs)
      && forall o :: o in r ==> o in u && r[o] == u[o]
  {
    if inputs != [] {
      var n := |inputs| - 1;
      GatherRestores(inputs[..n], u, height);
      SpentStep(inputs, n);
      assert inputs[..n + 1] == inputs;
      var coins := Gather(inputs, u, height).coins;
      assert coins[..n] == Gather(inputs[..n], u, height).coins;
    }
  }

  lemma UndoApply(u: Utxo, tx: Tx, txid: Hash, height: u32)
    requires !IsCoinbase(tx) && Judge(tx, u, height).Accepted?
    requires NewCoins(u, Created(txid, tx.outputs, height, false))
    ensures |Judge(tx, u, height).coins| == |tx.inputs|
    ensures UndoTx(Apply(u, tx, txid, height), tx, Judge(tx, u, height).coins, txid, height) == u
  {
    hide Created, Spent, Restored, Gather;
    GatherRestores(tx.inputs, u, height);
    var coins := Judge(tx, u, height).coins;
    SameLookups(UndoTx(Apply(u, tx, txid, height), tx, coins, txid, height), u);
  }

  lemma {:induction false} UndoAdvance(u: Utxo, txs: seq<Tx>, height: u32, rules: Rules)
    requires (forall k :: 0 <= k < |txs| ==> !IsCoinbase(txs[k])) && FreshTxs(u, txs, height, rules)
    requires AdvanceAll(u, txs, height, rules).Progress?
    ensures var p := AdvanceAll(u, txs, height, rules); UndoTxs(p.utxo, txs, p.undo, height, rules) == u
  {
    hide Apply, Judge, Txid, Created, UndoTx;
    if txs != [] {
      var n := |txs| - 1;
      FreshPrefix(u, txs, n, height, rules);
      UndoAdvance(u, txs[..n], height, rules);
      var p := AdvanceAll(u, txs[..n], height, rules);
      var tx := txs[n];
      UndoApply(p.utxo, tx, Txid(rules.hash, tx), height);
      var coins := Judge(tx, p.utxo, height).coins;
      assert (p.undo + coins)[|p.undo|..] == coins;
      assert (p.undo + coins)[..|p.undo|] == p.undo;
    }
  }

  /** Disconnecting a connected block with its undo list gives back exactly the coins from before it. */
  lemma DisconnectConnect(u: Utxo, block: Block, height: u32, rules: Rules, checkScripts: bool)
    requires block.txs != [] && (forall k :: 1 <= k < |block.txs| ==> !IsCoinbase(block.txs[k]))
    requires FreshBlock(u, block, height, rules)
    requires Connect(u, block, height, rules, checkScripts).Connected?
    ensures var c := Connect(u, block, height, rules, checkScripts);
      Disconnect(c.utxo, block, c.undo, height, rules) == u
  {
    hide AdvanceAll, Created, Txid, UndoTxs;
    var p := AdvanceAll(u, block.txs[1..], height, rules);
    UndoAdvance(u, block.txs[1..], height, rules);
    var made := Created(Txid(rules.hash, block.txs[0]), block.txs[0].outputs, height, true);
    assert (p.utxo + made) - made.Keys == p.utxo;
  }
}
