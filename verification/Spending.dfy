/** What the contextual rules mean: which transactions may spend what, and which coins a block leaves. */
module Spending {
  import opened Bytes
  import opened Wire
  import opened Transaction
  import opened Coins
  import opened Validation
  import Merkle
  import ScriptNum
  import ScriptOps
  import Supply

  // ------------------------------------------------------------- one transaction

  function Worth(u: Utxo, o: OutPoint): nat { if o in u then u[o].output.value else 0 }

  function InputTotal(inputs: seq<TxIn>, u: Utxo): nat {
    if inputs == [] then 0 else InputTotal(inputs[..|inputs| - 1], u) + Worth(u, inputs[|inputs| - 1].prev)
  }

  /** The coin exists, and if it is a coinbase's it is at least a hundred blocks old. */
  ghost predicate Ripe(u: Utxo, o: OutPoint, height: u32) {
    o in u && (u[o].isCoinbase ==> height as int - u[o].height as int >= 100)
  }

  ghost predicate AllRipe(inputs: seq<TxIn>, u: Utxo, height: u32) {
    forall i :: 0 <= i < |inputs| ==> Ripe(u, inputs[i].prev, height)
  }

  ghost predicate CoinsOf(inputs: seq<TxIn>, u: Utxo, coins: seq<Coin>) {
    |coins| == |inputs| && forall i :: 0 <= i < |inputs| ==> inputs[i].prev in u && coins[i] == u[inputs[i].prev]
  }

  lemma {:induction false} GatherIff(inputs: seq<TxIn>, u: Utxo, height: u32)
    ensures var g := Gather(inputs, u, height);
      && (g.Gathered? <==> AllRipe(inputs, u, height) && InputTotal(inputs, u) <= MAX_MONEY)
      && (g.Gathered? ==> g.total == InputTotal(inputs, u) && CoinsOf(inputs, u, g.coins))
  {
    if inputs != [] {
      var n := |inputs| - 1;
      GatherIff(inputs[..n], u, height);
      assert AllRipe(inputs, u, height) <==> AllRipe(inputs[..n], u, height) && Ripe(u, inputs[n].prev, height);
    }
  }

  /**
   * An ordinary transaction is accepted if and only if every input exists and is ripe, and the inputs are worth at
   * most MAX_MONEY and at least the outputs; the fee is the difference, and the coins are those of the inputs in order.
   */
  lemma JudgeIff(tx: Tx, u: Utxo, height: u32)
    requires !IsCoinbase(tx)
    ensures var v := Judge(tx, u, height); var worth := InputTotal(tx.inputs, u);
      && (v.Accepted? <==>
        AllRipe(tx.inputs, u, height) && worth <= MAX_MONEY && OutputTotal(tx.outputs) <= worth)
      && (v.Accepted? ==> v.fee == worth - OutputTotal(tx.outputs) && CoinsOf(tx.inputs, u, v.coins))
  {
    hide Gather, AllRipe, CoinsOf, InputTotal;
    GatherIff(tx.inputs, u, height);
  }

  lemma {:induction false} GatherStops(inputs: seq<TxIn>, k: nat, u: Utxo, height: u32)
    requires k <= |inputs| && Gather(inputs[..k], u, height).Refused?
    ensures Gather(inputs, u, height) == Gather(inputs[..k], u, height)
  {
    if k == |inputs| {
      assert inputs[..k] == inputs;
    } else {
      assert inputs[..|inputs| - 1][..k] == inputs[..k];
      GatherStops(inputs[..|inputs| - 1], k, u, height);
    }
  }

  /** The first input that is missing or not ripe is the one the error names. */
  lemma FirstFault(tx: Tx, u: Utxo, height: u32, k: nat)
    requires !IsCoinbase(tx) && k < |tx.inputs| && AllRipe(tx.inputs[..k], u, height)
    requires InputTotal(tx.inputs[..k], u) <= MAX_MONEY && !Ripe(u, tx.inputs[k].prev, height)
    ensures var o := tx.inputs[k].prev;
      Judge(tx, u, height) == Denied(
        if o in u then PrematureCoinbaseSpend(u[o].height, height) else InputMissingOrSpent(o))
  {
    hide AllRipe, CoinsOf, InputTotal;
    GatherIff(tx.inputs[..k], u, height);
    assert tx.inputs[..k + 1][..k] == tx.inputs[..k];
    GatherStops(tx.inputs, k + 1, u, height);
  }

  // -------------------------------------------------------------------- a whole block

  /** A coin made by transaction `tx` of this block. */
  ghost predicate MadeBy(tx: Tx, height: u32, first: bool, rules: Rules, o: OutPoint, c: Coin) {
    && o.txid == Txid(rules.hash, tx) && o.vout < |tx.outputs|
    && c == Coin(tx.outputs[o.vout], height, first)
  }

  lemma {:induction false} CreatedCoins(txid: Hash, outputs: seq<TxOut>, height: u32, first: bool, o: OutPoint)
    requires |outputs| < 0x1_0000_0000
    ensures var made := Created(txid, outputs, height, first);
      && (o in made <==> o.txid == txid && o.vout < |outputs|)
      && (o in made ==> made[o] == Coin(outputs[o.vout], height, first))
  {
    if outputs != [] { CreatedCoins(txid, outputs[..|outputs| - 1], height, first, o); }
  }

  /** After one ordinary transaction: its own outputs, and what it did not spend. */
  lemma ApplyCoins(u: Utxo, tx: Tx, height: u32, rules: Rules, o: OutPoint)
    requires |tx.outputs| < 0x1_0000_0000
    ensures var v := Apply(u, tx, Txid(rules.hash, tx), height);
      && (o.txid == Txid(rules.hash, tx) && o.vout < |tx.outputs| ==>
        o in v && MadeBy(tx, height, false, rules, o, v[o]))
      && (!(o.txid == Txid(rules.hash, tx) && o.vout < |tx.outputs|) ==>
        && (o in v <==> o in u && forall i :: 0 <= i < |tx.inputs| ==> tx.inputs[i].prev != o)
        && (o in v ==> v[o] == u[o]))
  {
    CreatedCoins(Txid(rules.hash, tx), tx.outputs, height, false, o);
    hide Created, Txid;
    assert o in Spent(tx.inputs) <==> exists i :: 0 <= i < |tx.inputs| && tx.inputs[i].prev == o;
  }

  ghost predicate Sized(txs: seq<Tx>) { forall k :: 0 <= k < |txs| ==> |txs[k].outputs| < 0x1_0000_0000 }

  /** During a block every coinbase coin is an old one: the block's ordinary transactions create none. */
  lemma {:induction false} CoinbasesAreOld(u: Utxo, txs: seq<Tx>, height: u32, rules: Rules, o: OutPoint)
    requires Sized(txs)
    requires var p := AdvanceAll(u, txs, height, rules); p.Progress? && o in p.utxo && p.utxo[o].isCoinbase
    ensures o in u && u[o] == AdvanceAll(u, txs, height, rules).utxo[o]
  {
    hide Judge, Apply, Txid, MadeBy;
    if txs != [] {
      var n := |txs| - 1;
      var p := AdvanceAll(u, txs[..n], height, rules);
      NotMade(p.utxo, txs[n], height, rules, o);
      CoinbasesAreOld(u, txs[..n], height, rules, o);
    }
  }

  lemma NotMade(u: Utxo, tx: Tx, height: u32, rules: Rules, o: OutPoint)
    requires |tx.outputs| < 0x1_0000_0000
    ensures var v := Apply(u, tx, Txid(rules.hash, tx), height);
      o in v && v[o].isCoinbase ==> o in u && u[o] == v[o]
  {
    ApplyCoins(u, tx, height, rules, o);
    hide Apply, Txid;
  }

  lemma {:induction false} EarlierProgress(u: Utxo, txs: seq<Tx>, k: nat, height: u32, rules: Rules)
    requires k <= |txs| && AdvanceAll(u, txs, height, rules).Progress?
    ensures AdvanceAll(u, txs[..k], height, rules).Progress?
  {
    hide Advance;
    if k == |txs| {
      assert txs[..k] == txs;
    } else {
      var n := |txs| - 1;
      ProgressBefore(AdvanceAll(u, txs[..n], height, rules), txs[n], height, rules);
      assert txs[..n][..k] == txs[..k];
      EarlierProgress(u, txs[..n], k, height, rules);
    }
  }

  lemma ProgressBefore(p: Progress, tx: Tx, height: u32, rules: Rules)
    requires Advance(p, tx, height, rules).Progress?
    ensures p.Progress? && Judge(tx, p.utxo, height).Accepted?
  {
  }

  /** The coins at transaction `k` of the block, after those before it. */
  ghost function Before(u: Utxo, block: Block, k: nat, height: u32, rules: Rules): Progress
    requires 1 <= k <= |block.txs|
  {
    AdvanceAll(u, block.txs[1..][..k - 1], height, rules)
  }

  /**
   * In a connected block every input of an ordinary transaction exists at that point, and if it is a coinbase coin
   * it was there before the block and is at least a hundred blocks old.
   */
  lemma ConnectedSpendsRipe(
    u: Utxo, block: Block, height: u32, rules: Rules, checkScripts: bool, k: nat, i: nat)
    requires 1 <= k < |block.txs| && !IsCoinbase(block.txs[k]) && i < |block.txs[k].inputs| && Sized(block.txs)
    requires Connect(u, block, height, rules, checkScripts).Connected?
    ensures var p := Before(u, block, k, height, rules); var o := block.txs[k].inputs[i].prev;
      && p.Progress? && o in p.utxo
      && (p.utxo[o].isCoinbase ==> o in u && u[o] == p.utxo[o] && height as int - u[o].height as int >= 100)
  {
    assert AdvanceAll(u, block.txs[1..], height, rules).Progress?;
    hide AdvanceAll, Judge, Connect, IsCoinbase;
    JudgedInTurn(u, block.txs[1..], k - 1, height, rules);
    assert block.txs[1..][k - 1] == block.txs[k];
    SizedPart(block.txs, k);
    hide Sized;
    var p := Before(u, block, k, height, rules);
    var tx, o := block.txs[k], block.txs[k].inputs[i].prev;
    JudgeIff(tx, p.utxo, height);
    assert Ripe(p.utxo, o, height);
    if p.utxo[o].isCoinbase { CoinbasesAreOld(u, block.txs[1..][..k - 1], height, rules, o); }
  }

  lemma SizedPart(txs: seq<Tx>, k: nat)
    requires 1 <= k <= |txs| && Sized(txs)
    ensures Sized(txs[1..][..k - 1])
  {
    var part := txs[1..][..k - 1];
    assert forall j :: 0 <= j < |part| ==> part[j] == txs[j + 1];
  }

  lemma JudgedInTurn(u: Utxo, txs: seq<Tx>, k: nat, height: u32, rules: Rules)
    requires k < |txs| && AdvanceAll(u, txs, height, rules).Progress?
    ensures var p := AdvanceAll(u, txs[..k], height, rules); p.Progress? && Judge(txs[k], p.utxo, height).Accepted?
  {
    hide Advance, Judge;
    EarlierProgress(u, txs, k + 1, height, rules);
    assert txs[..k + 1][..k] == txs[..k];
    ProgressBefore(AdvanceAll(u, txs[..k], height, rules), txs[k], height, rules);
  }

  /** The coins transaction `k` spends: those of its inputs at that point, none for a coinbase. */
  ghost predicate SpendsCoins(p: Progress, tx: Tx, coins: seq<Coin>) {
    p.Progress? && if IsCoinbase(tx) then coins == [] else CoinsOf(tx.inputs, p.utxo, coins)
  }

  /** Every transaction's scripts were accepted with the very coins it spends. */
  ghost predicate ScriptsPass(u: Utxo, txs: seq<Tx>, height: u32, rules: Rules, k: nat)
    requires k < |txs|
  {
    exists coins :: SpendsCoins(AdvanceAll(u, txs[..k], height, rules), txs[k], coins) && rules.scriptOk(txs[k], coins)
  }

  lemma JudgedCoins(p: Progress, tx: Tx, height: u32)
    requires p.Progress? && Judge(tx, p.utxo, height).Accepted?
    ensures SpendsCoins(p, tx, Judge(tx, p.utxo, height).coins)
    ensures forall coins :: SpendsCoins(p, tx, coins) ==> coins == Judge(tx, p.utxo, height).coins
  {
    if !IsCoinbase(tx) { JudgeIff(tx, p.utxo, height); }
    hide Judge, IsCoinbase;
  }

  ghost predicate AllPass(u: Utxo, txs: seq<Tx>, height: u32, rules: Rules) {
    forall k :: 0 <= k < |txs| ==> ScriptsPass(u, txs, height, rules, k)
  }

  lemma PassesInPrefix(u: Utxo, txs: seq<Tx>, n: nat, k: nat, height: u32, rules: Rules)
    requires k < n <= |txs|
    ensures ScriptsPass(u, txs[..n], height, rules, k) == ScriptsPass(u, txs, height, rules, k)
  {
    hide AdvanceAll, SpendsCoins;
    assert txs[..n][..k] == txs[..k] && txs[..n][k] == txs[k];
  }

  lemma AllPassLast(u: Utxo, txs: seq<Tx>, height: u32, rules: Rules)
    requires txs != []
    ensures AllPass(u, txs, height, rules)
      <==> AllPass(u, txs[..|txs| - 1], height, rules) && ScriptsPass(u, txs, height, rules, |txs| - 1)
  {
    hide ScriptsPass;
    var n := |txs| - 1;
    forall k | 0 <= k < n ensures ScriptsPass(u, txs[..n], height, rules, k) == ScriptsPass(u, txs, height, rules, k) {
      PassesInPrefix(u, txs, n, k, height, rules);
    }
  }

  lemma LastPasses(u: Utxo, txs: seq<Tx>, height: u32, rules: Rules)
    requires txs != [] && AdvanceAll(u, txs, height, rules).Progress?
    ensures var p := AdvanceAll(u, txs[..|txs| - 1], height, rules);
      && p.Progress?
      && (AdvanceAll(u, txs, height, rules).scripts <==> p.scripts && ScriptsPass(u, txs, height, rules, |txs| - 1))
  {
    var n := |txs| - 1;
    var p := AdvanceAll(u, txs[..n], height, rules);
    ProgressBefore(p, txs[n], height, rules);
    var coins := Judge(txs[n], p.utxo, height).coins;
    assert AdvanceAll(u, txs, height, rules).scripts == (p.scripts && rules.scriptOk(txs[n], coins));
    JudgedCoins(p, txs[n], height);
    hide AdvanceAll, Judge, SpendsCoins;
    assert ScriptsPass(u, txs, height, rules, n) == rules.scriptOk(txs[n], coins);
  }

  /** The script verdict of a block is the conjunction over its transactions, each with the coins it spends. */
  lemma {:induction false} ScriptsIff(u: Utxo, txs: seq<Tx>, height: u32, rules: Rules)
    requires AdvanceAll(u, txs, height, rules).Progress?
    ensures AdvanceAll(u, txs, height, rules).scripts <==> AllPass(u, txs, height, rules)
  {
    if txs == [] {
      assert AdvanceAll(u, txs, height, rules) == Progress(u, 0, [], true);
    } else {
      hide *;
      LastPasses(u, txs, height, rules);
      AllPassLast(u, txs, height, rules);
      ScriptsIff(u, txs[..|txs| - 1], height, rules);
    }
  }

  // ------------------------------------------------------------ what a block leaves behind

  ghost predicate Mentions(tx: Tx, o: OutPoint) { exists i :: 0 <= i < |tx.inputs| && tx.inputs[i].prev == o }

  ghost predicate Makes(tx: Tx, rules: Rules, o: OutPoint) { o.txid == Txid(rules.hash, tx) && o.vout < |tx.outputs| }

  /** Where a coin comes from in a list of ordinary transactions: an old coin that none of them spends or replaces, or
      an output of the last one that makes it, not spent after that. */
  ghost predicate Survives(u: Utxo, txs: seq<Tx>, height: u32, rules: Rules, o: OutPoint, c: Coin)
    decreases |txs|
  {
    if txs == [] then o in u && u[o] == c
    else
      var n := |txs| - 1;
      if Makes(txs[n], rules, o) then c == Coin(txs[n].outputs[o.vout], height, false)
      else !Mentions(txs[n], o) && Survives(u, txs[..n], height, rules, o, c)
  }

  lemma ApplySurvives(u: Utxo, tx: Tx, height: u32, rules: Rules, o: OutPoint, c: Coin)
    requires |tx.outputs| < 0x1_0000_0000
    ensures var v := Apply(u, tx, Txid(rules.hash, tx), height);
      o in v && v[o] == c <==>
        if Makes(tx, rules, o) then c == Coin(tx.outputs[o.vout], height, false)
        else !Mentions(tx, o) && o in u && u[o] == c
  {
    ApplyCoins(u, tx, height, rules, o);
    hide Apply, Txid;
  }

  lemma {:induction false} AdvanceCoins(u: Utxo, txs: seq<Tx>, height: u32, rules: Rules, o: OutPoint, c: Coin)
    requires Sized(txs) && AdvanceAll(u, txs, height, rules).Progress?
    ensures var v := AdvanceAll(u, txs, height, rules).utxo;
      o in v && v[o] == c <==> Survives(u, txs, height, rules, o, c)
  {
    if txs != [] {
      var n := |txs| - 1;
      AdvanceCoins(u, txs[..n], height, rules, o, c);
      hide Judge, Apply, Txid, Makes, Mentions;
      ApplySurvives(AdvanceAll(u, txs[..n], height, rules).utxo, txs[n], height, rules, o, c);
    }
  }

  /**
   * The coins after a connected block, exactly: the outputs of its coinbase, marked as such, and what survives its
   * ordinary transactions, whose outputs are not.
   */
  lemma ConnectedCoins(
    u: Utxo, block: Block, height: u32, rules: Rules, checkScripts: bool, o: OutPoint, c: Coin)
    requires block.txs != [] && Sized(block.txs) && Connect(u, block, height, rules, checkScripts).Connected?
    ensures var v := Connect(u, block, height, rules, checkScripts).utxo;
      o in v && v[o] == c <==>
        if Makes(block.txs[0], rules, o) then c == Coin(block.txs[0].outputs[o.vout], height, true)
        else Survives(u, block.txs[1..], height, rules, o, c)
  {
    assert forall k :: 0 <= k < |block.txs[1..]| ==> block.txs[1..][k] == block.txs[k + 1];
    assert Sized(block.txs[1..]);
    CreatedCoins(Txid(rules.hash, block.txs[0]), block.txs[0].outputs, height, true, o);
    hide AdvanceAll, Created, Txid, Survives, CoinbaseError;
    AdvanceCoins(u, block.txs[1..], height, rules, o, c);
  }

  // ------------------------------------------------------------------ the rules in numbers

  ghost predicate NullInput(i: TxIn) { i.prev.txid == Zeros(32) && i.prev.vout == 0xffff_ffff }

  /** What makes a transaction sane on its own. */
  lemma SaneMeans(tx: Tx)
    ensures var coinbase := |tx.inputs| == 1 && NullInput(tx.inputs[0]);
      && IsCoinbase(tx) == coinbase
      && (GoodTx(tx) <==>
        && tx.inputs != [] && tx.outputs != [] && OutputTotal(tx.outputs) <= 2_100_000_000_000_000
        && (forall i, j :: 0 <= i < j < |tx.inputs| ==> tx.inputs[i].prev != tx.inputs[j].prev)
        && (coinbase ==> 2 <= |tx.inputs[0].scriptSig| <= 100)
        && (!coinbase ==> forall i :: 0 <= i < |tx.inputs| ==> !NullInput(tx.inputs[i])))
  {
    hide OutputTotal;
  }

  /** And a block: its own merkle root, a coinbase first, sane transactions, at most four million units of weight. */
  lemma SaneBlockMeans(block: Block, height: u32, rules: Rules)
    requires GoodInContext(block, height, rules)
    ensures block.txs != [] && IsCoinbase(block.txs[0]) && forall k :: 0 <= k < |block.txs| ==> GoodTx(block.txs[k])
    ensures block.header.merkleRoot == Merkle.Root(rules.hash, Txids(rules.hash, block.txs))
    ensures 3 * |StrippedBlock(block)| + |EncodeBlock(block)| <= 4_000_000
    ensures height >= rules.bip34Height ==> EncodesHeight(block.txs[0], height)
  {
    hide GoodTx, IsCoinbase, EncodesHeight, EncodeBlock, StrippedBlock, Merkle.Root, Txids;
    WeightFormula(block);
  }

  // --------------------------------------------------------------------- the BIP 34 height

  /** What the height rule reads: the script starts with one direct push of the height as a minimal number. */
  lemma HeightIsRead(coinbase: Tx, height: u32)
    requires coinbase.inputs != []
    ensures var script := coinbase.inputs[0].scriptSig; var first := ScriptOps.First(script);
      EncodesHeight(coinbase, height) <==>
        && first.Op? && first.opcode == |first.data| && |first.data| <= 5
        && ScriptNum.IsMinimallyEncoded(first.data) && ScriptNum.DecodeUnchecked(first.data) == height
  {
    var script := coinbase.inputs[0].scriptSig;
    var x := ScriptNum.Encode(height);
    hide ScriptNum.Encode, ScriptNum.DecodeUnchecked, ScriptNum.IsMinimallyEncoded, Pow;
    SmallPowers();
    ScriptNum.EncodeLength(height, 5);
    ScriptNum.DecodeEncode(height);
    assert HeightPush(height) == [|x|] + x;
    if EncodesHeight(coinbase, height) {
      assert script[..1 + |x|] == [|x|] + x;
      assert script[1..1 + |x|] == x;
    }
    var first := ScriptOps.First(script);
    if first.Op? && first.opcode == |first.data| && |first.data| <= 5
      && ScriptNum.IsMinimallyEncoded(first.data) && ScriptNum.DecodeUnchecked(first.data) == height {
      ScriptNum.EncodeDecode(first.data);
      assert script[..1 + |x|] == [|x|] + x;
    }
  }

  // ------------------------------------------------------------------------ the subsidy

  lemma Halved(n: nat, k: nat)
    ensures n / Pow(2, k + 1) == n / Pow(2, k) / 2
  {
    Supply.PowTwoDiv(n, k);
  }

  /** The subsidy starts at fifty coins and is halved, rounded down, every interval; it is gone after 64 halvings. */
  lemma SubsidyHalves(height: u32, interval: pos)
    ensures height < interval ==> BlockSubsidy(height, interval) == 5_000_000_000
    ensures height + interval < 0x1_0000_0000 ==>
      BlockSubsidy(height + interval, interval) == BlockSubsidy(height, interval) / 2
    ensures height / interval < 64 ==> BlockSubsidy(height, interval) == 5_000_000_000 / Pow(2, height / interval)
    ensures height / interval >= 64 ==> BlockSubsidy(height, interval) == 0
  {
    assert Pow(2, 0) == 1;
    NextPeriod(height, interval);
    Halved(5_000_000_000, height / interval);
    if height < interval { FirstPeriod(height, interval); }
    GoneBy64();
  }

  lemma NextPeriod(height: nat, interval: pos)
    ensures (height + interval) / interval == height / interval + 1
  {
    var q, r := height / interval, height % interval;
    assert height == q * interval + r;
    assert (q + 1) * interval == q * interval + interval;
    ModUnique(height + interval, interval, q + 1, r);
  }

  lemma FirstPeriod(height: nat, interval: pos)
    requires height < interval
    ensures height / interval == 0
  {
  }

  lemma GoneBy64()
    ensures 5_000_000_000 / Pow(2, 63) == 0
  {
    hide Pow;
    PowersOfTwo();
    PowAdd(2, 10, 10);
    PowAdd(2, 10, 20);
    PowAdd(2, 10, 30);
    PowMonotone(2, 40, 63);
    FirstPeriod(5_000_000_000, Pow(2, 63));
  }
}
