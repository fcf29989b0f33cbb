/** Consensus validation of transactions and blocks against the coin cache. */
module Validation {
  import opened Bytes
  import opened Wire
  import opened Transaction
  import opened Coins
  import Merkle
  import ScriptNum
  import ScriptOps

  const MAX_MONEY: nat := 21_000_000 * 100_000_000
  const INITIAL_BLOCK_REWARD: nat := 50 * 100_000_000
  const COINBASE_MATURITY: nat := 100
  const MIN_COINBASE_SCRIPT_SIZE: nat := 2
  const MAX_COINBASE_SCRIPT_SIZE: nat := 100
  const MAX_BLOCK_WEIGHT: nat := 4_000_000

  type pos = n: int | 0 < n witness 1

  datatype ValidationError =
    | NoInputs | NoOutputs | AmountOutOfRange | TotalAmountOutOfRange | DuplicateInput
    | BadCoinbaseScriptLength(len: nat) | NullPrevout
    | InputMissingOrSpent(o: OutPoint) | PrematureCoinbaseSpend(created: u32, spent: u32) | NegativeFee
    | NoTransactions | InvalidMerkleRoot | InvalidCoinbase | BlockWeightTooLarge(weight: nat)
    | BadSignetSolution | BadHeader | BadCoinbaseHeight(expected: u32) | BadWitnessCommitment
    | ScriptFailure | CoinbaseValueTooHigh(claimed: nat, allowed: nat)

  /** The network's constants, and the checks that live outside this model as predicates. */
  datatype Rules = Rules(
    hash: Hasher,
    bip34Height: u32,
    segwitHeight: u32,
    halvingInterval: pos,
    headerOk: (Header, u32) -> bool,
    signetOk: Block -> bool,
    witnessOk: Block -> bool,
    scriptOk: (Tx, seq<Coin>) -> bool)

  // ------------------------------------------------------------------ amounts

  function CheckedAdd(a: nat, b: nat): Option<nat> { if a + b <= MAX_MONEY then Some(a + b) else None }

  function OutputTotal(outputs: seq<TxOut>): nat {
    if outputs == [] then 0 else OutputTotal(outputs[..|outputs| - 1]) + outputs[|outputs| - 1].value
  }

  lemma {:induction false} OutputTotalPrefix(outputs: seq<TxOut>, k: nat)
    requires k <= |outputs|
    ensures OutputTotal(outputs[..k]) <= OutputTotal(outputs)
    decreases |outputs|
  {
    if k < |outputs| {
      var n := |outputs| - 1;
      OutputTotalPrefix(outputs[..n], k);
      assert outputs[..n][..k] == outputs[..k];
    } else {
      assert outputs[..k] == outputs;
    }
  }

  /** The accumulator loops: the checked sum exists exactly when the true total is in range. */
  method SumOutputs(outputs: seq<TxOut>) returns (sum: Option<nat>)
    ensures sum == if OutputTotal(outputs) <= MAX_MONEY then Some(OutputTotal(outputs)) else None
  {
    var total := 0;
    for i := 0 to |outputs|
      invariant total == OutputTotal(outputs[..i]) <= MAX_MONEY
    {
      assert outputs[..i + 1][..i] == outputs[..i];
      OutputTotalPrefix(outputs, i + 1);
      var next := CheckedAdd(total, outputs[i].value);
      if next.None? { return None; }
      total := next.value;
    }
    assert outputs[..|outputs|] == outputs;
    return Some(total);
  }

  function BlockSubsidy(height: u32, interval: pos): nat {
    var halvings := height / interval;
    if halvings >= 64 then 0 else INITIAL_BLOCK_REWARD / Pow(2, halvings)
  }

  // --------------------------------------------------------- stateless checks

  ghost predicate DistinctInputs(inputs: seq<TxIn>) {
    forall i, j :: 0 <= i < j < |inputs| ==> inputs[i].prev != inputs[j].prev
  }

  ghost predicate GoodTx(tx: Tx) {
    && tx.inputs != [] && tx.outputs != []
    && OutputTotal(tx.outputs) <= MAX_MONEY
    && DistinctInputs(tx.inputs)
    && (if IsCoinbase(tx) then MIN_COINBASE_SCRIPT_SIZE <= |tx.inputs[0].scriptSig| <= MAX_COINBASE_SCRIPT_SIZE
        else forall i :: 0 <= i < |tx.inputs| ==> !IsNull(tx.inputs[i].prev))
  }

  lemma NoneDistinct(inputs: seq<TxIn>)
    ensures DistinctInputs(inputs[..0])
  {
  }

  lemma NoOutputTotal(outputs: seq<TxOut>)
    ensures OutputTotal(outputs[..0]) == 0
  {
  }

  lemma OutputTotalStep(outputs: seq<TxOut>, i: nat)
    requires i < |outputs|
    ensures OutputTotal(outputs[..i + 1]) == OutputTotal(outputs[..i]) + outputs[i].value
  {
    assert outputs[..i + 1][..i] == outputs[..i];
  }

  lemma DistinctStep(inputs: seq<TxIn>, i: nat, seen: set<OutPoint>)
    requires i < |inputs| && seen == (set k | 0 <= k < i :: inputs[k].prev) && DistinctInputs(inputs[..i])
    ensures inputs[i].prev in seen ==> !DistinctInputs(inputs)
    ensures inputs[i].prev !in seen ==> DistinctInputs(inputs[..i + 1])
    ensures seen + {inputs[i].prev} == set k | 0 <= k < i + 1 :: inputs[k].prev
  {
  }

  /** `check_transaction`: no error exactly for the well-formed transactions. */
  method CheckTransaction(tx: Tx) returns (error: Option<ValidationError>)
    ensures error.None? <==> GoodTx(tx)
    ensures error == Some(DuplicateInput) ==> !DistinctInputs(tx.inputs)
    ensures error == Some(TotalAmountOutOfRange) ==> OutputTotal(tx.outputs) > MAX_MONEY
    ensures error == Some(AmountOutOfRange) ==> OutputTotal(tx.outputs) > MAX_MONEY
    ensures error == Some(NullPrevout) ==> !IsCoinbase(tx)
  {
    hide OutputTotal, DistinctInputs, IsCoinbase, IsNull;
    if tx.inputs == [] { return Some(NoInputs); }
    if tx.outputs == [] { return Some(NoOutputs); }
    var total := 0;
    assert OutputTotal(tx.outputs[..0]) == 0 by { NoOutputTotal(tx.outputs); }
    for i := 0 to |tx.outputs|
      invariant total == OutputTotal(tx.outputs[..i]) <= MAX_MONEY
    {
      OutputTotalStep(tx.outputs, i);
      OutputTotalPrefix(tx.outputs, i + 1);
      if tx.outputs[i].value > MAX_MONEY { return Some(AmountOutOfRange); }
      var next := CheckedAdd(total, tx.outputs[i].value);
      if next.None? { return Some(TotalAmountOutOfRange); }
      total := next.value;
    }
    assert tx.outputs[..|tx.outputs|] == tx.outputs;
    var seen: set<OutPoint> := {};
    NoneDistinct(tx.inputs);
    for i := 0 to |tx.inputs|
      invariant seen == set k | 0 <= k < i :: tx.inputs[k].prev
      invariant DistinctInputs(tx.inputs[..i])
    {
      DistinctStep(tx.inputs, i, seen);
      if tx.inputs[i].prev in seen {
        return Some(DuplicateInput);
      }
      seen := seen + {tx.inputs[i].prev};
    }
    assert tx.inputs[..|tx.inputs|] == tx.inputs;
    if IsCoinbase(tx) {
      var len := |tx.inputs[0].scriptSig|;
      if !(MIN_COINBASE_SCRIPT_SIZE <= len <= MAX_COINBASE_SCRIPT_SIZE) {
        return Some(BadCoinbaseScriptLength(len));
      }
    } else {
      for i := 0 to |tx.inputs|
        invariant forall k :: 0 <= k < i ==> !IsNull(tx.inputs[k].prev)
      {
        if IsNull(tx.inputs[i].prev) { return Some(NullPrevout); }
      }
    }
    return None;
  }

  /** `check_bip34_height`: the coinbase script must start with a push of its own height. */
  function HeightPush(height: u32): seq<byte> { ScriptOps.PushData(ScriptNum.Encode(height)) }

  predicate EncodesHeight(coinbase: Tx, height: u32) {
    coinbase.inputs != [] && HeightPush(height) <= coinbase.inputs[0].scriptSig
  }

  ghost predicate GoodBlock(block: Block, rules: Rules) {
    && block.txs != []
    && block.header.merkleRoot == Merkle.Root(rules.hash, Txids(rules.hash, block.txs))
    && IsCoinbase(block.txs[0])
    && (forall i :: 0 <= i < |block.txs| ==> GoodTx(block.txs[i]))
    && Weight(block) <= MAX_BLOCK_WEIGHT
    && rules.signetOk(block)
  }

  ghost predicate GoodInContext(block: Block, height: u32, rules: Rules) {
    && GoodBlock(block, rules)
    && rules.headerOk(block.header, height)
    && (height >= rules.bip34Height ==> EncodesHeight(block.txs[0], height))
    && (height >= rules.segwitHeight ==> rules.witnessOk(block))
  }

  /** `check_block`, the header check and the contextual rules, in the order `connect_block` runs them. */
  method CheckBlockInContext(block: Block, height: u32, rules: Rules) returns (error: Option<ValidationError>)
    ensures error.None? <==> GoodInContext(block, height, rules)
  {
    hide GoodTx, EncodesHeight, Weight, Txid, Txids, IsCoinbase, Merkle.Root, Legacy;
    if block.txs == [] { return Some(NoTransactions); }
    var root := Merkle.ComputeRoot(rules.hash, Txids(rules.hash, block.txs));
    if block.header.merkleRoot != root { return Some(InvalidMerkleRoot); }
    if !IsCoinbase(block.txs[0]) { return Some(InvalidCoinbase); }
    for i := 0 to |block.txs|
      invariant forall k :: 0 <= k < i ==> GoodTx(block.txs[k])
    {
      var bad := CheckTransaction(block.txs[i]);
      if bad.Some? { return bad; }
    }
    var weight := Weight(block);
    if weight > MAX_BLOCK_WEIGHT { return Some(BlockWeightTooLarge(weight)); }
    if !rules.signetOk(block) { return Some(BadSignetSolution); }
    if !rules.headerOk(block.header, height) { return Some(BadHeader); }
    if height >= rules.bip34Height && !EncodesHeight(block.txs[0], height) {
      return Some(BadCoinbaseHeight(height));
    }
    if height >= rules.segwitHeight && !rules.witnessOk(block) { return Some(BadWitnessCommitment); }
    return None;
  }

  // ------------------------------------------------- what a block does to a plain map

  function Spent(inputs: seq<TxIn>): set<OutPoint> { set i | 0 <= i < |inputs| :: inputs[i].prev }

  /** The coins of a transaction; `vout as u32` keeps the low 32 bits of the index. */
  function Created(txid: Hash, outputs: seq<TxOut>, height: u32, isCoinbase: bool): Utxo {
    if outputs == [] then map[]
    else
      var n := |outputs| - 1;
      Created(txid, outputs[..n], height, isCoinbase)
        [OutPoint(txid, n % 0x1_0000_0000) := Coin(outputs[n], height, isCoinbase)]
  }

  function Apply(u: Utxo, tx: Tx, txid: Hash, height: u32): Utxo {
    (u - Spent(tx.inputs)) + Created(txid, tx.outputs, height, false)
  }

  datatype Gathered = Gathered(total: nat, coins: seq<Coin>) | Refused(error: ValidationError)

  /** Look up one more input: it must exist, be mature, and keep the sum in range. */
  function GatherOne(g: Gathered, input: TxIn, found: Option<Coin>, height: u32): Gathered {
    if g.Refused? then g
    else if found.None? then Refused(InputMissingOrSpent(input.prev))
    else
      var coin := found.value;
      var age := if height >= coin.height then height - coin.height else 0;
      if coin.isCoinbase && age < COINBASE_MATURITY then Refused(PrematureCoinbaseSpend(coin.height, height))
      else if CheckedAdd(g.total, coin.output.value).None? then Refused(TotalAmountOutOfRange)
      else Gathered(g.total + coin.output.value, g.coins + [coin])
  }

  function Gather(inputs: seq<TxIn>, u: Utxo, height: u32): Gathered {
    if inputs == [] then Gathered(0, [])
    else
      var n := |inputs| - 1;
      GatherOne(Gather(inputs[..n], u, height), inputs[n], Get(u, inputs[n].prev), height)
  }

  datatype Verdict = Accepted(fee: nat, coins: seq<Coin>) | Denied(error: ValidationError)

  /** `contextual_check_transaction_metadata` against a plain map. */
  function Judge(tx: Tx, u: Utxo, height: u32): Verdict {
    if IsCoinbase(tx) then Accepted(0, [])
    else
      match Gather(tx.inputs, u, height)
      case Refused(e) => Denied(e)
      case Gathered(total, coins) =>
        if OutputTotal(tx.outputs) > MAX_MONEY then Denied(TotalAmountOutOfRange)
        else if total < OutputTotal(tx.outputs) then Denied(NegativeFee)
        else Accepted(total - OutputTotal(tx.outputs), coins)
  }

  datatype Progress =
    | Progress(utxo: Utxo, fees: nat, undo: seq<Coin>, scripts: bool)
    | Stopped(error: ValidationError)

  function Advance(p: Progress, tx: Tx, height: u32, rules: Rules): Progress {
    if p.Stopped? then p
    else
      match Judge(tx, p.utxo, height)
      case Denied(e) => Stopped(e)
      case Accepted(fee, coins) =>
        if CheckedAdd(p.fees, fee).None? then Stopped(TotalAmountOutOfRange)
        else Progress(Apply(p.utxo, tx, Txid(rules.hash, tx), height), p.fees + fee, p.undo + coins,
                      p.scripts && rules.scriptOk(tx, coins))
  }

  /** The transactions after the first, one after another. */
  function AdvanceAll(u: Utxo, txs: seq<Tx>, height: u32, rules: Rules): Progress {
    if txs == [] then Progress(u, 0, [], true)
    else
      var n := |txs| - 1;
      Advance(AdvanceAll(u, txs[..n], height, rules), txs[n], height, rules)
  }

  datatype Outcome =
    | Connected(utxo: Utxo, fees: nat, undo: seq<Coin>)
    | Rejected(error: ValidationError)
    | RejectedLate(error: ValidationError, utxo: Utxo)

  function WithCoinbase(u: Utxo, coinbase: Tx, height: u32, rules: Rules): Utxo {
    u + Created(Txid(rules.hash, coinbase), coinbase.outputs, height, true)
  }

  /** The coinbase-amount rule; the one check that runs after the view has been changed. */
  function CoinbaseError(coinbase: Tx, fees: nat, height: u32, rules: Rules): Option<ValidationError> {
    var claimed := OutputTotal(coinbase.outputs);
    var subsidy := BlockSubsidy(height, rules.halvingInterval);
    if claimed > MAX_MONEY then Some(TotalAmountOutOfRange)
    else if CheckedAdd(subsidy, fees).None? then Some(TotalAmountOutOfRange)
    else if claimed > subsidy + fees then Some(CoinbaseValueTooHigh(claimed, subsidy + fees))
    else None
  }

  /** `connect_block` on a plain map, for a block that passed the checks that need no coins. */
  function Connect(u: Utxo, block: Block, height: u32, rules: Rules, checkScripts: bool): Outcome
    requires block.txs != []
  {
    match AdvanceAll(u, block.txs[1..], height, rules)
    case Stopped(e) => Rejected(e)
    case Progress(after, fees, undo, scripts) =>
      if checkScripts && !scripts then Rejected(ScriptFailure)
      else
        var final := WithCoinbase(after, block.txs[0], height, rules);
        match CoinbaseError(block.txs[0], fees, height, rules)
        case Some(e) => RejectedLate(e, final)
        case None => Connected(final, fees, undo)
  }

  ghost predicate SingleCoinbase(block: Block) { forall k :: 1 <= k < |block.txs| ==> !IsCoinbase(block.txs[k]) }

  /** The native script engine refuses a transaction unless it is given one coin per input. */
  ghost predicate CountsCoins(rules: Rules) {
    forall tx: Tx, coins: seq<Coin> :: rules.scriptOk(tx, coins) ==> |coins| == |tx.inputs|
  }

  /** A coinbase comes with no coins, so such an engine accepts none of them. */
  lemma {:induction false} NoCoinbasePasses(u: Utxo, txs: seq<Tx>, height: u32, rules: Rules)
    requires CountsCoins(rules)
    requires var p := AdvanceAll(u, txs, height, rules); p.Progress? && p.scripts
    ensures forall k :: 0 <= k < |txs| ==> !IsCoinbase(txs[k])
  {
    hide Apply, Txid, Gather, CountsCoins;
    if txs != [] {
      var n := |txs| - 1;
      NoCoinbasePasses(u, txs[..n], height, rules);
      if IsCoinbase(txs[n]) { CoinbaseScript(txs[n], rules); }
      assert forall k :: 0 <= k < n ==> txs[k] == txs[..n][k];
    }
  }

  lemma CoinbaseScript(tx: Tx, rules: Rules)
    requires CountsCoins(rules) && IsCoinbase(tx)
    ensures !rules.scriptOk(tx, [])
  {
  }

  /** So with scripts checked by it, a block that connects has one coinbase, whatever `check_block` let through. */
  lemma ScriptsSeeCoinbases(u: Utxo, block: Block, height: u32, rules: Rules)
    requires CountsCoins(rules) && block.txs != [] && Connect(u, block, height, rules, true).Connected?
    ensures SingleCoinbase(block)
  {
    hide AdvanceAll, CountsCoins, CoinbaseError, WithCoinbase;
    NoCoinbasePasses(u, block.txs[1..], height, rules);
    assert forall k :: 1 <= k < |block.txs| ==> block.txs[k] == block.txs[1..][k - 1];
  }

  // -------------------------------------------------------------- the overlay

  type Overlay = map<OutPoint, Option<Coin>>

  ghost function Overlaid(u: Utxo, overlay: Overlay): (v: Utxo)
    ensures forall o :: Get(v, o) == if o in overlay then overlay[o] else Get(u, o)
  {
    map o | o in u.Keys + overlay.Keys && (if o in overlay then overlay[o].Some? else o in u)
      :: if o in overlay then overlay[o].value else u[o]
  }

  method OverlayGet(view: CoinsViewCache, overlay: Overlay, o: OutPoint) returns (c: Option<Coin>)
    ensures c == Get(Overlaid(View(view.cache, view.base.coins), overlay), o)
  {
    if o in overlay { return overlay[o]; }
    c := view.GetCoin(o);
  }

  lemma {:induction false} RefusalSticks(inputs: seq<TxIn>, k: nat, u: Utxo, height: u32)
    requires k <= |inputs| && Gather(inputs[..k], u, height).Refused?
    ensures Gather(inputs, u, height) == Gather(inputs[..k], u, height)
    decreases |inputs|
  {
    hide GatherOne;
    if k < |inputs| {
      var n := |inputs| - 1;
      assert inputs[..n][..k] == inputs[..k];
      RefusalSticks(inputs[..n], k, u, height);
      GatherRefused(Gather(inputs[..n], u, height), inputs[n], Get(u, inputs[n].prev), height);
    } else {
      assert inputs[..k] == inputs;
    }
  }

  lemma GatherRefused(g: Gathered, input: TxIn, found: Option<Coin>, height: u32)
    ensures g.Refused? ==> GatherOne(g, input, found, height) == g
  {
  }

  /** `contextual_check_transaction_metadata` reading through the overlay. */
  method ContextualCheck(tx: Tx, view: CoinsViewCache, overlay: Overlay, height: u32) returns (v: Verdict)
    ensures v == Judge(tx, Overlaid(View(view.cache, view.base.coins), overlay), height)
  {
    hide Overlaid, View;
    ghost var u := Overlaid(View(view.cache, view.base.coins), overlay);
    if IsCoinbase(tx) { return Accepted(0, []); }
    var total := 0;
    var coins: seq<Coin> := [];
    for i := 0 to |tx.inputs|
      invariant Gather(tx.inputs[..i], u, height) == Gathered(total, coins)
    {
      var input := tx.inputs[i];
      var found := OverlayGet(view, overlay, input.prev);
      assert tx.inputs[..i + 1][..i] == tx.inputs[..i];
      assert Gather(tx.inputs[..i + 1], u, height) == GatherOne(Gathered(total, coins), input, found, height);
      if found.None? {
        RefusalSticks(tx.inputs, i + 1, u, height);
        return Denied(InputMissingOrSpent(input.prev));
      }
      var coin := found.value;
      if coin.isCoinbase && (if height >= coin.height then height - coin.height else 0) < COINBASE_MATURITY {
        RefusalSticks(tx.inputs, i + 1, u, height);
        return Denied(PrematureCoinbaseSpend(coin.height, height));
      }
      var next := CheckedAdd(total, coin.output.value);
      if next.None? {
        RefusalSticks(tx.inputs, i + 1, u, height);
        return Denied(TotalAmountOutOfRange);
      }
      total := next.value;
      coins := coins + [coin];
    }
    assert tx.inputs[..|tx.inputs|] == tx.inputs;
    var out := SumOutputs(tx.outputs);
    if out.None? { return Denied(TotalAmountOutOfRange); }
    if total < out.value { return Denied(NegativeFee); }
    return Accepted(total - out.value, coins);
  }

  method OverlaySpends(overlay: Overlay, inputs: seq<TxIn>, ghost u: Utxo) returns (next: Overlay)
    ensures Overlaid(u, next) == Overlaid(u, overlay) - Spent(inputs)
  {
    hide Overlaid, Spent;
    next := overlay;
    assert Spent(inputs[..0]) == {} by { NoneSpent(inputs); }
    for i := 0 to |inputs|
      invariant Overlaid(u, next) == Overlaid(u, overlay) - Spent(inputs[..i])
    {
      next := next[inputs[i].prev := None];
      SpentStep(inputs, i);
      SameLookups(Overlaid(u, next), Overlaid(u, overlay) - Spent(inputs[..i + 1]));
    }
    assert inputs[..|inputs|] == inputs;
  }

  lemma NoneSpent(inputs: seq<TxIn>)
    ensures Spent(inputs[..0]) == {}
  {
  }

  method OverlayOutputs(overlay: Overlay, txid: Hash, outputs: seq<TxOut>, height: u32, ghost u: Utxo)
    returns (next: Overlay)
    ensures Overlaid(u, next) == Overlaid(u, overlay) + Created(txid, outputs, height, false)
  {
    hide Overlaid;
    next := overlay;
    for vout := 0 to |outputs|
      invariant Overlaid(u, next) == Overlaid(u, overlay) + Created(txid, outputs[..vout], height, false)
    {
      CreatedStep(txid, outputs, vout, height, false);
      next := next[OutPoint(txid, vout % 0x1_0000_0000) := Some(Coin(outputs[vout], height, false))];
      SameLookups(Overlaid(u, next), Overlaid(u, overlay) + Created(txid, outputs[..vout + 1], height, false));
    }
    assert outputs[..|outputs|] == outputs;
  }

  /** The overlay inserts of one transaction: spent markers first, then its coins. */
  method OverlayApply(overlay: Overlay, tx: Tx, txid: Hash, height: u32, ghost u: Utxo) returns (next: Overlay)
    ensures Overlaid(u, next) == Apply(Overlaid(u, overlay), tx, txid, height)
  {
    hide Overlaid, Spent, Created;
    next := OverlaySpends(overlay, tx.inputs, u);
    next := OverlayOutputs(next, txid, tx.outputs, height, u);
  }

  lemma SpentStep(inputs: seq<TxIn>, i: nat)
    requires i < |inputs|
    ensures Spent(inputs[..i + 1]) == Spent(inputs[..i]) + {inputs[i].prev}
  {
    assert inputs[..i + 1][i].prev in Spent(inputs[..i + 1]);
    forall o | o in Spent(inputs[..i])
      ensures o in Spent(inputs[..i + 1])
    {
      var k :| 0 <= k < i && inputs[..i][k].prev == o;
      assert inputs[..i + 1][k].prev == o;
    }
    forall o | o in Spent(inputs[..i + 1])
      ensures o in Spent(inputs[..i]) + {inputs[i].prev}
    {
      var k :| 0 <= k < i + 1 && inputs[..i + 1][k].prev == o;
      assert k < i ==> inputs[..i][k].prev == o;
    }
  }

  lemma CreatedStep(txid: Hash, outputs: seq<TxOut>, i: nat, height: u32, isCoinbase: bool)
    requires i < |outputs|
    ensures Created(txid, outputs[..i + 1], height, isCoinbase)
      == Created(txid, outputs[..i], height, isCoinbase)
           [OutPoint(txid, i % 0x1_0000_0000) := Coin(outputs[i], height, isCoinbase)]
  {
    assert outputs[..i + 1][..i] == outputs[..i];
  }

  // ------------------------------------------------------------ the real commit

  /** None of the coins about to be created exists yet. */
  ghost predicate NewCoins(u: Utxo, created: Utxo) { u.Keys !! created.Keys }

  function SpendAll(cache: Cache, base: Utxo, inputs: seq<TxIn>): Cache {
    if inputs == [] then cache
    else
      var n := |inputs| - 1;
      SpendKnownEntry(SpendAll(cache, base, inputs[..n]), base, inputs[n].prev)
  }

  function AddAll(cache: Cache, txid: Hash, outputs: seq<TxOut>, height: u32, isCoinbase: bool): Cache {
    if outputs == [] then cache
    else
      var n := |outputs| - 1;
      AddEntry(AddAll(cache, txid, outputs[..n], height, isCoinbase),
               OutPoint(txid, n % 0x1_0000_0000), Coin(outputs[n], height, isCoinbase))
  }

  function CommitTx(cache: Cache, base: Utxo, tx: Tx, txid: Hash, height: u32): Cache {
    AddAll(SpendAll(cache, base, tx.inputs), txid, tx.outputs, height, false)
  }

  function CommitTxs(cache: Cache, base: Utxo, txs: seq<Tx>, height: u32, rules: Rules): Cache {
    if txs == [] then cache
    else
      var n := |txs| - 1;
      CommitTx(CommitTxs(cache, base, txs[..n], height, rules), base, txs[n], Txid(rules.hash, txs[n]), height)
  }

  /** What the commit loops leave in the cache. */
  function CommitBlock(cache: Cache, base: Utxo, block: Block, height: u32, rules: Rules): Cache
    requires block.txs != []
  {
    AddAll(CommitTxs(cache, base, block.txs[1..], height, rules),
           Txid(rules.hash, block.txs[0]), block.txs[0].outputs, height, true)
  }

  method CommitOutputs(view: CoinsViewCache, txid: Hash, outputs: seq<TxOut>, height: u32, isCoinbase: bool)
    modifies view`cache
    ensures view.cache == AddAll(old(view.cache), txid, outputs, height, isCoinbase)
  {
    for vout := 0 to |outputs|
      invariant view.cache == AddAll(old(view.cache), txid, outputs[..vout], height, isCoinbase)
    {
      assert outputs[..vout + 1][..vout] == outputs[..vout];
      view.AddCoin(OutPoint(txid, vout % 0x1_0000_0000), Coin(outputs[vout], height, isCoinbase));
    }
    assert outputs[..|outputs|] == outputs;
  }

  method CommitSpends(view: CoinsViewCache, inputs: seq<TxIn>)
    modifies view`cache
    ensures view.cache == SpendAll(old(view.cache), view.base.coins, inputs)
  {
    for i := 0 to |inputs|
      invariant view.cache == SpendAll(old(view.cache), view.base.coins, inputs[..i])
    {
      assert inputs[..i + 1][..i] == inputs[..i];
      view.SpendCoinKnown(inputs[i].prev);
    }
    assert inputs[..|inputs|] == inputs;
  }

  datatype ConnectResult = Ok(fees: nat, undo: seq<Coin>) | Err(error: ValidationError)

  lemma {:induction false} StopSticks(u: Utxo, txs: seq<Tx>, k: nat, height: u32, rules: Rules)
    requires k <= |txs| && AdvanceAll(u, txs[..k], height, rules).Stopped?
    ensures AdvanceAll(u, txs, height, rules) == AdvanceAll(u, txs[..k], height, rules)
    decreases |txs|
  {
    hide Apply, Judge, Txid;
    if k < |txs| {
      var n := |txs| - 1;
      assert txs[..n][..k] == txs[..k];
      StopSticks(u, txs[..n], k, height, rules);
    } else {
      assert txs[..k] == txs;
    }
  }

  /** The validation loop of `connect_block`: everything happens in the overlay, the view stays as it was. */
  method ValidateTxs(txs: seq<Tx>, height: u32, view: CoinsViewCache, rules: Rules)
    returns (p: Option<ValidationError>, fees: nat, undo: seq<Coin>, scripts: bool)
    ensures var spec := AdvanceAll(View(view.cache, view.base.coins), txs, height, rules);
      && (p.Some? ==> spec == Stopped(p.value))
      && (p.None? ==> spec.Progress? && spec.fees == fees && spec.undo == undo && spec.scripts == scripts)
  {
    hide Overlaid, View, Apply, Judge, Txid;
    ghost var u := View(view.cache, view.base.coins);
    fees, undo, scripts := 0, [], true;
    var overlay: Overlay := map[];
    SameLookups(Overlaid(u, overlay), u);
    for k := 0 to |txs|
      invariant AdvanceAll(u, txs[..k], height, rules) == Progress(Overlaid(u, overlay), fees, undo, scripts)
    {
      assert txs[..k + 1][..k] == txs[..k];
      var v := ContextualCheck(txs[k], view, overlay, height);
      if v.Denied? {
        StopSticks(u, txs, k + 1, height, rules);
        return Some(v.error), fees, undo, scripts;
      }
      var sum := CheckedAdd(fees, v.fee);
      if sum.None? {
        StopSticks(u, txs, k + 1, height, rules);
        return Some(TotalAmountOutOfRange), fees, undo, scripts;
      }
      fees := sum.value;
      scripts := scripts && rules.scriptOk(txs[k], v.coins);
      undo := undo + v.coins;
      overlay := OverlayApply(overlay, txs[k], Txid(rules.hash, txs[k]), height, u);
    }
    assert txs[..|txs|] == txs;
    return None, fees, undo, scripts;
  }

  lemma GoodHasCoinbase(block: Block, height: u32, rules: Rules)
    requires GoodInContext(block, height, rules)
    ensures block.txs != []
  {
  }

  /** The commit loops of `connect_block`. */
  method Commit(block: Block, height: u32, view: CoinsViewCache, rules: Rules)
    requires block.txs != []
    modifies view`cache
    ensures view.cache == CommitBlock(old(view.cache), view.base.coins, block, height, rules)
  {
    hide CommitTx, Txid;
    var txs := block.txs[1..];
    for k := 0 to |txs|
      invariant view.cache == CommitTxs(old(view.cache), view.base.coins, txs[..k], height, rules)
    {
      assert txs[..k + 1][..k] == txs[..k];
      ghost var before := view.cache;
      CommitSpends(view, txs[k].inputs);
      CommitOutputs(view, Txid(rules.hash, txs[k]), txs[k].outputs, height, false);
      CommitTxDef(before, view.base.coins, txs[k], Txid(rules.hash, txs[k]), height);
    }
    assert txs[..|txs|] == txs;
    CommitOutputs(view, Txid(rules.hash, block.txs[0]), block.txs[0].outputs, height, true);
  }

  /** The last rule of `connect_block`: the coinbase may claim the subsidy plus the fees. */
  method CheckCoinbaseAmount(coinbase: Tx, fees: nat, height: u32, rules: Rules)
    returns (error: Option<ValidationError>)
    ensures error == CoinbaseError(coinbase, fees, height, rules)
  {
    var claimed := SumOutputs(coinbase.outputs);
    if claimed.None? { return Some(TotalAmountOutOfRange); }
    var allowed := CheckedAdd(BlockSubsidy(height, rules.halvingInterval), fees);
    if allowed.None? { return Some(TotalAmountOutOfRange); }
    if claimed.value > allowed.value { return Some(CoinbaseValueTooHigh(claimed.value, allowed.value)); }
    return None;
  }

  /**
   * `connect_block`. A rejection before the commit leaves the cache as it was; past that point the cache holds
   * the committed block whether or not the coinbase-amount rule then accepts it.
   */
  method ConnectBlock(block: Block, height: u32, view: CoinsViewCache, rules: Rules, checkScripts: bool)
    returns (r: ConnectResult)
    modifies view
    ensures !GoodInContext(block, height, rules) ==>
      && r.Err? && view.cache == old(view.cache)
      && view.bestBlock == old(view.bestBlock) && view.connected == old(view.connected)
    ensures GoodInContext(block, height, rules) ==>
      view.cache == CacheAfter(old(view.cache), view.base.coins, block, height, rules, checkScripts)
    ensures GoodInContext(block, height, rules) ==>
      match Connect(View(old(view.cache), view.base.coins), block, height, rules, checkScripts)
      case Rejected(e) =>
        && r == Err(e) && view.cache == old(view.cache)
        && view.bestBlock == old(view.bestBlock) && view.connected == old(view.connected)
      case RejectedLate(e, _) =>
        && r == Err(e) && view.cache == CommitBlock(old(view.cache), view.base.coins, block, height, rules)
        && view.bestBlock == old(view.bestBlock) && view.connected == old(view.connected)
      case Connected(_, fees, undo) =>
        && r == Ok(fees, undo) && view.cache == CommitBlock(old(view.cache), view.base.coins, block, height, rules)
        && view.bestBlock == Some(rules.hash(EncodeHeader(block.header)))
        && view.connected == old(view.connected) + [(height, rules.hash(EncodeHeader(block.header)))]
  {
    hide View, AdvanceAll, CommitBlock, CoinbaseError, WithCoinbase, Txid, EncodeHeader, GoodInContext;
    var bad := CheckBlockInContext(block, height, rules);
    if bad.Some? { return Err(bad.value); }
    assert block.txs != [] by { GoodHasCoinbase(block, height, rules); }
    var error, fees, undo, scripts := ValidateTxs(block.txs[1..], height, view, rules);
    if error.Some? { return Err(error.value); }
    if checkScripts && !scripts { return Err(ScriptFailure); }
    Commit(block, height, view, rules);
    var tooMuch := CheckCoinbaseAmount(block.txs[0], fees, height, rules);
    if tooMuch.Some? { return Err(tooMuch.value); }
    view.SetBestBlock(rules.hash(EncodeHeader(block.header)), height);
    return Ok(fees, undo);
  }

  lemma CommitTxDef(cache: Cache, base: Utxo, tx: Tx, txid: Hash, height: u32)
    ensures CommitTx(cache, base, tx, txid, height)
      == AddAll(SpendAll(cache, base, tx.inputs), txid, tx.outputs, height, false)
  {
  }

  // --------------------------------------------------- the commit is the overlay

  lemma {:induction false} SpendAllView(cache: Cache, base: Utxo, inputs: seq<TxIn>)
    requires Consistent(cache, base)
    ensures Consistent(SpendAll(cache, base, inputs), base)
    ensures View(SpendAll(cache, base, inputs), base) == View(cache, base) - Spent(inputs)
  {
    hide View, Consistent, SpendKnownEntry;
    if inputs == [] {
      assert Spent(inputs) == {};
    } else {
      var n := |inputs| - 1;
      SpendAllView(cache, base, inputs[..n]);
      SpendView(SpendAll(cache, base, inputs[..n]), base, inputs[n].prev);
      SpentStep(inputs, n);
      assert inputs[..n + 1] == inputs;
      hide Spent;
    }
  }

  /** The outpoints at which marking a new entry fresh is right: cached already, or absent from the store. */
  ghost predicate Addable(cache: Cache, base: Utxo, made: Utxo) {
    forall o :: o in made ==> o in cache || o !in base
  }

  lemma NewIsAddable(cache: Cache, base: Utxo, made: Utxo)
    requires NewCoins(View(cache, base), made)
    ensures Addable(cache, base, made)
  {
    forall o | o in made ensures o in cache || o !in base {
      assert Get(View(cache, base), o) == Lookup(cache, base, o);
    }
  }

  /** Adding outputs changes the view by exactly their coins, whatever the flags. */
  lemma {:induction false} AddAllShows(
    cache: Cache, base: Utxo, txid: Hash, outputs: seq<TxOut>, height: u32, isCoinbase: bool)
    ensures View(AddAll(cache, txid, outputs, height, isCoinbase), base)
      == View(cache, base) + Created(txid, outputs, height, isCoinbase)
  {
    hide View, AddEntry;
    if outputs != [] {
      var n := |outputs| - 1;
      var o, c := OutPoint(txid, n % 0x1_0000_0000), Coin(outputs[n], height, isCoinbase);
      AddAllShows(cache, base, txid, outputs[..n], height, isCoinbase);
      AddView(AddAll(cache, txid, outputs[..n], height, isCoinbase), base, o, c);
    }
  }

  /** One entry before and after: a new coin is dirty, and fresh unless an entry was there that was not. */
  ghost predicate Becomes(cache: Cache, made: Utxo, after: Cache, o: OutPoint) {
    if o in made then o in after && after[o] == Entry(Some(made[o]), true, o in cache ==> cache[o].isFresh)
    else (o in after <==> o in cache) && (o in cache ==> after[o] == cache[o])
  }

  lemma {:induction false} AddAllEntries(
    cache: Cache, txid: Hash, outputs: seq<TxOut>, height: u32, isCoinbase: bool, o: OutPoint)
    ensures var made := Created(txid, outputs, height, isCoinbase);
      Becomes(cache, made, AddAll(cache, txid, outputs, height, isCoinbase), o)
  {
    if outputs != [] {
      AddAllEntries(cache, txid, outputs[..|outputs| - 1], height, isCoinbase, o);
    }
  }

  /** So the flags stay honest exactly when every outpoint was cached or absent from the store. */
  lemma AddAllView(cache: Cache, base: Utxo, txid: Hash, outputs: seq<TxOut>, height: u32, isCoinbase: bool)
    requires Consistent(cache, base)
    ensures View(AddAll(cache, txid, outputs, height, isCoinbase), base)
      == View(cache, base) + Created(txid, outputs, height, isCoinbase)
    ensures Consistent(AddAll(cache, txid, outputs, height, isCoinbase), base)
      <==> Addable(cache, base, Created(txid, outputs, height, isCoinbase))
  {
    AddAllShows(cache, base, txid, outputs, height, isCoinbase);
    hide View, AddAll, Created;
    var after, made := AddAll(cache, txid, outputs, height, isCoinbase), Created(txid, outputs, height, isCoinbase);
    forall o ensures Becomes(cache, made, after, o) { AddAllEntries(cache, txid, outputs, height, isCoinbase, o); }
    if Consistent(after, base) {
      forall o | o in made ensures o in cache || o !in base {
        assert Becomes(cache, made, after, o);
        assert Honest(after[o], base, o);
      }
    } else {
      var o :| o in after && !Honest(after[o], base, o);
      assert Becomes(cache, made, after, o);
      assert o in cache ==> Honest(cache[o], base, o);
    }
  }

  /** Every transaction creates coins that do not exist at that point, the coinbase included. */
  ghost predicate FreshTxs(u: Utxo, txs: seq<Tx>, height: u32, rules: Rules) {
    forall k :: 0 <= k < |txs| ==>
      var p := AdvanceAll(u, txs[..k], height, rules);
      p.Progress? ==> NewCoins(p.utxo, Created(Txid(rules.hash, txs[k]), txs[k].outputs, height, false))
  }

  ghost predicate FreshBlock(u: Utxo, block: Block, height: u32, rules: Rules)
    requires block.txs != []
  {
    && FreshTxs(u, block.txs[1..], height, rules)
    && var p := AdvanceAll(u, block.txs[1..], height, rules);
       p.Progress? ==> NewCoins(p.utxo, Created(Txid(rules.hash, block.txs[0]), block.txs[0].outputs, height, true))
  }

  lemma FreshPrefix(u: Utxo, txs: seq<Tx>, n: nat, height: u32, rules: Rules)
    requires n <= |txs| && FreshTxs(u, txs, height, rules)
    ensures FreshTxs(u, txs[..n], height, rules)
  {
    hide AdvanceAll, Created, Txid;
    forall k | 0 <= k < n
      ensures txs[..n][..k] == txs[..k] && txs[..n][k] == txs[k]
    {
    }
  }

  lemma FewerAreNew(u: Utxo, gone: set<OutPoint>, made: Utxo)
    requires NewCoins(u, made)
    ensures NewCoins(u - gone, made)
  {
  }

  lemma CommitTxView(cache: Cache, base: Utxo, tx: Tx, txid: Hash, height: u32)
    requires Consistent(cache, base)
    requires NewCoins(View(cache, base), Created(txid, tx.outputs, height, false))
    ensures Consistent(CommitTx(cache, base, tx, txid, height), base)
    ensures View(CommitTx(cache, base, tx, txid, height), base) == Apply(View(cache, base), tx, txid, height)
  {
    hide View, Consistent, SpendAll, AddAll, Created, NewCoins, Addable;
    SpendAllView(cache, base, tx.inputs);
    var spent := SpendAll(cache, base, tx.inputs);
    FewerAreNew(View(cache, base), Spent(tx.inputs), Created(txid, tx.outputs, height, false));
    NewIsAddable(spent, base, Created(txid, tx.outputs, height, false));
    AddAllView(spent, base, txid, tx.outputs, height, false);
  }

  lemma {:induction false} CommitTxsView(cache: Cache, base: Utxo, txs: seq<Tx>, height: u32, rules: Rules)
    requires Consistent(cache, base) && FreshTxs(View(cache, base), txs, height, rules)
    requires AdvanceAll(View(cache, base), txs, height, rules).Progress?
    ensures Consistent(CommitTxs(cache, base, txs, height, rules), base)
    ensures View(CommitTxs(cache, base, txs, height, rules), base)
      == AdvanceAll(View(cache, base), txs, height, rules).utxo
  {
    hide View, Consistent, CommitTx, Apply, Judge, Txid, Created;
    if txs != [] {
      var n := |txs| - 1;
      var u := View(cache, base);
      FreshPrefix(u, txs, n, height, rules);
      assert AdvanceAll(u, txs[..n], height, rules).Progress?;
      CommitTxsView(cache, base, txs[..n], height, rules);
      CommitTxView(CommitTxs(cache, base, txs[..n], height, rules), base, txs[n], Txid(rules.hash, txs[n]), height);
    }
  }

  /**
   * The transactional-commit theorem: replaying the block into the flagged cache shows, at every outpoint, what
   * the sequential overlay plus the coinbase coins showed, coins created and spent inside the block included.
   */
  lemma CommitIsOverlay(cache: Cache, base: Utxo, block: Block, height: u32, rules: Rules)
    requires block.txs != [] && Consistent(cache, base) && FreshBlock(View(cache, base), block, height, rules)
    requires AdvanceAll(View(cache, base), block.txs[1..], height, rules).Progress?
    ensures var after := CommitBlock(cache, base, block, height, rules);
      && Consistent(after, base)
      && View(after, base)
        == WithCoinbase(AdvanceAll(View(cache, base), block.txs[1..], height, rules).utxo, block.txs[0], height, rules)
  {
    hide View, Consistent, AdvanceAll, CommitTxs, Created, Txid, FreshTxs;
    CommitOverOld(cache, base, block, height, rules);
    NewIsAddable(CommitTxs(cache, base, block.txs[1..], height, rules), base,
                 Created(Txid(rules.hash, block.txs[0]), block.txs[0].outputs, height, true));
  }

  /**
   * The same for a coinbase whose coins may exist already: the view is still right, and the flags stay honest if
   * and only if each of those coins is cached at that point or absent from the store.
   */
  lemma CommitOverOld(cache: Cache, base: Utxo, block: Block, height: u32, rules: Rules)
    requires block.txs != [] && Consistent(cache, base) && FreshTxs(View(cache, base), block.txs[1..], height, rules)
    requires AdvanceAll(View(cache, base), block.txs[1..], height, rules).Progress?
    ensures var before := CommitTxs(cache, base, block.txs[1..], height, rules);
      var p := AdvanceAll(View(cache, base), block.txs[1..], height, rules);
      var made := Created(Txid(rules.hash, block.txs[0]), block.txs[0].outputs, height, true);
      var after := CommitBlock(cache, base, block, height, rules);
      && View(before, base) == p.utxo
      && View(after, base) == WithCoinbase(p.utxo, block.txs[0], height, rules)
      && (Consistent(after, base) <==> Addable(before, base, made))
  {
    hide View, Consistent, AdvanceAll, CommitTxs, AddAll, Created, Txid, FreshTxs, Addable;
    CommitTxsView(cache, base, block.txs[1..], height, rules);
    AddAllView(CommitTxs(cache, base, block.txs[1..], height, rules), base,
               Txid(rules.hash, block.txs[0]), block.txs[0].outputs, height, true);
  }

  // ------------------------------------------------------- when it is not all or nothing

  /** The cache that `ConnectBlock` leaves behind for a block that passed the checks without coins. */
  ghost function CacheAfter(
    cache: Cache, base: Utxo, block: Block, height: u32, rules: Rules, checkScripts: bool): Cache
    requires block.txs != []
  {
    if Connect(View(cache, base), block, height, rules, checkScripts).Rejected? then cache
    else CommitBlock(cache, base, block, height, rules)
  }

  /** Coins that were not there are there afterwards. */
  lemma CoinbaseShows(u: Utxo, v: Utxo, coinbase: Tx, height: u32, rules: Rules)
    requires coinbase.outputs != []
    requires NewCoins(u, Created(Txid(rules.hash, coinbase), coinbase.outputs, height, true))
    ensures WithCoinbase(v, coinbase, height, rules) != u
  {
    hide Txid;
    var made := Created(Txid(rules.hash, coinbase), coinbase.outputs, height, true);
    var o := OutPoint(Txid(rules.hash, coinbase), (|coinbase.outputs| - 1) % 0x1_0000_0000);
    assert o in made && o in WithCoinbase(v, coinbase, height, rules);
  }

  lemma GoodCoinbase(block: Block, height: u32, rules: Rules)
    requires GoodInContext(block, height, rules)
    ensures block.txs != [] && block.txs[0].outputs != [] && OutputTotal(block.txs[0].outputs) <= MAX_MONEY
  {
    assert GoodTx(block.txs[0]);
  }

  lemma ConnectCases(u: Utxo, block: Block, height: u32, rules: Rules, checkScripts: bool)
    requires block.txs != []
    ensures var c := Connect(u, block, height, rules, checkScripts);
      var p := AdvanceAll(u, block.txs[1..], height, rules);
      && (c.Rejected? <==> !(p.Progress? && (checkScripts ==> p.scripts)))
      && (!c.Rejected? ==> (c.Connected? <==> CoinbaseError(block.txs[0], p.fees, height, rules).None?))
  {
    hide AdvanceAll, CoinbaseError, WithCoinbase;
  }

  lemma CacheCases(cache: Cache, base: Utxo, block: Block, height: u32, rules: Rules, checkScripts: bool)
    requires block.txs != []
    ensures CacheAfter(cache, base, block, height, rules, checkScripts)
      == if Connect(View(cache, base), block, height, rules, checkScripts).Rejected? then cache
         else CommitBlock(cache, base, block, height, rules)
  {
  }

  lemma AmountCases(coinbase: Tx, fees: nat, height: u32, rules: Rules)
    requires OutputTotal(coinbase.outputs) <= MAX_MONEY
    ensures var subsidy := BlockSubsidy(height, rules.halvingInterval);
      CoinbaseError(coinbase, fees, height, rules).Some? <==>
        subsidy + fees > MAX_MONEY || OutputTotal(coinbase.outputs) > subsidy + fees
  {
    hide BlockSubsidy, OutputTotal;
  }

  /**
   * `connect_block` is all or nothing except here: it refuses a block and still leaves the view changed if and
   * only if the block's other transactions pass, with their scripts, and its coinbase claims more than subsidy
   * and fees allow (or those add up to more than MAX_MONEY).
   */
  lemma LateRejectionIff(cache: Cache, base: Utxo, block: Block, height: u32, rules: Rules, checkScripts: bool)
    requires GoodInContext(block, height, rules) && Consistent(cache, base)
    requires AdvanceAll(View(cache, base), block.txs[1..], height, rules).Progress? ==>
      && FreshTxs(View(cache, base), block.txs[1..], height, rules)
      && NewCoins(View(cache, base), Created(Txid(rules.hash, block.txs[0]), block.txs[0].outputs, height, true))
    ensures var u := View(cache, base);
      var p := AdvanceAll(u, block.txs[1..], height, rules);
      var subsidy := BlockSubsidy(height, rules.halvingInterval);
      && !Connect(u, block, height, rules, checkScripts).Connected?
      && View(CacheAfter(cache, base, block, height, rules, checkScripts), base) != u
      <==>
      && p.Progress? && (checkScripts ==> p.scripts)
      && (subsidy + p.fees > MAX_MONEY || OutputTotal(block.txs[0].outputs) > subsidy + p.fees)
  {
    GoodCoinbase(block, height, rules);
    hide *;
    var u := View(cache, base);
    var p := AdvanceAll(u, block.txs[1..], height, rules);
    ConnectCases(u, block, height, rules, checkScripts);
    CacheCases(cache, base, block, height, rules, checkScripts);
    if p.Progress? {
      AmountCases(block.txs[0], p.fees, height, rules);
      CommitOverOld(cache, base, block, height, rules);
      CoinbaseShows(u, p.utxo, block.txs[0], height, rules);
    }
  }

  // ------------------------------------------------------------- blocks to show it with

  /** A coinbase for height 0, paying `value` to an empty script. */
  function MinedCoinbase(version: u32, value: u64): Tx {
    Tx(version, [TxIn(OutPoint(ZERO_HASH, 0xFFFF_FFFF), [0, 0], 0, [])], [TxOut(value, [])], 0)
  }

  /** A block over these transactions, with the merkle root they have. */
  function Sealed(hash: Hasher, header: Header, txs: seq<Tx>): Block {
    Block(header.(merkleRoot := Merkle.Root(hash, Txids(hash, txs))), txs)
  }

  lemma OneOutput(out: TxOut)
    ensures OutputTotal([out]) == out.value
  {
    assert [out][..0] == [];
  }

  lemma MinedIsGood(version: u32, value: u64)
    requires value <= MAX_MONEY
    ensures GoodTx(MinedCoinbase(version, value)) && IsCoinbase(MinedCoinbase(version, value))
    ensures EncodesHeight(MinedCoinbase(version, value), 0)
  {
    OneOutput(TxOut(value, []));
    assert HeightPush(0) == [0];
  }

  lemma MinedSize(version: u32, value: u64)
    ensures |EncodeTx(MinedCoinbase(version, value))| <= 1000
  {
    var tx := MinedCoinbase(version, value);
    assert tx.inputs[1..] == [] && tx.outputs[1..] == [];
    assert |EncodeIn(tx.inputs[0])| <= 100 && |EncodeOut(tx.outputs[0])| <= 100;
    hide EncodeIn, EncodeOut, U32;
    assert Concat(EncodeIn, tx.inputs) == EncodeIn(tx.inputs[0]) + Concat(EncodeIn, []);
    assert Concat(EncodeOut, tx.outputs) == EncodeOut(tx.outputs[0]) + Concat(EncodeOut, []);
  }

  lemma {:induction false} ManySmall(txs: seq<Tx>)
    requires forall i :: 0 <= i < |txs| ==> |EncodeTx(txs[i])| <= 1000
    ensures |Concat(EncodeTx, txs)| <= 1000 * |txs|
  {
    hide EncodeTx;
    if txs != [] { ManySmall(txs[1..]); }
  }

  /** One or two such coinbases make a block that passes every check before its coins are looked at. */
  lemma SealedIsGood(rules: Rules, header: Header, txs: seq<Tx>)
    requires 1 <= |txs| <= 2
    requires forall i :: 0 <= i < |txs| ==>
      && txs[i].outputs != [] && txs[i].outputs[0].value <= MAX_MONEY
      && txs[i] == MinedCoinbase(txs[i].version, txs[i].outputs[0].value)
    requires var b := Sealed(rules.hash, header, txs);
      rules.signetOk(b) && rules.headerOk(b.header, 0) && rules.witnessOk(b)
    ensures GoodInContext(Sealed(rules.hash, header, txs), 0, rules)
  {
    forall i | 0 <= i < |txs|
      ensures GoodTx(txs[i]) && IsCoinbase(txs[i]) && EncodesHeight(txs[i], 0) && |EncodeTx(txs[i])| <= 1000
    {
      MinedIsGood(txs[i].version, txs[i].outputs[0].value);
      MinedSize(txs[i].version, txs[i].outputs[0].value);
    }
    hide GoodTx, IsCoinbase, EncodesHeight, EncodeTx, MinedCoinbase, Merkle.Root, Txids, EncodeHeader;
    ManySmall(txs);
    assert |VarInt(|txs|)| == 1;
  }

  /** One satoshi over the subsidy, in a block that passes every earlier check, and the view has changed. */
  lemma LateRejectionExample(rules: Rules, header: Header, checkScripts: bool)
    requires rules.halvingInterval == 210_000
    requires var b := Sealed(rules.hash, header, [MinedCoinbase(1, 5_000_000_001)]);
      rules.signetOk(b) && rules.headerOk(b.header, 0) && rules.witnessOk(b)
    ensures var b := Sealed(rules.hash, header, [MinedCoinbase(1, 5_000_000_001)]);
      var outcome := Connect(map[], b, 0, rules, checkScripts);
      && GoodInContext(b, 0, rules)
      && outcome.RejectedLate? && outcome.error == CoinbaseValueTooHigh(5_000_000_001, 5_000_000_000)
      && View(CacheAfter(map[], map[], b, 0, rules, checkScripts), map[]) != View(map[], map[])
  {
    var coinbase := MinedCoinbase(1, 5_000_000_001);
    var b := Sealed(rules.hash, header, [coinbase]);
    SealedIsGood(rules, header, [coinbase]);
    OneOutput(TxOut(5_000_000_001, []));
    assert Pow(2, 0) == 1;
    assert BlockSubsidy(0, rules.halvingInterval) == 5_000_000_000;
    EmptyIsConsistent();
    assert b.txs[1..] == [];
    assert AdvanceAll(map[], b.txs[1..], 0, rules) == Progress(map[], 0, [], true);
    assert FreshBlock(map[], b, 0, rules);
    LateRejectionIff(map[], map[], b, 0, rules, checkScripts);
  }

  lemma EmptyIsConsistent()
    ensures Consistent(map[], map[]) && View(map[], map[]) == map[]
  {
    SameLookups(View(map[], map[]), map[]);
  }
}
