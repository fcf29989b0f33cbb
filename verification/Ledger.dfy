/** Whole chains: no outpoint is created twice, so the cache, the supply and the undo data are right throughout. */
module Ledger {
  import opened Bytes
  import opened Wire
  import opened Transaction
  import opened Coins
  import opened Validation
  import opened Supply
  import opened Undo
  import ScriptNum

  /** One transaction taking effect; `first` marks the block's first transaction. */
  datatype Event = Event(tx: Tx, height: u32, first: bool)

  function Take(u: Utxo, e: Event, rules: Rules): Utxo {
    if e.first then WithCoinbase(u, e.tx, e.height, rules) else Apply(u, e.tx, Txid(rules.hash, e.tx), e.height)
  }

  /** The coins after a history that starts with none. */
  function Ledger(events: seq<Event>, rules: Rules): Utxo {
    if events == [] then map[]
    else
      var n := |events| - 1;
      Take(Ledger(events[..n], rules), events[n], rules)
  }

  ghost predicate Sized(tx: Tx) { FitsLegacy(tx) && |tx.outputs| < 0x1_0000_0000 }

  /** What an accepted block says about one of its transactions, given the coins before it. */
  ghost predicate ValidEvent(events: seq<Event>, j: nat, rules: Rules)
    requires j < |events|
  {
    var e := events[j];
    && Sized(e.tx)
    && (if e.first then
          && IsCoinbase(e.tx) && EncodesHeight(e.tx, e.height)
          && (forall i :: 0 <= i < j && events[i].first ==> events[i].height < e.height)
        else
          && Ordinary(e.tx)
          && e.tx.inputs[0].prev in Ledger(events[..j], rules))
  }

  ghost predicate ValidHistory(events: seq<Event>, rules: Rules) {
    forall j :: 0 <= j < |events| ==> ValidEvent(events, j, rules)
  }

  /** The hash does not collide on the transactions at hand. */
  ghost predicate CollisionFree(events: seq<Event>, rules: Rules) {
    forall i, j :: 0 <= i < |events| && 0 <= j < |events| ==>
      Txid(rules.hash, events[i].tx) == Txid(rules.hash, events[j].tx) ==> Legacy(events[i].tx) == Legacy(events[j].tx)
  }

  // ------------------------------------------------------------ BIP 34 heights

  /** Height pushes are prefix-free: one script cannot start with two of them. */
  lemma HeightPushPrefixFree(a: u32, b: u32, script: seq<byte>)
    requires HeightPush(a) <= script && HeightPush(b) <= script
    ensures a == b
  {
    hide ScriptNum.Encode, Pow;
    var x, y := ScriptNum.Encode(a), ScriptNum.Encode(b);
    ScriptNum.EncodeLength(a, 5);
    ScriptNum.EncodeLength(b, 5);
    SmallPowers();
    assert HeightPush(a) == [|x|] + x && HeightPush(b) == [|y|] + y;
    assert script[0] == |x| && script[0] == |y|;
    assert script[..1 + |x|] == [|x|] + x && script[..1 + |y|] == [|y|] + y;
    assert x == ([|x|] + x)[1..] && y == ([|y|] + y)[1..];
    ScriptNum.EncodeInjective(a, b);
  }

  // ------------------------------------------------------------ no duplicates

  /** Every coin was created by an earlier event with its txid. */
  lemma {:induction false} Provenance(events: seq<Event>, rules: Rules, o: OutPoint) returns (m: nat)
    requires (forall j :: 0 <= j < |events| ==> Sized(events[j].tx)) && o in Ledger(events, rules)
    ensures m < |events| && Txid(rules.hash, events[m].tx) == o.txid
  {
    hide Txid, Sized, Spent;
    var n := |events| - 1;
    var e := events[n];
    if o in Ledger(events[..n], rules) {
      m := Provenance(events[..n], rules, o);
    } else {
      m := n;
      OutputsOf(e.tx, Txid(rules.hash, e.tx), e.height, e.first, o);
    }
  }

  lemma OutputsOf(tx: Tx, txid: Hash, height: u32, isCoinbase: bool, o: OutPoint)
    requires Sized(tx) && o in Created(txid, tx.outputs, height, isCoinbase)
    ensures o.txid == txid
  {
    CreatedKeys(txid, tx.outputs, height, isCoinbase);
  }

  /** A coin spent at `i` and present later was created again in between. */
  lemma {:induction false} Recreated(events: seq<Event>, rules: Rules, i: nat, o: OutPoint) returns (m: nat)
    requires forall j :: 0 <= j < |events| ==> Sized(events[j].tx)
    requires i < |events| && !events[i].first && o in Spent(events[i].tx.inputs) && o in Ledger(events, rules)
    ensures i <= m < |events| && Txid(rules.hash, events[m].tx) == o.txid
  {
    hide Txid, Sized, Spent;
    var n := |events| - 1;
    var e := events[n];
    if o in Created(Txid(rules.hash, e.tx), e.tx.outputs, e.height, e.first) {
      m := n;
      OutputsOf(e.tx, Txid(rules.hash, e.tx), e.height, e.first, o);
    } else {
      assert o in Ledger(events[..n], rules);
      m := Recreated(events[..n], rules, i, o);
    }
  }

  ghost predicate DistinctTxids(events: seq<Event>, rules: Rules) {
    forall i, j :: 0 <= i < j < |events| ==> Txid(rules.hash, events[i].tx) != Txid(rules.hash, events[j].tx)
  }

  lemma HistoryPrefix(events: seq<Event>, n: nat, rules: Rules)
    requires n <= |events| && ValidHistory(events, rules) && CollisionFree(events, rules)
    ensures ValidHistory(events[..n], rules) && CollisionFree(events[..n], rules)
  {
    hide Ledger, Txid, Legacy, Sized, Ordinary, EncodesHeight;
    forall j | 0 <= j < n
      ensures ValidEvent(events[..n], j, rules)
    {
      assert events[..n][..j] == events[..j];
      assert ValidEvent(events, j, rules);
    }
  }

  lemma FirstInputSpent(tx: Tx)
    requires tx.inputs != []
    ensures tx.inputs[0].prev in Spent(tx.inputs)
  {
  }

  lemma SameTxid(a: Tx, b: Tx, rules: Rules)
    requires Sized(a) && Sized(b) && Legacy(a) == Legacy(b)
    ensures |a.inputs| == |b.inputs|
    ensures forall k :: 0 <= k < |a.inputs| ==>
      a.inputs[k].prev == b.inputs[k].prev && a.inputs[k].scriptSig == b.inputs[k].scriptSig
    ensures IsCoinbase(a) == IsCoinbase(b)
  {
    hide Legacy;
    LegacyInjective(a, b);
    var x, y := StripInputs(a.inputs), StripInputs(b.inputs);
    assert x == y;
    forall k | 0 <= k < |a.inputs|
      ensures a.inputs[k].prev == b.inputs[k].prev && a.inputs[k].scriptSig == b.inputs[k].scriptSig
    {
      assert x[k] == StripInput(a.inputs[k]) && y[k] == StripInput(b.inputs[k]);
    }
  }

  /** The last event of a valid history has a txid of its own, if the earlier ones have. */
  lemma LastTxidIsNew(events: seq<Event>, rules: Rules, i: nat)
    requires ValidHistory(events, rules) && CollisionFree(events, rules) && i < |events| - 1
    requires DistinctTxids(events[..|events| - 1], rules)
    ensures Txid(rules.hash, events[i].tx) != Txid(rules.hash, events[|events| - 1].tx)
  {
    hide Ledger, Txid, Legacy, Sized, Spent;
    var j := |events| - 1;
    var a, b := events[i], events[j];
    if Txid(rules.hash, a.tx) == Txid(rules.hash, b.tx) {
      assert ValidEvent(events, i, rules) && ValidEvent(events, j, rules);
      SameTxid(a.tx, b.tx, rules);
      if a.first {
        HeightPushPrefixFree(a.height, b.height, a.tx.inputs[0].scriptSig);
      } else {
        var o := a.tx.inputs[0].prev;
        forall k | 0 <= k < |events| ensures Sized(events[k].tx) { assert ValidEvent(events, k, rules); }
        var early := Provenance(events[..i], rules, o);
        FirstInputSpent(a.tx);
        var late := Recreated(events[..j], rules, i, o);
      }
    }
  }

  /** On a valid history no txid, and so no outpoint, is ever created twice. */
  lemma {:induction false} NoDuplicateTxids(events: seq<Event>, rules: Rules)
    requires ValidHistory(events, rules) && CollisionFree(events, rules)
    ensures DistinctTxids(events, rules)
  {
    hide Txid, Legacy, ValidEvent;
    if events != [] {
      var n := |events| - 1;
      HistoryPrefix(events, n, rules);
      NoDuplicateTxids(events[..n], rules);
      forall i, j | 0 <= i < j < |events|
        ensures Txid(rules.hash, events[i].tx) != Txid(rules.hash, events[j].tx)
      {
        if j == n {
          LastTxidIsNew(events, rules, i);
        } else {
          assert events[..n][i] == events[i] && events[..n][j] == events[j];
        }
      }
    }
  }

  /** So the coins an event creates are new when it creates them. */
  lemma EventCoinsAreNew(events: seq<Event>, j: nat, rules: Rules)
    requires j < |events| && ValidHistory(events, rules) && CollisionFree(events, rules)
    ensures var e := events[j];
      NewCoins(Ledger(events[..j], rules), Created(Txid(rules.hash, e.tx), e.tx.outputs, e.height, e.first))
  {
    hide Txid, Legacy, Ledger, Sized, Created;
    NoDuplicateTxids(events, rules);
    var e := events[j];
    forall k | 0 <= k < |events| ensures Sized(events[k].tx) { assert ValidEvent(events, k, rules); }
    forall o | o in Ledger(events[..j], rules)
      ensures o !in Created(Txid(rules.hash, e.tx), e.tx.outputs, e.height, e.first)
    {
      var m := Provenance(events[..j], rules, o);
      assert events[..j][m] == events[m];
      if o in Created(Txid(rules.hash, e.tx), e.tx.outputs, e.height, e.first) {
        OutputsOf(e.tx, Txid(rules.hash, e.tx), e.height, e.first, o);
      }
    }
  }

  // ---------------------------------------------------------------- blocks

  function TxEvents(txs: seq<Tx>, height: u32): (es: seq<Event>)
    ensures |es| == |txs| && forall k :: 0 <= k < |es| ==> es[k] == Event(txs[k], height, false)
  {
    if txs == [] then []
    else
      var n := |txs| - 1;
      TxEvents(txs[..n], height) + [Event(txs[n], height, false)]
  }

  /** A block takes effect in the order of `connect_block`: the first transaction last. */
  function BlockEvents(block: Block, height: u32): seq<Event>
    requires block.txs != []
  {
    TxEvents(block.txs[1..], height) + [Event(block.txs[0], height, true)]
  }

  lemma LedgerAppend(events: seq<Event>, e: Event, rules: Rules)
    ensures Ledger(events + [e], rules) == Take(Ledger(events, rules), e, rules)
  {
    assert (events + [e])[..|events|] == events;
  }

  lemma ExtendHistory(events: seq<Event>, e: Event, rules: Rules)
    requires ValidHistory(events, rules) && ValidEvent(events + [e], |events|, rules)
    ensures ValidHistory(events + [e], rules)
  {
    hide Ledger, Sized, Ordinary, EncodesHeight;
    var all := events + [e];
    forall j | 0 <= j < |all|
      ensures ValidEvent(all, j, rules)
    {
      if j < |events| {
        assert ValidEvent(events, j, rules);
        assert all[..j] == events[..j];
      }
    }
  }

  lemma InputsExist(tx: Tx, u: Utxo, height: u32)
    requires Ordinary(tx) && Judge(tx, u, height).Accepted?
    ensures tx.inputs[0].prev in u
  {
    GatherTotal(tx.inputs, u, height);
    FirstInputSpent(tx);
  }

  lemma {:induction false} AdvanceExtends(events: seq<Event>, txs: seq<Tx>, height: u32, rules: Rules)
    requires ValidHistory(events, rules) && AllOrdinary(txs) && forall k :: 0 <= k < |txs| ==> Sized(txs[k])
    requires AdvanceAll(Ledger(events, rules), txs, height, rules).Progress?
    ensures ValidHistory(events + TxEvents(txs, height), rules)
    ensures Ledger(events + TxEvents(txs, height), rules) == AdvanceAll(Ledger(events, rules), txs, height, rules).utxo
  {
    hide Ledger, Apply, Judge, Txid, Sized, ValidHistory;
    if txs == [] {
      assert events + TxEvents(txs, height) == events;
    } else {
      var n := |txs| - 1;
      var e := Event(txs[n], height, false);
      var before := events + TxEvents(txs[..n], height);
      AdvanceExtends(events, txs[..n], height, rules);
      assert events + TxEvents(txs, height) == before + [e];
      var u := AdvanceAll(Ledger(events, rules), txs[..n], height, rules).utxo;
      assert Ordinary(txs[n]);
      InputsExist(txs[n], u, height);
      assert (before + [e])[..|before|] == before;
      ExtendHistory(before, e, rules);
      LedgerAppend(before, e, rules);
    }
  }

  /** No earlier block is at this height or above. */
  ghost predicate Above(events: seq<Event>, height: u32) {
    forall i :: 0 <= i < |events| && events[i].first ==> events[i].height < height
  }

  lemma GoodParts(block: Block, height: u32, rules: Rules)
    requires GoodInContext(block, height, rules) && SingleCoinbase(block)
    ensures block.txs != [] && IsCoinbase(block.txs[0]) && AllOrdinary(block.txs[1..]) && AllSane(block.txs)
    ensures forall k :: 0 <= k < |block.txs| ==> Sized(block.txs[k])
    ensures forall k :: 0 <= k < |block.txs[1..]| ==> Sized(block.txs[1..][k])
  {
    hide Weight, EncodesHeight, FitsLegacy;
    forall k | 0 <= k < |block.txs|
      ensures Sized(block.txs[k]) && DistinctInputs(block.txs[k].inputs)
    {
      WeightBoundsParts(block, k);
      assert GoodTx(block.txs[k]);
    }
    forall k | 0 <= k < |block.txs[1..]|
      ensures Ordinary(block.txs[1..][k]) && Sized(block.txs[1..][k])
    {
      assert block.txs[1..][k] == block.txs[k + 1];
      assert GoodTx(block.txs[k + 1]);
    }
  }

  /** An accepted block extends the history, and the ledger with it. */
  lemma BlockExtends(events: seq<Event>, block: Block, height: u32, rules: Rules, checkScripts: bool)
    requires ValidHistory(events, rules) && Above(events, height)
    requires GoodInContext(block, height, rules) && SingleCoinbase(block) && height >= rules.bip34Height
    requires Connect(Ledger(events, rules), block, height, rules, checkScripts).Connected?
    ensures ValidHistory(events + BlockEvents(block, height), rules)
    ensures Ledger(events + BlockEvents(block, height), rules)
      == Connect(Ledger(events, rules), block, height, rules, checkScripts).utxo
  {
    hide Ledger, AdvanceAll, Txid, Sized, ValidHistory, EncodesHeight, WithCoinbase, CoinbaseError;
    GoodParts(block, height, rules);
    var txs, e := block.txs[1..], Event(block.txs[0], height, true);
    AdvanceExtends(events, txs, height, rules);
    var before := events + TxEvents(txs, height);
    assert (before + [e])[..|before|] == before;
    assert events + BlockEvents(block, height) == before + [e];
    LedgerAppend(before, e, rules);
    ExtendHistory(before, e, rules);
  }

  ghost predicate AllSized(txs: seq<Tx>) { forall k :: 0 <= k < |txs| ==> Sized(txs[k]) }

  lemma FreshAt(events: seq<Event>, txs: seq<Tx>, last: Event, k: nat, height: u32, rules: Rules)
    requires k <= |txs| && AllOrdinary(txs) && AllSized(txs) && ValidHistory(events, rules)
    requires ValidHistory(events + TxEvents(txs, height) + [last], rules)
    requires CollisionFree(events + TxEvents(txs, height) + [last], rules)
    requires AdvanceAll(Ledger(events, rules), txs[..k], height, rules).Progress?
    ensures var e := (TxEvents(txs, height) + [last])[k];
      NewCoins(AdvanceAll(Ledger(events, rules), txs[..k], height, rules).utxo,
               Created(Txid(rules.hash, e.tx), e.tx.outputs, e.height, e.first))
  {
    hide Ledger, AdvanceAll, Txid, Sized, Ordinary, ValidHistory, CollisionFree, Created, NewCoins;
    AdvanceExtends(events, txs[..k], height, rules);
    var all := events + TxEvents(txs, height) + [last];
    assert all[..|events| + k] == events + TxEvents(txs[..k], height);
    EventCoinsAreNew(all, |events| + k, rules);
  }

  /** On a chain with unique txids every block creates only new coins. */
  lemma FreshFromHistory(events: seq<Event>, block: Block, height: u32, rules: Rules, checkScripts: bool)
    requires ValidHistory(events, rules) && Above(events, height)
    requires GoodInContext(block, height, rules) && SingleCoinbase(block) && height >= rules.bip34Height
    requires Connect(Ledger(events, rules), block, height, rules, checkScripts).Connected?
    requires CollisionFree(events + BlockEvents(block, height), rules)
    ensures FreshBlock(Ledger(events, rules), block, height, rules)
  {
    hide Ledger, AdvanceAll, Txid, Sized, Ordinary, ValidHistory, CollisionFree, Created, NewCoins, Connect,
      GoodInContext, Above;
    GoodParts(block, height, rules);
    BlockExtends(events, block, height, rules, checkScripts);
    var txs, last, u := block.txs[1..], Event(block.txs[0], height, true), Ledger(events, rules);
    assert events + BlockEvents(block, height) == events + TxEvents(txs, height) + [last];
    forall k | 0 <= k < |txs| && AdvanceAll(u, txs[..k], height, rules).Progress?
      ensures NewCoins(AdvanceAll(u, txs[..k], height, rules).utxo,
                       Created(Txid(rules.hash, txs[k]), txs[k].outputs, height, false))
    {
      FreshAt(events, txs, last, k, height, rules);
    }
    if AdvanceAll(u, txs, height, rules).Progress? {
      assert txs[..|txs|] == txs;
      FreshAt(events, txs, last, |txs|, height, rules);
    }
  }

  // ------------------------------------------------------------- the whole node

  /** What the node does to its coins: connect a block through the cache, or flush the cache. */
  datatype NodeStep = ConnectStep(block: Block, height: u32, checkScripts: bool) | FlushStep

  /** A connect step is what `ConnectBlock` guarantees when it returns `Ok`. */
  ghost predicate StepOk(s: State, step: NodeStep, t: State, rules: Rules, max: nat) {
    match step
    case ConnectStep(b, h, cs) =>
      && GoodInContext(b, h, rules)
      && Connect(Shown(s), b, h, rules, cs).Connected?
      && t == State(CommitBlock(s.cache, s.store, b, h, rules), s.store)
    case FlushStep => Step(s, Flush, t, max)
  }

  ghost predicate NodeRun(states: seq<State>, steps: seq<NodeStep>, rules: Rules, max: nat) {
    && |states| == |steps| + 1
    && states[0] == State(map[], map[])
    && forall i :: 0 <= i < |steps| ==> StepOk(states[i], steps[i], states[i + 1], rules, max)
  }

  ghost function History(steps: seq<NodeStep>): seq<Event> {
    if steps == [] then []
    else
      var n := |steps| - 1;
      History(steps[..n])
        + if steps[n].ConnectStep? && steps[n].block.txs != [] then BlockEvents(steps[n].block, steps[n].height) else []
  }

  /** One past the last connected height. */
  function Top(steps: seq<NodeStep>): nat {
    if steps == [] then 0
    else
      var n := |steps| - 1;
      if steps[n].ConnectStep? then steps[n].height + 1 else Top(steps[..n])
  }

  /**
   * Heights rise, BIP 34 covers them all, and only first transactions are coinbases, unless the scripts are checked
   * by an engine that sees to that itself.
   */
  ghost predicate Disciplined(steps: seq<NodeStep>, rules: Rules) {
    forall i :: 0 <= i < |steps| && steps[i].ConnectStep? ==>
      && steps[i].height >= Top(steps[..i])
      && steps[i].height >= rules.bip34Height
      && (SingleCoinbase(steps[i].block) || (steps[i].checkScripts && CountsCoins(rules)))
  }

  /** The state of the node agrees with the history: cache, ledger, heights and supply. */
  ghost predicate Sound(s: State, events: seq<Event>, top: nat, rules: Rules) {
    && Consistent(s.cache, s.store)
    && Shown(s) == Ledger(events, rules)
    && ValidHistory(events, rules)
    && (forall i :: 0 <= i < |events| && events[i].first ==> events[i].height < top)
    && top <= 0x1_0000_0000
    && Total(Shown(s)) <= SubsidySum(top, rules.halvingInterval)
    && NoNullCoin(Shown(s))
  }

  lemma {:induction false} SubsidySumMonotone(m: nat, n: nat, interval: pos)
    requires m <= n <= 0x1_0000_0000
    ensures SubsidySum(m, interval) <= SubsidySum(n, interval)
  {
    if m < n { SubsidySumMonotone(m, n - 1, interval); }
  }

  lemma CollisionFreePrefix(events: seq<Event>, more: seq<Event>, rules: Rules)
    requires CollisionFree(events + more, rules)
    ensures CollisionFree(events, rules)
  {
    hide Txid, Legacy;
    forall i, j | 0 <= i < |events| && 0 <= j < |events|
      && Txid(rules.hash, events[i].tx) == Txid(rules.hash, events[j].tx)
      ensures Legacy(events[i].tx) == Legacy(events[j].tx)
    {
      assert (events + more)[i] == events[i] && (events + more)[j] == events[j];
    }
  }

  lemma ConnectIsSound(
    s: State, events: seq<Event>, top: nat, b: Block, h: u32, cs: bool, t: State, rules: Rules, max: nat)
    requires Sound(s, events, top, rules) && StepOk(s, ConnectStep(b, h, cs), t, rules, max)
    requires h >= top && h >= rules.bip34Height && SingleCoinbase(b) && b.txs != []
    requires CollisionFree(events + BlockEvents(b, h), rules)
    ensures Sound(t, events + BlockEvents(b, h), h + 1, rules)
    ensures FreshBlock(Shown(s), b, h, rules)
    ensures Disconnect(Shown(t), b, Connect(Shown(s), b, h, rules, cs).undo, h, rules) == Shown(s)
  {
    hide Ledger, ValidHistory, CollisionFree, Consistent, View, Connect, CommitBlock, GoodInContext, FreshBlock,
      Disconnect, Total, BlockSubsidy, BlockEvents, SubsidySum;
    GoodParts(b, h, rules);
    assert Above(events, h);
    BlockExtends(events, b, h, rules, cs);
    FreshFromHistory(events, b, h, rules, cs);
    CommitShows(s, b, h, rules, cs);
    DisconnectConnect(Shown(s), b, h, rules, cs);
    ConnectMints(Shown(s), b, h, rules, cs, top);
    HeightsBelow(events, b, h);
  }

  lemma LastIsDisciplined(steps: seq<NodeStep>, rules: Rules)
    requires steps != [] && steps[|steps| - 1].ConnectStep? && Disciplined(steps, rules)
    ensures var step, n := steps[|steps| - 1], |steps| - 1;
      && step.height >= Top(steps[..n]) && step.height >= rules.bip34Height
      && (SingleCoinbase(step.block) || (step.checkScripts && CountsCoins(rules)))
  {
  }

  lemma CommitShows(s: State, b: Block, h: u32, rules: Rules, cs: bool)
    requires Consistent(s.cache, s.store) && b.txs != [] && FreshBlock(Shown(s), b, h, rules)
    requires Connect(Shown(s), b, h, rules, cs).Connected?
    ensures var after := CommitBlock(s.cache, s.store, b, h, rules);
      Consistent(after, s.store) && View(after, s.store) == Connect(Shown(s), b, h, rules, cs).utxo
  {
    hide AdvanceAll, CommitBlock, View, Consistent, WithCoinbase, CoinbaseError;
    CommitIsOverlay(s.cache, s.store, b, h, rules);
  }

  lemma ConnectMints(u: Utxo, b: Block, h: u32, rules: Rules, cs: bool, top: nat)
    requires b.txs != [] && AllOrdinary(b.txs[1..]) && AllSane(b.txs) && FreshBlock(u, b, h, rules) && NoNullCoin(u)
    requires Connect(u, b, h, rules, cs).Connected? && top <= h && Total(u) <= SubsidySum(top, rules.halvingInterval)
    ensures Total(Connect(u, b, h, rules, cs).utxo) <= SubsidySum(h + 1, rules.halvingInterval)
    ensures NoNullCoin(Connect(u, b, h, rules, cs).utxo)
  {
    hide Connect, FreshBlock, Total, BlockSubsidy;
    ConnectTotal(u, b, h, rules, cs);
    OrdinaryMintsNothing(b.txs[1..]);
    SubsidySumMonotone(top, h, rules.halvingInterval);
  }

  lemma HeightsBelow(events: seq<Event>, b: Block, h: u32)
    requires b.txs != [] && Above(events, h)
    ensures var all := events + BlockEvents(b, h);
      forall i :: 0 <= i < |all| && all[i].first ==> all[i].height < h + 1
  {
  }

  /**
   * Over every run of connects and flushes from nothing: the cache shows the ledger of the history, no outpoint
   * was ever created twice, and the supply is within the schedule (below MAX_MONEY for intervals up to 210000).
   */
  lemma {:induction false} NodeRunIsSound(states: seq<State>, steps: seq<NodeStep>, rules: Rules, max: nat)
    requires NodeRun(states, steps, rules, max) && Disciplined(steps, rules) && CollisionFree(History(steps), rules)
    ensures Sound(states[|steps|], History(steps), Top(steps), rules)
    ensures DistinctTxids(History(steps), rules)
    ensures steps != [] && steps[|steps| - 1].FlushStep? ==>
      states[|steps|].store == Ledger(History(steps), rules) && |states[|steps|].cache| <= max
    ensures rules.halvingInterval <= 210_000 ==> Total(Shown(states[|steps|])) < MAX_MONEY
  {
    hide Ledger, ValidHistory, CollisionFree, Consistent, View, Connect, CommitBlock, GoodInContext, Total, BlockEvents,
      DistinctTxids, Disciplined, SubsidySum;
    if steps == [] {
      EmptyIsSound(rules);
    } else {
      var n := |steps| - 1;
      DisciplinedPrefix(steps, n, rules);
      var before := History(steps[..n]);
      assert before + History(steps)[|before|..] == History(steps);
      CollisionFreePrefix(before, History(steps)[|before|..], rules);
      NodeRunIsSound(states[..n + 1], steps[..n], rules, max);
      LastStepIsSound(states[n], steps, states[n + 1], rules, max);
    }
    NoDuplicateTxids(History(steps), rules);
    if rules.halvingInterval <= 210_000 { SubsidySumBound(Top(steps), rules.halvingInterval); }
  }

  lemma LastStepIsSound(s: State, steps: seq<NodeStep>, t: State, rules: Rules, max: nat)
    requires steps != [] && Disciplined(steps, rules) && CollisionFree(History(steps), rules)
    requires Sound(s, History(steps[..|steps| - 1]), Top(steps[..|steps| - 1]), rules)
    requires StepOk(s, steps[|steps| - 1], t, rules, max)
    ensures Sound(t, History(steps), Top(steps), rules)
    ensures steps[|steps| - 1].FlushStep? ==> t.store == Ledger(History(steps), rules) && |t.cache| <= max
  {
    hide Ledger, CollisionFree, Connect, CommitBlock, BlockEvents, Disciplined, FreshBlock, Disconnect, GoodInContext,
      Sound, Write, Settled, Trimmed, CountsCoins, SingleCoinbase;
    var n := |steps| - 1;
    if steps[n].ConnectStep? {
      LastIsDisciplined(steps, rules);
      GoodHasCoinbase(steps[n].block, steps[n].height, rules);
      var step, top := steps[n], Top(steps[..n]);
      if !SingleCoinbase(step.block) { ScriptsSeeCoinbases(Shown(s), step.block, step.height, rules); }
      ConnectIsSound(s, History(steps[..n]), top, step.block, step.height, step.checkScripts, t, rules, max);
    } else {
      assert History(steps) == History(steps[..n]);
      FlushIsSound(s, History(steps), Top(steps), t, rules, max);
    }
  }

  lemma FlushIsSound(s: State, events: seq<Event>, top: nat, t: State, rules: Rules, max: nat)
    requires Sound(s, events, top, rules) && Step(s, Flush, t, max)
    ensures Sound(t, events, top, rules) && t.store == Ledger(events, rules) && |t.cache| <= max
  {
    hide Ledger, ValidHistory, Consistent, View, Total, SubsidySum;
    StepRefines(s, Flush, t, max);
  }

  lemma EmptyIsSound(rules: Rules)
    ensures Sound(State(map[], map[]), [], 0, rules)
  {
    assert View(map[], map[]) == map[];
  }

  lemma DisciplinedPrefix(steps: seq<NodeStep>, n: nat, rules: Rules)
    requires n <= |steps| && Disciplined(steps, rules)
    ensures Disciplined(steps[..n], rules)
  {
    forall i | 0 <= i < n
      ensures steps[..n][..i] == steps[..i]
    {
    }
  }

  // ------------------------------------------- supply without BIP 34, txids given as fresh

  /** A successful `connect_block` on fresh txids with one coinbase, which checked scripts may see to. */
  ghost predicate FreshConnect(u: Utxo, step: NodeStep, v: Utxo, rules: Rules) {
    && step.ConnectStep? && GoodInContext(step.block, step.height, rules)
    && (SingleCoinbase(step.block) || (step.checkScripts && CountsCoins(rules)))
    && FreshBlock(u, step.block, step.height, rules)
    && Connect(u, step.block, step.height, rules, step.checkScripts).Connected?
    && v == Connect(u, step.block, step.height, rules, step.checkScripts).utxo
  }

  lemma FreshStepMints(u: Utxo, step: NodeStep, v: Utxo, rules: Rules, top: nat)
    requires FreshConnect(u, step, v, rules) && top <= step.height && NoNullCoin(u)
    requires Total(u) <= SubsidySum(top, rules.halvingInterval)
    ensures Total(v) <= SubsidySum(step.height + 1, rules.halvingInterval) && NoNullCoin(v)
  {
    hide Connect, GoodInContext, FreshBlock, SingleCoinbase, CountsCoins, Total, SubsidySum, NoNullCoin;
    GoodHasCoinbase(step.block, step.height, rules);
    if !SingleCoinbase(step.block) { ScriptsSeeCoinbases(u, step.block, step.height, rules); }
    GoodParts(step.block, step.height, rules);
    ConnectMints(u, step.block, step.height, rules, step.checkScripts, top);
  }

  ghost predicate FreshStep(us: seq<Utxo>, steps: seq<NodeStep>, i: nat, rules: Rules)
    requires i < |steps| && |us| == |steps| + 1
  {
    && steps[i].ConnectStep? && steps[i].height >= Top(steps[..i])
    && FreshConnect(us[i], steps[i], us[i + 1], rules)
  }

  /** A run of such connects from nothing, at rising heights. */
  ghost predicate FreshRun(us: seq<Utxo>, steps: seq<NodeStep>, rules: Rules) {
    |us| == |steps| + 1 && us[0] == map[] && forall i :: 0 <= i < |steps| ==> FreshStep(us, steps, i, rules)
  }

  lemma FreshStepOfPrefix(us: seq<Utxo>, steps: seq<NodeStep>, n: nat, i: nat, rules: Rules)
    requires |us| == |steps| + 1 && i < n <= |steps| && FreshStep(us, steps, i, rules)
    ensures FreshStep(us[..n + 1], steps[..n], i, rules)
  {
    hide FreshConnect;
    assert steps[..n][..i] == steps[..i];
  }

  lemma FreshRunPrefix(us: seq<Utxo>, steps: seq<NodeStep>, n: nat, rules: Rules)
    requires FreshRun(us, steps, rules) && n <= |steps|
    ensures FreshRun(us[..n + 1], steps[..n], rules)
  {
    hide FreshStep;
    var vs, before := us[..n + 1], steps[..n];
    forall i | 0 <= i < n ensures FreshStep(vs, before, i, rules) { FreshStepOfPrefix(us, steps, n, i, rules); }
  }

  lemma LastIsFresh(us: seq<Utxo>, steps: seq<NodeStep>, rules: Rules)
    requires FreshRun(us, steps, rules) && steps != []
    ensures |us| == |steps| + 1 && FreshStep(us, steps, |steps| - 1, rules)
  {
    hide FreshStep;
  }

  lemma FreshStepMeans(us: seq<Utxo>, steps: seq<NodeStep>, rules: Rules)
    requires steps != [] && |us| == |steps| + 1 && FreshStep(us, steps, |steps| - 1, rules)
    ensures var n := |steps| - 1;
      && steps[n].ConnectStep? && steps[n].height >= Top(steps[..n]) && Top(steps) == steps[n].height + 1
      && FreshConnect(us[n], steps[n], us[n + 1], rules)
  {
    hide FreshConnect;
  }

  /** Whatever the BIP 34 height, fresh txids alone keep the supply within the schedule over every run. */
  lemma {:induction false} FreshRunSupply(us: seq<Utxo>, steps: seq<NodeStep>, rules: Rules)
    requires FreshRun(us, steps, rules)
    ensures Top(steps) <= 0x1_0000_0000 && Total(us[|steps|]) <= SubsidySum(Top(steps), rules.halvingInterval)
    ensures NoNullCoin(us[|steps|])
    ensures rules.halvingInterval <= 210_000 ==> Total(us[|steps|]) < MAX_MONEY
  {
    hide *;
    if steps == [] {
      EmptyRun(us, steps, rules);
    } else {
      var n := |steps| - 1;
      LastIsFresh(us, steps, rules);
      FreshStepMeans(us, steps, rules);
      FreshRunPrefix(us, steps, n, rules);
      FreshRunSupply(us[..n + 1], steps[..n], rules);
      FreshStepMints(us[n], steps[n], us[n + 1], rules, Top(steps[..n]));
    }
    if rules.halvingInterval <= 210_000 { SubsidySumBound(Top(steps), rules.halvingInterval); }
  }

  lemma EmptyRun(us: seq<Utxo>, steps: seq<NodeStep>, rules: Rules)
    requires FreshRun(us, steps, rules) && steps == []
    ensures |us| == 1 && NoNullCoin(us[0]) && Top(steps) == 0
    ensures Total(us[0]) <= SubsidySum(Top(steps), rules.halvingInterval)
  {
    hide Total, SubsidySum, FreshStep;
    NothingMinted(rules.halvingInterval);
  }

  lemma NothingMinted(interval: pos)
    ensures Total(map[]) == 0 && SubsidySum(0, interval) == 0
  {
  }
}
