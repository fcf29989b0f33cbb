/** Runs in which blocks are also refused, early or late, and what the store then holds. */
module Attempts {
  import opened Wire
  import opened Transaction
  import opened Coins
  import opened Validation
  import opened Supply

  /** The node tries to connect a block, or flushes its cache. */
  datatype Attempt = Try(block: Block, height: u32, checkScripts: bool) | FlushAll

  /** Any block may be tried: the new cache is the one `ConnectBlock` leaves, whatever it returns. */
  ghost predicate Attempted(s: State, a: Attempt, t: State, rules: Rules, max: nat) {
    match a
    case Try(b, h, cs) =>
      t.store == s.store
      && t.cache == if GoodInContext(b, h, rules) then CacheAfter(s.cache, s.store, b, h, rules, cs) else s.cache
    case FlushAll => Step(s, Flush, t, max)
  }

  ghost predicate AttemptRun(states: seq<State>, attempts: seq<Attempt>, rules: Rules, max: nat) {
    && |states| == |attempts| + 1
    && forall i :: 0 <= i < |attempts| ==> Attempted(states[i], attempts[i], states[i + 1], rules, max)
  }

  /** A block whose transactions, scripts included, pass; its coinbase amount is looked at only afterwards. */
  ghost predicate Commits(u: Utxo, a: Attempt, rules: Rules) {
    && a.Try? && GoodInContext(a.block, a.height, rules)
    && !Connect(u, a.block, a.height, rules, a.checkScripts).Rejected?
  }

  /** The effect on a plain map: such a block takes effect whether or not it is then refused. */
  ghost function Effect(u: Utxo, a: Attempt, rules: Rules): Utxo {
    if Commits(u, a, rules) then Connect(u, a.block, a.height, rules, a.checkScripts).utxo else u
  }

  ghost function Effects(u: Utxo, attempts: seq<Attempt>, rules: Rules): Utxo {
    if attempts == [] then u
    else Effect(Effects(u, attempts[..|attempts| - 1], rules), attempts[|attempts| - 1], rules)
  }

  /**
   * What a block that commits must keep to; one that is refused before the commit may be anything. Its ordinary
   * transactions create new coins, and the coins of its coinbase are new, or cached, or absent from the store.
   */
  ghost predicate Admissible(s: State, a: Attempt, rules: Rules) {
    Commits(Shown(s), a, rules) ==>
      && FreshTxs(Shown(s), a.block.txs[1..], a.height, rules)
      && Addable(CommitTxs(s.cache, s.store, a.block.txs[1..], a.height, rules), s.store, CoinbaseCoins(a, rules))
  }

  ghost function CoinbaseCoins(a: Attempt, rules: Rules): Utxo
    requires a.Try? && a.block.txs != []
  {
    Created(Txid(rules.hash, a.block.txs[0]), a.block.txs[0].outputs, a.height, true)
  }

  lemma TryShows(s: State, a: Attempt, t: State, rules: Rules, max: nat)
    requires a.Try? && Consistent(s.cache, s.store) && Attempted(s, a, t, rules, max) && Admissible(s, a, rules)
    ensures Consistent(t.cache, t.store) && Shown(t) == Effect(Shown(s), a, rules)
  {
    hide Consistent, View, GoodInContext, FreshTxs, AdvanceAll, CommitTxs, CommitBlock, CoinbaseError, WithCoinbase,
      Addable, Created, Txid;
    var b, h := a.block, a.height;
    if GoodInContext(b, h, rules) {
      GoodCoinbase(b, h, rules);
      if !Connect(Shown(s), b, h, rules, a.checkScripts).Rejected? { CommitOverOld(s.cache, s.store, b, h, rules); }
    }
  }

  lemma AttemptShows(s: State, a: Attempt, t: State, rules: Rules, max: nat)
    requires Consistent(s.cache, s.store) && Attempted(s, a, t, rules, max) && Admissible(s, a, rules)
    ensures Consistent(t.cache, t.store) && Shown(t) == Effect(Shown(s), a, rules)
    ensures a.FlushAll? ==> t.store == Shown(s) && |t.cache| <= max
  {
    hide Consistent, Shown, Admissible, Step;
    match a
    case Try(_, _, _) => TryShows(s, a, t, rules, max);
    case FlushAll => StepRefines(s, Flush, t, max);
  }

  /**
   * Over every run of attempts and flushes whose committing blocks are admissible, the cache shows what those blocks
   * did, the refused ones among them included, and a flush writes exactly that to the store.
   */
  lemma {:induction false} EveryAttemptShows(states: seq<State>, attempts: seq<Attempt>, rules: Rules, max: nat)
    requires AttemptRun(states, attempts, rules, max) && Consistent(states[0].cache, states[0].store)
    requires forall i :: 0 <= i < |attempts| ==> Admissible(states[i], attempts[i], rules)
    ensures var last := states[|attempts|];
      && Consistent(last.cache, last.store) && Shown(last) == Effects(Shown(states[0]), attempts, rules)
      && (attempts != [] && attempts[|attempts| - 1].FlushAll? ==>
        last.store == Effects(Shown(states[0]), attempts, rules) && |last.cache| <= max)
  {
    hide Consistent, Shown, Attempted, Admissible, Effect;
    if attempts != [] {
      var n := |attempts| - 1;
      EveryAttemptShows(states[..n + 1], attempts[..n], rules, max);
      AttemptShows(states[n], attempts[n], states[n + 1], rules, max);
      if attempts[n].FlushAll? { FlushHasNoEffect(Shown(states[n]), attempts[n], rules); }
    }
  }

  lemma FlushHasNoEffect(u: Utxo, a: Attempt, rules: Rules)
    requires a.FlushAll?
    ensures Effect(u, a, rules) == u
  {
  }

  /** So the coins of a refused coinbase are in the store after the next flush. */
  lemma RefusedCoinsAreStored(states: seq<State>, attempts: seq<Attempt>, a: Attempt, rules: Rules, max: nat)
    requires AttemptRun(states, attempts + [a, FlushAll], rules, max) && Consistent(states[0].cache, states[0].store)
    requires forall i :: 0 <= i <= |attempts| ==> Admissible(states[i], (attempts + [a])[i], rules)
    requires a.Try? && GoodInContext(a.block, a.height, rules)
    requires Connect(Effects(Shown(states[0]), attempts, rules), a.block, a.height, rules, a.checkScripts).RejectedLate?
    ensures var made := CoinbaseCoins(a, rules);
      && made != map[]
      && forall o :: o in made ==> o in states[|attempts| + 2].store && states[|attempts| + 2].store[o] == made[o]
  {
    hide Consistent, Shown, GoodInContext, Attempted, Txid, Created, AdvanceAll, CoinbaseError;
    var all := attempts + [a, FlushAll];
    GoodCoinbase(a.block, a.height, rules);
    forall i | 0 <= i < |all| ensures Admissible(states[i], all[i], rules) {
      if i <= |attempts| { assert all[i] == (attempts + [a])[i]; }
    }
    hide Admissible;
    EveryAttemptShows(states, all, rules, max);
    assert |all| == |attempts| + 2;
    assert all[..|attempts| + 1][..|attempts|] == attempts && all[..|attempts| + 1][|attempts|] == a;
    FlushHasNoEffect(Effects(Shown(states[0]), all[..|attempts| + 1], rules), FlushAll, rules);
    CoinbaseShows(map[], map[], a.block.txs[0], a.height, rules);
  }

  // ------------------------------------------------------------------ trying again

  /**
   * The node tries a refused block again. If that has ordinary transactions they no longer find their inputs and
   * nothing changes. If it is a coinbase alone it commits again: no lookup changes, but the flags stay honest if
   * and only if every coin of it is still cached or not yet in the store.
   */
  lemma RetriedCoinbase(s: State, a: Attempt, t: State, rules: Rules, max: nat)
    requires a.Try? && Attempted(s, a, t, rules, max) && Consistent(s.cache, s.store) && Commits(Shown(s), a, rules)
    requires |a.block.txs| == 1
    requires var made := CoinbaseCoins(a, rules); forall o :: o in made ==> o in Shown(s) && Shown(s)[o] == made[o]
    ensures Shown(t) == Shown(s)
    ensures Consistent(t.cache, t.store) <==> Addable(s.cache, s.store, CoinbaseCoins(a, rules))
  {
    hide Consistent, View, GoodInContext, CoinbaseError, Addable, Created, Txid;
    GoodCoinbase(a.block, a.height, rules);
    assert a.block.txs[1..] == [];
    CommitOverOld(s.cache, s.store, a.block, a.height, rules);
    SameLookups(Shown(t), Shown(s));
  }

  /** A transaction whose input is gone stops the block, and the cache stays as it was. */
  lemma SpentInputRefuses(s: State, a: Attempt, t: State, rules: Rules, max: nat)
    requires a.Try? && Attempted(s, a, t, rules, max)
    requires |a.block.txs| >= 2 && !IsCoinbase(a.block.txs[1]) && a.block.txs[1].inputs != []
    requires a.block.txs[1].inputs[0].prev !in Shown(s)
    ensures !Commits(Shown(s), a, rules) && t == s
  {
    hide View, GoodInContext, Created, Txid, CoinbaseError;
    FirstStops(Shown(s), a.block.txs[1..], a.height, rules);
  }

  lemma {:induction false} MissingRefused(inputs: seq<TxIn>, u: Utxo, height: u32)
    requires inputs != [] && inputs[0].prev !in u
    ensures Gather(inputs, u, height).Refused?
  {
    if |inputs| > 1 { MissingRefused(inputs[..|inputs| - 1], u, height); }
    else { assert inputs[..0] == []; }
  }

  lemma {:induction false} FirstStops(u: Utxo, txs: seq<Tx>, height: u32, rules: Rules)
    requires txs != [] && !IsCoinbase(txs[0]) && txs[0].inputs != [] && txs[0].inputs[0].prev !in u
    ensures AdvanceAll(u, txs, height, rules).Stopped?
  {
    hide Gather, Apply, Txid;
    if |txs| > 1 {
      FirstStops(u, txs[..|txs| - 1], height, rules);
    } else {
      assert txs[..0] == [];
      assert AdvanceAll(u, [], height, rules) == Progress(u, 0, [], true);
      MissingRefused(txs[0].inputs, u, height);
    }
  }

  // ------------------------------------------------------------------------- supply

  /** A block that commits creates new coins only; one that is refused before the commit may be anything. */
  ghost predicate FreshAttempt(u: Utxo, a: Attempt, rules: Rules) {
    Commits(u, a, rules) ==> FreshBlock(u, a.block, a.height, rules)
  }

  ghost predicate AllFresh(u: Utxo, attempts: seq<Attempt>, rules: Rules) {
    forall i :: 0 <= i < |attempts| ==> FreshAttempt(Effects(u, attempts[..i], rules), attempts[i], rules)
  }

  lemma FreshIsAdmissible(s: State, a: Attempt, rules: Rules)
    requires FreshAttempt(Shown(s), a, rules) && Consistent(s.cache, s.store)
    ensures Admissible(s, a, rules)
  {
    if Commits(Shown(s), a, rules) {
      GoodCoinbase(a.block, a.height, rules);
      hide View, Consistent, GoodInContext, AdvanceAll, CommitTxs, CoinbaseError, Created, Txid, FreshTxs, Addable,
        NewCoins;
      CommitOverOld(s.cache, s.store, a.block, a.height, rules);
      NewIsAddable(CommitTxs(s.cache, s.store, a.block.txs[1..], a.height, rules), s.store, CoinbaseCoins(a, rules));
    }
  }

  lemma FreshPrefixOfRun(u: Utxo, attempts: seq<Attempt>, n: nat, rules: Rules)
    requires AllFresh(u, attempts, rules) && n <= |attempts|
    ensures AllFresh(u, attempts[..n], rules)
  {
    hide FreshAttempt, Effects;
    forall i | 0 <= i < n ensures FreshAttempt(Effects(u, attempts[..n][..i], rules), attempts[..n][i], rules) {
      assert attempts[..n][..i] == attempts[..i];
    }
  }

  /** What an attempt adds to the supply: nothing unless it commits, and then outputs of coinbases less fees. */
  ghost function Minted(u: Utxo, a: Attempt, rules: Rules): int {
    if !Commits(u, a, rules) then 0
    else
      var p := AdvanceAll(u, a.block.txs[1..], a.height, rules);
      OutputTotal(a.block.txs[0].outputs) + LateMint(a.block.txs[1..]) - p.fees
  }

  ghost function MintedSum(u: Utxo, attempts: seq<Attempt>, rules: Rules): int {
    if attempts == [] then 0
    else
      var n := |attempts| - 1;
      MintedSum(u, attempts[..n], rules) + Minted(Effects(u, attempts[..n], rules), attempts[n], rules)
  }

  lemma SaneBlock(block: Block, height: u32, rules: Rules)
    requires GoodInContext(block, height, rules)
    ensures block.txs != [] && AllSane(block.txs) && AllSane(block.txs[1..])
  {
    hide Weight, EncodesHeight, FitsLegacy;
    forall k | 0 <= k < |block.txs|
      ensures DistinctInputs(block.txs[k].inputs) && |block.txs[k].outputs| < 0x1_0000_0000
    {
      WeightBoundsParts(block, k);
      assert GoodTx(block.txs[k]);
    }
  }

  lemma EffectTotal(u: Utxo, a: Attempt, rules: Rules)
    requires FreshAttempt(u, a, rules) && NoNullCoin(u)
    ensures Total(Effect(u, a, rules)) == Total(u) + Minted(u, a, rules) && NoNullCoin(Effect(u, a, rules))
  {
    if Commits(u, a, rules) {
      var b, h := a.block, a.height;
      SaneBlock(b, h, rules);
      hide AdvanceAll, Created, Txid, Total, GoodInContext, CoinbaseError, LateMint, OutputTotal;
      var p := AdvanceAll(u, b.txs[1..], h, rules);
      AdvanceTotal(u, b.txs[1..], h, rules);
      CommittedTotal(p.utxo, b.txs[0], h, rules);
    }
  }

  lemma CommittedTotal(u: Utxo, coinbase: Tx, height: u32, rules: Rules)
    requires NewCoins(u, Created(Txid(rules.hash, coinbase), coinbase.outputs, height, true)) && NoNullCoin(u)
    requires |coinbase.outputs| < 0x1_0000_0000
    ensures var v := WithCoinbase(u, coinbase, height, rules);
      Total(v) == Total(u) + OutputTotal(coinbase.outputs) && NoNullCoin(v)
  {
    hide Created, Txid, Total;
    var txid := Txid(rules.hash, coinbase);
    CreatedTotal(txid, coinbase.outputs, height, true);
    CreatedKeys(txid, coinbase.outputs, height, true);
    TotalUnion(u, Created(txid, coinbase.outputs, height, true));
  }

  /** Over every run from nothing the supply is exactly what the committed blocks minted. */
  lemma {:induction false} AttemptsTotal(attempts: seq<Attempt>, rules: Rules)
    requires AllFresh(map[], attempts, rules)
    ensures Total(Effects(map[], attempts, rules)) == MintedSum(map[], attempts, rules)
    ensures NoNullCoin(Effects(map[], attempts, rules))
  {
    if attempts == [] {
      assert Total(map[]) == 0;
    } else {
      hide FreshAttempt, Total, Minted, Effect;
      var n := |attempts| - 1;
      FreshPrefixOfRun(map[], attempts, n, rules);
      AttemptsTotal(attempts[..n], rules);
      EffectTotal(Effects(map[], attempts[..n], rules), attempts[n], rules);
    }
  }

  lemma {:induction false} FreshRunShows(states: seq<State>, attempts: seq<Attempt>, rules: Rules, max: nat)
    requires AttemptRun(states, attempts, rules, max) && Consistent(states[0].cache, states[0].store)
    requires AllFresh(Shown(states[0]), attempts, rules)
    ensures var last := states[|attempts|];
      Consistent(last.cache, last.store) && Shown(last) == Effects(Shown(states[0]), attempts, rules)
  {
    if attempts != [] {
      var n := |attempts| - 1;
      FreshPrefixOfRun(Shown(states[0]), attempts, n, rules);
      assert Attempted(states[n], attempts[n], states[n + 1], rules, max);
      assert FreshAttempt(Effects(Shown(states[0]), attempts[..n], rules), attempts[n], rules);
      assert AttemptRun(states[..n + 1], attempts[..n], rules, max);
      hide Consistent, Shown, Attempted, FreshAttempt, Effect, Admissible, AllFresh, AttemptRun;
      FreshRunShows(states[..n + 1], attempts[..n], rules, max);
      FreshIsAdmissible(states[n], attempts[n], rules);
      AttemptShows(states[n], attempts[n], states[n + 1], rules, max);
    }
  }

  /** With fresh txids a run of the node from nothing keeps to all of this: cache, store and supply. */
  lemma FreshRunTotal(states: seq<State>, attempts: seq<Attempt>, rules: Rules, max: nat)
    requires AttemptRun(states, attempts, rules, max) && states[0] == State(map[], map[])
    requires AllFresh(map[], attempts, rules)
    ensures var last := states[|attempts|];
      && Consistent(last.cache, last.store) && Shown(last) == Effects(map[], attempts, rules)
      && Total(Shown(last)) == MintedSum(map[], attempts, rules)
  {
    EmptyIsConsistent();
    hide Consistent, View, Attempted, AllFresh, Effects, Total, MintedSum;
    AttemptsTotal(attempts, rules);
    FreshRunShows(states, attempts, rules, max);
  }

  /**
   * With one coinbase per block, an accepted attempt mints at most its subsidy, and one refused for claiming too
   * much mints more than that: the schedule bounds exactly the runs without late refusals.
   */
  lemma MintedBounds(u: Utxo, a: Attempt, rules: Rules)
    requires Commits(u, a, rules) && LateMint(a.block.txs[1..]) == 0
    ensures var c := Connect(u, a.block, a.height, rules, a.checkScripts);
      var subsidy := BlockSubsidy(a.height, rules.halvingInterval);
      && (c.Connected? ==> Minted(u, a, rules) <= subsidy)
      && (c.RejectedLate? && c.error.CoinbaseValueTooHigh? ==> Minted(u, a, rules) > subsidy)
  {
    hide AdvanceAll, GoodInContext, BlockSubsidy, OutputTotal, LateMint, WithCoinbase;
  }
}
