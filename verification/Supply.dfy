/** Value: what a block adds to the coin set, and what all blocks together can add. */
module Supply {
  import opened Bytes
  import opened Wire
  import opened Transaction
  import opened Coins
  import opened Validation

  /** The sum of all coins. */
  ghost function Total(u: Utxo): nat
    decreases |u|
  {
    if u == map[] then 0
    else
      var o :| o in u;
      u[o].output.value + Total(u - {o})
  }

  lemma {:induction false} TotalRemove(u: Utxo, o: OutPoint)
    requires o in u
    ensures Total(u) == u[o].output.value + Total(u - {o})
    decreases |u|
  {
    var p :| p in u && Total(u) == u[p].output.value + Total(u - {p});
    if p != o {
      TotalRemove(u - {p}, o);
      TotalRemove(u - {o}, p);
      assert u - {p} - {o} == u - {o} - {p};
    }
  }

  lemma TotalAdd(u: Utxo, o: OutPoint, c: Coin)
    requires o !in u
    ensures Total(u[o := c]) == Total(u) + c.output.value
  {
    TotalRemove(u[o := c], o);
    assert u[o := c] - {o} == u;
  }

  lemma UnionRemove(u: Utxo, v: Utxo, o: OutPoint)
    requires o in v && o !in u
    ensures (u + v) - {o} == u + (v - {o})
  {
  }

  lemma {:induction false} TotalUnion(u: Utxo, v: Utxo)
    requires u.Keys !! v.Keys
    ensures Total(u + v) == Total(u) + Total(v)
    decreases |v|
  {
    if v == map[] {
      assert u + v == u;
    } else {
      hide Total;
      var o :| o in v;
      TotalRemove(v, o);
      UnionRemove(u, v, o);
      TotalUnion(u, v - {o});
      TotalRemove(u + v, o);
      assert (u + v)[o] == v[o];
    }
  }

  lemma {:induction false} CreatedKeys(txid: Hash, outputs: seq<TxOut>, height: u32, isCoinbase: bool)
    requires |outputs| <= 0x1_0000_0000
    ensures forall o :: o in Created(txid, outputs, height, isCoinbase) <==> o.txid == txid && o.vout < |outputs|
  {
    if outputs != [] { CreatedKeys(txid, outputs[..|outputs| - 1], height, isCoinbase); }
  }

  lemma CreatedLast(txid: Hash, outputs: seq<TxOut>, height: u32, isCoinbase: bool)
    requires 0 < |outputs| <= 0x1_0000_0000
    ensures var n := |outputs| - 1;
      Created(txid, outputs, height, isCoinbase)
        == Created(txid, outputs[..n], height, isCoinbase)[OutPoint(txid, n) := Coin(outputs[n], height, isCoinbase)]
  {
  }

  lemma {:induction false} CreatedTotal(txid: Hash, outputs: seq<TxOut>, height: u32, isCoinbase: bool)
    requires |outputs| <= 0x1_0000_0000
    ensures Total(Created(txid, outputs, height, isCoinbase)) == OutputTotal(outputs)
  {
    if outputs == [] {
      assert Created(txid, outputs, height, isCoinbase) == map[];
    } else {
      CreatedLast(txid, outputs, height, isCoinbase);
      hide Total, Created;
      var n := |outputs| - 1;
      CreatedTotal(txid, outputs[..n], height, isCoinbase);
      CreatedKeys(txid, outputs[..n], height, isCoinbase);
      var coin := Coin(outputs[n], height, isCoinbase);
      TotalAdd(Created(txid, outputs[..n], height, isCoinbase), OutPoint(txid, n), coin);
    }
  }

  /** Gathering distinct inputs finds them all and sums exactly what spending them removes. */
  lemma {:induction false} GatherTotal(inputs: seq<TxIn>, u: Utxo, height: u32)
    requires Gather(inputs, u, height).Gathered? && DistinctInputs(inputs)
    ensures Total(u - Spent(inputs)) + Gather(inputs, u, height).total == Total(u)
    ensures Spent(inputs) <= u.Keys
  {
    if inputs == [] {
      assert u - Spent(inputs) == u;
    } else {
      var n := |inputs| - 1;
      GatherTotal(inputs[..n], u, height);
      SpentStep(inputs, n);
      assert inputs[..n + 1] == inputs;
      var o := inputs[n].prev;
      assert o !in Spent(inputs[..n]);
      var left := u - Spent(inputs[..n]);
      TotalRemove(left, o);
      assert left - {o} == u - Spent(inputs);
    }
  }

  /** An accepted ordinary transaction with new coins burns exactly its fee. */
  lemma ApplyTotal(u: Utxo, tx: Tx, txid: Hash, height: u32)
    requires !IsCoinbase(tx) && DistinctInputs(tx.inputs) && |tx.outputs| <= 0x1_0000_0000
    requires Judge(tx, u, height).Accepted? && NewCoins(u, Created(txid, tx.outputs, height, false))
    ensures Total(Apply(u, tx, txid, height)) + Judge(tx, u, height).fee == Total(u)
  {
    hide Spent, Created;
    GatherTotal(tx.inputs, u, height);
    CreatedTotal(txid, tx.outputs, height, false);
    TotalUnion(u - Spent(tx.inputs), Created(txid, tx.outputs, height, false));
  }

  /** What the conservation laws ask of a transaction. */
  ghost predicate Ordinary(tx: Tx) {
    !IsCoinbase(tx) && tx.inputs != [] && DistinctInputs(tx.inputs) && |tx.outputs| < 0x1_0000_0000
  }

  ghost predicate AllOrdinary(txs: seq<Tx>) { forall k :: 0 <= k < |txs| ==> Ordinary(txs[k]) }

  ghost predicate AllSane(txs: seq<Tx>) {
    forall k :: 0 <= k < |txs| ==> DistinctInputs(txs[k].inputs) && |txs[k].outputs| < 0x1_0000_0000
  }

  /** The value that coinbases after the first create: their outputs are checked against nothing. */
  function LateMint(txs: seq<Tx>): nat {
    if txs == [] then 0
    else
      var n := |txs| - 1;
      LateMint(txs[..n]) + if IsCoinbase(txs[n]) then OutputTotal(txs[n].outputs) else 0
  }

  lemma {:induction false} OrdinaryMintsNothing(txs: seq<Tx>)
    requires AllOrdinary(txs)
    ensures LateMint(txs) == 0
  {
    if txs != [] {
      assert Ordinary(txs[|txs| - 1]);
      OrdinaryMintsNothing(txs[..|txs| - 1]);
    }
  }

  ghost predicate NoNullCoin(u: Utxo) { forall o :: o in u ==> !IsNull(o) }

  /** Any accepted transaction with new coins: the fee leaves, and a coinbase's outputs come from nowhere. */
  lemma AnyApplyTotal(u: Utxo, tx: Tx, txid: Hash, height: u32)
    requires DistinctInputs(tx.inputs) && |tx.outputs| < 0x1_0000_0000 && NoNullCoin(u)
    requires Judge(tx, u, height).Accepted? && NewCoins(u, Created(txid, tx.outputs, height, false))
    ensures Total(Apply(u, tx, txid, height)) + Judge(tx, u, height).fee
      == Total(u) + if IsCoinbase(tx) then OutputTotal(tx.outputs) else 0
    ensures NoNullCoin(Apply(u, tx, txid, height))
  {
    hide Created, Total, Judge;
    CreatedKeys(txid, tx.outputs, height, false);
    if IsCoinbase(tx) {
      assert u - Spent(tx.inputs) == u;
      CreatedTotal(txid, tx.outputs, height, false);
      TotalUnion(u, Created(txid, tx.outputs, height, false));
      CoinbaseIsFree(tx, u, height);
    } else {
      ApplyTotal(u, tx, txid, height);
    }
  }

  lemma CoinbaseIsFree(tx: Tx, u: Utxo, height: u32)
    requires IsCoinbase(tx)
    ensures Judge(tx, u, height) == Accepted(0, [])
  {
  }

  lemma {:induction false} AdvanceTotal(u: Utxo, txs: seq<Tx>, height: u32, rules: Rules)
    requires AllSane(txs) && FreshTxs(u, txs, height, rules) && NoNullCoin(u)
    requires AdvanceAll(u, txs, height, rules).Progress?
    ensures var p := AdvanceAll(u, txs, height, rules);
      Total(p.utxo) + p.fees == Total(u) + LateMint(txs) && NoNullCoin(p.utxo)
  {
    hide Apply, Judge, Txid, Created, NoNullCoin, Total;
    if txs != [] {
      var n := |txs| - 1;
      FreshPrefix(u, txs, n, height, rules);
      AdvanceTotal(u, txs[..n], height, rules);
      var p := AdvanceAll(u, txs[..n], height, rules);
      AnyApplyTotal(p.utxo, txs[n], Txid(rules.hash, txs[n]), height);
    }
  }

  /**
   * A connected block mints the subsidy, less what its coinbase leaves unclaimed, plus whatever later coinbases
   * create. So the supply grows by at most the subsidy exactly when that excess is within the unclaimed part.
   */
  lemma ConnectTotal(u: Utxo, block: Block, height: u32, rules: Rules, checkScripts: bool)
    requires block.txs != [] && AllSane(block.txs) && FreshBlock(u, block, height, rules) && NoNullCoin(u)
    requires Connect(u, block, height, rules, checkScripts).Connected?
    ensures var c := Connect(u, block, height, rules, checkScripts);
      var subsidy := BlockSubsidy(height, rules.halvingInterval);
      var unclaimed := subsidy + c.fees - OutputTotal(block.txs[0].outputs);
      var excess := LateMint(block.txs[1..]);
      && unclaimed >= 0
      && Total(c.utxo) + unclaimed == Total(u) + subsidy + excess
      && (Total(c.utxo) <= Total(u) + subsidy <==> excess <= unclaimed)
      && NoNullCoin(c.utxo)
  {
    hide AdvanceAll, Created, Txid, BlockSubsidy, Total;
    var p := AdvanceAll(u, block.txs[1..], height, rules);
    assert AllSane(block.txs[1..]);
    AdvanceTotal(u, block.txs[1..], height, rules);
    var txid := Txid(rules.hash, block.txs[0]);
    CreatedTotal(txid, block.txs[0].outputs, height, true);
    CreatedKeys(txid, block.txs[0].outputs, height, true);
    TotalUnion(p.utxo, Created(txid, block.txs[0].outputs, height, true));
  }

  /**
   * A second coinbase in a block passes `check_block` and every other check before scripts. The block connects, and
   * mints the second coinbase on top of the full subsidy, if and only if scripts are not checked or the engine
   * accepts a transaction with no coins; the native engine does not, see `ScriptsSeeCoinbases`.
   */
  lemma SecondCoinbaseMints(rules: Rules, header: Header, value: u64, checkScripts: bool)
    requires rules.halvingInterval == 210_000 && 0 < value <= MAX_MONEY
    requires var a, b := MinedCoinbase(1, 5_000_000_000), MinedCoinbase(2, value);
      var block := Sealed(rules.hash, header, [a, b]);
      && rules.signetOk(block) && rules.headerOk(block.header, 0) && rules.witnessOk(block)
      && Txid(rules.hash, a) != Txid(rules.hash, b)
    ensures var a, b := MinedCoinbase(1, 5_000_000_000), MinedCoinbase(2, value);
      var block := Sealed(rules.hash, header, [a, b]);
      var c := Connect(map[], block, 0, rules, checkScripts);
      && GoodInContext(block, 0, rules)
      && (c.Connected? <==> (checkScripts ==> rules.scriptOk(b, [])))
      && (if c.Connected? then Total(c.utxo) == BlockSubsidy(0, rules.halvingInterval) + value
          else c == Rejected(ScriptFailure))
  {
    var a, b := MinedCoinbase(1, 5_000_000_000), MinedCoinbase(2, value);
    var block := Sealed(rules.hash, header, [a, b]);
    SealedIsGood(rules, header, [a, b]);
    assert Pow(2, 0) == 1;
    OneOutput(TxOut(5_000_000_000, []));
    OneOutput(TxOut(value, []));
    SecondCoinbaseConnects(rules, block, a, b, checkScripts);
    hide GoodInContext;
    if Connect(map[], block, 0, rules, checkScripts).Connected? {
      ConnectTotal(map[], block, 0, rules, checkScripts);
      assert block.txs[1..] == [b] && [b][..0] == [];
      assert LateMint([b]) == value;
    }
  }

  lemma SecondCoinbaseConnects(rules: Rules, block: Block, a: Tx, b: Tx, checkScripts: bool)
    requires block.txs == [a, b] && IsCoinbase(a) && IsCoinbase(b) && |a.outputs| == |b.outputs| == 1
    requires Txid(rules.hash, a) != Txid(rules.hash, b) && CoinbaseError(a, 0, 0, rules).None?
    ensures var c := Connect(map[], block, 0, rules, checkScripts);
      && (c.Connected? <==> (checkScripts ==> rules.scriptOk(b, [])))
      && (!c.Connected? ==> c == Rejected(ScriptFailure))
    ensures FreshBlock(map[], block, 0, rules)
    ensures AllSane(block.txs)
  {
    hide CoinbaseError, Txid;
    assert block.txs[1..] == [b];
    var txs := [b];
    assert txs[..0] == [];
    assert AdvanceAll(map[], txs[..0], 0, rules) == Progress(map[], 0, [], true);
    var p := AdvanceAll(map[], txs, 0, rules);
    assert p == Advance(Progress(map[], 0, [], true), b, 0, rules);
    CreatedKeys(Txid(rules.hash, a), a.outputs, 0, true);
    CreatedKeys(Txid(rules.hash, b), b.outputs, 0, false);
    assert p.Progress? && p.utxo == (map[] - Spent(b.inputs)) + Created(Txid(rules.hash, b), b.outputs, 0, false);
  }

  // --------------------------------------------------------------- the schedule

  function SubsidySum(heights: nat, interval: pos): nat
    requires heights <= 0x1_0000_0000
  {
    if heights == 0 then 0 else SubsidySum(heights - 1, interval) + BlockSubsidy(heights - 1, interval)
  }

  function Reward(k: nat): nat { INITIAL_BLOCK_REWARD / Pow(2, k) }

  /** The rewards of the first `k` halving periods, one block of each. */
  function RewardSum(k: nat): nat {
    if k == 0 then 0 else RewardSum(k - 1) + Reward(k - 1)
  }

  lemma {:induction false} PowTwoDiv(n: nat, k: nat)
    ensures n / Pow(2, k + 1) == n / Pow(2, k) / 2
  {
    var p := Pow(2, k);
    var q, r := n / p, n % p;
    assert n == q * p + r;
    var h := q / 2;
    assert q == 2 * h || q == 2 * h + 1;
    var rest := n - h * (2 * p);
    assert h * (2 * p) == (2 * h) * p;
    if q == 2 * h {
      assert rest == r;
    } else {
      assert (2 * h + 1) * p == (2 * h) * p + p;
      assert rest == p + r;
    }
    ModUnique(n, 2 * p, h, rest);
  }

  lemma RewardHalves(k: nat)
    ensures Reward(k + 1) == Reward(k) / 2
  {
    PowTwoDiv(INITIAL_BLOCK_REWARD, k);
  }

  lemma EarlyRewards(k: nat)
    requires k <= 9
    ensures Reward(k) > 0 && (k == 9 ==> Reward(k) % 2 == 1)
  {
    PowersOfTwo();
  }

  /** Each halving rounds down, and the tenth one loses a satoshi. */
  lemma {:induction false} RewardSumBound(k: nat)
    ensures RewardSum(k) + 2 * Reward(k) <= 2 * INITIAL_BLOCK_REWARD
    ensures k >= 10 ==> RewardSum(k) + 2 * Reward(k) < 2 * INITIAL_BLOCK_REWARD
    ensures RewardSum(k) < 2 * INITIAL_BLOCK_REWARD
  {
    if k == 0 {
      PowersOfTwo();
    } else {
      hide Reward;
      RewardSumBound(k - 1);
      RewardHalves(k - 1);
      if k <= 10 { EarlyRewards(k - 1); }
      if k < 10 { EarlyRewards(k); }
    }
  }

  /** `q` whole periods and `r` blocks of the next. */
  function Schedule(interval: pos, q: nat, r: nat): nat { interval * RewardSum(q) + r * Reward(q) }

  lemma ScheduleStep(interval: pos, q: nat, r: nat)
    requires r < interval
    ensures Schedule(interval, q, r) + Reward(q)
      == if r + 1 < interval then Schedule(interval, q, r + 1) else Schedule(interval, q + 1, 0)
  {
    hide Reward;
    var s := Reward(q);
    assert (r + 1) * s == r * s + s;
    if r + 1 == interval {
      RewardSumStep(q);
      assert interval * (RewardSum(q) + s) == interval * RewardSum(q) + interval * s;
    }
  }

  lemma RewardSumStep(q: nat)
    ensures RewardSum(q + 1) == RewardSum(q) + Reward(q)
  {
  }

  lemma DivStep(n: nat, d: pos)
    ensures var q, r := n / d, n % d;
      if r + 1 < d then (n + 1) / d == q && (n + 1) % d == r + 1 else (n + 1) / d == q + 1 && (n + 1) % d == 0
  {
    var q, r := n / d, n % d;
    assert n == q * d + r;
    if r + 1 < d {
      ModUnique(n + 1, d, q, r + 1);
    } else {
      assert (q + 1) * d == q * d + d;
      ModUnique(n + 1, d, q + 1, 0);
    }
  }

  lemma {:induction false} SubsidySumSplit(n: nat, interval: pos)
    requires n <= 0x1_0000_0000
    ensures SubsidySum(n, interval) <= Schedule(interval, n / interval, n % interval)
  {
    hide Schedule, BlockSubsidy, Reward;
    if n > 0 {
      SubsidySumSplit(n - 1, interval);
      SubsidyIsReward(n - 1, interval);
      DivStep(n - 1, interval);
      ScheduleStep(interval, (n - 1) / interval, (n - 1) % interval);
    } else {
      ScheduleZero(interval);
    }
  }

  lemma ScheduleZero(interval: pos)
    ensures 0 / interval == 0 && 0 % interval == 0
    ensures Schedule(interval, 0, 0) == 0
  {
  }

  lemma SubsidyIsReward(height: u32, interval: pos)
    ensures BlockSubsidy(height, interval) <= Reward(height / interval)
  {
  }

  /** The whole schedule stays below MAX_MONEY for every halving interval up to 210000. */
  lemma SubsidySumBound(n: nat, interval: pos)
    requires n <= 0x1_0000_0000 && interval <= 210_000
    ensures SubsidySum(n, interval) < MAX_MONEY
  {
    hide SubsidySum, RewardSum, Reward;
    var q, r := n / interval, n % interval;
    SubsidySumSplit(n, interval);
    RewardSumBound(q + 1);
    RewardSumStep(q);
    PeriodBound(interval, RewardSum(q), Reward(q), r);
  }

  lemma PeriodBound(interval: pos, t: nat, s: nat, r: nat)
    requires interval <= 210_000 && r < interval && t + s < 2 * INITIAL_BLOCK_REWARD
    ensures interval * t + r * s < MAX_MONEY
  {
    MulLe(s, r, interval);
    MulLe(interval, t + s, 2 * INITIAL_BLOCK_REWARD - 1);
    calc {
      interval * t + r * s;
    <=
      interval * t + interval * s;
    ==
      interval * (t + s);
    <=
      interval * (2 * INITIAL_BLOCK_REWARD - 1);
    <=
      210_000 * (2 * INITIAL_BLOCK_REWARD - 1);
    }
  }
}
