/** The write-back coin cache over the UTXO store. */
module Coins {
  import opened Bytes
  import opened Wire
  import opened Transaction

  datatype Coin = Coin(output: TxOut, height: u32, isCoinbase: bool)
  datatype Entry = Entry(coin: Option<Coin>, isDirty: bool, isFresh: bool)
  datatype CoinUpdate = Put(coin: Coin) | Delete

  type Utxo = map<OutPoint, Coin>
  type Cache = map<OutPoint, Entry>

  const ESTIMATED_CACHE_ENTRY_BYTES: nat := 256

  function Get(u: Utxo, o: OutPoint): Option<Coin> { if o in u then Some(u[o]) else None }

  /** `get_coin`: the cache answers first, then the store. */
  function Lookup(cache: Cache, base: Utxo, o: OutPoint): Option<Coin> {
    if o in cache then cache[o].coin else Get(base, o)
  }

  /** The plain map that a cache over a store stands for. */
  ghost function View(cache: Cache, base: Utxo): (u: Utxo)
    ensures forall o :: Get(u, o) == Lookup(cache, base, o)
  {
    map o | o in cache.Keys + base.Keys && Lookup(cache, base, o).Some? :: Lookup(cache, base, o).value
  }

  /** Two maps that answer every lookup alike are equal. */
  lemma SameLookups(u: Utxo, v: Utxo)
    requires forall o :: Get(u, o) == Get(v, o)
    ensures u == v
  {
    forall o
      ensures o in u <==> o in v
      ensures o in u ==> u[o] == v[o]
    {
      assert Get(u, o) == Get(v, o);
    }
  }

  /**
   * What the flags promise: a fresh coin is unknown to the store, a clean entry repeats the store, and a
   * spent marker is pending and concerns the store.
   */
  ghost predicate Honest(e: Entry, base: Utxo, o: OutPoint) {
    && (e.isFresh ==> e.isDirty && o !in base)
    && (!e.isDirty ==> e.coin.Some? && Get(base, o) == e.coin)
    && (e.coin.None? ==> !e.isFresh)
  }

  ghost predicate Consistent(cache: Cache, base: Utxo) {
    forall o :: o in cache ==> Honest(cache[o], base, o)
  }

  // ----------------------------------------------------------- one entry at a time

  function AddEntry(cache: Cache, o: OutPoint, c: Coin): Cache {
    cache[o := Entry(Some(c), true, if o in cache then cache[o].isFresh else true)]
  }

  const SPENT: Entry := Entry(None, true, false)

  function SpendEntry(cache: Cache, base: Utxo, o: OutPoint): Cache {
    if o in cache then
      if cache[o].coin.None? then cache
      else if cache[o].isFresh then cache - {o}
      else cache[o := SPENT]
    else if o in base then cache[o := SPENT]
    else cache
  }

  function SpendKnownEntry(cache: Cache, base: Utxo, o: OutPoint): Cache {
    if o in cache then SpendEntry(cache, base, o) else cache[o := SPENT]
  }

  function Updates(cache: Cache): map<OutPoint, CoinUpdate> {
    map o | o in cache && cache[o].isDirty && (cache[o].coin.Some? || !cache[o].isFresh)
      :: if cache[o].coin.Some? then Put(cache[o].coin.value) else Delete
  }

  function Write(base: Utxo, updates: map<OutPoint, CoinUpdate>): Utxo {
    map o | o in base.Keys + updates.Keys && (o in updates ==> updates[o].Put?)
      :: if o in updates then updates[o].coin else base[o]
  }

  /** The `retain` of `clear_history`: spent markers go, pending coins become clean. */
  function Settled(cache: Cache): Cache {
    map o | o in cache && !(cache[o].isDirty && cache[o].coin.None?)
      :: if cache[o].isDirty then Entry(cache[o].coin, false, false) else cache[o]
  }

  /** Trimming drops clean entries only, and no more of them than the budget asks for. */
  ghost predicate Trimmed(before: Cache, after: Cache, max: nat) {
    && after.Keys <= before.Keys
    && (forall o :: o in after ==> after[o] == before[o])
    && (forall o :: o in before && before[o].isDirty ==> o in after)
    && (|before| <= max ==> after == before)
    && |after| >= (if |before| <= max then |before| else max)
    && (|after| > max ==> forall o :: o in after ==> after[o].isDirty)
  }

  lemma AddView(cache: Cache, base: Utxo, o: OutPoint, c: Coin)
    ensures View(AddEntry(cache, o, c), base) == View(cache, base)[o := c]
  {
    SameLookups(View(AddEntry(cache, o, c), base), View(cache, base)[o := c]);
  }

  /** Adding keeps the flags honest exactly when the outpoint is cached already or absent from the store. */
  lemma AddKeepsConsistent(cache: Cache, base: Utxo, o: OutPoint, c: Coin)
    requires Consistent(cache, base)
    ensures Consistent(AddEntry(cache, o, c), base) <==> o in cache || o !in base
  {
    var after := AddEntry(cache, o, c);
    assert o in cache ==> Honest(cache[o], base, o);
    assert Consistent(after, base) ==> Honest(after[o], base, o);
  }

  lemma SpendView(cache: Cache, base: Utxo, o: OutPoint)
    requires Consistent(cache, base)
    ensures Consistent(SpendEntry(cache, base, o), base)
    ensures View(SpendEntry(cache, base, o), base) == View(cache, base) - {o}
    ensures Consistent(SpendKnownEntry(cache, base, o), base)
    ensures View(SpendKnownEntry(cache, base, o), base) == View(cache, base) - {o}
  {
    assert o in cache ==> Honest(cache[o], base, o);
    SameLookups(View(SpendEntry(cache, base, o), base), View(cache, base) - {o});
    SameLookups(View(SpendKnownEntry(cache, base, o), base), View(cache, base) - {o});
  }

  /**
   * What goes wrong otherwise: adding over an uncached stored coin and then spending the addition brings the
   * stored coin back, although a plain map would have nothing there.
   */
  lemma OverwriteResurrects(cache: Cache, base: Utxo, o: OutPoint, c: Coin)
    requires o !in cache && o in base
    ensures Lookup(SpendEntry(AddEntry(cache, o, c), base, o), base, o) == Some(base[o])
    ensures Get(View(cache, base)[o := c] - {o}, o) == None
  {
  }

  /** Writing the pending updates makes the store equal to what the cache showed. */
  lemma FlushWritesView(cache: Cache, base: Utxo)
    requires Consistent(cache, base)
    ensures Write(base, Updates(cache)) == View(cache, base)
  {
    forall o
      ensures Get(Write(base, Updates(cache)), o) == Get(View(cache, base), o)
    {
      assert o in cache ==> Honest(cache[o], base, o);
    }
    SameLookups(Write(base, Updates(cache)), View(cache, base));
  }

  /** Settling and trimming after the write changes no lookup and leaves only clean entries. */
  lemma FlushKeepsView(cache: Cache, base: Utxo, after: Cache, max: nat)
    requires Consistent(cache, base) && Trimmed(Settled(cache), after, max)
    ensures var store := View(cache, base);
      && Consistent(after, store)
      && View(after, store) == store
      && (forall o :: o in after ==> !after[o].isDirty)
      && |after| == if |Settled(cache)| <= max then |Settled(cache)| else max
  {
    var store := View(cache, base);
    forall o | o in after
      ensures !after[o].isDirty && Honest(after[o], store, o)
    {
      assert o in Settled(cache) && after[o] == Settled(cache)[o];
      assert Honest(cache[o], base, o);
      assert Get(store, o) == Lookup(cache, base, o);
    }
    SameLookups(View(after, store), store);
    if after == map[] {
    } else {
      var o :| o in after;
      assert !after[o].isDirty;
    }
    var s, t := after.Keys, Settled(cache).Keys;
    SubsetSize(s, t);
    assert |after| <= |Settled(cache)|;
  }

  lemma {:induction false} SubsetSize<T>(s: set<T>, t: set<T>)
    requires s <= t
    ensures |s| <= |t|
  {
    if s != {} {
      var x :| x in s;
      SubsetSize(s - {x}, t - {x});
    }
  }

  // ------------------------------------------------------------------ whole runs

  datatype Op = Add(o: OutPoint, c: Coin) | Spend(o: OutPoint) | SpendKnown(o: OutPoint) | Flush
  datatype State = State(cache: Cache, store: Utxo)

  ghost function Shown(s: State): Utxo { View(s.cache, s.store) }

  ghost predicate Step(s: State, op: Op, t: State, max: nat) {
    match op
    case Add(o, c) => t == State(AddEntry(s.cache, o, c), s.store)
    case Spend(o) => t == State(SpendEntry(s.cache, s.store, o), s.store)
    case SpendKnown(o) => t == State(SpendKnownEntry(s.cache, s.store, o), s.store)
    case Flush =>
      t.store == Write(s.store, Updates(s.cache)) && Trimmed(Settled(s.cache), t.cache, max)
  }

  /** The same operations on one plain map; a flush is invisible. */
  function Plain(u: Utxo, op: Op): Utxo {
    match op
    case Add(o, c) => u[o := c]
    case Spend(o) => u - {o}
    case SpendKnown(o) => u - {o}
    case Flush => u
  }

  function PlainRun(u: Utxo, ops: seq<Op>): Utxo {
    if ops == [] then u else Plain(PlainRun(u, ops[..|ops| - 1]), ops[|ops| - 1])
  }

  /** Additions name an outpoint the view lacks. */
  ghost predicate Fresh(u: Utxo, op: Op) { op.Add? ==> op.o !in u }

  ghost predicate Run(states: seq<State>, ops: seq<Op>, max: nat) {
    && |states| == |ops| + 1
    && forall i :: 0 <= i < |ops| ==> Step(states[i], ops[i], states[i + 1], max)
  }

  lemma StepRefines(s: State, op: Op, t: State, max: nat)
    requires Consistent(s.cache, s.store) && Step(s, op, t, max) && Fresh(Shown(s), op)
    ensures Consistent(t.cache, t.store)
    ensures Shown(t) == Plain(Shown(s), op)
    ensures op.Flush? ==> t.store == Shown(s) && |t.cache| <= max && forall o :: o in t.cache ==> !t.cache[o].isDirty
  {
    match op
    case Add(o, c) =>
      AddView(s.cache, s.store, o, c);
      assert Get(Shown(s), o) == Lookup(s.cache, s.store, o);
      AddKeepsConsistent(s.cache, s.store, o, c);
    case Spend(o) => SpendView(s.cache, s.store, o);
    case SpendKnown(o) => SpendView(s.cache, s.store, o);
    case Flush =>
      FlushWritesView(s.cache, s.store);
      FlushKeepsView(s.cache, s.store, t.cache, max);
  }

  /**
   * Over every run the cached view is the plain map, at every moment; each flush leaves the store equal to it
   * and at most `max` entries, all of them clean.
   */
  lemma {:induction false} RunRefines(states: seq<State>, ops: seq<Op>, max: nat)
    requires Run(states, ops, max) && Consistent(states[0].cache, states[0].store)
    requires forall i :: 0 <= i < |ops| ==> Fresh(PlainRun(Shown(states[0]), ops[..i]), ops[i])
    ensures Consistent(states[|ops|].cache, states[|ops|].store)
    ensures Shown(states[|ops|]) == PlainRun(Shown(states[0]), ops)
    ensures ops != [] && ops[|ops| - 1].Flush? ==>
      states[|ops|].store == PlainRun(Shown(states[0]), ops) && |states[|ops|].cache| <= max
  {
    if ops != [] {
      var n := |ops| - 1;
      forall i | 0 <= i < n
        ensures Fresh(PlainRun(Shown(states[0]), ops[..n][..i]), ops[..n][i])
      {
        assert ops[..n][..i] == ops[..i];
      }
      RunRefines(states[..n + 1], ops[..n], max);
      StepRefines(states[n], ops[n], states[n + 1], max);
    }
  }

  // --------------------------------------------------------------- the objects

  lemma WriteNothing(base: Utxo, updates: map<OutPoint, CoinUpdate>)
    ensures Write(base, updates - updates.Keys) == base
  {
  }

  lemma WriteStep(base: Utxo, updates: map<OutPoint, CoinUpdate>, todo: set<OutPoint>, o: OutPoint)
    requires o in todo && todo <= updates.Keys
    ensures Write(base, updates - (todo - {o})) ==
      var done := Write(base, updates - todo);
      if updates[o].Put? then done[o := updates[o].coin] else done - {o}
  {
    var done := Write(base, updates - todo);
    SameLookups(Write(base, updates - (todo - {o})),
      if updates[o].Put? then done[o := updates[o].coin] else done - {o});
  }

  lemma SettledNothing(cache: Cache)
    ensures Settled(cache - cache.Keys) == map[]
  {
  }

  lemma SettledStep(cache: Cache, todo: set<OutPoint>, o: OutPoint)
    requires o in todo && todo <= cache.Keys
    ensures Settled(cache - (todo - {o})) ==
      var done, e := Settled(cache - todo), cache[o];
      if e.isDirty then if e.coin.Some? then done[o := Entry(e.coin, false, false)] else done
      else done[o := e]
  {
  }

  /** The height index after a batch; a later block at the same height wins. */
  function Indexed(heights: map<u32, Hash>, connected: seq<(u32, Hash)>): map<u32, Hash> {
    if connected == [] then heights
    else
      var n := |connected| - 1;
      Indexed(heights, connected[..n])[connected[n].0 := connected[n].1]
  }

  /** In the height index the last block connected at a height is the one found. */
  lemma {:induction false} IndexedLast(heights: map<u32, Hash>, connected: seq<(u32, Hash)>, k: nat)
    requires k < |connected| && forall i :: k < i < |connected| ==> connected[i].0 != connected[k].0
    ensures var index := Indexed(heights, connected); connected[k].0 in index && index[connected[k].0] == connected[k].1
  {
    var n := |connected| - 1;
    if k < n {
      assert forall i :: 0 <= i < n ==> connected[..n][i] == connected[i];
      IndexedLast(heights, connected[..n], k);
    }
  }

  /** Other heights stay as they were. */
  lemma {:induction false} IndexedOthers(heights: map<u32, Hash>, connected: seq<(u32, Hash)>, h: u32)
    requires forall i :: 0 <= i < |connected| ==> connected[i].0 != h
    ensures var index := Indexed(heights, connected);
      (h in index <==> h in heights) && (h in heights ==> index[h] == heights[h])
  {
    if connected != [] { IndexedOthers(heights, connected[..|connected| - 1], h); }
  }

  /** The tracked tip height after a batch. */
  function Topped(top: u32, connected: seq<(u32, Hash)>): u32 {
    if connected == [] then top
    else
      var n := |connected| - 1;
      var before := Topped(top, connected[..n]);
      if connected[n].0 >= before then connected[n].0 else before
  }

  /** It is the highest of what it was and what was connected. */
  lemma {:induction false} ToppedIsHighest(top: u32, connected: seq<(u32, Hash)>)
    ensures var t := Topped(top, connected);
      && t >= top && (forall i :: 0 <= i < |connected| ==> t >= connected[i].0)
      && (t == top || exists i :: 0 <= i < |connected| && t == connected[i].0)
  {
    if connected != [] {
      var n := |connected| - 1;
      ToppedIsHighest(top, connected[..n]);
      assert forall i :: 0 <= i < n ==> connected[..n][i] == connected[i];
    }
  }

  lemma IndexStep(top: u32, heights: map<u32, Hash>, connected: seq<(u32, Hash)>, k: nat)
    requires k < |connected|
    ensures Indexed(heights, connected[..k + 1]) == Indexed(heights, connected[..k])[connected[k].0 := connected[k].1]
    ensures var before := Topped(top, connected[..k]);
      Topped(top, connected[..k + 1]) == if connected[k].0 >= before then connected[k].0 else before
  {
    assert connected[..k + 1][..k] == connected[..k];
  }

  lemma IndexStart(top: u32, heights: map<u32, Hash>, connected: seq<(u32, Hash)>)
    ensures Indexed(heights, connected[..0]) == heights && Topped(top, connected[..0]) == top
  {
  }

  /** A position in the flat files, and what the block index says about where a block's data lies. */
  datatype Pos = Pos(file: nat, offset: nat)
  datatype IndexEntry = IndexEntry(filePos: Option<Pos>, undoPos: Option<Pos>)

  /** The persistent side: the coin table and what is written with it. */
  class Store {
    var coins: Utxo
    var bestBlock: Option<Hash>
    var heights: map<u32, Hash>
    var index: map<Hash, IndexEntry>
    var pendingUndo: map<Hash, IndexEntry>
    var tipHeight: u32

    constructor ()
      ensures coins == map[] && bestBlock == None && heights == map[]
      ensures index == map[] && pendingUndo == map[] && tipHeight == 0
    {
      coins, bestBlock, heights := map[], None, map[];
      index, pendingUndo, tipHeight := map[], map[], 0;
    }

    /**
     * `handle_update_utxo_set`: one batch of coin updates, the best block, the index entries that wait for it, and
     * the height index.
     */
    method UpdateUtxos(updates: map<OutPoint, CoinUpdate>, best: Option<Hash>, connected: seq<(u32, Hash)>)
      modifies this
      ensures coins == Write(old(coins), updates)
      ensures bestBlock == if best.Some? then best else old(bestBlock)
      ensures index == old(index) + old(pendingUndo) && pendingUndo == map[]
      ensures heights == Indexed(old(heights), connected) && tipHeight == Topped(old(tipHeight), connected)
    {
      hide Write, Topped, Indexed;
      var todo := updates.Keys;
      WriteNothing(coins, updates);
      while todo != {}
        invariant todo <= updates.Keys
        invariant coins == Write(old(coins), updates - todo)
        invariant bestBlock == old(bestBlock) && heights == old(heights) && index == old(index)
        invariant pendingUndo == old(pendingUndo) && tipHeight == old(tipHeight)
        decreases |todo|
      {
        var o :| o in todo;
        WriteStep(old(coins), updates, todo, o);
        todo := todo - {o};
        match updates[o] {
          case Put(c) => coins := coins[o := c];
          case Delete => coins := coins - {o};
        }
      }
      assert updates - todo == updates;
      if best.Some? { bestBlock := best; }
      index := index + pendingUndo;
      IndexStart(tipHeight, heights, connected);
      for k := 0 to |connected|
        invariant coins == Write(old(coins), updates) && index == old(index) + old(pendingUndo)
        invariant tipHeight == Topped(old(tipHeight), connected[..k])
        invariant bestBlock == if best.Some? then best else old(bestBlock)
        invariant heights == Indexed(old(heights), connected[..k])
      {
        IndexStep(old(tipHeight), old(heights), connected, k);
        heights := heights[connected[k].0 := connected[k].1];
        if connected[k].0 >= tipHeight { tipHeight := connected[k].0; }
      }
      assert connected[..|connected|] == connected;
      pendingUndo := map[];
    }
  }

  class CoinsViewCache {
    const base: Store
    const maxEntries: nat
    var cache: Cache
    var bestBlock: Option<Hash>
    var connected: seq<(u32, Hash)>

    ghost function Now(): State
      reads this, base
    {
      State(cache, base.coins)
    }

    constructor (base: Store, budgetBytes: nat)
      ensures this.base == base && cache == map[] && connected == [] && bestBlock == base.bestBlock
      ensures maxEntries == if budgetBytes < 512 then 1 else budgetBytes / ESTIMATED_CACHE_ENTRY_BYTES
    {
      this.base := base;
      cache, connected, bestBlock := map[], [], base.bestBlock;
      var entries := budgetBytes / ESTIMATED_CACHE_ENTRY_BYTES;
      maxEntries := if entries < 1 then 1 else entries;
    }

    method SetBestBlock(hash: Hash, height: u32)
      modifies this
      ensures bestBlock == Some(hash) && connected == old(connected) + [(height, hash)] && cache == old(cache)
    {
      bestBlock := Some(hash);
      connected := connected + [(height, hash)];
    }

    method AddCoin(o: OutPoint, c: Coin)
      modifies this`cache
      ensures cache == AddEntry(old(cache), o, c)
    {
      var entry := Entry(Some(c), true, true);
      if o in cache {
        entry := entry.(isFresh := cache[o].isFresh);
      }
      cache := cache[o := entry];
    }

    method SpendCoin(o: OutPoint) returns (spent: Option<Coin>)
      modifies this`cache
      ensures cache == SpendEntry(old(cache), base.coins, o)
      ensures spent == Lookup(old(cache), base.coins, o)
    {
      if o in cache {
        spent := cache[o].coin;
        if spent.None? { return; }
        if cache[o].isFresh {
          cache := cache - {o};
        } else {
          cache := cache[o := SPENT];
        }
        return;
      }
      spent := Get(base.coins, o);
      if spent.Some? {
        cache := cache[o := SPENT];
      }
    }

    method SpendCoinKnown(o: OutPoint)
      modifies this`cache
      ensures cache == SpendKnownEntry(old(cache), base.coins, o)
    {
      if o in cache {
        var _ := SpendCoin(o);
        return;
      }
      cache := cache[o := SPENT];
    }

    method GetCoin(o: OutPoint) returns (c: Option<Coin>)
      ensures c == Get(View(cache, base.coins), o)
    {
      if o in cache { return cache[o].coin; }
      return Get(base.coins, o);
    }

    /** `to_updates`: walk the table in whatever order it has. */
    method ToUpdates() returns (updates: map<OutPoint, CoinUpdate>)
      ensures updates == Updates(cache)
    {
      updates := map[];
      var todo := cache.Keys;
      while todo != {}
        invariant todo <= cache.Keys
        invariant updates == Updates(cache - todo)
        decreases |todo|
      {
        var o :| o in todo;
        todo := todo - {o};
        var entry := cache[o];
        if entry.isDirty {
          match entry.coin {
            case Some(c) => updates := updates[o := Put(c)];
            case None => if !entry.isFresh { updates := updates[o := Delete]; }
          }
        }
      }
      assert cache - todo == cache;
    }

    method TrimToBudget()
      modifies this`cache
      ensures Trimmed(old(cache), cache, maxEntries)
    {
      var remaining := if |cache| > maxEntries then |cache| - maxEntries else 0;
      var before := cache;
      var todo := cache.Keys;
      while todo != {}
        invariant todo <= before.Keys && todo <= cache.Keys && cache.Keys <= before.Keys
        invariant forall o :: o in cache ==> cache[o] == before[o]
        invariant forall o :: o in before && before[o].isDirty ==> o in cache
        invariant remaining >= 0 && |cache| == remaining + (if |before| <= maxEntries then |before| else maxEntries)
        invariant |before| <= maxEntries ==> cache == before
        invariant remaining > 0 ==> forall o :: o in cache && o !in todo ==> cache[o].isDirty
        decreases |todo|
      {
        var o :| o in todo;
        todo := todo - {o};
        if remaining > 0 && !cache[o].isDirty {
          remaining := remaining - 1;
          assert |(cache - {o}).Keys| == |cache.Keys - {o}|;
          cache := cache - {o};
        }
      }
    }

    method ClearHistory()
      modifies this`cache, this`connected
      ensures connected == [] && Trimmed(Settled(old(cache)), cache, maxEntries)
    {
      hide Settled;
      connected := [];
      var kept: Cache := map[];
      var todo := cache.Keys;
      assert kept == Settled(cache - todo) by { SettledNothing(cache); }
      while todo != {}
        invariant todo <= cache.Keys && cache == old(cache) && connected == []
        invariant kept == Settled(cache - todo)
        decreases |todo|
      {
        var o :| o in todo;
        SettledStep(cache, todo, o);
        todo := todo - {o};
        var entry := cache[o];
        if entry.isDirty {
          if entry.coin.Some? { kept := kept[o := Entry(entry.coin, false, false)]; }
        } else {
          kept := kept[o := entry];
        }
      }
      assert cache - todo == cache;
      cache := kept;
      TrimToBudget();
    }

    /** `StoreCoinsView::flush` against the cache's own base. */
    method FlushToStore()
      modifies this, base
      ensures Step(old(Now()), Flush, Now(), maxEntries)
      ensures connected == [] && bestBlock == old(bestBlock)
      ensures base.bestBlock == if bestBlock.Some? then bestBlock else old(base.bestBlock)
    {
      var updates := ToUpdates();
      var best := if bestBlock.Some? then bestBlock else base.bestBlock;
      base.UpdateUtxos(updates, best, connected);
      ClearHistory();
    }
  }
}
