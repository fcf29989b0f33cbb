/** The header tree: single headers and batches, cumulative work, and the tip of most work. */
module Headers {
  import opened Bytes
  import opened Wire
  import opened Transaction
  import Compact
  import ProofOfWork

  datatype BlockIndex = BlockIndex(header: Header, height: u32, work: Hash)

  /** What the store holds about headers. */
  datatype Tree = Tree(index: map<Hash, BlockIndex>, tip: Option<Hash>)

  /** The block hash, and the header check with what it may look at: the parent, this batch, the store. */
  datatype Rules = Rules(
    hash: Header -> Hash,
    check: (Header, BlockIndex, map<u32, BlockIndex>, map<Hash, BlockIndex>) -> bool)

  datatype Outcome<T> = Accepted(value: T) | Orphan | CheckFailed

  function NextHeight(h: u32): u32 { if h == 0xffff_ffff then h else h + 1 }

  /** Cumulative work as the node computes it, modulo 2^256. */
  function AddWork(work: Hash, bits: u32): Hash {
    ProofOfWork.HashOf((LeValue(work) + ProofOfWork.BlockWork(bits)) % WORK_LIMIT)
  }

  const WORK_LIMIT: nat := Pow(256, 32)

  function TipWork(t: Tree): Hash {
    if t.tip.Some? && t.tip.value in t.index then t.index[t.tip.value].work else ZERO_HASH
  }

  function Child(h: Header, prev: BlockIndex): BlockIndex {
    BlockIndex(h, NextHeight(prev.height), AddWork(prev.work, h.bits))
  }

  predicate Heavier(a: Hash, b: Hash) { LeValue(a) > LeValue(b) }

  // --------------------------------------------------------------- single headers

  /** Store an entry; it becomes the tip only if it has strictly more work. */
  function Insert(t: Tree, id: Hash, x: BlockIndex): Tree {
    var stored := t.(index := t.index[id := x]);
    if Heavier(x.work, TipWork(stored)) then stored.(tip := Some(id)) else stored
  }

  function AcceptOne(t: Tree, h: Header, rules: Rules): (Tree, Outcome<u32>) {
    var id := rules.hash(h);
    if id in t.index then (t, Accepted(t.index[id].height))
    else if h.prevHash == ZERO_HASH then (Insert(t, id, BlockIndex(h, 0, AddWork(ZERO_HASH, h.bits))), Accepted(0))
    else if h.prevHash !in t.index then (t, Orphan)
    else
      var x := Child(h, t.index[h.prevHash]);
      if !rules.check(h, t.index[h.prevHash], map[], t.index) then (t, CheckFailed)
      else (Insert(t, id, x), Accepted(x.height))
  }

  // ---------------------------------------------------------------------- batches

  datatype Status = Going | Stopped | Failed

  /** The local state of the batch loop. */
  datatype Plan = Plan(
    byHash: map<Hash, BlockIndex>, byHeight: map<u32, BlockIndex>, pending: seq<(Hash, BlockIndex)>,
    heights: seq<u32>, bestWork: Hash, bestTip: Option<Hash>, status: Status)

  function Parent(t: Tree, p: Plan, id: Hash): Option<BlockIndex> {
    if id in p.byHash then Some(p.byHash[id]) else if id in t.index then Some(t.index[id]) else None
  }

  function Noted(p: Plan, id: Hash, x: BlockIndex): Plan {
    p.(heights := p.heights + [x.height], byHeight := p.byHeight[x.height := x], byHash := p.byHash[id := x])
  }

  /** One turn of the batch loop: a known header, a gap, a failed check, or one more header. */
  function Extend(t: Tree, p: Plan, h: Header, rules: Rules): Plan {
    var id := rules.hash(h);
    if id in t.index then Noted(p, id, t.index[id])
    else
      match Parent(t, p, h.prevHash)
      case None => p.(status := Stopped)
      case Some(prev) =>
        if !rules.check(h, prev, p.byHeight, t.index) then p.(status := Failed)
        else
          var x := Child(h, prev);
          var better := Heavier(x.work, p.bestWork);
          Noted(p, id, x).(
            pending := p.pending + [(id, x)],
            bestWork := if better then x.work else p.bestWork,
            bestTip := if better then Some(id) else p.bestTip)
  }

  function PlanFor(t: Tree, headers: seq<Header>, rules: Rules): Plan {
    if headers == [] then Plan(map[], map[], [], [], TipWork(t), None, Going)
    else
      var n := |headers| - 1;
      var p := PlanFor(t, headers[..n], rules);
      if p.status != Going then p else Extend(t, p, headers[n], rules)
  }

  function PutAll(index: map<Hash, BlockIndex>, pending: seq<(Hash, BlockIndex)>): map<Hash, BlockIndex> {
    if pending == [] then index
    else
      var n := |pending| - 1;
      PutAll(index, pending[..n])[pending[n].0 := pending[n].1]
  }

  /** The height index, in which the last header written at a height wins. */
  function PutHeights(heights: map<u32, Hash>, pending: seq<(Hash, BlockIndex)>): map<u32, Hash> {
    if pending == [] then heights
    else
      var n := |pending| - 1;
      PutHeights(heights, pending[..n])[pending[n].1.height := pending[n].0]
  }

  lemma NoHeights(heights: map<u32, Hash>)
    ensures PutHeights(heights, []) == heights
  {
  }

  /** A failed check drops the whole batch; a gap keeps the connected headers before it. */
  function AcceptBatch(t: Tree, headers: seq<Header>, rules: Rules): (Tree, Outcome<seq<u32>>) {
    var p := PlanFor(t, headers, rules);
    if p.status == Failed then (t, CheckFailed)
    else
      (Tree(PutAll(t.index, p.pending), if p.bestTip.Some? then p.bestTip else t.tip), Accepted(p.heights))
  }

  // --------------------------------------------------------------------- genesis

  function LoadedGenesis(t: Tree, genesis: Header, rules: Rules): Tree {
    var id := rules.hash(genesis);
    if id in t.index then t
    else Tree(t.index[id := BlockIndex(genesis, 0, AddWork(ZERO_HASH, genesis.bits))], Some(id))
  }

  // ------------------------------------------------------------------- the class

  lemma WorkIsAddWork(work: Hash, bits: u32, own: Hash, sum: Hash)
    requires LeValue(own) == ProofOfWork.BlockWork(bits)
    requires LeValue(sum) == (LeValue(work) + LeValue(own)) % Pow(256, 32)
    ensures sum == AddWork(work, bits)
  {
    hide LeValue, Pow, ProofOfWork.BlockWork, ProofOfWork.HashOf;
    ProofOfWork.HashOfValue(sum);
  }

  lemma GenesisWork(bits: u32, own: Hash)
    requires LeValue(own) == ProofOfWork.BlockWork(bits)
    ensures own == AddWork(ZERO_HASH, bits)
  {
    hide LeValue, Pow, ProofOfWork.BlockWork, ProofOfWork.HashOf;
    ProofOfWork.HashOfValue(own);
    LeValueBound(own);
    ZeroIsZero();
    ModSmall(LeValue(own), WORK_LIMIT);
  }

  lemma ZeroIsZero()
    ensures LeValue(ZERO_HASH) == 0
  {
    Compact.ZerosValue(32);
  }

  /** The chainstate manager's view of headers, with the node's acceptance code in front of it. */
  class HeaderStore {
    var index: map<Hash, BlockIndex>
    var tip: Option<Hash>
    var heightIndex: map<u32, Hash>
    var activeTip: Option<Hash>
    const rules: Rules

    ghost function View(): Tree
      reads this
    {
      Tree(index, tip)
    }

    constructor (rules: Rules)
      ensures View() == Tree(map[], None) && heightIndex == map[] && activeTip == None && this.rules == rules
    {
      index, tip, heightIndex, activeTip, this.rules := map[], None, map[], None, rules;
    }

    method CurrentWork() returns (work: Hash)
      ensures work == TipWork(View())
    {
      work := ZERO_HASH;
      if tip.Some? && tip.value in index { work := index[tip.value].work; }
    }

    method WorkAfter(prevWork: Hash, bits: u32) returns (work: Hash)
      ensures work == AddWork(prevWork, bits)
    {
      hide LeValue, Pow, ProofOfWork.BlockWork, AddWork;
      var own := ProofOfWork.CalculateBlockWork(bits);
      work := ProofOfWork.AddChainWork(prevWork, own);
      WorkIsAddWork(prevWork, bits, own, work);
    }

    method LoadGenesisBlock(genesis: Header)
      modifies this
      ensures View() == LoadedGenesis(old(View()), genesis, rules)
      ensures var id := rules.hash(genesis);
        if id in old(index) then heightIndex == old(heightIndex) && activeTip == old(activeTip)
        else heightIndex == old(heightIndex)[0 := id] && activeTip == Some(id)
    {
      hide LeValue, Pow, ProofOfWork.BlockWork, AddWork;
      var id := rules.hash(genesis);
      if id in index { return; }
      var work := ProofOfWork.CalculateBlockWork(genesis.bits);
      GenesisWork(genesis.bits, work);
      index, heightIndex := index[id := BlockIndex(genesis, 0, work)], heightIndex[0 := id];
      tip := Some(id);
      activeTip := Some(id);
    }

    /** `process_header` of the chainstate manager. */
    method CommitHeader(header: Header, height: u32)
      modifies this`index, this`tip, this`heightIndex
      ensures heightIndex == if rules.hash(header) in old(index) then old(heightIndex)
                             else old(heightIndex)[height := rules.hash(header)]
      ensures var id, was := rules.hash(header), old(View());
        View() == if id in was.index then was
                  else Insert(was, id, BlockIndex(header, height, AddWork(
                    if header.prevHash != ZERO_HASH && header.prevHash in was.index
                    then was.index[header.prevHash].work else ZERO_HASH, header.bits)))
    {
      hide LeValue, AddWork;
      var id := rules.hash(header);
      if id in index { return; }
      var prevWork := ZERO_HASH;
      if header.prevHash != ZERO_HASH && header.prevHash in index { prevWork := index[header.prevHash].work; }
      var work := WorkAfter(prevWork, header.bits);
      index, heightIndex := index[id := BlockIndex(header, height, work)], heightIndex[height := id];
      var current := CurrentWork();
      var order := Compact.Compare(work, current);
      if order == Compact.Greater { tip := Some(id); }
    }

    /** `process_header` of the node: find the parent, check, then commit. */
    method ProcessHeader(header: Header) returns (r: Outcome<u32>)
      modifies this`index, this`tip, this`heightIndex
      ensures heightIndex == if r.Accepted? && rules.hash(header) !in old(index)
                             then old(heightIndex)[r.value := rules.hash(header)] else old(heightIndex)
      ensures (View(), r) == AcceptOne(old(View()), header, rules)
    {
      hide AddWork, Insert;
      var id := rules.hash(header);
      if id in index { return Accepted(index[id].height); }
      var height := 0;
      if header.prevHash != ZERO_HASH {
        if header.prevHash !in index { return Orphan; }
        var prev := index[header.prevHash];
        height := NextHeight(prev.height);
        if !rules.check(header, prev, map[], index) { return CheckFailed; }
      }
      CommitHeader(header, height);
      r := Accepted(height);
    }

    /** `handle_store_block_indexes`: one write batch. */
    method StoreBlockIndexes(pending: seq<(Hash, BlockIndex)>, bestTip: Option<Hash>)
      modifies this`index, this`tip, this`heightIndex
      ensures index == PutAll(old(index), pending) && heightIndex == PutHeights(old(heightIndex), pending)
      ensures tip == if bestTip.Some? then bestTip else old(tip)
    {
      for i := 0 to |pending|
        invariant index == PutAll(old(index), pending[..i]) && tip == old(tip)
        invariant heightIndex == PutHeights(old(heightIndex), pending[..i])
      {
        assert pending[..i + 1][..i] == pending[..i];
        index := index[pending[i].0 := pending[i].1];
        heightIndex := heightIndex[pending[i].1.height := pending[i].0];
      }
      assert pending[..|pending|] == pending;
      if bestTip.Some? { tip := bestTip; }
    }

    /** `process_headers`: plan the batch in local variables, then commit it in one write. */
    method ProcessHeaders(headers: seq<Header>) returns (r: Outcome<seq<u32>>)
      modifies this`index, this`tip, this`heightIndex
      ensures (View(), r) == AcceptBatch(old(View()), headers, rules)
      ensures heightIndex == if r.CheckFailed? then old(heightIndex)
                         else PutHeights(old(heightIndex), PlanFor(old(View()), headers, rules).pending)
    {
      hide LeValue, AddWork, TipWork, PlanFor, PutAll, PutHeights;
      var heights: seq<u32>, pending: seq<(Hash, BlockIndex)> := [], [];
      var byHash: map<Hash, BlockIndex>, byHeight: map<u32, BlockIndex> := map[], map[];
      var bestWork := CurrentWork();
      var bestTip: Option<Hash> := None;
      ghost var t := View();
      PlanEmpty(t, rules);
      var i := 0;
      while i < |headers|
        invariant 0 <= i <= |headers| && View() == t && heightIndex == old(heightIndex)
        invariant PlanFor(t, headers[..i], rules) == Plan(byHash, byHeight, pending, heights, bestWork, bestTip, Going)
      {
        var header := headers[i];
        PlanStep(t, headers, i, rules);
        i := i + 1;
        var id := rules.hash(header);
        if id in index {
          heights := heights + [index[id].height];
          byHeight := byHeight[index[id].height := index[id]];
          byHash := byHash[id := index[id]];
          continue;
        }
        var prev: BlockIndex;
        if header.prevHash in byHash { prev := byHash[header.prevHash]; }
        else if header.prevHash in index { prev := index[header.prevHash]; }
        else {
          PlanHalts(t, headers, i, rules);
          break;
        }
        var height := NextHeight(prev.height);
        if !rules.check(header, prev, byHeight, index) {
          PlanHalts(t, headers, i, rules);
          return CheckFailed;
        }
        var work := WorkAfter(prev.work, header.bits);
        var x := BlockIndex(header, height, work);
        var order := Compact.Compare(work, bestWork);
        if order == Compact.Greater {
          bestWork := work;
          bestTip := Some(id);
        }
        heights := heights + [height];
        byHeight := byHeight[height := x];
        byHash := byHash[id := x];
        pending := pending + [(id, x)];
      }
      assert headers[..|headers|] == headers;
      if pending != [] {
        StoreBlockIndexes(pending, bestTip);
      } else {
        NothingPending(t, headers, rules);
        NoHeights(heightIndex);
      }
      r := Accepted(heights);
    }
  }

  lemma PlanEmpty(t: Tree, rules: Rules)
    ensures PlanFor(t, [], rules) == Plan(map[], map[], [], [], TipWork(t), None, Going)
  {
  }

  lemma PlanStep(t: Tree, headers: seq<Header>, i: nat, rules: Rules)
    requires i < |headers|
    ensures var p := PlanFor(t, headers[..i], rules);
      PlanFor(t, headers[..i + 1], rules) == if p.status != Going then p else Extend(t, p, headers[i], rules)
  {
    assert headers[..i + 1][..i] == headers[..i];
  }

  /** Once the loop has stopped, the rest of the batch is not looked at. */
  lemma {:induction false} PlanHalts(t: Tree, headers: seq<Header>, i: nat, rules: Rules)
    requires i <= |headers| && PlanFor(t, headers[..i], rules).status != Going
    ensures PlanFor(t, headers, rules) == PlanFor(t, headers[..i], rules)
    decreases |headers| - i
  {
    hide PlanFor, Extend;
    if i == |headers| {
      assert headers[..i] == headers;
    } else {
      PlanStep(t, headers, i, rules);
      PlanHalts(t, headers, i + 1, rules);
    }
  }

  lemma {:induction false} NothingPending(t: Tree, headers: seq<Header>, rules: Rules)
    ensures var p := PlanFor(t, headers, rules);
      p.pending == [] ==> p.bestTip == None && PutAll(t.index, p.pending) == t.index
  {
    hide AddWork, LeValue;
    if headers != [] {
      NothingPending(t, headers[..|headers| - 1], rules);
    }
  }

  // ------------------------------------------------------------ the invariant

  predicate Extends(x: BlockIndex, prev: BlockIndex) { x == Child(x.header, prev) }

  /** The header passed its check against this parent, with some batch and store before it. */
  ghost predicate Passed(h: Header, prev: BlockIndex, rules: Rules) {
    exists batch: map<u32, BlockIndex>, store: map<Hash, BlockIndex> :: rules.check(h, prev, batch, store)
  }

  /**
   * Every header is filed under its hash and, unless its parent is zero, hangs off a stored parent against which it
   * passed the check. A single header with a zero parent is taken unchecked.
   */
  ghost predicate Linked(index: map<Hash, BlockIndex>, rules: Rules) {
    forall id :: id in index ==>
      && rules.hash(index[id].header) == id
      && (index[id].header.prevHash != ZERO_HASH ==>
        && index[id].header.prevHash in index && Extends(index[id], index[index[id].header.prevHash])
        && Passed(index[id].header, index[index[id].header.prevHash], rules))
  }

  /** Roots start at height zero with their own work, provided no header hashes to zero itself. */
  ghost predicate Rooted(index: map<Hash, BlockIndex>) {
    ZERO_HASH !in index ==>
      forall id :: id in index && index[id].header.prevHash == ZERO_HASH ==>
        index[id].height == 0 && index[id].work == AddWork(ZERO_HASH, index[id].header.bits)
  }

  ghost predicate NoneHeavier(index: map<Hash, BlockIndex>, work: Hash) {
    forall id :: id in index ==> LeValue(index[id].work) <= LeValue(work)
  }

  ghost predicate Sound(t: Tree, rules: Rules) {
    && Linked(t.index, rules) && Rooted(t.index)
    && (t.tip.Some? ==> t.tip.value in t.index)
    && NoneHeavier(t.index, TipWork(t))
  }

  /** Adding a leaf under a new hash keeps the links and the roots. */
  lemma AddLeaf(index: map<Hash, BlockIndex>, id: Hash, x: BlockIndex, rules: Rules)
    requires Linked(index, rules) && Rooted(index) && id !in index && rules.hash(x.header) == id
    requires if x.header.prevHash == ZERO_HASH && ZERO_HASH !in index
             then x == BlockIndex(x.header, 0, AddWork(ZERO_HASH, x.header.bits))
             else x.header.prevHash == ZERO_HASH || (x.header.prevHash in index && Extends(x, index[x.header.prevHash]))
    requires x.header.prevHash != ZERO_HASH ==> Passed(x.header, index[x.header.prevHash], rules)
    ensures Linked(index[id := x], rules) && Rooted(index[id := x])
  {
    hide AddWork, Passed;
    var more := index[id := x];
    forall other | other in more
      ensures rules.hash(more[other].header) == other
      ensures more[other].header.prevHash != ZERO_HASH ==>
        && more[other].header.prevHash in more && Extends(more[other], more[more[other].header.prevHash])
        && Passed(more[other].header, more[more[other].header.prevHash], rules)
    {
      if other != id { assert more[other] == index[other]; }
    }
  }

  /** Taking the tip when strictly heavier keeps the tip heaviest. */
  lemma InsertTip(t: Tree, id: Hash, x: BlockIndex)
    requires id !in t.index && (t.tip.Some? ==> t.tip.value in t.index) && NoneHeavier(t.index, TipWork(t))
    ensures var u := Insert(t, id, x); (u.tip.Some? ==> u.tip.value in u.index) && NoneHeavier(u.index, TipWork(u))
  {
    hide LeValue;
    ZeroIsZero();
    var u := Insert(t, id, x);
    forall other | other in u.index
      ensures LeValue(u.index[other].work) <= LeValue(TipWork(u))
    {
      if other != id { assert u.index[other] == t.index[other]; }
    }
  }

  lemma InsertIsSound(t: Tree, id: Hash, x: BlockIndex, rules: Rules)
    requires Sound(t, rules) && id !in t.index && rules.hash(x.header) == id
    requires if x.header.prevHash == ZERO_HASH then x == BlockIndex(x.header, 0, AddWork(ZERO_HASH, x.header.bits))
             else x.header.prevHash in t.index && Extends(x, t.index[x.header.prevHash])
    requires x.header.prevHash != ZERO_HASH ==> Passed(x.header, t.index[x.header.prevHash], rules)
    ensures Sound(Insert(t, id, x), rules)
  {
    hide Passed, LeValue, AddWork, Linked, Rooted, Extends, NoneHeavier, TipWork, Heavier;
    AddLeaf(t.index, id, x, rules);
    InsertTip(t, id, x);
  }

  lemma AcceptOneIsSound(t: Tree, h: Header, rules: Rules)
    requires Sound(t, rules)
    ensures Sound(AcceptOne(t, h, rules).0, rules)
  {
    hide Sound, AddWork, Insert;
    var id := rules.hash(h);
    if id !in t.index {
      if h.prevHash == ZERO_HASH {
        InsertIsSound(t, id, BlockIndex(h, 0, AddWork(ZERO_HASH, h.bits)), rules);
      } else if h.prevHash in t.index && rules.check(h, t.index[h.prevHash], map[], t.index) {
        InsertIsSound(t, id, Child(h, t.index[h.prevHash]), rules);
      }
    }
  }

  ghost predicate CollisionFree(headers: seq<Header>, rules: Rules) {
    forall g, h :: g in headers && h in headers && rules.hash(g) == rules.hash(h) ==> g == h
  }

  /** A planned entry: new to the store, from this batch, and a child of what the merged index holds. */
  ghost predicate Planned(t: Tree, all: map<Hash, BlockIndex>, headers: seq<Header>, id: Hash) {
    id in all && id !in t.index ==>
      && all[id].header in headers
      && all[id].header.prevHash in all && Extends(all[id], all[all[id].header.prevHash])
  }

  /** What the batch loop keeps true of the index it is about to write. */
  ghost predicate PlanOk(t: Tree, p: Plan, all: map<Hash, BlockIndex>, headers: seq<Header>, rules: Rules) {
    && Linked(all, rules) && Rooted(all)
    && Submap(t.index, all) && Submap(p.byHash, all)
    && (forall id :: id in all ==> Planned(t, all, headers, id))
    && NoneHeavier(all, p.bestWork)
    && (if p.bestTip.Some? then p.bestTip.value in all && all[p.bestTip.value].work == p.bestWork
        else p.bestWork == TipWork(t))
  }

  /** Planning one more header either repeats an entry of this batch or adds a new leaf. */
  lemma PlanChild(t: Tree, p: Plan, all: map<Hash, BlockIndex>, headers: seq<Header>, h: Header, rules: Rules)
    requires PlanOk(t, p, all, headers, rules) && CollisionFree(headers, rules) && h in headers
    requires var id := rules.hash(h); id !in t.index && Parent(t, p, h.prevHash).Some?
    ensures h.prevHash in all && Parent(t, p, h.prevHash).value == all[h.prevHash]
    ensures var id := rules.hash(h); id in all ==> all[id] == Child(h, all[h.prevHash])
  {
    hide LeValue, AddWork, TipWork;
    var id := rules.hash(h);
    if id in all {
      assert Planned(t, all, headers, id);
      assert all[id].header == h;
    }
  }

  lemma PlanGrows(
    t: Tree, p: Plan, all: map<Hash, BlockIndex>, more: map<Hash, BlockIndex>, headers: seq<Header>, h: Header,
    rules: Rules)
    requires PlanOk(t, p, all, headers, rules) && h in headers && rules.hash(h) !in all && h.prevHash in all
    requires Passed(h, all[h.prevHash], rules)
    requires more == all[rules.hash(h) := Child(h, all[h.prevHash])]
    ensures Linked(more, rules) && Rooted(more)
    ensures forall other :: other in more ==> Planned(t, more, headers, other)
  {
    hide LeValue, AddWork, TipWork, NoneHeavier, Linked, Rooted, Submap, NextHeight, Passed;
    var id := rules.hash(h);
    AddLeaf(all, id, Child(h, all[h.prevHash]), rules);
    forall other | other in more
      ensures Planned(t, more, headers, other)
    {
      if other != id { assert Planned(t, all, headers, other); }
    }
  }

  ghost predicate Submap(small: map<Hash, BlockIndex>, big: map<Hash, BlockIndex>) {
    forall id :: id in small ==> id in big && big[id] == small[id]
  }

  lemma SubmapGrows(small: map<Hash, BlockIndex>, big: map<Hash, BlockIndex>, id: Hash, x: BlockIndex)
    requires Submap(small, big) && (id in big ==> big[id] == x)
    ensures Submap(small, big[id := x]) && Submap(small[id := x], big[id := x])
  {
  }

  /** The best header of a batch stays the heaviest of all entries. */
  lemma BestGrows(all: map<Hash, BlockIndex>, id: Hash, x: BlockIndex, best: Hash)
    requires NoneHeavier(all, best)
    ensures NoneHeavier(all[id := x], if Heavier(x.work, best) then x.work else best)
  {
    hide LeValue;
  }

  lemma PutOneMore(index: map<Hash, BlockIndex>, pending: seq<(Hash, BlockIndex)>, id: Hash, x: BlockIndex)
    ensures PutAll(index, pending + [(id, x)]) == PutAll(index, pending)[id := x]
  {
    assert (pending + [(id, x)])[..|pending|] == pending;
  }

  lemma ExtendKeepsPlan(t: Tree, p: Plan, headers: seq<Header>, h: Header, rules: Rules)
    requires PlanOk(t, p, PutAll(t.index, p.pending), headers, rules) && CollisionFree(headers, rules) && h in headers
    requires p.status == Going
    ensures var q := Extend(t, p, h, rules); PlanOk(t, q, PutAll(t.index, q.pending), headers, rules)
  {
    hide LeValue, AddWork, TipWork, Linked, Rooted, Planned, Child, Heavier, NoneHeavier, CollisionFree, PutAll;
    var all := PutAll(t.index, p.pending);
    var q := Extend(t, p, h, rules);
    var id := rules.hash(h);
    if id in t.index {
      SubmapNote(p.byHash, all, id);
    } else if Parent(t, p, h.prevHash).Some? && q.status == Going {
      PlanChild(t, p, all, headers, h, rules);
      var x := Child(h, all[h.prevHash]);
      PutOneMore(t.index, p.pending, id, x);
      SubmapGrows(p.byHash, all, id, x);
      SubmapGrows(t.index, all, id, x);
      BestGrows(all, id, x, p.bestWork);
      if id in all {
        assert all[id := x] == all;
      } else {
        assert rules.check(h, all[h.prevHash], p.byHeight, t.index);
        PlanGrows(t, p, all, all[id := x], headers, h, rules);
      }
      hide Submap;
    }
  }

  lemma SubmapNote(small: map<Hash, BlockIndex>, big: map<Hash, BlockIndex>, id: Hash)
    requires Submap(small, big) && id in big
    ensures Submap(small[id := big[id]], big)
  {
  }

  lemma {:induction false} PlanForOk(t: Tree, some: seq<Header>, headers: seq<Header>, rules: Rules)
    requires Sound(t, rules) && CollisionFree(headers, rules)
    requires forall h :: h in some ==> h in headers
    ensures var p := PlanFor(t, some, rules); PlanOk(t, p, PutAll(t.index, p.pending), headers, rules)
  {
    hide LeValue, AddWork, Extend, TipWork, Linked, Rooted;
    if some != [] {
      var n := |some| - 1;
      PlanForOk(t, some[..n], headers, rules);
      hide Sound, CollisionFree, PlanOk;
      var p := PlanFor(t, some[..n], rules);
      assert some[n] in headers;
      if p.status == Going { ExtendKeepsPlan(t, p, headers, some[n], rules); }
    }
  }

  lemma AcceptBatchIsSound(t: Tree, headers: seq<Header>, rules: Rules)
    requires Sound(t, rules) && CollisionFree(headers, rules)
    ensures Sound(AcceptBatch(t, headers, rules).0, rules)
  {
    hide LeValue, AddWork, PlanFor, PutAll, Linked, Rooted, CollisionFree, Planned;
    PlanForOk(t, headers, headers, rules);
  }

  // ------------------------------------------------------------------- whole runs

  datatype Message = One(header: Header) | Batch(headers: seq<Header>)

  function Handle(t: Tree, m: Message, rules: Rules): Tree {
    match m
    case One(h) => AcceptOne(t, h, rules).0
    case Batch(hs) => AcceptBatch(t, hs, rules).0
  }

  function HandleAll(t: Tree, ms: seq<Message>, rules: Rules): Tree {
    if ms == [] then t else Handle(HandleAll(t, ms[..|ms| - 1], rules), ms[|ms| - 1], rules)
  }

  /** Over every run of headers and batches the tree stays linked and its tip stays heaviest. */
  lemma {:induction false} RunIsSound(t: Tree, ms: seq<Message>, rules: Rules)
    requires Sound(t, rules)
    requires forall i :: 0 <= i < |ms| && ms[i].Batch? ==> CollisionFree(ms[i].headers, rules)
    ensures Sound(HandleAll(t, ms, rules), rules)
  {
    hide Sound, AcceptOne, AcceptBatch, CollisionFree;
    if ms != [] {
      var n := |ms| - 1;
      RunIsSound(t, ms[..n], rules);
      match ms[n]
      case One(h) => AcceptOneIsSound(HandleAll(t, ms[..n], rules), h, rules);
      case Batch(hs) =>
        assert ms[n].Batch?;
        AcceptBatchIsSound(HandleAll(t, ms[..n], rules), hs, rules);
    }
  }

  /** Loading genesis takes the tip unasked: that is right exactly when nothing stored is heavier. */
  lemma GenesisIsSound(t: Tree, genesis: Header, rules: Rules)
    requires Sound(t, rules) && genesis.prevHash == ZERO_HASH
    ensures Sound(LoadedGenesis(t, genesis, rules), rules) <==>
      rules.hash(genesis) in t.index || NoneHeavier(t.index, AddWork(ZERO_HASH, genesis.bits))
  {
    hide LeValue, AddWork;
    var id := rules.hash(genesis);
    var after := LoadedGenesis(t, genesis, rules);
    if id !in t.index {
      assert TipWork(after) == AddWork(ZERO_HASH, genesis.bits);
      if Sound(after, rules) {
        forall other | other in t.index
          ensures LeValue(t.index[other].work) <= LeValue(AddWork(ZERO_HASH, genesis.bits))
        {
          assert after.index[other] == t.index[other];
        }
      }
    }
  }

  lemma WorkFits(bits: u32)
    ensures ProofOfWork.BlockWork(bits) < WORK_LIMIT
    ensures LeValue(AddWork(ZERO_HASH, bits)) == ProofOfWork.BlockWork(bits)
  {
    hide LeValue, Pow, Compact.TargetOf, ProofOfWork.FloorDiv, AddWork;
    ZeroIsZero();
    if Compact.TargetOf(bits) != 0 {
      ProofOfWork.FloorDivFacts(WORK_LIMIT, Compact.TargetOf(bits) + 1);
      MulLe(ProofOfWork.FloorDiv(WORK_LIMIT, Compact.TargetOf(bits) + 1), 2, Compact.TargetOf(bits) + 1);
    }
    AddWorkValue(ZERO_HASH, bits);
  }

  /** It is wrong, for one, when a heavier root was accepted before genesis was loaded. */
  lemma GenesisTakesTip(genesis: Header, root: Header, rules: Rules)
    requires genesis.prevHash == ZERO_HASH && root.prevHash == ZERO_HASH && rules.hash(genesis) != rules.hash(root)
    requires ProofOfWork.BlockWork(genesis.bits) < ProofOfWork.BlockWork(root.bits)
    ensures var t := AcceptOne(Tree(map[], None), root, rules).0;
      Sound(t, rules) && !Sound(LoadedGenesis(t, genesis, rules), rules)
  {
    hide LeValue, AddWork, ProofOfWork.BlockWork, LoadedGenesis, Linked, Rooted;
    EmptyIsSound(rules);
    AcceptOneIsSound(Tree(map[], None), root, rules);
    var t := AcceptOne(Tree(map[], None), root, rules).0;
    GenesisIsSound(t, genesis, rules);
    WorkFits(genesis.bits);
    WorkFits(root.bits);
    assert t.index[rules.hash(root)].work == AddWork(ZERO_HASH, root.bits);
  }

  lemma EmptyIsSound(rules: Rules)
    ensures Sound(Tree(map[], None), rules)
  {
    hide LeValue, AddWork;
  }

  /** Main-network difficulty outweighs regression-test difficulty, so such headers exist. */
  lemma HeavierBits()
    ensures ProofOfWork.BlockWork(0x207f_ffff) < ProofOfWork.BlockWork(0x1d00_ffff)
  {
    hide Pow, Compact.TargetOf, ProofOfWork.FloorDiv;
    var q := Pow(256, 26);
    SmallPowers();
    Targets();
    PowAdd(256, 6, 26);
    PowAdd(256, 3, 3);
    PowAdd(256, 3, 26);
    var easy, hard := Compact.TargetOf(0x207f_ffff), Compact.TargetOf(0x1d00_ffff);
    ProofOfWork.FloorDivFacts(WORK_LIMIT, easy + 1);
    ProofOfWork.FloorDivFacts(WORK_LIMIT, hard + 1);
    var few, many := ProofOfWork.FloorDiv(WORK_LIMIT, easy + 1), ProofOfWork.FloorDiv(WORK_LIMIT, hard + 1);
    FewOrMany(q, easy + 1, few, hard + 1, many);
  }

  lemma FewOrMany(q: nat, d: nat, few: nat, e: nat, many: nat)
    requires q > 0 && d == 0x7f_ffff * 0x100_0000 * q + 1 && e == 0xffff * q + 1
    requires d * few <= 0x1_0000_0000_0000 * q && 0x1_0000_0000_0000 * q < e * many + e
    ensures few < many
  {
    if few >= 3 { MulLe(d, 3, few); }
    if many <= 3 { MulLe(e, many, 3); }
  }

  lemma Targets()
    ensures Compact.TargetOf(0x207f_ffff) == 0x7f_ffff * Pow(256, 29)
    ensures Compact.TargetOf(0x1d00_ffff) == 0xffff * Pow(256, 26)
  {
    hide Pow, Compact.TargetOf;
    Compact.TargetValue(0x207f_ffff);
    Compact.TargetValue(0x1d00_ffff);
    Compact.CanonicalFits(29, 0x7f_ffff);
    Compact.CanonicalFits(26, 0xffff);
    ModSmall(0x7f_ffff * Pow(256, 29), Pow(256, 32));
    ModSmall(0xffff * Pow(256, 26), Pow(256, 32));
  }

  // ------------------------------------------------- the tip as the heaviest chain

  /** A chain of stored headers from a root, each the parent of the next. */
  ghost predicate IsChain(index: map<Hash, BlockIndex>, path: seq<Hash>) {
    && path != [] && (forall i :: 0 <= i < |path| ==> path[i] in index)
    && index[path[0]].header.prevHash == ZERO_HASH
    && forall i :: 0 < i < |path| ==> index[path[i]].header.prevHash == path[i - 1]
  }

  ghost function TotalWork(index: map<Hash, BlockIndex>, path: seq<Hash>): nat
    requires forall i :: 0 <= i < |path| ==> path[i] in index
  {
    if path == [] then 0
    else TotalWork(index, path[..|path| - 1]) + ProofOfWork.BlockWork(index[path[|path| - 1]].header.bits)
  }

  lemma AddWorkValue(work: Hash, bits: u32)
    requires LeValue(work) + ProofOfWork.BlockWork(bits) < WORK_LIMIT
    ensures LeValue(AddWork(work, bits)) == LeValue(work) + ProofOfWork.BlockWork(bits)
  {
    hide LeValue, Pow, ProofOfWork.BlockWork, LeBytes;
    var sum := LeValue(work) + ProofOfWork.BlockWork(bits);
    ModSmall(sum, WORK_LIMIT);
    LeBytesValue(32, sum);
  }

  lemma ParentFacts(t: Tree, id: Hash, rules: Rules)
    requires Sound(t, rules) && ZERO_HASH !in t.index && id in t.index
    ensures var x := t.index[id];
      if x.header.prevHash == ZERO_HASH then x.height == 0 && x.work == AddWork(ZERO_HASH, x.header.bits)
      else x.header.prevHash in t.index && x == Child(x.header, t.index[x.header.prevHash])
  {
    hide LeValue, AddWork, NoneHeavier;
  }

  /** Stored work is the sum of the work along the chain, and stored height is the length of it. */
  lemma {:induction false} ChainWorkIsTotal(t: Tree, path: seq<Hash>, rules: Rules)
    requires Sound(t, rules) && ZERO_HASH !in t.index && IsChain(t.index, path)
    requires TotalWork(t.index, path) < WORK_LIMIT
    ensures var x := t.index[path[|path| - 1]];
      && LeValue(x.work) == TotalWork(t.index, path)
      && x.height as int == if |path| <= 0xffff_ffff then |path| - 1 else 0xffff_ffff
  {
    hide LeValue, AddWork, ProofOfWork.BlockWork, Sound, Pow;
    var n := |path| - 1;
    var x := t.index[path[n]];
    ParentFacts(t, path[n], rules);
    if n == 0 {
      ZeroIsZero();
      assert path[..0] == [];
      assert TotalWork(t.index, []) == 0;
      AddWorkValue(ZERO_HASH, x.header.bits);
    } else {
      assert IsChain(t.index, path[..n]);
      ChainWorkIsTotal(t, path[..n], rules);
      var prev := t.index[path[n - 1]];
      assert path[..n][n - 1] == path[n - 1];
      assert x.header.prevHash == path[n - 1];
      AddWorkValue(prev.work, x.header.bits);
    }
  }

  lemma RootIsChain(index: map<Hash, BlockIndex>, id: Hash)
    requires id in index
    ensures index[id].header.prevHash == ZERO_HASH ==> IsChain(index, [id])
  {
  }

  lemma ChainGrows(index: map<Hash, BlockIndex>, path: seq<Hash>, id: Hash)
    requires IsChain(index, path) && id in index && index[id].header.prevHash == path[|path| - 1]
    ensures IsChain(index, path + [id])
  {
  }

  lemma NextHeightFacts()
    ensures forall h: u32 :: NextHeight(h) > 0 && (NextHeight(h) < 0xffff_ffff ==> NextHeight(h) == h + 1)
    ensures forall h: Header, prev: BlockIndex :: Child(h, prev).height == NextHeight(prev.height)
  {
    hide AddWork;
  }

  /** Every stored header ends such a chain, as long as heights have not saturated. */
  lemma {:induction false} ChainExists(t: Tree, id: Hash, rules: Rules) returns (path: seq<Hash>)
    requires Sound(t, rules) && ZERO_HASH !in t.index && id in t.index && t.index[id].height < 0xffff_ffff
    ensures IsChain(t.index, path) && path[|path| - 1] == id && |path| == t.index[id].height as int + 1
    decreases t.index[id].height
  {
    ParentFacts(t, id, rules);
    RootIsChain(t.index, id);
    hide *;
    NextHeightFacts();
    var x := t.index[id];
    if x.header.prevHash == ZERO_HASH {
      path := [id];
    } else {
      var rest := ChainExists(t, x.header.prevHash, rules);
      ChainGrows(t.index, rest, id);
      path := rest + [id];
    }
  }

  /**
   * The headers tip ends a chain, and no stored chain has more total work, as long as the totals stay
   * below 2^256.
   */
  lemma TipIsHeaviestChain(t: Tree, path: seq<Hash>, rules: Rules) returns (best: seq<Hash>)
    requires Sound(t, rules) && ZERO_HASH !in t.index && t.tip.Some? && t.index[t.tip.value].height < 0xffff_ffff
    requires IsChain(t.index, path) && TotalWork(t.index, path) < WORK_LIMIT
    ensures IsChain(t.index, best) && best[|best| - 1] == t.tip.value
    ensures TotalWork(t.index, best) < WORK_LIMIT ==> TotalWork(t.index, path) <= TotalWork(t.index, best)
  {
    hide LeValue, AddWork, Linked, Rooted, TotalWork, Pow;
    best := ChainExists(t, t.tip.value, rules);
    ChainWorkIsTotal(t, path, rules);
    if TotalWork(t.index, best) < WORK_LIMIT { ChainWorkIsTotal(t, best, rules); }
  }
}
