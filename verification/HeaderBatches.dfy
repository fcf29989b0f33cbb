/** What a batch of headers achieves: a connected line is stored whole, a gap keeps what came before it. */
module HeaderBatches {
  import opened Bytes
  import opened Wire
  import opened Transaction
  import opened Headers

  // ------------------------------------------------------------------ single headers

  /** A header is stored if it is known, a root, or passes its check against a stored parent, and only then. */
  lemma SingleHeaderStored(t: Tree, h: Header, rules: Rules)
    ensures var (after, r) := AcceptOne(t, h, rules); var id := rules.hash(h);
      && (id in after.index <==>
        || id in t.index || h.prevHash == ZERO_HASH
        || (h.prevHash in t.index && rules.check(h, t.index[h.prevHash], map[], t.index)))
      && (r.Accepted? <==> id in after.index)
      && (id in after.index ==> r == Accepted(after.index[id].height))
      && (id in after.index && id !in t.index ==> after.index[id].header == h)
      && (forall other :: other != id ==>
        && (other in after.index <==> other in t.index)
        && (other in t.index ==> after.index[other] == t.index[other]))
  {
    hide AddWork, LeValue, TipWork;
  }

  /** The tip moves to a new header exactly when that has strictly more work; a tie keeps the first. */
  lemma SingleHeaderTip(t: Tree, h: Header, rules: Rules)
    requires t.tip.Some? ==> t.tip.value in t.index
    ensures var after, id := AcceptOne(t, h, rules).0, rules.hash(h);
      after.tip == if id in after.index && id !in t.index && LeValue(after.index[id].work) > LeValue(TipWork(t))
                   then Some(id) else t.tip
  {
    hide AddWork, LeValue;
  }

  /** The work a batch compares with only goes up, and a candidate has strictly more than the tip it started from. */
  lemma {:induction false} PlanBest(t: Tree, headers: seq<Header>, rules: Rules)
    ensures var p := PlanFor(t, headers, rules);
      if p.bestTip.Some? then LeValue(p.bestWork) > LeValue(TipWork(t)) else p.bestWork == TipWork(t)
  {
    hide AddWork, LeValue, TipWork;
    if headers != [] { PlanBest(t, headers[..|headers| - 1], rules); }
  }

  /** So a batch changes the tip only for strictly more work. */
  lemma BatchTip(t: Tree, headers: seq<Header>, rules: Rules)
    requires Sound(t, rules) && CollisionFree(headers, rules)
    ensures var after := AcceptBatch(t, headers, rules).0;
      after.tip == t.tip || LeValue(TipWork(after)) > LeValue(TipWork(t))
  {
    PlanBest(t, headers, rules);
    PlanForOk(t, headers, headers, rules);
    hide PlanFor, PutAll, LeValue, AddWork, Linked, Rooted, Planned, NoneHeavier, Submap;
  }

  // -------------------------------------------------------------------- a connected line

  ghost predicate Follows(headers: seq<Header>, i: nat, rules: Rules)
    requires 0 < i < |headers|
  {
    headers[i].prevHash == rules.hash(headers[i - 1])
  }

  /** New headers, each the child of the one before, the first of a stored one. */
  ghost predicate Line(t: Tree, headers: seq<Header>, rules: Rules) {
    && headers != [] && headers[0].prevHash in t.index
    && (forall i :: 0 < i < |headers| ==> Follows(headers, i, rules))
    && (forall i :: 0 <= i < |headers| ==> rules.hash(headers[i]) !in t.index)
    && (forall i, j :: 0 <= i < j < |headers| ==> rules.hash(headers[i]) != rules.hash(headers[j]))
  }

  /** A header whose check passes whatever batch and store it is made with. */
  ghost predicate Passes(h: Header, rules: Rules) {
    forall prev: BlockIndex, batch: map<u32, BlockIndex>, store: map<Hash, BlockIndex> ::
      rules.check(h, prev, batch, store)
  }

  /** The height `n` places above a parent, as long as heights fit. */
  function Above(height: u32, n: nat): u32 { if height + n < 0xffff_ffff then height + n else 0xffff_ffff }

  /** The entry a line gives its header `i`. */
  ghost function EntryAt(t: Tree, headers: seq<Header>, i: nat): BlockIndex
    requires i < |headers| && headers[0].prevHash in t.index
  {
    Child(headers[i], if i == 0 then t.index[headers[0].prevHash] else EntryAt(t, headers, i - 1))
  }

  lemma {:induction false} EntryHeight(t: Tree, headers: seq<Header>, i: nat)
    requires i < |headers| && headers[0].prevHash in t.index
    ensures EntryAt(t, headers, i).header == headers[i]
    ensures EntryAt(t, headers, i).height == Above(t.index[headers[0].prevHash].height, i + 1)
  {
    hide AddWork;
    if i > 0 { EntryHeight(t, headers, i - 1); }
  }

  ghost predicate PlannedLine(t: Tree, headers: seq<Header>, n: nat, p: Plan, rules: Rules)
    requires n <= |headers| && Line(t, headers, rules)
  {
    && p.status == Going && |p.pending| == n && |p.heights| == n
    && (forall i :: 0 <= i < n ==> p.pending[i] == (rules.hash(headers[i]), EntryAt(t, headers, i)))
    && (forall i :: 0 <= i < n ==> p.heights[i] == EntryAt(t, headers, i).height)
    && (n == 0 ==> p.byHash == map[])
    && (n > 0 ==>
      && rules.hash(headers[n - 1]) in p.byHash
      && p.byHash[rules.hash(headers[n - 1])] == EntryAt(t, headers, n - 1))
  }

  lemma LineStep(t: Tree, headers: seq<Header>, n: nat, p: Plan, rules: Rules)
    requires Line(t, headers, rules) && n < |headers| && PlannedLine(t, headers, n, p, rules)
    requires Passes(headers[n], rules)
    ensures PlannedLine(t, headers, n + 1, Extend(t, p, headers[n], rules), rules)
  {
    hide Child, LeValue;
    var h := headers[n];
    var prev := if n == 0 then t.index[h.prevHash] else EntryAt(t, headers, n - 1);
    assert n > 0 ==> Follows(headers, n, rules);
    assert Parent(t, p, h.prevHash) == Some(prev);
    assert rules.check(h, prev, p.byHeight, t.index);
  }

  lemma {:induction false} LineIsPlanned(t: Tree, headers: seq<Header>, n: nat, rules: Rules)
    requires Line(t, headers, rules) && n <= |headers| && forall i :: 0 <= i < n ==> Passes(headers[i], rules)
    ensures PlannedLine(t, headers, n, PlanFor(t, headers[..n], rules), rules)
  {
    if n == 0 {
      PlanEmpty(t, rules);
      assert headers[..0] == [];
    } else {
      LineIsPlanned(t, headers, n - 1, rules);
      PlanStep(t, headers, n - 1, rules);
      LineStep(t, headers, n - 1, PlanFor(t, headers[..n - 1], rules), rules);
    }
  }

  lemma ByHeightLast(t: Tree, headers: seq<Header>, n: nat, rules: Rules)
    requires Line(t, headers, rules) && 0 < n <= |headers| && forall j :: 0 <= j < n ==> Passes(headers[j], rules)
    ensures var x := EntryAt(t, headers, n - 1);
      && PlanFor(t, headers[..n], rules).byHeight == PlanFor(t, headers[..n - 1], rules).byHeight[x.height := x]
      && x.header == headers[n - 1] && x.height == Above(t.index[headers[0].prevHash].height, n)
  {
    hide *;
    LineIsPlanned(t, headers, n - 1, rules);
    var p := PlanFor(t, headers[..n - 1], rules);
    PlannedGoing(t, headers, n - 1, p, rules);
    NotedLast(t, headers, n - 1, p, rules);
    EntryHeight(t, headers, n - 1);
    PlanStep(t, headers, n - 1, rules);
  }

  lemma PlannedGoing(t: Tree, headers: seq<Header>, n: nat, p: Plan, rules: Rules)
    requires Line(t, headers, rules) && n <= |headers| && PlannedLine(t, headers, n, p, rules)
    ensures p.status == Going && headers[0].prevHash in t.index
  {
  }

  /** Later checks see the earlier headers of the line by height. */
  lemma {:induction false} LineByHeight(t: Tree, headers: seq<Header>, n: nat, i: nat, rules: Rules)
    requires Line(t, headers, rules) && i < n <= |headers| && forall j :: 0 <= j < n ==> Passes(headers[j], rules)
    requires t.index[headers[0].prevHash].height + n < 0xffff_ffff
    ensures var seen := PlanFor(t, headers[..n], rules).byHeight; var h := t.index[headers[0].prevHash].height + 1 + i;
      h in seen && seen[h].header == headers[i]
  {
    hide PlanFor, Passes, EntryAt, Follows;
    ByHeightLast(t, headers, n, rules);
    if i < n - 1 { LineByHeight(t, headers, n - 1, i, rules); }
  }

  lemma NotedLast(t: Tree, headers: seq<Header>, n: nat, p: Plan, rules: Rules)
    requires Line(t, headers, rules) && n < |headers| && PlannedLine(t, headers, n, p, rules)
    requires Passes(headers[n], rules)
    ensures Extend(t, p, headers[n], rules).byHeight
      == p.byHeight[EntryAt(t, headers, n).height := EntryAt(t, headers, n)]
  {
    hide Child, LeValue;
    var h := headers[n];
    var prev := if n == 0 then t.index[h.prevHash] else EntryAt(t, headers, n - 1);
    assert n > 0 ==> Follows(headers, n, rules);
    assert Parent(t, p, h.prevHash) == Some(prev);
    assert rules.check(h, prev, p.byHeight, t.index);
  }

  ghost predicate DistinctKeys(pending: seq<(Hash, BlockIndex)>) {
    forall i, j :: 0 <= i < j < |pending| ==> pending[i].0 != pending[j].0
  }

  /** Writing entries under distinct hashes stores each of them and nothing else. */
  lemma {:induction false} PutAllStores(index: map<Hash, BlockIndex>, pending: seq<(Hash, BlockIndex)>, id: Hash)
    requires DistinctKeys(pending)
    ensures forall i :: 0 <= i < |pending| ==>
      pending[i].0 in PutAll(index, pending) && PutAll(index, pending)[pending[i].0] == pending[i].1
    ensures (forall i :: 0 <= i < |pending| ==> pending[i].0 != id) ==>
      (id in PutAll(index, pending) <==> id in index) && (id in index ==> PutAll(index, pending)[id] == index[id])
  {
    if pending != [] {
      var n := |pending| - 1;
      PutAllStores(index, pending[..n], id);
      assert forall i :: 0 <= i < n ==> pending[..n][i] == pending[i];
    }
  }

  /**
   * A connected line of new headers that pass their checks is stored whole: one height per header, consecutive from
   * the parent's, and every header `i` under its hash.
   */
  lemma LineIsStored(t: Tree, headers: seq<Header>, rules: Rules, i: nat)
    requires Line(t, headers, rules) && forall j :: 0 <= j < |headers| ==> Passes(headers[j], rules)
    requires i < |headers|
    ensures var (after, r) := AcceptBatch(t, headers, rules);
      var height, id := Above(t.index[headers[0].prevHash].height, i + 1), rules.hash(headers[i]);
      && r.Accepted? && |r.value| == |headers| && r.value[i] == height
      && id in after.index && after.index[id].header == headers[i] && after.index[id].height == height
  {
    LinePlan(t, headers, rules);
    PlannedIsStored(t, headers, PlanFor(t, headers, rules), rules, i);
    hide PlanFor, Passes, PutAll, PlannedLine, Line, Above;
  }

  /** And every other entry is as it was. */
  lemma LineLeavesOthers(t: Tree, headers: seq<Header>, rules: Rules, other: Hash)
    requires Line(t, headers, rules) && forall j :: 0 <= j < |headers| ==> Passes(headers[j], rules)
    requires forall j :: 0 <= j < |headers| ==> rules.hash(headers[j]) != other
    ensures var after := AcceptBatch(t, headers, rules).0;
      (other in after.index <==> other in t.index) && (other in t.index ==> after.index[other] == t.index[other])
  {
    LinePlan(t, headers, rules);
    var p := PlanFor(t, headers, rules);
    PlannedKeys(t, headers, p, rules, other);
    PutAllStores(t.index, p.pending, other);
    hide PlanFor, Passes, PutAll, PlannedLine, Line, DistinctKeys;
  }

  lemma LinePlan(t: Tree, headers: seq<Header>, rules: Rules)
    requires Line(t, headers, rules) && forall j :: 0 <= j < |headers| ==> Passes(headers[j], rules)
    ensures var p := PlanFor(t, headers, rules);
      PlannedLine(t, headers, |headers|, p, rules) && p.status == Going && |p.heights| == |headers|
  {
    hide Passes, PlanFor;
    LineIsPlanned(t, headers, |headers|, rules);
    assert headers[..|headers|] == headers;
  }

  /** Header `i` of the line, with its height, in the answer and in the index to be written. */
  ghost predicate StoredAt(t: Tree, headers: seq<Header>, p: Plan, rules: Rules, i: nat)
    requires i < |headers| && headers[0].prevHash in t.index && |p.heights| == |headers|
  {
    var index, id := PutAll(t.index, p.pending), rules.hash(headers[i]);
    var height := Above(t.index[headers[0].prevHash].height, i + 1);
    p.heights[i] == height && id in index && index[id].header == headers[i] && index[id].height == height
  }

  lemma PlannedKeys(t: Tree, headers: seq<Header>, p: Plan, rules: Rules, other: Hash)
    requires Line(t, headers, rules) && PlannedLine(t, headers, |headers|, p, rules)
    ensures DistinctKeys(p.pending)
    ensures (forall i :: 0 <= i < |headers| ==> rules.hash(headers[i]) != other) ==>
      forall i :: 0 <= i < |p.pending| ==> p.pending[i].0 != other
  {
    hide EntryAt;
  }

  lemma PlannedIsStored(t: Tree, headers: seq<Header>, p: Plan, rules: Rules, i: nat)
    requires Line(t, headers, rules) && PlannedLine(t, headers, |headers|, p, rules) && i < |headers|
    ensures StoredAt(t, headers, p, rules, i)
  {
    PlannedKeys(t, headers, p, rules, headers[0].prevHash);
    PutAllStores(t.index, p.pending, headers[0].prevHash);
    assert p.pending[i] == (rules.hash(headers[i]), EntryAt(t, headers, i));
    assert p.heights[i] == EntryAt(t, headers, i).height;
    assert headers[0].prevHash in t.index;
    hide EntryAt, PutAll, PlannedLine, Line, DistinctKeys, Above;
    EntryHeight(t, headers, i);
  }

  // --------------------------------------------------------------------- known headers

  ghost predicate AllKnown(t: Tree, headers: seq<Header>, rules: Rules) {
    forall i :: 0 <= i < |headers| ==> rules.hash(headers[i]) in t.index
  }

  lemma {:induction false} KnownPlan(t: Tree, headers: seq<Header>, rules: Rules)
    requires AllKnown(t, headers, rules)
    ensures var p := PlanFor(t, headers, rules);
      && p.status == Going && p.pending == [] && p.bestTip == None && |p.heights| == |headers|
      && forall i :: 0 <= i < |headers| ==> p.heights[i] == t.index[rules.hash(headers[i])].height
  {
    if headers != [] {
      var n := |headers| - 1;
      KnownPlan(t, headers[..n], rules);
      assert forall i :: 0 <= i < n ==> headers[..n][i] == headers[i];
    }
  }

  /** Headers that are all stored already change nothing, and are answered with their stored heights. */
  lemma KnownBatch(t: Tree, headers: seq<Header>, rules: Rules)
    requires AllKnown(t, headers, rules)
    ensures var (after, r) := AcceptBatch(t, headers, rules);
      && after == t && r.Accepted? && |r.value| == |headers|
      && forall i :: 0 <= i < |headers| ==> r.value[i] == t.index[rules.hash(headers[i])].height
  {
    hide PlanFor;
    KnownPlan(t, headers, rules);
  }

  // ------------------------------------------------------------------------------ gaps

  /** The batch remembers only hashes it has seen. */
  lemma {:induction false} PlanRemembers(t: Tree, headers: seq<Header>, rules: Rules, id: Hash)
    requires id in PlanFor(t, headers, rules).byHash
    ensures exists i :: 0 <= i < |headers| && rules.hash(headers[i]) == id
  {
    hide Child, LeValue;
    if headers != [] {
      var n := |headers| - 1;
      var p := PlanFor(t, headers[..n], rules);
      if id in p.byHash {
        PlanRemembers(t, headers[..n], rules, id);
        var i :| 0 <= i < n && rules.hash(headers[..n][i]) == id;
        assert rules.hash(headers[i]) == id;
      } else {
        assert rules.hash(headers[n]) == id;
      }
    }
  }

  lemma NotRemembered(t: Tree, headers: seq<Header>, rules: Rules, id: Hash)
    requires forall i :: 0 <= i < |headers| ==> rules.hash(headers[i]) != id
    ensures id !in PlanFor(t, headers, rules).byHash
  {
    hide PlanFor;
    if id in PlanFor(t, headers, rules).byHash { PlanRemembers(t, headers, rules, id); }
  }

  /**
   * At a header whose parent is neither stored nor earlier in the batch, exactly what the headers before it achieve is
   * kept, whatever follows.
   */
  lemma GapKeepsPrefix(t: Tree, headers: seq<Header>, n: nat, rules: Rules)
    requires n < |headers| && PlanFor(t, headers[..n], rules).status == Going
    requires rules.hash(headers[n]) !in t.index && headers[n].prevHash !in t.index
    requires forall i :: 0 <= i < n ==> rules.hash(headers[i]) != headers[n].prevHash
    ensures AcceptBatch(t, headers, rules) == AcceptBatch(t, headers[..n], rules)
  {
    hide Child, LeValue, PlanFor, PutAll;
    NotRemembered(t, headers[..n], rules, headers[n].prevHash);
    PlanStep(t, headers, n, rules);
    PlanHalts(t, headers, n + 1, rules);
  }

  /** So a line followed by a gap stores exactly the line. */
  lemma LineThenGap(t: Tree, line: seq<Header>, gap: Header, rest: seq<Header>, rules: Rules)
    requires Line(t, line, rules) && forall i :: 0 <= i < |line| ==> Passes(line[i], rules)
    requires rules.hash(gap) !in t.index && gap.prevHash !in t.index
    requires forall i :: 0 <= i < |line| ==> rules.hash(line[i]) != gap.prevHash
    ensures AcceptBatch(t, line + [gap] + rest, rules) == AcceptBatch(t, line, rules)
  {
    hide *;
    LinePlan(t, line, rules);
    var headers, n := line + [gap] + rest, |line|;
    assert headers[..n] == line && headers[n] == gap;
    forall i | 0 <= i < n ensures rules.hash(headers[i]) != gap.prevHash { assert headers[i] == line[i]; }
    GapKeepsPrefix(t, headers, n, rules);
  }

  /** A header that fails its check drops the whole batch, the headers before it included. */
  lemma FailureDropsBatch(t: Tree, headers: seq<Header>, n: nat, rules: Rules)
    requires n < |headers| && rules.hash(headers[n]) !in t.index
    requires var p := PlanFor(t, headers[..n], rules);
      p.status == Going && Parent(t, p, headers[n].prevHash).Some?
      && !rules.check(headers[n], Parent(t, p, headers[n].prevHash).value, p.byHeight, t.index)
    ensures AcceptBatch(t, headers, rules) == (t, CheckFailed)
  {
    hide Child, LeValue, PlanFor, PutAll, Parent;
    PlanStep(t, headers, n, rules);
    PlanHalts(t, headers, n + 1, rules);
  }

  // ------------------------------------------------------------------------- the height index

  /** Of the headers of a batch at one height the last is found under it, */
  lemma {:induction false} LastAtHeight(heights: map<u32, Hash>, pending: seq<(Hash, BlockIndex)>, k: nat)
    requires k < |pending| && forall i :: k < i < |pending| ==> pending[i].1.height != pending[k].1.height
    ensures var index := PutHeights(heights, pending); var h := pending[k].1.height;
      h in index && index[h] == pending[k].0
  {
    var n := |pending| - 1;
    if k < n {
      assert forall i :: 0 <= i < n ==> pending[..n][i] == pending[i];
      LastAtHeight(heights, pending[..n], k);
    }
  }

  /** and heights the batch does not reach stay as they were. */
  lemma {:induction false} OtherHeights(heights: map<u32, Hash>, pending: seq<(Hash, BlockIndex)>, h: u32)
    requires forall i :: 0 <= i < |pending| ==> pending[i].1.height != h
    ensures var index := PutHeights(heights, pending);
      (h in index <==> h in heights) && (h in heights ==> index[h] == heights[h])
  {
    if pending != [] { OtherHeights(heights, pending[..|pending| - 1], h); }
  }
}
