/** Block downloads: which block is in flight with which peer, and who may not be asked again. */
module Downloads {
  import opened Bytes
  import opened Transaction

  type Peer = seq<byte>

  const MAX_BLOCKS_IN_TRANSIT_PER_PEER: nat := 64
  const BLOCK_REQUEST_TIMEOUT: nat := 30
  const BOTTLENECK_SECONDS: nat := 60

  datatype Request = Request(peer: Peer, since: nat, height: nat)

  /** `SyncDownloadState`. */
  datatype State = State(
    inFlight: map<Hash, Request>, workload: map<Peer, nat>, blacklist: map<Hash, seq<Peer>>)

  function Load(s: State, p: Peer): nat { if p in s.workload then s.workload[p] else 0 }

  function Among(f: map<Hash, Request>, some: set<Hash>, p: Peer): set<Hash>
    requires some <= f.Keys
  {
    set h | h in some && f[h].peer == p
  }

  function Assigned(f: map<Hash, Request>, p: Peer): set<Hash> { Among(f, f.Keys, p) }

  function PeersOf(f: map<Hash, Request>, some: set<Hash>): set<Peer>
    requires some <= f.Keys
  {
    set h | h in some :: f[h].peer
  }

  /** How many of `some` blocks each peer was asked for. */
  function Tally(f: map<Hash, Request>, some: set<Hash>): map<Peer, nat>
    requires some <= f.Keys
  {
    map p | p in PeersOf(f, some) :: |Among(f, some, p)|
  }

  predicate Banned(s: State, h: Hash, p: Peer) { h in s.blacklist && p in s.blacklist[h] }

  function Expired(f: map<Hash, Request>, now: nat, timeout: nat): set<Hash> {
    set h | h in f && now - f[h].since >= timeout
  }

  // ------------------------------------------------- what each locked section does

  function Marked(s: State, h: Hash, p: Peer, now: nat, height: nat): State {
    s.(inFlight := s.inFlight[h := Request(p, now, height)], workload := s.workload[p := Load(s, p) + 1])
  }

  function SaturatingSub(a: nat, b: nat): nat { if a < b then 0 else a - b }

  /** The load comes off the peer the block was assigned to, whoever delivered it. */
  function Received(s: State, h: Hash): State {
    if h !in s.inFlight then s
    else
      var p := s.inFlight[h].peer;
      var workload := if p in s.workload then s.workload[p := SaturatingSub(s.workload[p], 1)] else s.workload;
      s.(inFlight := s.inFlight - {h}, workload := workload)
  }

  function Stumbled(s: State, h: Hash, p: Peer): State {
    s.(blacklist := s.blacklist[h := (if h in s.blacklist then s.blacklist[h] else []) + [p]])
  }

  function Disconnected(s: State, p: Peer): State {
    s.(inFlight := map h | h in s.inFlight && s.inFlight[h].peer != p :: s.inFlight[h], workload := s.workload - {p})
  }

  function ClearedInFlight(s: State): State { s.(inFlight := map[], workload := map[]) }

  function ClearedBlacklist(s: State): State { s.(blacklist := map[]) }

  function Recalculated(s: State): State {
    s.(workload := Tally(s.inFlight, s.inFlight.Keys))
  }

  function WithFailure(list: seq<Peer>, p: Peer): seq<Peer> { if p in list then list else list + [p] }

  /** Requests that took too long leave, their peers are relieved of them and barred from those blocks. */
  function Pruned(s: State, now: nat, timeout: nat): State {
    var gone := Expired(s.inFlight, now, timeout);
    State(
      s.inFlight - gone,
      map p | p in s.workload :: SaturatingSub(s.workload[p], |Among(s.inFlight, gone, p)|),
      Barred(s.blacklist, s.inFlight, gone))
  }

  // ------------------------------------------------------------- the invariants

  /** Every counter is the number of blocks in flight with that peer. */
  ghost predicate Balanced(s: State) { forall p :: Load(s, p) == |Assigned(s.inFlight, p)| }

  ghost predicate WithinLimit(s: State) { forall p :: Load(s, p) <= MAX_BLOCKS_IN_TRANSIT_PER_PEER }

  ghost predicate NoneBanned(s: State) { forall h :: h in s.inFlight ==> !Banned(s, h, s.inFlight[h].peer) }

  ghost predicate Sound(s: State) { Balanced(s) && WithinLimit(s) && NoneBanned(s) }

  lemma AssignedMark(f: map<Hash, Request>, h: Hash, r: Request)
    requires h !in f
    ensures Assigned(f[h := r], r.peer) == Assigned(f, r.peer) + {h}
    ensures forall p :: p != r.peer ==> Assigned(f[h := r], p) == Assigned(f, p)
  {
  }

  lemma AssignedRemove(f: map<Hash, Request>, gone: set<Hash>, p: Peer)
    ensures Assigned(f - gone, p) == Assigned(f, p) - gone
    ensures gone <= f.Keys ==> |Assigned(f - gone, p)| == |Assigned(f, p)| - |Among(f, gone, p)|
  {
    var a := Assigned(f, p);
    assert a == (a - gone) + (a * gone);
    if gone <= f.Keys { assert Among(f, gone, p) == a * gone; }
  }

  lemma MarkedBalance(s: State, h: Hash, p: Peer, now: nat, height: nat)
    requires Balanced(s) && h !in s.inFlight
    ensures Balanced(Marked(s, h, p, now, height))
  {
    var t := Marked(s, h, p, now, height);
    AssignedMark(s.inFlight, h, Request(p, now, height));
    forall q ensures Load(t, q) == |Assigned(t.inFlight, q)| {
      assert Load(s, q) == |Assigned(s.inFlight, q)|;
    }
  }

  lemma ReceivedBalance(s: State, h: Hash)
    requires Balanced(s)
    ensures Balanced(Received(s, h))
    ensures forall q :: Load(Received(s, h), q) <= Load(s, q)
  {
    if h in s.inFlight {
      var t := Received(s, h);
      var p := s.inFlight[h].peer;
      forall q ensures Load(t, q) == |Assigned(t.inFlight, q)| && Load(t, q) <= Load(s, q) {
        assert Load(s, q) == |Assigned(s.inFlight, q)|;
        AssignedRemove(s.inFlight, {h}, q);
        assert Among(s.inFlight, {h}, q) == if q == p then {h} else {};
      }
    }
  }

  lemma DisconnectedBalance(s: State, p: Peer)
    requires Balanced(s)
    ensures Balanced(Disconnected(s, p))
    ensures forall q :: Load(Disconnected(s, p), q) <= Load(s, q)
  {
    var t := Disconnected(s, p);
    forall q ensures Load(t, q) == |Assigned(t.inFlight, q)| && Load(t, q) <= Load(s, q) {
      assert Load(s, q) == |Assigned(s.inFlight, q)|;
      assert Assigned(t.inFlight, q) == if q == p then {} else Assigned(s.inFlight, q);
    }
  }

  lemma RecalculatedBalance(s: State)
    ensures Balanced(Recalculated(s))
    ensures Balanced(s) ==> forall q :: Load(Recalculated(s), q) == Load(s, q)
  {
    var t := Recalculated(s);
    forall q ensures Load(t, q) == |Assigned(s.inFlight, q)| {
      if q !in t.workload { assert Assigned(s.inFlight, q) == {}; }
    }
    assert Balanced(t);
  }

  lemma PrunedBalance(s: State, now: nat, timeout: nat)
    requires Balanced(s)
    ensures Balanced(Pruned(s, now, timeout))
    ensures forall q :: Load(Pruned(s, now, timeout), q) <= Load(s, q)
  {
    hide Assigned;
    var t := Pruned(s, now, timeout);
    var gone := Expired(s.inFlight, now, timeout);
    forall q ensures Load(t, q) == |Assigned(t.inFlight, q)| && Load(t, q) <= Load(s, q) {
      assert Load(s, q) == |Assigned(s.inFlight, q)|;
      AssignedRemove(s.inFlight, gone, q);
    }
  }

  /** A prune removes exactly the requests that are at least as old as the timeout, and bars exactly their peers. */
  lemma PruneMeans(s: State, now: nat, timeout: nat, h: Hash, p: Peer)
    ensures var t := Pruned(s, now, timeout);
      && (h in t.inFlight <==> h in s.inFlight && now < s.inFlight[h].since + timeout)
      && (h in t.inFlight ==> t.inFlight[h] == s.inFlight[h])
      && (Banned(t, h, p) <==>
        Banned(s, h, p) || (h in s.inFlight && s.inFlight[h].peer == p && now >= s.inFlight[h].since + timeout))
  {
    hide Among;
  }

  /** A stumble bars that peer from that block, and changes no other ban. */
  lemma StumbleMeans(s: State, h: Hash, p: Peer, g: Hash, q: Peer)
    ensures Banned(Stumbled(s, h, p), g, q) <==> Banned(s, g, q) || (g == h && q == p)
  {
  }

  /** A mark asks this peer for this block now; every other request stays. */
  lemma MarkMeans(s: State, h: Hash, p: Peer, now: nat, height: nat, g: Hash)
    ensures var t := Marked(s, h, p, now, height);
      && h in t.inFlight && t.inFlight[h].peer == p && t.inFlight[h].since == now && t.inFlight[h].height == height
      && (g != h ==> (g in t.inFlight <==> g in s.inFlight) && (g in s.inFlight ==> t.inFlight[g] == s.inFlight[g]))
  {
  }

  // -------------------------------------------------------------------- the class

  /** `SyncManager`, as far as downloads go. */
  class SyncManager {
    var inFlight: map<Hash, Request>
    var workload: map<Peer, nat>
    var blacklist: map<Hash, seq<Peer>>
    var headerRequest: Option<Peer>
    var cooldowns: set<Peer>

    ghost function View(): State
      reads this
    {
      State(inFlight, workload, blacklist)
    }

    constructor ()
      ensures View() == State(map[], map[], map[]) && headerRequest == None && cooldowns == {}
    {
      inFlight, workload, blacklist := map[], map[], map[];
      headerRequest, cooldowns := None, {};
    }

    method GetPeerWorkload(p: Peer) returns (load: nat)
      ensures load == Load(View(), p)
    {
      load := if p in workload then workload[p] else 0;
    }

    method CanPeerDownloadBlock(h: Hash, p: Peer) returns (ok: bool)
      ensures ok == !Banned(View(), h, p)
    {
      if h in blacklist { ok := p !in blacklist[h]; } else { ok := true; }
    }

    method MarkBlockInFlight(h: Hash, p: Peer, now: nat, height: nat)
      modifies this`inFlight, this`workload
      ensures View() == Marked(old(View()), h, p, now, height)
    {
      inFlight := inFlight[h := Request(p, now, height)];
      var count := if p in workload then workload[p] else 0;
      workload := workload[p := count + 1];
    }

    method MarkBlockReceived(h: Hash)
      modifies this`inFlight, this`workload
      ensures View() == Received(old(View()), h)
    {
      if h in inFlight {
        var p := inFlight[h].peer;
        inFlight := inFlight - {h};
        if p in workload && workload[p] > 0 { workload := workload[p := workload[p] - 1]; }
      }
    }

    method RecordBlockStumble(h: Hash, p: Peer)
      modifies this`blacklist
      ensures View() == Stumbled(old(View()), h, p)
    {
      var list := if h in blacklist then blacklist[h] else [];
      blacklist := blacklist[h := list + [p]];
    }

    method ClearInFlight()
      modifies this`inFlight, this`workload
      ensures View() == ClearedInFlight(old(View()))
    {
      inFlight, workload := map[], map[];
    }

    method ClearBlacklist()
      modifies this`blacklist
      ensures View() == ClearedBlacklist(old(View()))
    {
      blacklist := map[];
    }

    /** `get_bottleneck_info`: a request of the least height, with its peer and age. */
    method GetBottleneckInfo(now: nat) returns (r: Option<(Hash, Peer, int)>)
      ensures r.None? <==> inFlight == map[]
      ensures r.Some? ==>
        && r.value.0 in inFlight && r.value.1 == inFlight[r.value.0].peer
        && r.value.2 == now - inFlight[r.value.0].since
        && forall g :: g in inFlight ==> inFlight[r.value.0].height <= inFlight[g].height
    {
      var todo := inFlight.Keys;
      var best: Option<Hash> := None;
      while todo != {}
        invariant todo <= inFlight.Keys && (best.None? <==> todo == inFlight.Keys)
        invariant best.Some? ==> best.value in inFlight && best.value !in todo
        invariant best.Some? ==>
          forall g :: g in inFlight && g !in todo ==> inFlight[best.value].height <= inFlight[g].height
      {
        var h :| h in todo;
        todo := todo - {h};
        if best.None? || inFlight[h].height < inFlight[best.value].height { best := Some(h); }
      }
      if best.None? {
        assert inFlight.Keys == {};
        return None;
      }
      var h := best.value;
      return Some((h, inFlight[h].peer, now - inFlight[h].since));
    }

    /** `on_peer_disconnect`: the `retain` loop over the requests. */
    method OnPeerDisconnect(p: Peer)
      modifies this
      ensures View() == Disconnected(old(View()), p)
      ensures headerRequest == if old(headerRequest) == Some(p) then None else old(headerRequest)
      ensures cooldowns == old(cooldowns) - {p}
    {
      var todo := inFlight.Keys;
      while todo != {}
        invariant todo <= old(inFlight).Keys && workload == old(workload) && blacklist == old(blacklist)
        invariant headerRequest == old(headerRequest) && cooldowns == old(cooldowns)
        invariant forall h :: h in inFlight <==> h in old(inFlight) && (h in todo || old(inFlight)[h].peer != p)
        invariant forall h :: h in inFlight ==> inFlight[h] == old(inFlight)[h]
      {
        var h :| h in todo;
        todo := todo - {h};
        if inFlight[h].peer == p { inFlight := inFlight - {h}; }
      }
      workload := workload - {p};
      FinishHeaderRequest(p);
    }

    /** `finish_header_request`: free the slot if it is this peer's, and let the peer be asked again. */
    method FinishHeaderRequest(p: Peer)
      modifies this`headerRequest, this`cooldowns
      ensures headerRequest == if old(headerRequest) == Some(p) then None else old(headerRequest)
      ensures cooldowns == old(cooldowns) - {p}
    {
      if headerRequest == Some(p) { headerRequest := None; }
      cooldowns := cooldowns - {p};
    }

    /** `recalculate_workloads`: count again from the requests themselves. */
    method RecalculateWorkloads()
      modifies this`workload
      ensures View() == Recalculated(old(View()))
    {
      hide Tally;
      var workloads: map<Peer, nat> := map[];
      var todo, done := inFlight.Keys, {};
      TallyNone(inFlight);
      while todo != {}
        invariant todo + done == inFlight.Keys && todo !! done && View() == old(View())
        invariant workloads == Tally(inFlight, done)
      {
        var h :| h in todo;
        var p := inFlight[h].peer;
        TallyAdd(inFlight, done, h);
        var count := if p in workloads then workloads[p] else 0;
        workloads := workloads[p := count + 1];
        todo, done := todo - {h}, done + {h};
      }
      assert done == inFlight.Keys;
      workload := workloads;
    }

    /** `prune_timeouts`; each peer is returned once for every request it let expire. */
    method PruneTimeouts(now: nat, timeout: nat) returns (timedOut: seq<Peer>)
      modifies this`inFlight, this`workload, this`blacklist
      ensures View() == Pruned(old(View()), now, timeout)
      ensures IsRollCall(timedOut, old(inFlight), Expired(old(inFlight), now, timeout))
    {
      hide Tally, Among, IsRollCall;
      ghost var s := View();
      var requests := inFlight;
      var counts: map<Peer, nat> := map[];
      var todo, gone := inFlight.Keys, {};
      timedOut := [];
      TallyNone(s.inFlight);
      NobodyCalled(s.inFlight);
      while todo != {}
        invariant todo <= s.inFlight.Keys && workload == s.workload && blacklist == s.blacklist
        invariant gone == Expired(s.inFlight, now, timeout) - todo && inFlight == s.inFlight - gone
        invariant counts == Tally(s.inFlight, gone) && IsRollCall(timedOut, s.inFlight, gone)
      {
        var h :| h in todo;
        var r := inFlight[h];
        todo := todo - {h};
        if now - r.since >= timeout {
          TallyAdd(s.inFlight, gone, h);
          OneMoreCalled(timedOut, s.inFlight, gone, h);
          timedOut := timedOut + [r.peer];
          counts := counts[r.peer := (if r.peer in counts then counts[r.peer] else 0) + 1];
          gone := gone + {h};
          inFlight := inFlight - {h};
        }
      }
      assert gone == Expired(s.inFlight, now, timeout);
      Relieve(counts);
      TallyValues(s.inFlight, gone, s.workload);
      Bar(requests, gone);
    }

    /** Take each peer's timed-out requests off its counter. */
    method Relieve(counts: map<Peer, nat>)
      modifies this`workload
      ensures workload == Relieved(old(workload), counts)
    {
      var todo := counts.Keys;
      while todo != {}
        invariant todo <= counts.Keys && workload.Keys == old(workload).Keys
        invariant forall p :: p in workload ==>
          workload[p] == SaturatingSub(old(workload)[p], if p in counts && p !in todo then counts[p] else 0)
      {
        var p :| p in todo;
        todo := todo - {p};
        if p in workload { workload := workload[p := SaturatingSub(workload[p], counts[p])]; }
      }
    }

    /** Bar each peer from the blocks it let time out. */
    method Bar(requests: map<Hash, Request>, gone: set<Hash>)
      requires gone <= requests.Keys
      modifies this`blacklist
      ensures blacklist == Barred(old(blacklist), requests, gone)
    {
      var todo := gone;
      while todo != {}
        invariant todo <= gone && blacklist == Barred(old(blacklist), requests, gone - todo)
      {
        var h :| h in todo;
        ghost var done := gone - todo;
        todo := todo - {h};
        assert gone - todo == done + {h};
        var list := if h in blacklist then blacklist[h] else [];
        blacklist := blacklist[h := WithFailure(list, requests[h].peer)];
      }
    }
  }

  function Relieved(workload: map<Peer, nat>, counts: map<Peer, nat>): map<Peer, nat> {
    map p | p in workload :: SaturatingSub(workload[p], if p in counts then counts[p] else 0)
  }

  function Barred(blacklist: map<Hash, seq<Peer>>, requests: map<Hash, Request>, gone: set<Hash>): map<Hash, seq<Peer>>
    requires gone <= requests.Keys
  {
    map h | h in blacklist.Keys + gone ::
      var list := if h in blacklist then blacklist[h] else [];
      if h in gone then WithFailure(list, requests[h].peer) else list
  }

  lemma TallyNone(f: map<Hash, Request>)
    ensures Tally(f, {}) == map[]
  {
  }

  /** A list of peers that names each one as often as it occurs among some requests. */
  ghost predicate IsRollCall(peers: seq<Peer>, f: map<Hash, Request>, some: set<Hash>) {
    some <= f.Keys && forall p :: multiset(peers)[p] == |Among(f, some, p)|
  }

  lemma NobodyCalled(f: map<Hash, Request>)
    ensures IsRollCall([], f, {})
  {
  }

  lemma OneMoreCalled(peers: seq<Peer>, f: map<Hash, Request>, some: set<Hash>, h: Hash)
    requires IsRollCall(peers, f, some) && h in f && h !in some
    ensures IsRollCall(peers + [f[h].peer], f, some + {h})
  {
    hide Among;
    forall p ensures multiset(peers + [f[h].peer])[p] == |Among(f, some + {h}, p)| {
      AmongAdd(f, some, h, p);
    }
  }

  lemma PeersAdd(f: map<Hash, Request>, some: set<Hash>, h: Hash)
    requires some <= f.Keys && h in f
    ensures PeersOf(f, some + {h}) == PeersOf(f, some) + {f[h].peer}
  {
    forall p | p in PeersOf(f, some)
      ensures p in PeersOf(f, some + {h})
    {
      var g :| g in some && f[g].peer == p;
      assert g in some + {h};
    }
    assert h in some + {h};
  }

  lemma AmongAdd(f: map<Hash, Request>, some: set<Hash>, h: Hash, p: Peer)
    requires some <= f.Keys && h in f && h !in some
    ensures |Among(f, some + {h}, p)| == |Among(f, some, p)| + if p == f[h].peer then 1 else 0
    ensures p !in PeersOf(f, some) ==> |Among(f, some, p)| == 0
  {
    assert Among(f, some + {h}, p) == Among(f, some, p) + if p == f[h].peer then {h} else {};
    if p !in PeersOf(f, some) { assert Among(f, some, p) == {}; }
  }

  lemma TallyAdd(f: map<Hash, Request>, some: set<Hash>, h: Hash)
    requires some <= f.Keys && h in f && h !in some
    ensures var p := f[h].peer; var t := Tally(f, some);
      Tally(f, some + {h}) == t[p := (if p in t then t[p] else 0) + 1]
  {
    hide Among, PeersOf;
    PeersAdd(f, some, h);
    forall p ensures |Among(f, some + {h}, p)| == |Among(f, some, p)| + (if p == f[h].peer then 1 else 0)
      && (p !in PeersOf(f, some) ==> |Among(f, some, p)| == 0)
    {
      AmongAdd(f, some, h, p);
    }
  }

  /** A peer outside the tally was asked for none of the blocks. */
  lemma TallyValues(f: map<Hash, Request>, some: set<Hash>, workload: map<Peer, nat>)
    requires some <= f.Keys
    ensures Relieved(workload, Tally(f, some))
      == map p | p in workload :: SaturatingSub(workload[p], |Among(f, some, p)|)
  {
    forall p | p in workload && p !in Tally(f, some) ensures Among(f, some, p) == {} { }
  }
}
