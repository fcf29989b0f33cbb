/** Download rounds: the downloader's assignment loop, alone and interleaved with the other tasks. */
module DownloadRounds {
  import opened Transaction
  import opened Downloads

  // ------------------------------------------------------ one round, undisturbed

  predicate Distinct<T(==)>(s: seq<T>) { forall i, j :: 0 <= i < j < |s| ==> s[i] != s[j] }

  function FirstIndex(s: seq<Hash>, h: Hash): nat { if s == [] || s[0] == h then 0 else 1 + FirstIndex(s[1..], h) }

  lemma {:induction false} FirstIndexMeans(s: seq<Hash>, h: Hash)
    requires h in s
    ensures FirstIndex(s, h) < |s| && s[FirstIndex(s, h)] == h && h !in s[..FirstIndex(s, h)]
  {
    if s[0] != h {
      FirstIndexMeans(s[1..], h);
      var k := FirstIndex(s[1..], h);
      assert s[..k + 1] == [s[0]] + s[1..][..k];
    }
  }

  /** Blocks this peer may be asked for: not requested, not promised to another, and not barred. */
  predicate Eligible(s: State, p: Peer, promised: set<Hash>, h: Hash) {
    h !in s.inFlight && h !in promised && !Banned(s, h, p)
  }

  /** The first eligible blocks of the window, in order, as many as fit. */
  function Picked(s: State, p: Peer, capacity: nat, missing: seq<Hash>, promised: set<Hash>): seq<Hash> {
    if capacity == 0 || missing == [] then []
    else if Eligible(s, p, promised, missing[0])
    then [missing[0]] + Picked(s, p, capacity - 1, missing[1..], promised + {missing[0]})
    else Picked(s, p, capacity, missing[1..], promised)
  }

  lemma PickedFirst(s: State, p: Peer, promised: set<Hash>, missing: seq<Hash>, rest: seq<Hash>)
    requires missing != [] && Distinct(rest)
    requires forall h :: h in rest ==> Eligible(s, p, promised + {missing[0]}, h)
    ensures Distinct([missing[0]] + rest)
    ensures forall h :: h in rest ==> Eligible(s, p, promised, h)
  {
    assert forall i :: 0 <= i < |rest| ==> rest[i] in rest;
  }

  lemma {:induction false} PickedMeans(s: State, p: Peer, capacity: nat, missing: seq<Hash>, promised: set<Hash>)
    ensures var w := Picked(s, p, capacity, missing, promised);
      && |w| <= capacity && Distinct(w)
      && (forall h :: h in w ==> h in missing && Eligible(s, p, promised, h))
      && (|w| == capacity || forall h :: h in missing && Eligible(s, p, promised, h) ==> h in w)
  {
    if capacity != 0 && missing != [] {
      var h := missing[0];
      if Eligible(s, p, promised, h) {
        PickedMeans(s, p, capacity - 1, missing[1..], promised + {h});
        PickedFirst(s, p, promised, missing, Picked(s, p, capacity - 1, missing[1..], promised + {h}));
      } else { PickedMeans(s, p, capacity, missing[1..], promised); }
    }
  }

  /** The scan over the window: as many eligible blocks as fit, in order, none twice. */
  method PickBlocks(sync: SyncManager, p: Peer, capacity: nat, missing: seq<Hash>, promised: set<Hash>)
    returns (wanted: seq<Hash>)
    ensures wanted == Picked(sync.View(), p, capacity, missing, promised)
    ensures |wanted| <= capacity && Distinct(wanted)
    ensures forall h :: h in wanted ==> h in missing && Eligible(sync.View(), p, promised, h)
    ensures |wanted| == capacity || forall h :: h in missing && Eligible(sync.View(), p, promised, h) ==> h in wanted
  {
    PickedMeans(sync.View(), p, capacity, missing, promised);
    wanted := [];
    var taken := promised;
    for i := 0 to |missing|
      invariant |wanted| <= capacity
      invariant wanted + Picked(sync.View(), p, capacity - |wanted|, missing[i..], taken)
        == Picked(sync.View(), p, capacity, missing, promised)
    {
      if |wanted| >= capacity { break; }
      var h := missing[i];
      assert missing[i..][1..] == missing[i + 1..];
      var allowed := sync.CanPeerDownloadBlock(h, p);
      if h !in sync.inFlight && h !in taken && allowed {
        wanted := wanted + [h];
        taken := taken + {h};
      }
    }
  }

  ghost predicate OnlyAdds(s: State, t: State, p: Peer, wanted: seq<Hash>) {
    && t.blacklist == s.blacklist
    && (forall h :: h in t.inFlight <==> h in s.inFlight || h in wanted)
    && (forall h :: h in s.inFlight ==> h in t.inFlight && t.inFlight[h] == s.inFlight[h])
    && (forall h :: h in wanted ==> h in t.inFlight && t.inFlight[h].peer == p)
    && (forall q :: Load(t, q) == Load(s, q) + if q == p then |wanted| else 0)
  }

  lemma OnlyAddsOne(s: State, t: State, p: Peer, wanted: seq<Hash>, h: Hash, now: nat, height: nat)
    requires OnlyAdds(s, t, p, wanted) && h !in t.inFlight
    ensures OnlyAdds(s, Marked(t, h, p, now, height), p, wanted + [h])
  {
  }

  /** Mark a whole request list in flight, with heights counted from the position in the window. */
  method MarkAll(sync: SyncManager, p: Peer, wanted: seq<Hash>, missing: seq<Hash>, base: nat, now: nat)
    requires Balanced(sync.View()) && Distinct(wanted) && forall h :: h in wanted ==> h !in sync.inFlight
    modifies sync
    ensures Balanced(sync.View()) && OnlyAdds(old(sync.View()), sync.View(), p, wanted)
    ensures forall h :: h in wanted ==> sync.inFlight[h] == Request(p, now, base + 1 + FirstIndex(missing, h))
  {
    hide Balanced, OnlyAdds, FirstIndex;
    ghost var s := sync.View();
    OnlyAddsNone(s, p);
    for i := 0 to |wanted|
      invariant Balanced(sync.View()) && OnlyAdds(s, sync.View(), p, wanted[..i])
      invariant forall k :: i <= k < |wanted| ==> wanted[k] !in sync.inFlight
      invariant forall k :: 0 <= k < i ==>
        && wanted[k] in sync.inFlight
        && sync.inFlight[wanted[k]] == Request(p, now, base + 1 + FirstIndex(missing, wanted[k]))
    {
      var h := wanted[i];
      var height := base + 1 + FirstIndex(missing, h);
      MarkedBalance(sync.View(), h, p, now, height);
      OnlyAddsOne(s, sync.View(), p, wanted[..i], h, now, height);
      assert wanted[..i + 1] == wanted[..i] + [h];
      sync.MarkBlockInFlight(h, p, now, height);
    }
    assert wanted[..|wanted|] == wanted;
  }

  lemma OnlyAddsNone(s: State, p: Peer)
    ensures OnlyAdds(s, s, p, [])
  {
  }

  /** What a round owes a peer whose requests went out: each missing block is asked for, or cannot be. */
  ghost predicate Served(s: State, missing: seq<Hash>, dropped: set<Hash>, p: Peer) {
    Load(s, p) == MAX_BLOCKS_IN_TRANSIT_PER_PEER
    || forall h :: h in missing ==> h in s.inFlight || h in dropped || Banned(s, h, p)
  }

  lemma AddsKeepSound(s: State, t: State, p: Peer, wanted: seq<Hash>)
    requires Sound(s) && Balanced(t) && OnlyAdds(s, t, p, wanted)
    requires Load(s, p) + |wanted| <= MAX_BLOCKS_IN_TRANSIT_PER_PEER && forall h :: h in wanted ==> !Banned(s, h, p)
    ensures Sound(t)
  {
  }

  lemma AddsKeepServed(
    s: State, t: State, p: Peer, wanted: seq<Hash>, missing: seq<Hash>, dropped: set<Hash>, q: Peer)
    requires OnlyAdds(s, t, p, wanted) && Served(s, missing, dropped, q) && WithinLimit(t)
    ensures Served(t, missing, dropped, q)
  {
    assert Load(t, q) == Load(s, q) + if q == p then |wanted| else 0;
    assert Load(t, q) <= MAX_BLOCKS_IN_TRANSIT_PER_PEER;
  }

  /** Only this peer's own requests are gone. */
  ghost predicate OnlyReleases(s: State, t: State, p: Peer) {
    && t.blacklist == s.blacklist
    && (forall h :: h in t.inFlight <==> h in s.inFlight && s.inFlight[h].peer != p)
    && (forall h :: h in t.inFlight ==> t.inFlight[h] == s.inFlight[h])
    && (forall q :: Load(t, q) == if q == p then 0 else Load(s, q))
  }

  lemma ReleaseKeepsServed(s: State, t: State, p: Peer, missing: seq<Hash>, dropped: set<Hash>, q: Peer)
    requires OnlyReleases(s, t, p) && q != p && Served(s, missing, dropped, q)
    ensures Served(t, missing, dropped + Assigned(s.inFlight, p), q)
  {
    assert Load(t, q) == Load(s, q);
  }

  lemma ReleaseKeepsSound(s: State, t: State, p: Peer)
    requires OnlyReleases(s, t, p) && Balanced(t) && Sound(s)
    ensures Sound(t)
  {
    forall q ensures Load(t, q) <= MAX_BLOCKS_IN_TRANSIT_PER_PEER {
      assert Load(s, q) <= MAX_BLOCKS_IN_TRANSIT_PER_PEER;
    }
  }

  /** Some of this peer's requests are gone, and nothing else has changed. */
  ghost predicate ReleasesSome(s: State, t: State, p: Peer) {
    && t.blacklist == s.blacklist && Balanced(t)
    && (forall h :: h in t.inFlight ==> h in s.inFlight && t.inFlight[h] == s.inFlight[h])
    && (forall h :: h in s.inFlight && s.inFlight[h].peer != p ==> h in t.inFlight)
    && (forall q :: q != p ==> Load(t, q) == Load(s, q))
  }

  lemma ReleaseOneMore(s: State, t: State, p: Peer, h: Hash)
    requires ReleasesSome(s, t, p) && (h in s.inFlight ==> s.inFlight[h].peer == p)
    ensures ReleasesSome(s, Received(t, h), p)
  {
    ReceivedBalance(t, h);
    hide Balanced;
  }

  lemma ReleaseRest(s: State, t: State, p: Peer)
    requires ReleasesSome(s, t, p)
    ensures OnlyReleases(s, Disconnected(t, p), p) && Balanced(Disconnected(t, p))
  {
    DisconnectedBalance(t, p);
    hide Balanced;
  }

  /** A failed send: clear the list again, then drop the peer. */
  method Unmark(sync: SyncManager, p: Peer, wanted: seq<Hash>)
    requires Balanced(sync.View()) && forall h :: h in wanted ==> h in sync.inFlight && sync.inFlight[h].peer == p
    modifies sync
    ensures Balanced(sync.View()) && OnlyReleases(old(sync.View()), sync.View(), p)
  {
    hide Balanced, OnlyReleases;
    ghost var s := sync.View();
    assert ReleasesSome(s, s, p);
    for i := 0 to |wanted|
      invariant ReleasesSome(s, sync.View(), p)
    {
      ReleaseOneMore(s, sync.View(), p, wanted[i]);
      sync.MarkBlockReceived(wanted[i]);
    }
    ReleaseRest(s, sync.View(), p);
    sync.OnPeerDisconnect(p);
  }

  /**
   * The assignment loop of `coordinate_downloads`. Besides keeping every invariant it leaves nothing on the
   * table: afterwards each missing block is in flight, or was given back by a failed send, unless every
   * reachable peer is full or barred from it.
   */
  method AssignBlocks(
    sync: SyncManager, peers: seq<Peer>, missing: seq<Hash>, base: nat, now: nat, sendOk: Peer -> bool)
    returns (ghost dropped: set<Hash>)
    requires Sound(sync.View())
    modifies sync
    ensures Sound(sync.View()) && sync.blacklist == old(sync.blacklist)
    ensures forall p :: p in peers && sendOk(p) ==> Served(sync.View(), missing, dropped, p)
    ensures (forall p :: p in peers ==> sendOk(p)) ==> dropped == {}
    ensures forall h :: h in sync.inFlight ==> h in old(sync.inFlight) || h in missing
  {
    hide Balanced, WithinLimit, NoneBanned, OnlyAdds, OnlyReleases, Served;
    dropped := {};
    var promised: set<Hash> := {};
    for i := 0 to |peers|
      invariant Sound(sync.View()) && sync.blacklist == old(sync.blacklist)
      invariant forall k :: 0 <= k < i && sendOk(peers[k]) ==> Served(sync.View(), missing, dropped, peers[k])
      invariant forall h :: h in promised ==> h in sync.inFlight || h in dropped
      invariant (forall k :: 0 <= k < i ==> sendOk(peers[k])) ==> dropped == {}
      invariant forall h :: h in sync.inFlight ==> h in old(sync.inFlight) || h in missing
    {
      var p := peers[i];
      var load := sync.GetPeerWorkload(p);
      if load >= MAX_BLOCKS_IN_TRANSIT_PER_PEER {
        FullIsServed(sync.View(), missing, dropped, p);
        continue;
      }
      var wanted := PickBlocks(sync, p, MAX_BLOCKS_IN_TRANSIT_PER_PEER - load, missing, promised);
      ghost var before := sync.View();
      MarkAll(sync, p, wanted, missing, base, now);
      ghost var marked := sync.View();
      AddsKeepSound(before, marked, p, wanted);
      forall k | 0 <= k < i && sendOk(peers[k]) ensures Served(marked, missing, dropped, peers[k]) {
        AddsKeepServed(before, marked, p, wanted, missing, dropped, peers[k]);
      }
      PickedIsServed(before, marked, p, wanted, missing, promised, dropped);
      promised := promised + (set h | h in wanted);
      if wanted != [] && !sendOk(p) {
        Unmark(sync, p, wanted);
        ReleaseKeepsSound(marked, sync.View(), p);
        forall k | 0 <= k < i && sendOk(peers[k])
          ensures Served(sync.View(), missing, dropped + Assigned(marked.inFlight, p), peers[k])
        {
          ReleaseKeepsServed(marked, sync.View(), p, missing, dropped, peers[k]);
        }
        ReleasedAreDropped(marked, sync.View(), p);
        dropped := dropped + Assigned(marked.inFlight, p);
      }
    }
  }

  lemma FullIsServed(s: State, missing: seq<Hash>, dropped: set<Hash>, p: Peer)
    requires Load(s, p) >= MAX_BLOCKS_IN_TRANSIT_PER_PEER && WithinLimit(s)
    ensures Served(s, missing, dropped, p)
  {
  }

  lemma ReleasedAreDropped(s: State, t: State, p: Peer)
    requires OnlyReleases(s, t, p)
    ensures forall h :: h in s.inFlight ==> h in t.inFlight || h in Assigned(s.inFlight, p)
    ensures forall h :: h in t.inFlight ==> h in s.inFlight
    ensures t.blacklist == s.blacklist
  {
  }

  lemma PickedIsServed(
    s: State, t: State, p: Peer, wanted: seq<Hash>, missing: seq<Hash>, promised: set<Hash>, dropped: set<Hash>)
    requires OnlyAdds(s, t, p, wanted) && Load(s, p) <= MAX_BLOCKS_IN_TRANSIT_PER_PEER
    requires |wanted| == MAX_BLOCKS_IN_TRANSIT_PER_PEER - Load(s, p)
      || forall h :: h in missing && Eligible(s, p, promised, h) ==> h in wanted
    requires forall h :: h in promised ==> h in s.inFlight || h in dropped
    ensures Served(t, missing, dropped, p)
    ensures forall h :: h in promised || h in wanted ==> h in t.inFlight || h in dropped
    ensures forall h :: h in t.inFlight ==> h in s.inFlight || h in wanted
    ensures forall h :: h in wanted ==> h in t.inFlight && t.inFlight[h].peer == p
    ensures t.blacklist == s.blacklist
  {
    assert Load(t, p) == Load(s, p) + |wanted|;
  }

  // ------------------------------------------------- rounds among the other tasks

  datatype Round = Round(missing: seq<Hash>, promised: set<Hash>)

  /**
   * Where the downloader is between two acquisitions of the lock. Everything it learned earlier may be out of
   * date: other tasks receive blocks and disconnect peers at any moment.
   */
  datatype Phase =
    | Idle
    | Reconciled
    | Inspecting
    | Stalled(hash: Hash, peer: Peer)
    | Barring(hash: Hash, peer: Peer)
    | Housekeeping
    | Choosing(round: Round)
    | Scanning(round: Round, peer: Peer, capacity: nat, at: nat, wanted: seq<Hash>, free: bool)
    | Marking(round: Round, peer: Peer, wanted: seq<Hash>, done: nat)
    | Sending(round: Round, peer: Peer, wanted: seq<Hash>)
    | Undoing(round: Round, peer: Peer, wanted: seq<Hash>, done: nat)

  datatype System = System(state: State, phase: Phase)

  datatype Action =
    | Receive(hash: Hash) | Disconnect(peer: Peer)
    | Reconcile | Prune(now: nat) | Inspect(now: nat, hash: Hash) | Pass | Stumble | Release
    | Forgive | Reset | Quit | Begin(missing: seq<Hash>) | Choose(peer: Peer)
    | TestInFlight | TestBarred | EndScan | Mark(now: nat, height: nat) | EndMark | Sent(ok: bool) | Undo | EndUndo

  /** The oldest request, by height, that has been out for a minute. */
  predicate Bottleneck(s: State, now: nat, h: Hash) {
    && h in s.inFlight && now - s.inFlight[h].since >= BOTTLENECK_SECONDS
    && forall g :: g in s.inFlight ==> s.inFlight[h].height <= s.inFlight[g].height
  }

  /** The housekeeping at the start of a round. */
  function Prepare(y: System, a: Action): System {
    var s := y.state;
    match y.phase
    case Idle => if a.Reconcile? then System(Recalculated(s), Reconciled) else y
    case Reconciled => if a.Prune? then System(Pruned(s, a.now, BLOCK_REQUEST_TIMEOUT), Inspecting) else y
    case Inspecting =>
      if a.Inspect? && Bottleneck(s, a.now, a.hash) then System(s, Stalled(a.hash, s.inFlight[a.hash].peer))
      else if a.Pass? then System(s, Housekeeping) else y
    case Stalled(h, p) => if a.Stumble? then System(Stumbled(s, h, p), Barring(h, p)) else y
    case Barring(h, p) => if a.Release? then System(Received(s, h), Housekeeping) else y
    case Housekeeping =>
      if a.Forgive? then System(ClearedBlacklist(s), Housekeeping)
      else if a.Reset? then System(ClearedInFlight(s), Housekeeping)
      else if a.Quit? then System(s, Idle)
      else if a.Begin? then System(s, Choosing(Round(a.missing, {}))) else y
    case _ => y
  }

  /** One peer after another: measure its room, scan the window, mark, send, and undo if the send failed. */
  function Assign(y: System, a: Action): System {
    var s := y.state;
    match y.phase
    case Choosing(r) =>
      if a.Quit? then System(s, Idle)
      else if a.Choose? && Load(s, a.peer) < MAX_BLOCKS_IN_TRANSIT_PER_PEER
      then System(s, Scanning(r, a.peer, MAX_BLOCKS_IN_TRANSIT_PER_PEER - Load(s, a.peer), 0, [], false)) else y
    case Scanning(r, p, capacity, at, wanted, free) =>
      if |wanted| >= capacity || at >= |r.missing| then (if a.EndScan? then System(s, Marking(r, p, wanted, 0)) else y)
      else if !free then
        (if !a.TestInFlight? then y
         else if r.missing[at] in s.inFlight then System(s, Scanning(r, p, capacity, at + 1, wanted, false))
         else System(s, Scanning(r, p, capacity, at, wanted, true)))
      else if !a.TestBarred? then y
      else if r.missing[at] in r.promised || Banned(s, r.missing[at], p)
      then System(s, Scanning(r, p, capacity, at + 1, wanted, false))
      else System(s, Scanning(
        r.(promised := r.promised + {r.missing[at]}), p, capacity, at + 1, wanted + [r.missing[at]], false))
    case Marking(r, p, wanted, done) =>
      if done < |wanted| then
        (if a.Mark? then System(Marked(s, wanted[done], p, a.now, a.height), Marking(r, p, wanted, done + 1)) else y)
      else if a.EndMark? then System(s, if wanted == [] then Choosing(r) else Sending(r, p, wanted)) else y
    case Sending(r, p, wanted) =>
      if a.Sent? then System(s, if a.ok then Choosing(r) else Undoing(r, p, wanted, 0)) else y
    case Undoing(r, p, wanted, done) =>
      if done < |wanted| then
        (if a.Undo? then System(Received(s, wanted[done]), Undoing(r, p, wanted, done + 1)) else y)
      else if a.EndUndo? then System(Disconnected(s, p), Choosing(r)) else y
    case _ => y
  }

  /** One step of the whole system; an action that is not enabled changes nothing. */
  function Next(y: System, a: Action): System {
    if a.Receive? then y.(state := Received(y.state, a.hash))
    else if a.Disconnect? then y.(state := Disconnected(y.state, a.peer))
    else if y.phase.Choosing? || y.phase.Scanning? || y.phase.Marking? || y.phase.Sending? || y.phase.Undoing?
    then Assign(y, a)
    else Prepare(y, a)
  }

  function RunFrom(y: System, actions: seq<Action>): System {
    if actions == [] then y else Next(RunFrom(y, actions[..|actions| - 1]), actions[|actions| - 1])
  }

  const START: System := System(State(map[], map[], map[]), Idle)

  // --------------------------------------------------------------- its invariant

  /** Blocks about to be requested are free and allowed, and stay so until they are marked. */
  ghost predicate Clear(s: State, p: Peer, wanted: seq<Hash>, from: nat) {
    && Distinct(wanted)
    && forall j :: from <= j < |wanted| ==> wanted[j] !in s.inFlight && !Banned(s, wanted[j], p)
  }

  /** What the downloader relies on from its earlier looks at the state. */
  ghost predicate StillTrue(s: State, phase: Phase) {
    match phase
    case Scanning(r, p, capacity, at, wanted, free) =>
      && |wanted| <= capacity && Load(s, p) + capacity <= MAX_BLOCKS_IN_TRANSIT_PER_PEER
      && Clear(s, p, wanted, 0) && (forall h :: h in wanted ==> h in r.promised)
      && (free ==> at < |r.missing| && r.missing[at] !in s.inFlight)
    case Marking(_, p, wanted, done) =>
      && done <= |wanted| && Load(s, p) + |wanted| - done <= MAX_BLOCKS_IN_TRANSIT_PER_PEER && Clear(s, p, wanted, done)
    case _ => true
  }

  /** A barred request can only be the one the downloader is just taking away. */
  ghost predicate BannedOnlyIfBarring(s: State, phase: Phase) {
    forall h :: h in s.inFlight && Banned(s, h, s.inFlight[h].peer) ==> phase.Barring? && phase.hash == h
  }

  ghost predicate Invariant(y: System) {
    && Balanced(y.state) && WithinLimit(y.state)
    && BannedOnlyIfBarring(y.state, y.phase) && StillTrue(y.state, y.phase)
  }

  /** Requests may go and loads may drop; nothing else. */
  ghost predicate Shrinks(s: State, t: State) {
    && Balanced(t) && t.blacklist == s.blacklist
    && (forall h :: h in t.inFlight ==> h in s.inFlight && t.inFlight[h] == s.inFlight[h])
    && (forall p :: Load(t, p) <= Load(s, p))
  }

  lemma ShrinkingIsHarmless(s: State, t: State, phase: Phase)
    requires Invariant(System(s, phase)) && Shrinks(s, t)
    ensures Invariant(System(t, phase))
  {
    hide Balanced, Banned, Load;
    forall p ensures Load(t, p) <= MAX_BLOCKS_IN_TRANSIT_PER_PEER {
      assert Load(t, p) <= Load(s, p);
    }
    forall h | h in t.inFlight && Banned(t, h, t.inFlight[h].peer) ensures phase.Barring? && phase.hash == h {
      SameBans(s, t, h, t.inFlight[h].peer);
    }
    StillTrueShrinks(s, t, phase);
  }

  lemma SameBans(s: State, t: State, h: Hash, p: Peer)
    requires t.blacklist == s.blacklist
    ensures Banned(t, h, p) == Banned(s, h, p)
  {
  }

  lemma ClearShrinks(s: State, t: State, p: Peer, wanted: seq<Hash>, from: nat)
    requires Clear(s, p, wanted, from) && Shrinks(s, t)
    ensures Clear(t, p, wanted, from)
  {
    hide Balanced;
  }

  lemma StillTrueShrinks(s: State, t: State, phase: Phase)
    requires StillTrue(s, phase) && Shrinks(s, t)
    ensures StillTrue(t, phase)
  {
    hide Balanced, Clear;
    match phase
    case Scanning(r, p, capacity, at, wanted, free) => ClearShrinks(s, t, p, wanted, 0);
    case Marking(_, p, wanted, done) => ClearShrinks(s, t, p, wanted, done);
    case _ =>
  }

  lemma ReceivedShrinks(s: State, h: Hash)
    requires Balanced(s)
    ensures Shrinks(s, Received(s, h))
  {
    ReceivedBalance(s, h);
    hide Balanced;
  }

  lemma DisconnectedShrinks(s: State, p: Peer)
    requires Balanced(s)
    ensures Shrinks(s, Disconnected(s, p))
  {
    DisconnectedBalance(s, p);
    hide Balanced;
  }

  lemma RecalculatedShrinks(s: State)
    requires Balanced(s)
    ensures Shrinks(s, Recalculated(s))
  {
    RecalculatedBalance(s);
    hide Balanced, Tally;
  }

  /** Timed-out requests leave together with being barred, so no barred request stays behind. */
  lemma PrunedIsSafe(s: State, now: nat)
    requires Invariant(System(s, Reconciled))
    ensures Invariant(System(Pruned(s, now, BLOCK_REQUEST_TIMEOUT), Inspecting))
  {
    var t := Pruned(s, now, BLOCK_REQUEST_TIMEOUT);
    PrunedBalance(s, now, BLOCK_REQUEST_TIMEOUT);
    hide Balanced, Among, Load;
    forall p ensures Load(t, p) <= MAX_BLOCKS_IN_TRANSIT_PER_PEER {
      assert Load(t, p) <= Load(s, p) <= MAX_BLOCKS_IN_TRANSIT_PER_PEER;
    }
    forall h | h in t.inFlight ensures !Banned(t, h, t.inFlight[h].peer) {
      assert h in s.inFlight && !Banned(s, h, s.inFlight[h].peer);
    }
  }

  lemma OtherBans(s: State, h: Hash, p: Peer, g: Hash, q: Peer)
    requires g != h
    ensures Banned(Stumbled(s, h, p), g, q) == Banned(s, g, q)
  {
  }

  lemma StumbledIsSafe(s: State, h: Hash, p: Peer)
    requires Invariant(System(s, Stalled(h, p)))
    ensures Invariant(System(Stumbled(s, h, p), Barring(h, p)))
  {
    var t := Stumbled(s, h, p);
    assert forall q :: Load(t, q) == Load(s, q);
    assert forall q :: Assigned(t.inFlight, q) == Assigned(s.inFlight, q);
    hide Load, Assigned;
    forall g | g in t.inFlight && g != h ensures !Banned(t, g, t.inFlight[g].peer) {
      OtherBans(s, h, p, g, t.inFlight[g].peer);
    }
  }

  lemma ReleaseIsSafe(s: State, h: Hash, p: Peer)
    requires Invariant(System(s, Barring(h, p)))
    ensures Invariant(System(Received(s, h), Housekeeping))
  {
    ReceivedShrinks(s, h);
    ShrinkingIsHarmless(s, Received(s, h), Barring(h, p));
    hide Balanced, WithinLimit, Banned;
  }

  lemma ClearingIsSafe(s: State)
    requires Invariant(System(s, Housekeeping))
    ensures Invariant(System(ClearedBlacklist(s), Housekeeping)) && Invariant(System(ClearedInFlight(s), Housekeeping))
  {
    var t, u := ClearedBlacklist(s), ClearedInFlight(s);
    forall q ensures Load(t, q) == Load(s, q) && Assigned(t.inFlight, q) == Assigned(s.inFlight, q) { }
    forall q ensures Load(u, q) == 0 && Assigned(u.inFlight, q) == {} { }
    hide Load, Assigned;
  }

  lemma PrepareIsSafe(y: System, a: Action)
    requires Invariant(y)
    ensures Invariant(Prepare(y, a))
  {
    hide Invariant, Recalculated, Pruned, Stumbled, Received, ClearedBlacklist, ClearedInFlight;
    var s := y.state;
    match y.phase
    case Idle => RecalculatedIsSafe(s);
    case Reconciled => if a.Prune? { PrunedIsSafe(s, a.now); }
    case Inspecting => QuietPhases(s, Inspecting);
    case Stalled(h, p) => StumbledIsSafe(s, h, p);
    case Barring(h, p) => ReleaseIsSafe(s, h, p);
    case Housekeeping =>
      ClearingIsSafe(s);
      QuietPhases(s, Housekeeping);
    case _ =>
  }

  /** Phases that rely on nothing are interchangeable. */
  predicate Quiet(phase: Phase) {
    phase.Idle? || phase.Reconciled? || phase.Inspecting? || phase.Stalled? || phase.Housekeeping? || phase.Choosing?
    || phase.Sending? || phase.Undoing?
  }

  lemma QuietPhases(s: State, phase: Phase)
    requires Invariant(System(s, phase)) && !phase.Barring?
    ensures forall other :: Quiet(other) ==> Invariant(System(s, other))
  {
    hide Balanced, WithinLimit, Banned;
  }

  lemma RecalculatedIsSafe(s: State)
    requires Invariant(System(s, Idle))
    ensures Invariant(System(Recalculated(s), Reconciled))
  {
    RecalculatedShrinks(s);
    ShrinkingIsHarmless(s, Recalculated(s), Idle);
    QuietPhases(Recalculated(s), Idle);
  }

  lemma ScanIsSafe(y: System, a: Action)
    requires Invariant(y) && y.phase.Scanning?
    ensures Invariant(Assign(y, a))
  {
    hide Balanced, WithinLimit, Load;
    var s := y.state;
    var r, p, at, wanted := y.phase.round, y.phase.peer, y.phase.at, y.phase.wanted;
    if |wanted| < y.phase.capacity && at < |r.missing| && y.phase.free && a.TestBarred? {
      var h := r.missing[at];
      if h !in r.promised && !Banned(s, h, p) {
        assert h !in wanted;
        assert Clear(s, p, wanted + [h], 0);
      }
    }
  }

  lemma MarkIsSafe(s: State, r: Round, p: Peer, wanted: seq<Hash>, done: nat, now: nat, height: nat)
    requires Invariant(System(s, Marking(r, p, wanted, done))) && done < |wanted|
    ensures Invariant(System(Marked(s, wanted[done], p, now, height), Marking(r, p, wanted, done + 1)))
  {
    var h := wanted[done];
    var t := Marked(s, h, p, now, height);
    MarkedBalance(s, h, p, now, height);
    hide Balanced;
    forall q ensures Load(t, q) <= MAX_BLOCKS_IN_TRANSIT_PER_PEER {
      assert Load(s, q) <= MAX_BLOCKS_IN_TRANSIT_PER_PEER;
    }
    forall g | g in t.inFlight ensures !Banned(t, g, t.inFlight[g].peer) {
      SameBans(s, t, g, t.inFlight[g].peer);
    }
    forall j | done + 1 <= j < |wanted| ensures wanted[j] !in t.inFlight && !Banned(t, wanted[j], p) {
      SameBans(s, t, wanted[j], p);
    }
  }

  lemma AssignIsSafe(y: System, a: Action)
    requires Invariant(y)
    ensures Invariant(Assign(y, a))
  {
    var s := y.state;
    match y.phase
    case Choosing(r) =>
      hide Balanced, WithinLimit, Banned;
      QuietPhases(s, y.phase);
    case Scanning(_, _, _, _, _, _) => ScanIsSafe(y, a);
    case Marking(r, p, wanted, done) =>
      hide Invariant, Marked;
      QuietPhases(s, y.phase);
      if done < |wanted| && a.Mark? { MarkIsSafe(s, r, p, wanted, done, a.now, a.height); }
    case Sending(r, p, wanted) =>
      hide Invariant;
      QuietPhases(s, y.phase);
    case Undoing(r, p, wanted, done) =>
      var t := if done < |wanted| then Received(s, wanted[done]) else Disconnected(s, p);
      if done < |wanted| { ReceivedShrinks(s, wanted[done]); } else { DisconnectedShrinks(s, p); }
      hide Received, Disconnected, Shrinks;
      ShrinkingIsHarmless(s, t, y.phase);
      hide Invariant;
      QuietPhases(t, y.phase);
    case _ =>
  }

  lemma NextIsSafe(y: System, a: Action)
    requires Invariant(y)
    ensures Invariant(Next(y, a))
  {
    var s := y.state;
    if a.Receive? { ReceivedShrinks(s, a.hash); }
    if a.Disconnect? { DisconnectedShrinks(s, a.peer); }
    hide Received, Disconnected, Shrinks, Assign, Prepare;
    if a.Receive? { ShrinkingIsHarmless(s, Received(s, a.hash), y.phase); }
    else if a.Disconnect? { ShrinkingIsHarmless(s, Disconnected(s, a.peer), y.phase); }
    else {
      AssignIsSafe(y, a);
      PrepareIsSafe(y, a);
    }
  }

  /** Over every interleaving, counters match requests, and no peer ever has more than 64. */
  lemma {:induction false} EveryRunIsSafe(actions: seq<Action>)
    ensures Invariant(RunFrom(START, actions))
  {
    if actions == [] {
      assert forall p :: Assigned(START.state.inFlight, p) == {};
    } else {
      hide Invariant, Next;
      EveryRunIsSafe(actions[..|actions| - 1]);
      NextIsSafe(RunFrom(START, actions[..|actions| - 1]), actions[|actions| - 1]);
    }
  }

  /** Between rounds, moreover, nothing is in flight with a peer barred from it. */
  lemma BetweenRounds(actions: seq<Action>)
    requires RunFrom(START, actions).phase.Idle?
    ensures Sound(RunFrom(START, actions).state)
  {
    hide RunFrom, Balanced, WithinLimit, Banned;
    EveryRunIsSafe(actions);
  }
}
