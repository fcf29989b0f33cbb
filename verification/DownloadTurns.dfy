/** What a download round achieves in the interleaved machine when no other task gets in between. */
module DownloadTurns {
  import opened Transaction
  import opened Downloads
  import opened DownloadRounds

  // ------------------------------------------------------------------ the downloader alone

  function Elements(hs: seq<Hash>): set<Hash> { set h | h in hs }

  /** What a turn sees of the outside: the clock, the height below the window, and whether the send succeeds. */
  datatype Outside = Outside(now: nat, base: nat, ok: bool)

  predicate Busy(phase: Phase) { phase.Scanning? || phase.Marking? || phase.Sending? || phase.Undoing? }

  /** The one action the downloader itself takes next. */
  function Own(phase: Phase, d: Outside): Action
    requires Busy(phase)
  {
    match phase
    case Scanning(r, _, capacity, at, wanted, free) =>
      if |wanted| >= capacity || at >= |r.missing| then EndScan else if free then TestBarred else TestInFlight
    case Marking(r, _, wanted, done) =>
      if done < |wanted| then Mark(d.now, d.base + 1 + FirstIndex(r.missing, wanted[done])) else EndMark
    case Sending(_, _, _) => Sent(d.ok)
    case Undoing(_, _, wanted, done) => if done < |wanted| then Undo else EndUndo
  }

  function Rank(phase: Phase): nat {
    match phase
    case Scanning(_, _, _, _, _, _) => 4
    case Marking(_, _, _, _) => 3
    case Sending(_, _, _) => 2
    case Undoing(_, _, _, _) => 1
    case _ => 0
  }

  function Left(phase: Phase): nat {
    match phase
    case Scanning(r, _, _, at, _, free) => 2 * SaturatingSub(|r.missing|, at) + if free then 0 else 1
    case Marking(_, _, wanted, done) => SaturatingSub(|wanted|, done)
    case Undoing(_, _, wanted, done) => SaturatingSub(|wanted|, done)
    case _ => 0
  }

  /** The rest of a peer's turn. Its own actions never stall: each one brings the turn closer to its end. */
  function Finish(y: System, d: Outside): System
    decreases Rank(y.phase), Left(y.phase)
  {
    if Busy(y.phase) then Finish(Next(y, Own(y.phase, d)), d) else y
  }

  /** A peer's whole turn. */
  function Turn(y: System, p: Peer, d: Outside): System { Finish(Next(y, Choose(p)), d) }

  // -------------------------------------------------------------------- stage by stage

  /** One look at the window: at most two locked sections, and the block is taken exactly when it is eligible. */
  lemma LookAlone(s: State, r: Round, p: Peer, capacity: nat, at: nat, wanted: seq<Hash>, d: Outside)
    requires |wanted| < capacity && at < |r.missing|
    ensures var h := r.missing[at];
      Finish(System(s, Scanning(r, p, capacity, at, wanted, false)), d)
        == if Eligible(s, p, r.promised, h)
           then Finish(System(s, Scanning(
             Round(r.missing, r.promised + {h}), p, capacity, at + 1, wanted + [h], false)), d)
           else Finish(System(s, Scanning(r, p, capacity, at + 1, wanted, false)), d)
  {
    hide Finish, Banned, Next, Own;
    FirstTest(s, r, p, capacity, at, wanted, d);
    if r.missing[at] !in s.inFlight { SecondTest(s, r, p, capacity, at, wanted, d); }
  }

  lemma FirstTest(s: State, r: Round, p: Peer, capacity: nat, at: nat, wanted: seq<Hash>, d: Outside)
    requires |wanted| < capacity && at < |r.missing|
    ensures Finish(System(s, Scanning(r, p, capacity, at, wanted, false)), d)
      == if r.missing[at] in s.inFlight then Finish(System(s, Scanning(r, p, capacity, at + 1, wanted, false)), d)
         else Finish(System(s, Scanning(r, p, capacity, at, wanted, true)), d)
  {
    FinishStep(System(s, Scanning(r, p, capacity, at, wanted, false)), d);
    hide Finish, Banned;
  }

  lemma SecondTest(s: State, r: Round, p: Peer, capacity: nat, at: nat, wanted: seq<Hash>, d: Outside)
    requires |wanted| < capacity && at < |r.missing|
    ensures var h := r.missing[at];
      Finish(System(s, Scanning(r, p, capacity, at, wanted, true)), d)
        == if h in r.promised || Banned(s, h, p)
           then Finish(System(s, Scanning(r, p, capacity, at + 1, wanted, false)), d)
           else Finish(System(s, Scanning(
             Round(r.missing, r.promised + {h}), p, capacity, at + 1, wanted + [h], false)), d)
  {
    FinishStep(System(s, Scanning(r, p, capacity, at, wanted, true)), d);
    hide Finish, Banned;
  }

  lemma FinishStep(y: System, d: Outside)
    ensures Busy(y.phase) ==> Finish(y, d) == Finish(Next(y, Own(y.phase, d)), d)
  {
  }

  lemma {:induction false} ScanAlone(
    s: State, r: Round, p: Peer, capacity: nat, at: nat, wanted: seq<Hash>, d: Outside)
    requires |wanted| <= capacity && at <= |r.missing|
    ensures var w := Picked(s, p, capacity - |wanted|, r.missing[at..], r.promised);
      Finish(System(s, Scanning(r, p, capacity, at, wanted, false)), d)
        == Finish(System(s, Marking(Round(r.missing, r.promised + Elements(w)), p, wanted + w, 0)), d)
    decreases |r.missing| - at
  {
    hide Finish, Eligible;
    var rest := r.missing[at..];
    if |wanted| >= capacity || at >= |r.missing| {
      FinishStep(System(s, Scanning(r, p, capacity, at, wanted, false)), d);
      assert r.promised + Elements([]) == r.promised && wanted + [] == wanted;
    } else {
      var h := r.missing[at];
      LookAlone(s, r, p, capacity, at, wanted, d);
      hide Next, Own;
      assert rest[0] == h && rest[1..] == r.missing[at + 1..];
      if Eligible(s, p, r.promised, h) {
        var more := Round(r.missing, r.promised + {h});
        var w := Picked(s, p, capacity - |wanted| - 1, r.missing[at + 1..], more.promised);
        ScanAlone(s, more, p, capacity, at + 1, wanted + [h], d);
        assert r.promised + Elements([h] + w) == more.promised + Elements(w);
        assert wanted + ([h] + w) == wanted + [h] + w;
      } else {
        ScanAlone(s, r, p, capacity, at + 1, wanted, d);
      }
    }
  }

  ghost predicate AskedFor(t: State, r: Round, p: Peer, wanted: seq<Hash>, d: Outside) {
    forall h :: h in wanted ==>
      h in t.inFlight && t.inFlight[h] == Request(p, d.now, d.base + 1 + FirstIndex(r.missing, h))
  }

  lemma {:induction false} MarkAlone(
    s: State, m: State, r: Round, p: Peer, wanted: seq<Hash>, done: nat, d: Outside) returns (t: State)
    requires Balanced(m) && done <= |wanted| && OnlyAdds(s, m, p, wanted[..done]) && Clear(m, p, wanted, done)
    requires AskedFor(m, r, p, wanted[..done], d)
    ensures Balanced(t) && OnlyAdds(s, t, p, wanted) && AskedFor(t, r, p, wanted, d)
    ensures Finish(System(m, Marking(r, p, wanted, done)), d) == Finish(System(t, Marking(r, p, wanted, |wanted|)), d)
    decreases |wanted| - done
  {
    t := m;
    assert wanted[..|wanted|] == wanted;
    if done < |wanted| {
      var n := MarkedMore(s, m, r, p, wanted, done, d);
      hide Balanced, OnlyAdds, Clear, AskedFor, Finish;
      t := MarkAlone(s, n, r, p, wanted, done + 1, d);
    }
  }

  lemma MarkedMore(s: State, m: State, r: Round, p: Peer, wanted: seq<Hash>, done: nat, d: Outside) returns (n: State)
    requires Balanced(m) && done < |wanted| && OnlyAdds(s, m, p, wanted[..done]) && Clear(m, p, wanted, done)
    requires AskedFor(m, r, p, wanted[..done], d)
    ensures Balanced(n) && OnlyAdds(s, n, p, wanted[..done + 1]) && Clear(n, p, wanted, done + 1)
    ensures AskedFor(n, r, p, wanted[..done + 1], d)
    ensures Finish(System(m, Marking(r, p, wanted, done)), d) == Finish(System(n, Marking(r, p, wanted, done + 1)), d)
  {
    hide *;
    var h := wanted[done];
    var height := d.base + 1 + FirstIndex(r.missing, h);
    n := Marked(m, h, p, d.now, height);
    MarkStep(m, r, p, wanted, done, d);
    ClearMore(m, p, wanted, done, d.now, height);
    MarkedBalance(m, h, p, d.now, height);
    OnlyAddsOne(s, m, p, wanted[..done], h, d.now, height);
    AskedMore(m, r, p, wanted[..done], h, d);
    assert wanted[..done + 1] == wanted[..done] + [h];
  }

  lemma MarkStep(m: State, r: Round, p: Peer, wanted: seq<Hash>, done: nat, d: Outside)
    requires done < |wanted|
    ensures var n := Marked(m, wanted[done], p, d.now, d.base + 1 + FirstIndex(r.missing, wanted[done]));
      Finish(System(m, Marking(r, p, wanted, done)), d) == Finish(System(n, Marking(r, p, wanted, done + 1)), d)
  {
    FinishStep(System(m, Marking(r, p, wanted, done)), d);
    hide Finish, FirstIndex;
  }

  lemma ClearMore(m: State, p: Peer, wanted: seq<Hash>, done: nat, now: nat, height: nat)
    requires done < |wanted| && Clear(m, p, wanted, done)
    ensures wanted[done] !in m.inFlight && Clear(Marked(m, wanted[done], p, now, height), p, wanted, done + 1)
  {
  }

  lemma AskedMore(m: State, r: Round, p: Peer, some: seq<Hash>, h: Hash, d: Outside)
    requires AskedFor(m, r, p, some, d)
    ensures AskedFor(Marked(m, h, p, d.now, d.base + 1 + FirstIndex(r.missing, h)), r, p, some + [h], d)
  {
    hide FirstIndex;
  }

  lemma {:induction false} UndoAlone(s: State, m: State, r: Round, p: Peer, wanted: seq<Hash>, done: nat, d: Outside)
    returns (t: State)
    requires ReleasesSome(s, m, p) && done <= |wanted|
    requires forall h :: h in wanted && h in s.inFlight ==> s.inFlight[h].peer == p
    ensures OnlyReleases(s, t, p) && Balanced(t)
    ensures Finish(System(m, Undoing(r, p, wanted, done)), d) == System(t, Choosing(r))
    decreases |wanted| - done
  {
    UndoStep(m, r, p, wanted, done, d);
    hide Finish, ReleasesSome, OnlyReleases, Balanced, Received, Disconnected;
    if done < |wanted| {
      ReleaseOneMore(s, m, p, wanted[done]);
      t := UndoAlone(s, Received(m, wanted[done]), r, p, wanted, done + 1, d);
    } else {
      ReleaseRest(s, m, p);
      t := Disconnected(m, p);
    }
  }

  lemma UndoStep(m: State, r: Round, p: Peer, wanted: seq<Hash>, done: nat, d: Outside)
    requires done <= |wanted|
    ensures Finish(System(m, Undoing(r, p, wanted, done)), d)
      == if done < |wanted| then Finish(System(Received(m, wanted[done]), Undoing(r, p, wanted, done + 1)), d)
         else System(Disconnected(m, p), Choosing(r))
  {
    FinishStep(System(m, Undoing(r, p, wanted, done)), d);
    assert forall t :: Finish(System(t, Choosing(r)), d) == System(t, Choosing(r));
    hide Finish, Received, Disconnected;
  }

  lemma AddedThenReleased(s: State, m: State, t: State, p: Peer, wanted: seq<Hash>)
    requires OnlyAdds(s, m, p, wanted) && OnlyReleases(m, t, p) && forall h :: h in wanted ==> h !in s.inFlight
    ensures OnlyReleases(s, t, p)
  {
  }

  // -------------------------------------------------------------------- whole turns

  lemma SendSteps(m: State, r: Round, p: Peer, w: seq<Hash>, d: Outside)
    ensures Finish(System(m, Marking(r, p, w, |w|)), d)
      == if w == [] || d.ok then System(m, Choosing(r)) else Finish(System(m, Undoing(r, p, w, 0)), d)
  {
    FinishStep(System(m, Marking(r, p, w, |w|)), d);
    FinishStep(System(m, Sending(r, p, w)), d);
    assert Finish(System(m, Choosing(r)), d) == System(m, Choosing(r));
    hide Finish;
  }

  lemma SendAlone(s: State, r: Round, p: Peer, w: seq<Hash>, d: Outside)
    requires Balanced(s) && Clear(s, p, w, 0)
    ensures var y := Finish(System(s, Marking(r, p, w, 0)), d);
      && y.phase == Choosing(r) && Balanced(y.state)
      && (w == [] || d.ok ==> OnlyAdds(s, y.state, p, w) && AskedFor(y.state, r, p, w, d))
      && (w != [] && !d.ok ==> OnlyReleases(s, y.state, p))
  {
    OnlyAddsNone(s, p);
    assert w[..0] == [];
    hide Finish, Next, Own, OnlyAdds, Balanced, OnlyReleases;
    var m := MarkAlone(s, s, r, p, w, 0, d);
    hide AskedFor;
    SendSteps(m, r, p, w, d);
    if w != [] && !d.ok {
      assert ReleasesSome(m, m, p);
      MarkedBelong(s, m, p, w);
      hide ReleasesSome;
      var t := UndoAlone(m, m, r, p, w, 0, d);
      AddedThenReleased(s, m, t, p, w);
    }
  }

  lemma MarkedBelong(s: State, m: State, p: Peer, w: seq<Hash>)
    requires OnlyAdds(s, m, p, w)
    ensures forall h :: h in w && h in m.inFlight ==> m.inFlight[h].peer == p
  {
  }

  lemma ChooseStep(s: State, r: Round, p: Peer, d: Outside)
    requires Load(s, p) < MAX_BLOCKS_IN_TRANSIT_PER_PEER
    ensures Turn(System(s, Choosing(r)), p, d)
      == Finish(System(s, Scanning(r, p, MAX_BLOCKS_IN_TRANSIT_PER_PEER - Load(s, p), 0, [], false)), d)
  {
    hide Finish;
  }

  lemma PickedClear(s: State, r: Round, p: Peer, capacity: nat)
    ensures Clear(s, p, Picked(s, p, capacity, r.missing, r.promised), 0)
  {
    PickedMeans(s, p, capacity, r.missing, r.promised);
    hide Picked;
    var w := Picked(s, p, capacity, r.missing, r.promised);
    assert forall j :: 0 <= j < |w| ==> w[j] in w;
  }

  lemma SameRequests(t: State, r: Round, after: Round, p: Peer, w: seq<Hash>, d: Outside)
    requires after.missing == r.missing
    ensures AskedFor(t, r, p, w, d) == AskedFor(t, after, p, w, d)
  {
    hide FirstIndex;
  }

  /**
   * A turn nobody disturbs: the first eligible blocks that fit are promised; if the request goes out exactly
   * these are in flight besides what was, with this peer, as of now; if it fails exactly this peer's are gone.
   */
  lemma TurnAlone(s: State, r: Round, p: Peer, d: Outside)
    requires Balanced(s) && Load(s, p) < MAX_BLOCKS_IN_TRANSIT_PER_PEER
    ensures var w := Picked(s, p, MAX_BLOCKS_IN_TRANSIT_PER_PEER - Load(s, p), r.missing, r.promised);
      var y := Turn(System(s, Choosing(r)), p, d);
      && y.phase == Choosing(Round(r.missing, r.promised + Elements(w))) && Balanced(y.state)
      && (w == [] || d.ok ==> OnlyAdds(s, y.state, p, w) && AskedFor(y.state, r, p, w, d))
      && (w != [] && !d.ok ==> OnlyReleases(s, y.state, p))
  {
    hide *;
    var capacity := MAX_BLOCKS_IN_TRANSIT_PER_PEER - Load(s, p);
    var w := Picked(s, p, capacity, r.missing, r.promised);
    var after := Round(r.missing, r.promised + Elements(w));
    ChooseStep(s, r, p, d);
    assert r.missing[0..] == r.missing && [] + w == w;
    ScanAlone(s, r, p, capacity, 0, [], d);
    PickedClear(s, r, p, capacity);
    SendAlone(s, after, p, w, d);
    SameRequests(Turn(System(s, Choosing(r)), p, d).state, r, after, p, w, d);
  }

  // -------------------------------------------------------------------- whole rounds

  /** The turns of a list of peers, one after another. */
  function Played(y: System, peers: seq<Peer>, now: nat, base: nat, sendOk: Peer -> bool): System {
    if peers == [] then y
    else
      var last := |peers| - 1;
      Turn(Played(y, peers[..last], now, base, sendOk), peers[last], Outside(now, base, sendOk(peers[last])))
  }

  ghost predicate AllServed(s: State, missing: seq<Hash>, dropped: set<Hash>, peers: seq<Peer>, sendOk: Peer -> bool) {
    forall k :: 0 <= k < |peers| && sendOk(peers[k]) ==> Served(s, missing, dropped, peers[k])
  }

  /** What holds between two turns; `dropped` are the blocks that failed sends gave back. */
  ghost predicate RoundOk(
    s: State, y: System, missing: seq<Hash>, dropped: set<Hash>, peers: seq<Peer>, sendOk: Peer -> bool)
  {
    && y.phase.Choosing? && y.phase.round.missing == missing
    && Sound(y.state) && y.state.blacklist == s.blacklist
    && AllServed(y.state, missing, dropped, peers, sendOk)
    && (forall h :: h in y.phase.round.promised ==> h in y.state.inFlight || h in dropped)
    && (forall h :: h in y.state.inFlight ==> h in s.inFlight || h in missing)
    && ((forall k :: 0 <= k < |peers| ==> sendOk(peers[k])) ==> dropped == {})
  }

  /** A round nobody disturbs is maximal: each missing block is asked for, unless every peer is full or barred. */
  lemma {:induction false} RoundAlone(
    s: State, missing: seq<Hash>, peers: seq<Peer>, now: nat, base: nat, sendOk: Peer -> bool)
    returns (dropped: set<Hash>)
    requires Sound(s)
    ensures var y := Played(System(s, Choosing(Round(missing, {}))), peers, now, base, sendOk);
      RoundOk(s, y, missing, dropped, peers, sendOk)
  {
    if peers == [] {
      dropped := {};
    } else {
      var last := |peers| - 1;
      var before := RoundAlone(s, missing, peers[..last], now, base, sendOk);
      var y := Played(System(s, Choosing(Round(missing, {}))), peers[..last], now, base, sendOk);
      assert peers == peers[..last] + [peers[last]];
      hide *;
      dropped := OneMore(s, y, missing, before, peers[..last], peers[last], now, base, sendOk);
    }
  }

  lemma OneMore(
    s: State, y: System, missing: seq<Hash>, before: set<Hash>, peers: seq<Peer>, p: Peer,
    now: nat, base: nat, sendOk: Peer -> bool) returns (dropped: set<Hash>)
    requires RoundOk(s, y, missing, before, peers, sendOk)
    ensures RoundOk(s, Turn(y, p, Outside(now, base, sendOk(p))), missing, dropped, peers + [p], sendOk)
  {
    hide Sound, AllServed, Served, Turn, Picked, Load, OnlyAdds, OnlyReleases, AskedFor;
    var d := Outside(now, base, sendOk(p));
    var r := y.phase.round;
    dropped := before;
    assert y == System(y.state, Choosing(r));
    if Load(y.state, p) >= MAX_BLOCKS_IN_TRANSIT_PER_PEER {
      FullTurn(y, r, p, d);
      FullMore(s, y, missing, before, peers, p, sendOk);
    } else {
      assert Balanced(y.state) by { SoundIsBalanced(y.state); }
      TurnAlone(y.state, r, p, d);
      var w := Picked(y.state, p, MAX_BLOCKS_IN_TRANSIT_PER_PEER - Load(y.state, p), r.missing, r.promised);
      var z := Turn(y, p, d);
      if w == [] || d.ok {
        SentMore(s, y, z, missing, before, peers, p, w, sendOk);
      } else {
        dropped := before + Assigned(y.state.inFlight, p) + Elements(w);
        FailedMore(s, y, z, missing, before, dropped, peers, p, w, sendOk);
      }
    }
  }

  lemma SoundIsBalanced(s: State)
    requires Sound(s)
    ensures Balanced(s) && WithinLimit(s)
  {
  }

  lemma FullTurn(y: System, r: Round, p: Peer, d: Outside)
    requires y.phase == Choosing(r) && Load(y.state, p) >= MAX_BLOCKS_IN_TRANSIT_PER_PEER
    ensures Turn(y, p, d) == y
  {
  }

  lemma ServedMore(
    s: State, missing: seq<Hash>, dropped: set<Hash>, peers: seq<Peer>, p: Peer, sendOk: Peer -> bool)
    requires AllServed(s, missing, dropped, peers, sendOk) && (sendOk(p) ==> Served(s, missing, dropped, p))
    ensures AllServed(s, missing, dropped, peers + [p], sendOk)
  {
    hide Served;
  }

  lemma OkMore(peers: seq<Peer>, p: Peer, sendOk: Peer -> bool)
    requires forall k :: 0 <= k < |peers + [p]| ==> sendOk((peers + [p])[k])
    ensures sendOk(p) && forall k :: 0 <= k < |peers| ==> sendOk(peers[k])
  {
    assert (peers + [p])[|peers|] == p;
    assert forall k :: 0 <= k < |peers| ==> (peers + [p])[k] == peers[k];
  }

  lemma FullMore(
    s: State, y: System, missing: seq<Hash>, dropped: set<Hash>, peers: seq<Peer>, p: Peer, sendOk: Peer -> bool)
    requires RoundOk(s, y, missing, dropped, peers, sendOk) && Load(y.state, p) >= MAX_BLOCKS_IN_TRANSIT_PER_PEER
    ensures RoundOk(s, y, missing, dropped, peers + [p], sendOk)
  {
    SoundIsBalanced(y.state);
    FullIsServed(y.state, missing, dropped, p);
    ServedMore(y.state, missing, dropped, peers, p, sendOk);
    hide Sound, AllServed, Served, Load;
    if forall k :: 0 <= k < |peers + [p]| ==> sendOk((peers + [p])[k]) { OkMore(peers, p, sendOk); }
  }

  /** The request went out, or there was nothing to ask for. */
  lemma SentMore(
    s: State, y: System, z: System, missing: seq<Hash>, dropped: set<Hash>, peers: seq<Peer>, p: Peer,
    w: seq<Hash>, sendOk: Peer -> bool)
    requires RoundOk(s, y, missing, dropped, peers, sendOk) && Load(y.state, p) < MAX_BLOCKS_IN_TRANSIT_PER_PEER
    requires w == Picked(
      y.state, p, MAX_BLOCKS_IN_TRANSIT_PER_PEER - Load(y.state, p), missing, y.phase.round.promised)
    requires z.phase == Choosing(Round(missing, y.phase.round.promised + Elements(w))) && Balanced(z.state)
    requires OnlyAdds(y.state, z.state, p, w)
    ensures RoundOk(s, z, missing, dropped, peers + [p], sendOk)
  {
    var promised := y.phase.round.promised;
    PickedMeans(y.state, p, MAX_BLOCKS_IN_TRANSIT_PER_PEER - Load(y.state, p), missing, promised);
    PickedIsServed(y.state, z.state, p, w, missing, promised, dropped);
    AddsKeepSound(y.state, z.state, p, w);
    SoundIsBalanced(z.state);
    hide Picked, OnlyAdds, Sound, Served, Load, Balanced, WithinLimit, Eligible;
    forall k | 0 <= k < |peers| && sendOk(peers[k]) ensures Served(z.state, missing, dropped, peers[k]) {
      AddsKeepServed(y.state, z.state, p, w, missing, dropped, peers[k]);
    }
    ServedMore(z.state, missing, dropped, peers, p, sendOk);
    hide AllServed;
    if forall k :: 0 <= k < |peers + [p]| ==> sendOk((peers + [p])[k]) { OkMore(peers, p, sendOk); }
  }

  lemma ServedWithMore(s: State, missing: seq<Hash>, some: set<Hash>, more: set<Hash>, p: Peer)
    requires Served(s, missing, some, p) && some <= more
    ensures Served(s, missing, more, p)
  {
  }

  /** The request failed: this peer's blocks are given back. */
  lemma FailedMore(
    s: State, y: System, z: System, missing: seq<Hash>, before: set<Hash>, dropped: set<Hash>, peers: seq<Peer>,
    p: Peer, w: seq<Hash>, sendOk: Peer -> bool)
    requires RoundOk(s, y, missing, before, peers, sendOk) && !sendOk(p)
    requires dropped == before + Assigned(y.state.inFlight, p) + Elements(w)
    requires z.phase == Choosing(Round(missing, y.phase.round.promised + Elements(w))) && Balanced(z.state)
    requires OnlyReleases(y.state, z.state, p)
    ensures RoundOk(s, z, missing, dropped, peers + [p], sendOk)
  {
    ReleaseKeepsSound(y.state, z.state, p);
    ReleasedAreDropped(y.state, z.state, p);
    hide OnlyReleases, Sound, Served, Balanced, Assigned, Elements;
    forall k | 0 <= k < |peers| && sendOk(peers[k]) ensures Served(z.state, missing, dropped, peers[k]) {
      ReleaseKeepsServed(y.state, z.state, p, missing, before, peers[k]);
      ServedWithMore(z.state, missing, before + Assigned(y.state.inFlight, p), dropped, peers[k]);
    }
    ServedMore(z.state, missing, dropped, peers, p, sendOk);
    hide AllServed;
    if forall k :: 0 <= k < |peers + [p]| ==> sendOk((peers + [p])[k]) { OkMore(peers, p, sendOk); }
  }

  // -------------------------------------------------------------------- housekeeping

  predicate Timely(s: State, now: nat, h: Hash) { h in s.inFlight && now < s.inFlight[h].since + 30 }

  /** A request the prune leaves, the lowest one left, and out for a minute when the stalling check comes. */
  ghost predicate Stuck(s: State, now: nat, later: nat, h: Hash) {
    && Timely(s, now, h) && s.inFlight[h].since + 60 <= later
    && forall g :: Timely(s, now, g) ==> s.inFlight[h].height <= s.inFlight[g].height
  }

  function PrunedAt(s: State, now: nat): System { Next(Next(System(s, Idle), Reconcile), Prune(now)) }

  lemma PrunedMeans(s: State, now: nat)
    ensures var y := PrunedAt(s, now);
      && y.phase == Inspecting && Balanced(y.state)
      && (forall h :: h in y.state.inFlight <==> Timely(s, now, h))
      && (forall h :: h in y.state.inFlight ==> y.state.inFlight[h] == s.inFlight[h])
  {
    var recounted := Recalculated(s);
    RecalculatedBalance(s);
    PrunedBalance(recounted, now, 30);
    var t := Pruned(recounted, now, 30);
    forall h ensures h in t.inFlight <==> Timely(s, now, h) {
      PruneMeans(recounted, now, 30, h, []);
    }
    hide Balanced, Tally, Among, Barred;
  }

  /** The stalling check finds a block exactly when it is stuck. */
  lemma StallIff(s: State, now: nat, later: nat, h: Hash)
    ensures Next(PrunedAt(s, now), Inspect(later, h)).phase.Stalled? <==> Stuck(s, now, later, h)
  {
    PrunedMeans(s, now);
    hide PrunedAt, Balanced;
  }

  ghost predicate OthersOnly(actions: seq<Action>) { forall a :: a in actions ==> a.Receive? || a.Disconnect? }

  function Disturbed(y: System, actions: seq<Action>): System {
    if actions == [] then y else Next(Disturbed(y, actions[..|actions| - 1]), actions[|actions| - 1])
  }

  lemma {:induction false} DisturbedShrinks(y: System, actions: seq<Action>)
    requires Balanced(y.state) && OthersOnly(actions)
    ensures Disturbed(y, actions).phase == y.phase && Shrinks(y.state, Disturbed(y, actions).state)
  {
    if actions != [] {
      var last := actions[|actions| - 1];
      DisturbedShrinks(y, actions[..|actions| - 1]);
      var z := Disturbed(y, actions[..|actions| - 1]);
      if last.Receive? { ReceivedShrinks(z.state, last.hash); } else { DisconnectedShrinks(z.state, last.peer); }
      assert last in actions;
      hide Balanced, Load, Received, Disconnected;
    }
  }

  /**
   * Requests live 30 seconds and count as stalled after 60: whatever the other tasks do, the check finds nothing
   * unless more than 30 seconds pass between the prune and the check.
   */
  lemma NoStallInTime(s: State, now: nat, later: nat, others: seq<Action>, h: Hash)
    requires later <= now + 30 && OthersOnly(others)
    ensures var y := Disturbed(PrunedAt(s, now), others); Next(y, Inspect(later, h)) == y
  {
    PrunedMeans(s, now);
    DisturbedShrinks(PrunedAt(s, now), others);
    hide PrunedAt, Disturbed, Balanced, Load;
  }

  /** Otherwise a stuck block is taken from its peer, who is barred from it; the other requests in time stay. */
  lemma HousekeepingAlone(s: State, now: nat, later: nat, h: Hash)
    requires Stuck(s, now, later, h)
    ensures var y := Next(Next(Next(PrunedAt(s, now), Inspect(later, h)), Stumble), Release); var t := y.state;
      && y.phase == Housekeeping && Balanced(t) && Banned(t, h, s.inFlight[h].peer)
      && (forall g :: g in t.inFlight <==> g != h && Timely(s, now, g))
      && (forall g :: g in t.inFlight ==> t.inFlight[g] == s.inFlight[g])
  {
    PrunedMeans(s, now);
    var pruned := PrunedAt(s, now).state;
    var p := s.inFlight[h].peer;
    hide PrunedAt;
    StallSteps(pruned, later, h);
    TakenAway(pruned, h);
    hide Balanced, Banned, Next, Received, Stumbled;
  }

  lemma StallSteps(s: State, later: nat, h: Hash)
    requires Bottleneck(s, later, h)
    ensures Next(Next(Next(System(s, Inspecting), Inspect(later, h)), Stumble), Release)
      == System(Received(Stumbled(s, h, s.inFlight[h].peer), h), Housekeeping)
  {
    hide Received, Stumbled;
  }

  lemma TakenAway(s: State, h: Hash)
    requires Balanced(s) && h in s.inFlight
    ensures var p := s.inFlight[h].peer; var t := Received(Stumbled(s, h, p), h);
      Balanced(t) && t.inFlight == s.inFlight - {h} && Banned(t, h, p)
  {
    var p := s.inFlight[h].peer;
    BarringKeepsBalance(s, h, p);
    ReceivedBalance(Stumbled(s, h, p), h);
    hide Balanced;
  }

  /** Such delays suffice. */
  lemma StallAfterDelay(now: nat, later: nat, h: Hash, p: Peer)
    requires now >= 29 && later > now + 30
    ensures Stuck(State(map[h := Request(p, now - 29, 0)], map[], map[]), now, later, h)
  {
  }

  lemma BarringKeepsBalance(s: State, h: Hash, p: Peer)
    requires Balanced(s)
    ensures Balanced(Stumbled(s, h, p))
  {
    var t := Stumbled(s, h, p);
    assert forall q :: Load(t, q) == Load(s, q);
    assert forall q :: Assigned(t.inFlight, q) == Assigned(s.inFlight, q);
  }
}
