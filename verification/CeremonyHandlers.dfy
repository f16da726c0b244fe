/**
 The coordinator and a signer during key generation and refresh, updated in place, against the functions of Ceremony.
 */
module CeremonyHandlers {
  import opened Octets
  import opened Ceremony

  // ---------------------------------------------------------------- the coordinator

  /** One registered signer: what was received from it, and the frames queued for it. */
  datatype Peer = Peer(id: Id, hasR1: bool, r2Complete: bool, hasPub: bool, msgq: seq<DownMsg>)

  function Ids(ps: seq<Peer>): (r: seq<Id>)
    ensures |r| == |ps| && forall i :: 0 <= i < |r| ==> r[i] == ps[i].id
  {
    seq(|ps|, i requires 0 <= i < |ps| => ps[i].id)
  }

  /** The ids of the signers with a mark. */
  function Marked(ps: seq<Peer>, mark: Peer -> bool): set<Id> {
    if ps == [] then {} else
    Marked(ps[..|ps| - 1], mark) + if mark(ps[|ps| - 1]) then {ps[|ps| - 1].id} else {}
  }

  lemma {:induction false} InMarked(ps: seq<Peer>, mark: Peer -> bool, id: Id)
    ensures id in Marked(ps, mark) <==> exists i :: 0 <= i < |ps| && mark(ps[i]) && ps[i].id == id
  {
    if ps != [] {
      var init := ps[..|ps| - 1];
      InMarked(init, mark, id);
      if i :| 0 <= i < |init| && mark(init[i]) && init[i].id == id {
        assert mark(ps[i]) && ps[i].id == id;
      }
      if i :| 0 <= i < |ps| && mark(ps[i]) && ps[i].id == id {
        assert i < |init| ==> mark(init[i]) && init[i].id == id;
      }
    }
  }

  predicate DistinctPeers(ps: seq<Peer>) {
    forall i, j :: 0 <= i < j < |ps| ==> ps[i].id != ps[j].id
  }

  /** The counting loops of the completion checks. */
  method CountMarked(ps: seq<Peer>, mark: Peer -> bool) returns (have: nat)
    requires DistinctPeers(ps)
    ensures have == |Marked(ps, mark)|
  {
    have := 0;
    for i := 0 to |ps|
      invariant have == |Marked(ps[..i], mark)|
    {
      assert ps[..i + 1][..i] == ps[..i];
      InMarked(ps[..i], mark, ps[i].id);
      if mark(ps[i]) { have := have + 1; }
    }
    assert ps[..|ps|] == ps;
  }

  /** Setting the mark of one signer adds its id. */
  lemma MarkOne(ps: seq<Peer>, qs: seq<Peer>, mark: Peer -> bool, k: nat)
    requires |qs| == |ps| && k < |ps| && mark(qs[k]) && qs[k].id == ps[k].id
    requires forall i :: 0 <= i < |ps| && i != k ==> mark(qs[i]) == mark(ps[i]) && qs[i].id == ps[i].id
    ensures Marked(qs, mark) == Marked(ps, mark) + {ps[k].id}
  {
    forall id ensures id in Marked(qs, mark) <==> id in Marked(ps, mark) || id == ps[k].id {
      InMarked(ps, mark, id);
      InMarked(qs, mark, id);
      if i :| 0 <= i < |ps| && mark(ps[i]) && ps[i].id == id {
        assert mark(qs[i]) && qs[i].id == id;
      }
      if i :| 0 <= i < |qs| && mark(qs[i]) && qs[i].id == id {
        assert i != k ==> mark(ps[i]) && ps[i].id == id;
      }
    }
  }

  lemma SameMarks(ps: seq<Peer>, qs: seq<Peer>, mark: Peer -> bool)
    requires |qs| == |ps| && forall i :: 0 <= i < |ps| ==> mark(qs[i]) == mark(ps[i]) && qs[i].id == ps[i].id
    ensures Marked(qs, mark) == Marked(ps, mark)
  {
    forall id ensures id in Marked(qs, mark) <==> id in Marked(ps, mark) {
      InMarked(ps, mark, id);
      InMarked(qs, mark, id);
      if i :| 0 <= i < |ps| && mark(ps[i]) && ps[i].id == id {
        assert mark(qs[i]) && qs[i].id == id;
      }
      if i :| 0 <= i < |qs| && mark(qs[i]) && qs[i].id == id {
        assert mark(ps[i]) && ps[i].id == id;
      }
    }
  }

  /** `m` to every signer. */
  method SendToAll(ps: seq<Peer>, m: DownMsg) returns (r: seq<Peer>)
    ensures |r| == |ps| && forall i :: 0 <= i < |ps| ==> r[i] == ps[i].(msgq := ps[i].msgq + [m])
  {
    r := ps;
    for i := 0 to |ps|
      invariant |r| == |ps|
      invariant forall j :: 0 <= j < |ps| ==> r[j] == if j < i then ps[j].(msgq := ps[j].msgq + [m]) else ps[j]
    {
      r := r[i := r[i].(msgq := r[i].msgq + [m])];
    }
  }

  /** `relay_r1_to_all`: one package to everyone but its sender. */
  method RelayToOthers(ps: seq<Peer>, sender: Id) returns (r: seq<Peer>)
    ensures |r| == |ps| && forall i :: 0 <= i < |ps| ==>
              r[i] == ps[i].(msgq := ps[i].msgq + if ps[i].id != sender then [RelayR1(sender)] else [])
  {
    r := ps;
    for i := 0 to |ps|
      invariant |r| == |ps|
      invariant forall j :: 0 <= j < |ps| ==>
        r[j] == ps[j].(msgq := ps[j].msgq + if j < i && ps[j].id != sender then [RelayR1(sender)] else [])
    {
      if r[i].id != sender {
        r := r[i := r[i].(msgq := r[i].msgq + [RelayR1(sender)])];
      }
    }
  }

  lemma {:induction false} OthersR1Snoc(members: seq<Id>, last: Id, self: Id)
    ensures OthersR1(members + [last], self) == OthersR1(members, self) + if last != self then [RelayR1(last)] else []
  {
    if members != [] {
      assert (members + [last])[1..] == members[1..] + [last];
      OthersR1Snoc(members[1..], last, self);
    }
  }

  /** The relays of all packages, sender by sender. */
  method RelayAll(ps: seq<Peer>) returns (r: seq<Peer>)
    ensures |r| == |ps| && forall i :: 0 <= i < |ps| ==>
      r[i] == ps[i].(msgq := ps[i].msgq + OthersR1(Ids(ps), ps[i].id))
  {
    r := ps;
    var ids := Ids(ps);
    for k := 0 to |ps|
      invariant |r| == |ps|
      invariant forall i :: 0 <= i < |ps| ==> r[i] == ps[i].(msgq := ps[i].msgq + OthersR1(ids[..k], ps[i].id))
    {
      ghost var before := r;
      r := RelayToOthers(r, ps[k].id);
      assert ids[..k + 1] == ids[..k] + [ids[k]];
      forall i | 0 <= i < |ps| ensures r[i] == ps[i].(msgq := ps[i].msgq + OthersR1(ids[..k + 1], ps[i].id)) {
        OthersR1Snoc(ids[..k], ids[k], ps[i].id);
        assert before[i].id == ps[i].id;
      }
    }
    assert ids[..|ps|] == ids;
  }

  method FindPeer(ps: seq<Peer>, id: Id) returns (k: nat)
    ensures k <= |ps| && (k < |ps| ==> ps[k].id == id)
    ensures k == |ps| ==> forall i :: 0 <= i < |ps| ==> ps[i].id != id
  {
    for i := 0 to |ps|
      invariant forall j :: 0 <= j < i ==> ps[j].id != id
    {
      if ps[i].id == id { return i; }
    }
    return |ps|;
  }

  /** Each signer's queue grew by what `sends` has for it. */
  ghost predicate Queued(ps: seq<Peer>, qs: seq<Peer>, c: Coordinator, sends: Sends) {
    |qs| == |ps| && forall i :: 0 <= i < |ps| ==>
      qs[i].id == ps[i].id && qs[i].msgq == ps[i].msgq + QueuedFor(c, sends, ps[i].id)
  }

  predicate GotR1(p: Peer) { p.hasR1 }

  predicate GotR2Complete(p: Peer) { p.r2Complete }

  predicate GotPub(p: Peer) { p.hasPub }

  /** Queueing frames touches neither ids nor marks. */
  lemma SendingMarks(ps: seq<Peer>, qs: seq<Peer>)
    requires |qs| == |ps| && forall i :: 0 <= i < |ps| ==> qs[i] == ps[i].(msgq := qs[i].msgq)
    ensures Ids(qs) == Ids(ps) && Marked(qs, GotR1) == Marked(ps, GotR1)
    ensures Marked(qs, GotR2Complete) == Marked(ps, GotR2Complete) && Marked(qs, GotPub) == Marked(ps, GotPub)
  {
    SameMarks(ps, qs, GotR1);
    SameMarks(ps, qs, GotR2Complete);
    SameMarks(ps, qs, GotPub);
  }

  lemma NewPeerMarks(p: Peer, ps: seq<Peer>, mark: Peer -> bool)
    requires !mark(p)
    ensures Marked([p] + ps, mark) == Marked(ps, mark)
  {
    var qs := [p] + ps;
    forall id ensures id in Marked(qs, mark) <==> id in Marked(ps, mark) {
      InMarked(ps, mark, id);
      InMarked(qs, mark, id);
      if i :| 0 <= i < |ps| && mark(ps[i]) && ps[i].id == id {
        assert mark(qs[i + 1]) && qs[i + 1].id == id;
      }
      if i :| 0 <= i < |qs| && mark(qs[i]) && qs[i].id == id {
        assert i > 0 && mark(ps[i - 1]) && ps[i - 1].id == id;
      }
    }
  }

  /** The completion check after a round-1 package was stored. */
  function AfterR1(n: nat, c: Coordinator): (Coordinator, Sends) {
    if |c.r1| < n then (c, Nothing) else (c.(phase := CollectingR2), RelayAllR1)
  }

  /** The completion check after a signer reported its second round. */
  function AfterR2(n: nat, c: Coordinator): (Coordinator, Sends) {
    if |c.r2Complete| < n then (c, Nothing)
    else (c.(phase := Complete, announcements := c.announcements + 1), ToAll(AllDone))
  }

  class CeremonyCoordinator {
    const mode: Mode
    const n: nat
    var peers: seq<Peer>
    var phase: Phase
    var finishedCount: nat
    var done: bool
    ghost var announcements: nat

    ghost function State(): Coordinator
      reads this
    {
      Coordinator(Ids(peers), phase, Marked(peers, GotR1), Marked(peers, GotR2Complete), Marked(peers, GotPub),
                  finishedCount, done, announcements)
    }

    constructor (mode: Mode, n: nat)
      ensures State() == Start(mode, n).c && this.mode == mode && this.n == n
    {
      this.mode, this.n := mode, n;
      peers, phase, finishedCount, done, announcements := [], Idle, 0, false, 0;
    }

    /** A frame to every signer. */
    method Broadcast(m: DownMsg)
      modifies this`peers
      ensures State() == old(State()) && Queued(old(peers), peers, State(), ToAll(m))
    {
      ghost var before := peers;
      peers := SendToAll(peers, m);
      SendingMarks(before, peers);
      EveryoneListed(peers);
    }

    /** All round-1 packages to everyone but their senders. */
    method RelayPackages()
      modifies this`peers
      ensures State() == old(State()) && Queued(old(peers), peers, State(), RelayAllR1)
    {
      ghost var before := peers;
      peers := RelayAll(peers);
      SendingMarks(before, peers);
      EveryoneListed(peers);
    }

    method AddPeer(id: Id)
      modifies this`peers
      ensures State() == old(State()).(members := [id] + old(State()).members)
      ensures peers == [Peer(id, false, false, false, [])] + old(peers)
    {
      var p := Peer(id, false, false, false, []);
      NewPeerMarks(p, peers, GotR1);
      NewPeerMarks(p, peers, GotR2Complete);
      NewPeerMarks(p, peers, GotPub);
      assert Ids([p] + peers) == [id] + Ids(peers);
      peers := [p] + peers;
    }

    method MarkR1(k: nat)
      requires k < |peers|
      modifies this`peers
      ensures State() == old(State()).(r1 := old(State()).r1 + {old(peers)[k].id}) &&
              Queued(old(peers), peers, State(), Nothing)
    {
      ghost var before := peers;
      peers := peers[k := peers[k].(hasR1 := true)];
      MarkOne(before, peers, GotR1, k);
      SameMarks(before, peers, GotR2Complete);
      SameMarks(before, peers, GotPub);
      assert Ids(peers) == Ids(before);
    }

    method MarkR2Complete(k: nat)
      requires k < |peers|
      modifies this`peers
      ensures State() == old(State()).(r2Complete := old(State()).r2Complete + {old(peers)[k].id})
      ensures Queued(old(peers), peers, State(), Nothing)
    {
      ghost var before := peers;
      peers := peers[k := peers[k].(r2Complete := true)];
      MarkOne(before, peers, GotR2Complete, k);
      SameMarks(before, peers, GotR1);
      SameMarks(before, peers, GotPub);
      assert Ids(peers) == Ids(before);
    }

    method MarkPub(k: nat)
      requires k < |peers|
      modifies this`peers
      ensures State() == old(State()).(pub := old(State()).pub + {old(peers)[k].id}) &&
              Queued(old(peers), peers, State(), Nothing)
    {
      ghost var before := peers;
      peers := peers[k := peers[k].(hasPub := true)];
      MarkOne(before, peers, GotPub, k);
      SameMarks(before, peers, GotR1);
      SameMarks(before, peers, GotR2Complete);
      assert Ids(peers) == Ids(before);
    }

    /** A signer registers; the last one starts the ceremony. */
    method Register(id: Id)
      modifies this
      ensures State() == OnRegister(n, old(State()), id).0
      ensures Queued([Peer(id, false, false, false, [])] + old(peers), peers, State(),
                     OnRegister(n, old(State()), id).1)
    {
      AddPeer(id);
      ghost var joined := peers;
      if phase == Idle && |peers| >= n {
        phase := CollectingR1;
        Broadcast(StartMsg);
      } else {
        NothingQueued(peers, State());
      }
    }

    /** `check_r1_complete` and `check_refresh_r1_complete`. */
    method CheckR1Complete()
      requires DistinctPeers(peers)
      modifies this
      ensures State() == AfterR1(n, old(State())).0 && Queued(old(peers), peers, State(), AfterR1(n, old(State())).1)
    {
      var have := CountMarked(peers, GotR1);
      if have < n {
        NothingQueued(peers, State());
        return;
      }
      phase := CollectingR2;
      RelayPackages();
    }

    /** ROUND1_PKG and REFRESH_R1. */
    method HandleRound1(from: Id, k: nat)
      requires DistinctPeers(peers) && k < |peers| && peers[k].id == from
      modifies this
      ensures State() == OnRound1(n, old(State()), from).0
      ensures Queued(old(peers), peers, State(), OnRound1(n, old(State()), from).1)
    {
      ghost var before := peers;
      if phase != CollectingR1 {
        NothingQueued(peers, State());
        return;
      }
      MarkR1(k);
      ghost var marked, c := peers, State();
      StillDistinct(before, marked);
      CheckR1Complete();
      QueuedAfterNothing(before, marked, peers, State(), AfterR1(n, c).1);
    }

    /** ROUND2_PKG and REFRESH_R2: routed to the one addressee, if it is there. */
    method HandleRound2(from: Id, dst: Id)
      requires DistinctPeers(peers)
      modifies this`peers
      ensures State() == old(State())
      ensures Queued(old(peers), peers, State(), ToOne(dst, RelayR2(from)))
    {
      ghost var before := peers;
      var k := FindPeer(peers, dst);
      if k < |peers| {
        peers := peers[k := peers[k].(msgq := peers[k].msgq + [RelayR2(from)])];
        SendingMarks(before, peers);
        OneQueued(before, k, State(), RelayR2(from));
      } else {
        NooneQueued(peers, dst, State(), RelayR2(from));
      }
    }

    /** `check_r2_complete` and `check_refresh_r2_complete`. */
    method CheckR2Complete()
      requires DistinctPeers(peers)
      modifies this
      ensures State() == AfterR2(n, old(State())).0 && Queued(old(peers), peers, State(), AfterR2(n, old(State())).1)
    {
      var have := CountMarked(peers, GotR2Complete);
      if have < n {
        NothingQueued(peers, State());
        return;
      }
      phase := Complete;
      announcements := announcements + 1;
      Broadcast(AllDone);
    }

    /** A first report: marked, then checked. */
    method ReportR2(k: nat)
      requires DistinctPeers(peers) && k < |peers|
      modifies this
      ensures var c := old(State()).(r2Complete := old(State()).r2Complete + {old(peers)[k].id});
              State() == AfterR2(n, c).0 && Queued(old(peers), peers, State(), AfterR2(n, c).1)
    {
      ghost var before := peers;
      MarkR2Complete(k);
      ghost var marked, c := peers, State();
      StillDistinct(before, marked);
      CheckR2Complete();
      QueuedAfterNothing(before, marked, peers, State(), AfterR2(n, c).1);
    }

    /** R2_COMPLETE and REFRESH_R2_COMPLETE. */
    method HandleR2Complete(from: Id, k: nat)
      requires DistinctPeers(peers) && k < |peers| && peers[k].id == from
      modifies this
      ensures State() == OnR2Complete(n, old(State()), from).0
      ensures Queued(old(peers), peers, State(), OnR2Complete(n, old(State()), from).1)
    {
      KnownMark(peers, GotR2Complete, k);
      if peers[k].r2Complete {
        NothingQueued(peers, State());
        return;
      }
      ReportR2(k);
    }

    /** PUB_KEY_PKG and REFRESH_COMPLETE. */
    method HandleFinished(from: Id, k: nat)
      requires k < |peers| && peers[k].id == from
      modifies this
      ensures State() == OnFinished(mode, n, old(State()), from).0
      ensures Queued(old(peers), peers, State(), OnFinished(mode, n, old(State()), from).1)
    {
      ghost var before := peers;
      MarkPub(k);
      ghost var marked := peers;
      finishedCount := finishedCount + 1;
      if finishedCount < n {
        QueuedNothing(before, marked, State());
        return;
      }
      done := true;
      if mode == Refresh {
        Broadcast(Confirmed);
        QueuedAfterNothing(before, marked, peers, State(), ToAll(Confirmed));
      } else {
        QueuedNothing(before, marked, State());
      }
    }
  }

  /** A frame for one listed signer, and for one that is not there. */
  lemma OneQueued(ps: seq<Peer>, k: nat, c: Coordinator, m: DownMsg)
    requires DistinctPeers(ps) && k < |ps| && c.members == Ids(ps)
    ensures Queued(ps, ps[k := ps[k].(msgq := ps[k].msgq + [m])], c, ToOne(ps[k].id, m))
  {
    EveryoneListed(ps);
  }

  lemma NooneQueued(ps: seq<Peer>, dst: Id, c: Coordinator, m: DownMsg)
    requires forall i :: 0 <= i < |ps| ==> ps[i].id != dst
    ensures Queued(ps, ps, c, ToOne(dst, m))
  {
  }

  lemma StillDistinct(ps: seq<Peer>, qs: seq<Peer>)
    requires DistinctPeers(ps) && |qs| == |ps| && forall i :: 0 <= i < |ps| ==> qs[i].id == ps[i].id
    ensures DistinctPeers(qs)
  {
  }

  lemma EveryoneListed(ps: seq<Peer>)
    ensures forall i :: 0 <= i < |ps| ==> ps[i].id in Ids(ps)
  {
    forall i | 0 <= i < |ps| ensures ps[i].id in Ids(ps) {
      assert Ids(ps)[i] == ps[i].id;
    }
  }

  lemma NothingQueued(ps: seq<Peer>, c: Coordinator)
    ensures Queued(ps, ps, c, Nothing)
  {
  }

  /** Queues do not depend on anything but the members, and `Nothing` adds nothing. */
  lemma QueuedAfterNothing(ps: seq<Peer>, qs: seq<Peer>, rs: seq<Peer>, c: Coordinator, sends: Sends)
    requires |qs| == |ps| && (forall i :: 0 <= i < |ps| ==> qs[i].id == ps[i].id && qs[i].msgq == ps[i].msgq)
    requires |rs| == |qs| && forall i :: 0 <= i < |qs| ==>
      rs[i].id == qs[i].id && rs[i].msgq == qs[i].msgq + QueuedFor(c, sends, qs[i].id)
    ensures Queued(ps, rs, c, sends)
  {
  }

  lemma QueuedNothing(ps: seq<Peer>, qs: seq<Peer>, c: Coordinator)
    requires |qs| == |ps| && forall i :: 0 <= i < |ps| ==> qs[i].id == ps[i].id && qs[i].msgq == ps[i].msgq
    ensures Queued(ps, qs, c, Nothing)
  {
  }

  lemma KnownMark(ps: seq<Peer>, mark: Peer -> bool, k: nat)
    requires DistinctPeers(ps) && k < |ps|
    ensures mark(ps[k]) <==> ps[k].id in Marked(ps, mark)
  {
    InMarked(ps, mark, ps[k].id);
  }

  // ---------------------------------------------------------------- a signer

  /** The peers' packages a signer holds, their counters, and its output queue. */
  class SignerCeremony {
    const mode: Mode
    const n: nat
    var started: bool
    var r1: seq<Id>
    var r2: seq<Id>
    var outq: seq<UpMsg>
    ghost var part2Runs: nat
    ghost var part3Runs: nat
    ghost var announced: nat
    ghost var finalized: nat

    ghost function Value(): Node
      reads this
    {
      Node(started, r1, r2, part2Runs, part3Runs, announced, finalized)
    }

    constructor (mode: Mode, n: nat)
      ensures Value() == NEW_NODE && outq == [] && this.mode == mode && this.n == n
    {
      this.mode, this.n := mode, n;
      started, r1, r2, outq := false, [], [], [];
      part2Runs, part3Runs, announced, finalized := 0, 0, 0, 0;
    }

    method HandleStart()
      modifies this
      ensures Value() == NodeStep(mode, n, old(Value()), StartMsg).0
      ensures outq == old(outq) + NodeStep(mode, n, old(Value()), StartMsg).1
    {
      started := true;
      outq := outq + [Round1];
    }

    /** One round-2 package for every peer. */
    method SendRound2()
      modifies this`outq
      ensures outq == old(outq) + Round2For(r1)
    {
      for i := 0 to |r1|
        invariant outq == old(outq) + Round2For(r1)[..i]
      {
        outq := outq + [Round2(r1[i])];
      }
      assert Round2For(r1)[..|r1|] == Round2For(r1);
    }

    /** RELAY_R1 and RELAY_REFRESH_R1: the last package triggers part 2. */
    method HandleRelayR1(src: Id)
      modifies this
      ensures Value() == OnRelayR1(mode, n, old(Value()), src).0
      ensures outq == old(outq) + OnRelayR1(mode, n, old(Value()), src).1
    {
      if |r1| >= MAX_SIGNERS { return; }
      r1 := r1 + [src];
      if |r1| < n - 1 { return; }
      part2Runs := part2Runs + 1;
      SendRound2();
      if mode == Refresh {
        outq := outq + [R2Complete];
      }
    }

    /** RELAY_R2 and RELAY_REFRESH_R2: in key generation the last package triggers part 3. */
    method HandleRelayR2(src: Id)
      modifies this
      ensures Value() == OnRelayR2(mode, n, old(Value()), src).0
      ensures outq == old(outq) + OnRelayR2(mode, n, old(Value()), src).1
    {
      if |r2| >= MAX_SIGNERS { return; }
      r2 := r2 + [src];
      if mode == Refresh || |r2| < n - 1 { return; }
      part3Runs := part3Runs + 1;
      outq := outq + [R2Complete];
      outq := outq + [Finished];
    }

    /** DKG_DONE, or REFRESH_FINALIZE with its count check. */
    method HandleAllDone()
      modifies this
      ensures Value() == OnAllDone(mode, n, old(Value())).0
      ensures outq == old(outq) + OnAllDone(mode, n, old(Value())).1
    {
      announced := announced + 1;
      if mode == Dkg { return; }
      if |r2| != n - 1 { return; }
      finalized := finalized + 1;
      outq := outq + [Finished];
    }
  }
}
