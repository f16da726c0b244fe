/** Every registration and every delivery keeps the invariant of the ceremony. */
module CeremonySteps {
  import opened Octets
  import opened Counting
  import opened Ceremony
  import opened CeremonyInvariant

  // ---------------------------------------------------------------- what a step touches

  /** The coordinator went to `res` and queued frames; nothing else moved. */
  ghost predicate Queued(s: Net, r: Net, res: (Coordinator, Sends)) {
    && r.mode == s.mode && r.n == s.n && Dom(s) && Dom(r) && r.nodes == s.nodes && r.c == res.0
    && forall j {:trigger r.down[j]} :: IsId(s, j) ==> r.down[j] == s.down[j] + QueuedFor(res.0, res.1, j)
  }

  /** It did so on taking the first frame of `id`. */
  ghost predicate Handled(s: Net, r: Net, id: Id, res: (Coordinator, Sends)) {
    && Dom(s) && IsId(s, id) && s.up[id] != [] && id in s.c.members
    && Queued(s, r, res) && r.up == s.up[id := s.up[id][1..]]
  }

  lemma ApplyIs(s: Net, res: (Coordinator, Sends))
    requires Dom(s)
    ensures Queued(s, Apply(s, res), res) && Apply(s, res).up == s.up
  {
    assert Apply(s, res).down.Keys == s.down.Keys;
  }

  lemma UpIs(s: Net, id: Id)
    requires Dom(s) && IsId(s, id) && s.up[id] != [] && id in s.c.members
    ensures Handled(s, Step(s, DeliverUp(id)), id, CoordStep(s.mode, s.n, s.c, id, s.up[id][0]))
  {
    ApplyIs(s.(up := s.up[id := s.up[id][1..]]), CoordStep(s.mode, s.n, s.c, id, s.up[id][0]));
  }

  /** A pair of signers is a matter of counts. */
  lemma PairCounts(s: Net, r: Net, i: Id, j: Id)
    requires Dom(s) && Dom(r) && r.n == s.n && IsId(s, i) && IsId(s, j) && PairOk(s, i, j)
    requires Cnt(r.down[j], RelayR1(i)) + Cnt(r.nodes[j].r1, i) + Bit(Relayed(s)) ==
             Cnt(s.down[j], RelayR1(i)) + Cnt(s.nodes[j].r1, i) + Bit(Relayed(r))
    requires Cnt(r.up[i], Round2(j)) + Cnt(r.down[j], RelayR2(i)) + Cnt(r.nodes[j].r2, i) + Bit(Part2(s, i)) ==
             Cnt(s.up[i], Round2(j)) + Cnt(s.down[j], RelayR2(i)) + Cnt(s.nodes[j].r2, i) + Bit(Part2(r, i))
    ensures PairOk(r, i, j)
  {
  }

  predicate NoRelay(out: seq<DownMsg>) {
    forall m :: m in out ==> !m.RelayR1? && !m.RelayR2?
  }

  lemma NoRelayCounts(d: seq<DownMsg>, out: seq<DownMsg>, i: Id)
    requires NoRelay(out)
    ensures Cnt(d + out, RelayR1(i)) == Cnt(d, RelayR1(i)) && Cnt(d + out, RelayR2(i)) == Cnt(d, RelayR2(i))
  {
    assert RelayR1(i) !in out && RelayR2(i) !in out;
    CntAppend(d, out, RelayR1(i));
    CntAppend(d, out, RelayR2(i));
  }

  /** Frames other than packages leave the pairs alone. */
  lemma QuietPair(s: Net, r: Net, id: Id, res: (Coordinator, Sends), i: Id, j: Id)
    requires Handled(s, r, id, res) && IsId(s, i) && IsId(s, j) && PairOk(s, i, j)
    requires !s.up[id][0].Round2? && NoRelay(QueuedFor(res.0, res.1, j)) && Relayed(r) == Relayed(s)
    ensures PairOk(r, i, j)
  {
    NoRelayCounts(s.down[j], QueuedFor(res.0, res.1, j), i);
    UpTail(s, r, id, res, i, j);
    PairCounts(s, r, i, j);
  }

  // ---------------------------------------------------------------- registration

  ghost predicate Joined(s: Net, r: Net, id: Id) {
    && Inv(s) && IsId(s, id) && id !in s.c.members && s.c.phase.Idle?
    && Queued(s, r, OnRegister(s.n, s.c, id)) && r.up == s.up
  }

  lemma MembersAfter(ms: seq<Id>, id: Id, n: nat)
    requires Distinct(ms) && id !in ms && 1 <= id <= n && forall k :: 0 <= k < |ms| ==> 1 <= ms[k] <= n
    ensures var r := [id] + ms;
            Distinct(r) && |r| <= n && forall k :: 0 <= k < |r| ==> 1 <= r[k] <= n
  {
    var r := [id] + ms;
    assert Distinct(r);
    Pigeonhole(r, Upto(n));
  }

  lemma RegisterCoordAt(n: nat, c: Coordinator, id: Id)
    requires CoordAt(n, c) && c.phase.Idle? && 1 <= id <= n && id !in c.members && 2 <= n
    ensures CoordAt(n, OnRegister(n, c, id).0)
  {
    MembersAfter(c.members, id, n);
  }

  lemma RegisterCoord(s: Net, r: Net, id: Id)
    requires Joined(s, r, id)
    ensures CoordOk(r)
  {
    RegisterCoordAt(s.n, s.c, id);
  }

  lemma StartQueued(mode: Mode, n: nat, c: Coordinator, c2: Coordinator, i: Id, nd: Node, u: seq<UpMsg>,
                    d: seq<DownMsg>, out: seq<DownMsg>)
    requires NodeAt(mode, n, c, i, nd, u, d) && c.phase.Idle?
    requires c2 == c.(members := c2.members, phase := c2.phase)
    requires (c2.phase.Idle? && out == []) || (c2.phase.CollectingR1? && out == [StartMsg])
    requires forall m :: m in d ==> m.StartMsg?
    ensures NodeAt(mode, n, c2, i, nd, u, d + out)
  {
    SortedDownAppend(d, out, 0);
    CntAppend(d, out, StartMsg);
    CntAppend(d, out, AllDone);
  }

  lemma RegisterNode(s: Net, r: Net, id: Id, j: Id)
    requires Joined(s, r, id) && CoordOk(r) && IsId(s, j)
    ensures NodeOk(r, j)
  {
    BeforeRelay(s, j);
    assert NodeOk(s, j);
    if !r.c.phase.Idle? {
      EveryoneIsIn(r, j);
    }
    assert r.down[j] == s.down[j] + QueuedFor(r.c, OnRegister(s.n, s.c, id).1, j);
    StartQueued(s.mode, s.n, s.c, r.c, j, s.nodes[j], s.up[j], s.down[j],
                QueuedFor(r.c, OnRegister(s.n, s.c, id).1, j));
  }

  lemma RegisterOut(s: Net, id: Id, j: Id)
    ensures NoRelay(QueuedFor(OnRegister(s.n, s.c, id).0, OnRegister(s.n, s.c, id).1, j))
  {
  }

  lemma QueuedPair(s: Net, r: Net, res: (Coordinator, Sends), i: Id, j: Id)
    requires Queued(s, r, res) && r.up == s.up && IsId(s, i) && IsId(s, j) && PairOk(s, i, j)
    requires NoRelay(QueuedFor(res.0, res.1, j)) && Relayed(r) == Relayed(s)
    ensures PairOk(r, i, j)
  {
    NoRelayCounts(s.down[j], QueuedFor(res.0, res.1, j), i);
    PairCounts(s, r, i, j);
  }

  lemma RegisterPair(s: Net, r: Net, id: Id, i: Id, j: Id)
    requires Joined(s, r, id) && IsId(s, i) && IsId(s, j) && i != j
    ensures PairOk(r, i, j)
  {
    assert PairOk(s, i, j);
    RegisterOut(s, id, j);
    QueuedPair(s, r, OnRegister(s.n, s.c, id), i, j);
  }

  lemma RegisterKeeps(s: Net, id: Id)
    requires Inv(s) && IsId(s, id) && id !in s.c.members
    ensures Inv(Step(s, Register(id)))
  {
    var r := Step(s, Register(id));
    if !s.c.phase.Idle? {
      EveryoneIsIn(s, id);
    }
    ApplyIs(s, OnRegister(s.n, s.c, id));
    RegisterCoord(s, r, id);
    forall j | IsId(r, j) ensures NodeOk(r, j) {
      RegisterNode(s, r, id, j);
    }
    forall i, j | IsId(r, i) && IsId(r, j) && i != j ensures PairOk(r, i, j) {
      RegisterPair(s, r, id, i, j);
    }
  }

  // ---------------------------------------------------------------- frames to the coordinator

  /** The coordinator's new state accounts for the frame it took, if it was i's, and for those it queued. */
  predicate Accounted(c: Coordinator, c2: Coordinator, i: Id, u: seq<UpMsg>, took: bool, out: seq<DownMsg>) {
    && (took ==> u != [])
    && Cnt(out, StartMsg) == 0 && !c.phase.Idle? && !c2.phase.Idle?
    && Cnt(out, AllDone) == Bit(c2.phase.Complete?) - Bit(c.phase.Complete?)
    && (Confirmed in out ==> c2.done) && (c.done ==> c2.done)
    && Bit(i in c2.r1) == Bit(i in c.r1) + Bit(took && u[0].Round1?)
    && Bit(i in c2.r2Complete) == Bit(i in c.r2Complete) + Bit(took && u[0].R2Complete?)
    && Bit(i in c2.pub) == Bit(i in c.pub) + Bit(took && u[0].Finished?)
  }

  lemma CountsAfter(mode: Mode, n: nat, c: Coordinator, c2: Coordinator, i: Id, nd: Node, u: seq<UpMsg>, took: bool,
                    d: seq<DownMsg>, out: seq<DownMsg>)
    requires CountsAt(mode, n, c, i, nd, u, d) && Accounted(c, c2, i, u, took, out)
    ensures CountsAt(mode, n, c2, i, nd, if took then u[1..] else u, d + out)
  {
    CntAppend(d, out, StartMsg);
    CntAppend(d, out, AllDone);
    if took {
      CntTail(u, Round1);
      CntTail(u, R2Complete);
      CntTail(u, Finished);
    }
  }

  lemma OrderAfter(n: nat, c: Coordinator, c2: Coordinator, i: Id, nd: Node, u: seq<UpMsg>, took: bool,
                   d: seq<DownMsg>, out: seq<DownMsg>)
    requires OrderAt(c, i, nd, u, d) && IdsAt(n, i, nd, u, d) && Accounted(c, c2, i, u, took, out)
    requires SortedDown(d + out) && DownIds(n, i, out) && (nd.r2 != [] ==> NoRelayR1(out))
    ensures var u2 := if took then u[1..] else u;
            OrderAt(c2, i, nd, u2, d + out) && IdsAt(n, i, nd, u2, d + out)
  {
    if took {
      TailOk(u, n, i);
    }
  }

  /** One signer's part of the invariant after the coordinator handled a frame. */
  lemma HandledNode(s: Net, r: Net, id: Id, res: (Coordinator, Sends), j: Id)
    requires Handled(s, r, id, res) && IsId(s, j) && NodeOk(s, j)
    requires Accounted(s.c, res.0, j, s.up[j], j == id, QueuedFor(res.0, res.1, j))
    requires SortedDown(s.down[j] + QueuedFor(res.0, res.1, j)) && DownIds(s.n, j, QueuedFor(res.0, res.1, j))
    requires s.nodes[j].r2 != [] ==> NoRelayR1(QueuedFor(res.0, res.1, j))
    ensures NodeOk(r, j)
  {
    var out := QueuedFor(res.0, res.1, j);
    assert r.down[j] == s.down[j] + out;
    CountsAfter(s.mode, s.n, s.c, res.0, j, s.nodes[j], s.up[j], j == id, s.down[j], out);
    OrderAfter(s.n, s.c, res.0, j, s.nodes[j], s.up[j], j == id, s.down[j], out);
  }

  // ---------------------------------------------------------------- round 1 arrives

  ghost predicate GotRound1(s: Net, r: Net, id: Id) {
    Inv(s) && Handled(s, r, id, OnRound1(s.n, s.c, id)) && s.up[id][0] == Round1
  }

  /** One more of the n, and it was the last exactly if all are there. */
  lemma LastOne(a: set<Id>, id: Id, n: nat)
    requires a <= Upto(n) && 1 <= id <= n && id !in a
    ensures a + {id} <= Upto(n) && |a + {id}| == |a| + 1 <= n && a != Upto(n) &&
            (|a + {id}| >= n <==> a + {id} == Upto(n))
  {
    CardMonotone(a + {id}, Upto(n));
    if |a + {id}| >= n {
      SubsetAll(a + {id}, Upto(n));
    }
  }

  lemma Round1CoordAt(n: nat, c: Coordinator, id: Id)
    requires CoordAt(n, c) && c.phase.CollectingR1? && 1 <= id <= n && id !in c.r1
    ensures CoordAt(n, OnRound1(n, c, id).0)
  {
    LastOne(c.r1, id, n);
  }

  lemma Round1Coord(s: Net, r: Net, id: Id)
    requires GotRound1(s, r, id)
    ensures s.c.phase.CollectingR1? && id !in s.c.r1 && CoordOk(r)
  {
    assert NodeOk(s, id) && Cnt(s.up[id], Round1) > 0;
    assert s.c.phase.CollectingR1?;
    Round1CoordAt(s.n, s.c, id);
  }

  lemma OthersR1Ok(members: seq<Id>, n: nat, j: Id)
    requires Distinct(members) && forall k :: 0 <= k < |members| ==> 1 <= members[k] <= n
    ensures var out := OthersR1(members, j);
            && SortedDown(out) && DownIds(n, j, out) && Cnt(out, StartMsg) == 0 && Cnt(out, AllDone) == 0
            && forall m :: m in out ==> m.RelayR1?
  {
    OthersR1Is(members, j, j);
  }

  lemma Round1Out(s: Net, r: Net, id: Id, j: Id)
    requires GotRound1(s, r, id) && IsId(s, j)
    ensures r.c.r1 == s.c.r1 + {id} && r.c.members == s.c.members && r.c.r2Complete == s.c.r2Complete &&
            r.c.pub == s.c.pub
    ensures r.c.done == s.c.done && !r.c.phase.Idle? && !r.c.phase.Complete? &&
            (r.c.phase.CollectingR2? <==> Relayed(r))
    ensures QueuedFor(r.c, OnRound1(s.n, s.c, id).1, j) == if Relayed(r) then OthersR1(s.c.members, j) else []
  {
    Round1Coord(s, r, id);
    EveryoneIsIn(s, j);
    Round1OutAt(s.n, s.c, id, j);
  }

  lemma Round1OutAt(n: nat, c: Coordinator, id: Id, j: Id)
    requires c.phase.CollectingR1? && j in c.members
    ensures var res := OnRound1(n, c, id);
            && res.0 == c.(r1 := c.r1 + {id}, phase := res.0.phase) &&
               (res.0.phase.CollectingR1? || res.0.phase.CollectingR2?)
            && QueuedFor(res.0, res.1, j) == if res.0.phase.CollectingR2? then OthersR1(c.members, j) else []
  {
  }

  lemma RelaysAfterStart(d: seq<DownMsg>, members: seq<Id>, n: nat, j: Id)
    requires Distinct(members) && (forall k :: 0 <= k < |members| ==> 1 <= members[k] <= n)
    requires SortedDown(d) && forall m :: m in d ==> m.StartMsg?
    ensures SortedDown(d + OthersR1(members, j))
  {
    OthersR1Ok(members, n, j);
    SortedDownAppend(d, OthersR1(members, j), 1);
  }

  lemma Round1Queue(s: Net, j: Id)
    requires Inv(s) && IsId(s, j) && !Relayed(s)
    ensures SortedDown(s.down[j]) && SortedDown(s.down[j] + OthersR1(s.c.members, j))
  {
    BeforeRelay(s, j);
    assert NodeOk(s, j);
    assert forall k :: 0 <= k < |s.c.members| ==> IsId(s, s.c.members[k]);
    RelaysAfterStart(s.down[j], s.c.members, s.n, j);
  }

  lemma Round1AccountedAt(n: nat, c: Coordinator, j: Id, id: Id, u: seq<UpMsg>)
    requires CoordAt(n, c) && c.phase.CollectingR1? && id !in c.r1 && j in c.members
    requires j == id ==> u != [] && u[0] == Round1
    ensures var res := OnRound1(n, c, id); Accounted(c, res.0, j, u, j == id, QueuedFor(res.0, res.1, j))
  {
    var c2 := OnRound1(n, c, id).0;
    R1Accounted(n, c, c2, j, id, u, c2.phase.CollectingR2?);
  }

  lemma Round1Accounted(s: Net, r: Net, id: Id, j: Id)
    requires GotRound1(s, r, id) && IsId(s, j)
    ensures Accounted(s.c, r.c, j, s.up[j], j == id, QueuedFor(r.c, OnRound1(s.n, s.c, id).1, j))
  {
    Round1Coord(s, r, id);
    EveryoneIsIn(s, j);
    Round1AccountedAt(s.n, s.c, j, id, s.up[j]);
  }

  lemma R1Accounted(n: nat, c: Coordinator, c2: Coordinator, j: Id, id: Id, u: seq<UpMsg>, relayed: bool)
    requires Distinct(c.members) && forall k :: 0 <= k < |c.members| ==> 1 <= c.members[k] <= n
    requires !c.phase.Idle? && !c.phase.Complete? && !c2.phase.Idle? && !c2.phase.Complete? && c2.done == c.done
    requires id !in c.r1 && c2.r1 == c.r1 + {id} && c2.r2Complete == c.r2Complete && c2.pub == c.pub
    requires j == id ==> u != [] && u[0] == Round1
    ensures Accounted(c, c2, j, u, j == id, if relayed then OthersR1(c.members, j) else [])
  {
    OthersR1Ok(c.members, n, j);
  }

  lemma Round1QueueAfter(s: Net, r: Net, id: Id, j: Id)
    requires GotRound1(s, r, id) && IsId(s, j)
    ensures var out := QueuedFor(r.c, OnRound1(s.n, s.c, id).1, j);
            SortedDown(s.down[j] + out) && DownIds(s.n, j, out) && s.nodes[j].r2 == []
  {
    Round1Coord(s, r, id);
    Round1Out(s, r, id, j);
    Round1Queue(s, j);
    assert s.down[j] + [] == s.down[j];
    OthersR1Ok(s.c.members, s.n, j);
    BeforeRelay(s, j);
  }

  lemma Round1Node(s: Net, r: Net, id: Id, j: Id)
    requires GotRound1(s, r, id) && IsId(s, j)
    ensures NodeOk(r, j)
  {
    Round1Accounted(s, r, id, j);
    Round1QueueAfter(s, r, id, j);
    assert NodeOk(s, j);
    HandledNode(s, r, id, OnRound1(s.n, s.c, id), j);
  }

  lemma PairAfterR1(d: seq<DownMsg>, members: seq<Id>, n: nat, i: Id, j: Id)
    requires Distinct(members) && (forall k :: 0 <= k < |members| ==> 1 <= members[k] <= n)
    requires i in members && i != j
    ensures Cnt(d + OthersR1(members, j), RelayR1(i)) == Cnt(d, RelayR1(i)) + 1
    ensures Cnt(d + OthersR1(members, j), RelayR2(i)) == Cnt(d, RelayR2(i))
  {
    OthersR1Is(members, j, i);
    OthersR1Ok(members, n, j);
    CntAppend(d, OthersR1(members, j), RelayR1(i));
    CntAppend(d, OthersR1(members, j), RelayR2(i));
  }

  lemma Round1PairDown(s: Net, r: Net, id: Id, i: Id, j: Id)
    requires GotRound1(s, r, id) && IsId(s, i) && IsId(s, j) && i != j
    ensures Cnt(r.down[j], RelayR1(i)) == Cnt(s.down[j], RelayR1(i)) + Bit(Relayed(r))
    ensures Cnt(r.down[j], RelayR2(i)) == Cnt(s.down[j], RelayR2(i)) && !Relayed(s)
  {
    Round1Down(s, r, id, j);
    EveryoneIsIn(s, i);
    assert forall k :: 0 <= k < |s.c.members| ==> IsId(s, s.c.members[k]);
    RelayCounts(s.down[j], r.down[j], s.c.members, s.n, i, j, Relayed(r));
  }

  lemma RelayCounts(d: seq<DownMsg>, d2: seq<DownMsg>, members: seq<Id>, n: nat, i: Id, j: Id, relayed: bool)
    requires Distinct(members) && (forall k :: 0 <= k < |members| ==> 1 <= members[k] <= n)
    requires i in members && i != j && d2 == d + if relayed then OthersR1(members, j) else []
    ensures Cnt(d2, RelayR1(i)) == Cnt(d, RelayR1(i)) + Bit(relayed)
    ensures Cnt(d2, RelayR2(i)) == Cnt(d, RelayR2(i))
  {
    if relayed {
      PairAfterR1(d, members, n, i, j);
    } else {
      assert d + [] == d;
    }
  }

  lemma Round1Down(s: Net, r: Net, id: Id, j: Id)
    requires GotRound1(s, r, id) && IsId(s, j)
    ensures r.down[j] == s.down[j] + (if Relayed(r) then OthersR1(s.c.members, j) else [])
    ensures !Relayed(s) && !s.c.phase.Idle?
  {
    Round1Coord(s, r, id);
    Round1Out(s, r, id, j);
  }

  lemma UpTail(s: Net, r: Net, id: Id, res: (Coordinator, Sends), i: Id, j: Id)
    requires Handled(s, r, id, res) && IsId(s, i) && !s.up[id][0].Round2?
    ensures Cnt(r.up[i], Round2(j)) == Cnt(s.up[i], Round2(j))
  {
    CntTail(s.up[id], Round2(j));
  }

  lemma Round1Pair(s: Net, r: Net, id: Id, i: Id, j: Id)
    requires GotRound1(s, r, id) && IsId(s, i) && IsId(s, j) && i != j
    ensures PairOk(r, i, j)
  {
    Round1PairDown(s, r, id, i, j);
    UpTail(s, r, id, OnRound1(s.n, s.c, id), i, j);
    assert PairOk(s, i, j);
  }

  lemma Round1Keeps(s: Net, r: Net, id: Id)
    requires GotRound1(s, r, id)
    ensures Inv(r)
  {
    Round1Coord(s, r, id);
    forall j | IsId(r, j) ensures NodeOk(r, j) {
      Round1Node(s, r, id, j);
    }
    forall i, j | IsId(r, i) && IsId(r, j) && i != j ensures PairOk(r, i, j) {
      Round1Pair(s, r, id, i, j);
    }
  }

  // ---------------------------------------------------------------- a round-2 package is routed

  ghost predicate GotRound2(s: Net, r: Net, id: Id, dst: Id) {
    Inv(s) && Handled(s, r, id, (s.c, ToOne(dst, RelayR2(id)))) && s.up[id][0] == Round2(dst)
  }

  lemma Round2Facts(s: Net, r: Net, id: Id, dst: Id)
    requires GotRound2(s, r, id, dst)
    ensures IsId(s, dst) && dst != id && !s.c.phase.Complete? && !s.c.phase.Idle? && !s.c.done
  {
    Sent(s, id, Round2(dst));
    R1Bound(s, id);
  }

  lemma RelayR2Last(d: seq<DownMsg>, out: seq<DownMsg>)
    requires SortedDown(d) && forall m :: m in d ==> DownRank(m) <= 2
    requires |out| <= 1 && forall m :: m in out ==> m.RelayR2?
    ensures SortedDown(d + out)
  {
    SortedDownAppend(d, out, 2);
  }

  lemma NothingAnnounced(s: Net, j: Id)
    requires Inv(s) && IsId(s, j) && !s.c.phase.Complete? && !s.c.done
    ensures SortedDown(s.down[j]) && forall m :: m in s.down[j] ==> DownRank(m) <= 2
  {
    assert NodeOk(s, j);
    forall m | m in s.down[j] ensures DownRank(m) <= 2 {
      InFlight(s, j, m);
    }
  }

  lemma Round2Queue(s: Net, r: Net, id: Id, dst: Id, j: Id)
    requires GotRound2(s, r, id, dst) && IsId(s, j)
    ensures var out := QueuedFor(r.c, ToOne(dst, RelayR2(id)), j);
            SortedDown(s.down[j] + out) && DownIds(s.n, j, out) && forall m :: m in out ==> m.RelayR2?
  {
    Round2Facts(s, r, id, dst);
    NothingAnnounced(s, j);
    RelayR2Last(s.down[j], QueuedFor(r.c, ToOne(dst, RelayR2(id)), j));
  }

  lemma Round2Node(s: Net, r: Net, id: Id, dst: Id, j: Id)
    requires GotRound2(s, r, id, dst) && IsId(s, j)
    ensures NodeOk(r, j)
  {
    Round2Facts(s, r, id, dst);
    Round2Queue(s, r, id, dst, j);
    assert NodeOk(s, j);
    HandledNode(s, r, id, (s.c, ToOne(dst, RelayR2(id))), j);
  }

  lemma Round2Down(s: Net, r: Net, id: Id, dst: Id, i: Id, j: Id)
    requires Handled(s, r, id, (s.c, ToOne(dst, RelayR2(id)))) && dst in s.c.members && IsId(s, j)
    ensures Cnt(r.down[j], RelayR1(i)) == Cnt(s.down[j], RelayR1(i))
    ensures Cnt(r.down[j], RelayR2(i)) == Cnt(s.down[j], RelayR2(i)) + Bit(j == dst && i == id)
  {
    var out := QueuedFor(r.c, ToOne(dst, RelayR2(id)), j);
    CntAppend(s.down[j], out, RelayR1(i));
    CntAppend(s.down[j], out, RelayR2(i));
  }

  lemma MovedPair(s: Net, r: Net, id: Id, dst: Id, i: Id, j: Id)
    requires Handled(s, r, id, (s.c, ToOne(dst, RelayR2(id)))) && s.up[id][0] == Round2(dst) && dst in s.c.members &&
             dst != id
    requires IsId(s, i) && IsId(s, j) && PairOk(s, i, j)
    ensures PairOk(r, i, j)
  {
    CntTail(s.up[id], Round2(j));
    Round2Down(s, r, id, dst, i, j);
    PairCounts(s, r, i, j);
  }

  lemma Round2Pair(s: Net, r: Net, id: Id, dst: Id, i: Id, j: Id)
    requires GotRound2(s, r, id, dst) && IsId(s, i) && IsId(s, j) && i != j
    ensures PairOk(r, i, j)
  {
    Round2Facts(s, r, id, dst);
    EveryoneIsIn(s, dst);
    assert PairOk(s, i, j);
    MovedPair(s, r, id, dst, i, j);
  }

  lemma Round2Keeps(s: Net, r: Net, id: Id, dst: Id)
    requires GotRound2(s, r, id, dst)
    ensures Inv(r)
  {
    forall j | IsId(r, j) ensures NodeOk(r, j) {
      Round2Node(s, r, id, dst, j);
    }
    forall i, j | IsId(r, i) && IsId(r, j) && i != j ensures PairOk(r, i, j) {
      Round2Pair(s, r, id, dst, i, j);
    }
  }

  // ---------------------------------------------------------------- a signer reports round 2 done

  ghost predicate GotR2Complete(s: Net, r: Net, id: Id) {
    Inv(s) && Handled(s, r, id, OnR2Complete(s.n, s.c, id)) && s.up[id][0] == R2Complete
  }

  lemma R2CompleteIsNew(s: Net, id: Id)
    requires Inv(s) && IsId(s, id) && s.up[id] != [] && s.up[id][0] == R2Complete
    ensures id !in s.c.r2Complete && Relayed(s)
  {
    Sent(s, id, R2Complete);
    R1Bound(s, id);
    R2Bound(s, id);
  }

  lemma R2CompleteCoordAt(n: nat, c: Coordinator, id: Id)
    requires CoordAt(n, c) && 1 <= id <= n && id !in c.r2Complete && c.r1 == Upto(n)
    ensures var c2 := OnR2Complete(n, c, id).0; CoordAt(n, c2) && !c.phase.Complete? && !c.done && c2.r1 == c.r1
  {
    LastOne(c.r2Complete, id, n);
    assert c.pub != Upto(n);
  }

  lemma R2CompleteCoord(s: Net, r: Net, id: Id)
    requires GotR2Complete(s, r, id)
    ensures id !in s.c.r2Complete && Relayed(s) && !s.c.phase.Complete? && !s.c.done && CoordOk(r) && Relayed(r)
  {
    R2CompleteIsNew(s, id);
    R2CompleteCoordAt(s.n, s.c, id);
  }

  lemma R2CompleteOut(s: Net, r: Net, id: Id, j: Id)
    requires GotR2Complete(s, r, id) && IsId(s, j)
    ensures QueuedFor(r.c, OnR2Complete(s.n, s.c, id).1, j) == if r.c.phase.Complete? then [AllDone] else []
  {
    R2CompleteCoord(s, r, id);
    EveryoneIsIn(s, j);
  }

  lemma R2CompleteAccounted(s: Net, r: Net, id: Id, j: Id)
    requires GotR2Complete(s, r, id) && IsId(s, j)
    ensures Accounted(s.c, r.c, j, s.up[j], j == id, QueuedFor(r.c, OnR2Complete(s.n, s.c, id).1, j))
  {
    R2CompleteCoord(s, r, id);
    R2CompleteOut(s, r, id, j);
    R2Accounted(s.n, s.c, j, id, s.up[j]);
  }

  lemma R2Accounted(n: nat, c: Coordinator, j: Id, id: Id, u: seq<UpMsg>)
    requires !c.phase.Idle? && !c.phase.Complete? && id !in c.r2Complete && (j == id ==> u != [] && u[0] == R2Complete)
    ensures var c2 := OnR2Complete(n, c, id).0;
            Accounted(c, c2, j, u, j == id, if c2.phase.Complete? then [AllDone] else [])
  {
  }

  lemma R2CompleteQueue(s: Net, j: Id)
    requires Inv(s) && IsId(s, j) && !s.c.done
    ensures SortedDown(s.down[j]) && SortedDown(s.down[j] + [AllDone])
  {
    assert NodeOk(s, j);
    forall m | m in s.down[j] ensures DownRank(m) <= 3 {
      InFlight(s, j, m);
    }
    SortedDownAppend(s.down[j], [AllDone], 3);
  }

  lemma R2CompleteNode(s: Net, r: Net, id: Id, j: Id)
    requires GotR2Complete(s, r, id) && IsId(s, j)
    ensures NodeOk(r, j)
  {
    R2CompleteCoord(s, r, id);
    R2CompleteOut(s, r, id, j);
    R2CompleteAccounted(s, r, id, j);
    R2CompleteQueue(s, j);
    assert s.down[j] + [] == s.down[j];
    assert NodeOk(s, j);
    HandledNode(s, r, id, OnR2Complete(s.n, s.c, id), j);
  }

  lemma R2CompleteQuiet(n: nat, c: Coordinator, id: Id, j: Id)
    ensures var res := OnR2Complete(n, c, id); NoRelay(QueuedFor(res.0, res.1, j))
  {
  }

  lemma R2CompleteKeeps(s: Net, r: Net, id: Id)
    requires GotR2Complete(s, r, id)
    ensures Inv(r)
  {
    R2CompleteCoord(s, r, id);
    forall j | IsId(r, j) ensures NodeOk(r, j) {
      R2CompleteNode(s, r, id, j);
    }
    forall i, j | IsId(r, i) && IsId(r, j) && i != j ensures PairOk(r, i, j) {
      assert PairOk(s, i, j);
      R2CompleteQuiet(s.n, s.c, id, j);
      QuietPair(s, r, id, OnR2Complete(s.n, s.c, id), i, j);
    }
  }

  // ---------------------------------------------------------------- a signer reports its key package

  ghost predicate GotFinished(s: Net, r: Net, id: Id) {
    Inv(s) && Handled(s, r, id, OnFinished(s.mode, s.n, s.c, id)) && s.up[id][0] == Finished
  }

  /** In key generation the completion notice travels ahead of the key package. */
  lemma FinishedAfterComplete(s: Net, id: Id)
    requires Inv(s) && IsId(s, id) && s.up[id] != [] && s.up[id][0] == Finished
    ensures id in s.c.r2Complete && id !in s.c.pub
  {
    Sent(s, id, Finished);
    assert NodeOk(s, id);
    forall m | m in s.up[id] ensures UpRank(m) >= 3 {
      var k :| 0 <= k < |s.up[id]| && s.up[id][k] == m;
      assert k > 0 ==> UpRank(s.up[id][0]) <= UpRank(s.up[id][k]);
    }
    assert R2Complete !in s.up[id];
  }

  lemma FinishedCoordAt(mode: Mode, n: nat, c: Coordinator, id: Id)
    requires CoordAt(n, c) && 1 <= id <= n && id !in c.pub && id in c.r2Complete
    ensures CoordAt(n, OnFinished(mode, n, c, id).0) && !c.done
  {
    LastOne(c.pub, id, n);
  }

  lemma FinishedCoord(s: Net, r: Net, id: Id)
    requires GotFinished(s, r, id)
    ensures id !in s.c.pub && !s.c.done && !s.c.phase.Idle? && CoordOk(r)
  {
    FinishedAfterComplete(s, id);
    FinishedCoordAt(s.mode, s.n, s.c, id);
    FinishedUnderway(s, id);
  }

  lemma FinishedUnderway(s: Net, id: Id)
    requires Inv(s) && IsId(s, id) && s.up[id] != [] && s.up[id][0] == Finished
    ensures !s.c.phase.Idle?
  {
    Sent(s, id, Finished);
    assert NodeOk(s, id);
    R2Bound(s, id);
  }

  lemma ConfirmedLast(d: seq<DownMsg>, out: seq<DownMsg>)
    requires SortedDown(d) && (out == [] || out == [Confirmed])
    ensures SortedDown(d + out)
  {
    SortedDownAppend(d, out, 4);
  }

  lemma FinishedQueue(s: Net, r: Net, id: Id, j: Id)
    requires Handled(s, r, id, OnFinished(s.mode, s.n, s.c, id)) && IsId(s, j) && NodeOk(s, j)
    ensures var out := QueuedFor(r.c, OnFinished(s.mode, s.n, s.c, id).1, j);
            SortedDown(s.down[j] + out) && forall m :: m in out ==> m.Confirmed? && r.c.done
  {
    ConfirmedLast(s.down[j], QueuedFor(r.c, OnFinished(s.mode, s.n, s.c, id).1, j));
  }

  lemma FinishedNode(s: Net, r: Net, id: Id, j: Id)
    requires GotFinished(s, r, id) && IsId(s, j)
    ensures NodeOk(r, j)
  {
    FinishedCoord(s, r, id);
    assert NodeOk(s, j);
    FinishedQueue(s, r, id, j);
    FinAccounted(s.mode, s.n, s.c, j, id, s.up[j]);
    HandledNode(s, r, id, OnFinished(s.mode, s.n, s.c, id), j);
  }

  lemma FinAccounted(mode: Mode, n: nat, c: Coordinator, j: Id, id: Id, u: seq<UpMsg>)
    requires !c.phase.Idle? && !c.done && id !in c.pub && (j == id ==> u != [] && u[0] == Finished)
    ensures var res := OnFinished(mode, n, c, id); Accounted(c, res.0, j, u, j == id, QueuedFor(res.0, res.1, j))
  {
  }

  lemma FinishedQuiet(mode: Mode, n: nat, c: Coordinator, id: Id, j: Id)
    ensures var res := OnFinished(mode, n, c, id); NoRelay(QueuedFor(res.0, res.1, j)) && res.0.phase == c.phase
  {
  }

  lemma FinishedKeeps(s: Net, r: Net, id: Id)
    requires GotFinished(s, r, id)
    ensures Inv(r)
  {
    FinishedCoord(s, r, id);
    forall j | IsId(r, j) ensures NodeOk(r, j) {
      FinishedNode(s, r, id, j);
    }
    forall i, j | IsId(r, i) && IsId(r, j) && i != j ensures PairOk(r, i, j) {
      assert PairOk(s, i, j);
      FinishedQuiet(s.mode, s.n, s.c, id, j);
      QuietPair(s, r, id, OnFinished(s.mode, s.n, s.c, id), i, j);
    }
  }

  lemma DeliverUpKeeps(s: Net, id: Id)
    requires Inv(s)
    ensures Inv(Step(s, DeliverUp(id)))
  {
    if id in s.up && s.up[id] != [] && id in s.c.members {
      var r := Step(s, DeliverUp(id));
      UpIs(s, id);
      match s.up[id][0]
      case Round1 => Round1Keeps(s, r, id);
      case Round2(dst) => Round2Keeps(s, r, id, dst);
      case R2Complete => R2CompleteKeeps(s, r, id);
      case Finished => FinishedKeeps(s, r, id);
    }
  }

  // ---------------------------------------------------------------- frames to a signer

  /** Signer j took its first frame, went to `nd`, and sent `out`. */
  ghost predicate Taken(s: Net, r: Net, j: Id, nd: Node, out: seq<UpMsg>) {
    && Dom(s) && IsId(s, j) && s.down[j] != [] && r.mode == s.mode && r.n == s.n && r.c == s.c && Dom(r)
    && r.down == s.down[j := s.down[j][1..]] && r.nodes == s.nodes[j := nd] && r.up == s.up[j := s.up[j] + out]
  }

  ghost predicate Received(s: Net, r: Net, j: Id, nd: Node, out: seq<UpMsg>) {
    Inv(s) && Taken(s, r, j, nd, out)
  }

  /** Both pairs of a signer that took a frame, given what the frame and the answer were. */
  lemma TakenPairs(s: Net, r: Net, j: Id, nd: Node, out: seq<UpMsg>, i: Id)
    requires Taken(s, r, j, nd, out) && IsId(s, i) && i != j && PairOk(s, i, j) && PairOk(s, j, i)
    requires Cnt(nd.r1, i) == Cnt(s.nodes[j].r1, i) + Bit(s.down[j][0] == RelayR1(i))
    requires Cnt(nd.r2, i) == Cnt(s.nodes[j].r2, i) + Bit(s.down[j][0] == RelayR2(i))
    requires Cnt(out, Round2(i)) == Bit(HasR1(s.n, nd)) - Bit(HasR1(s.n, s.nodes[j]))
    ensures PairOk(r, i, j) && PairOk(r, j, i)
  {
    CntTail(s.down[j], RelayR1(i));
    CntTail(s.down[j], RelayR2(i));
    CntAppend(s.up[j], out, Round2(i));
    PairCounts(s, r, i, j);
    PairCounts(s, r, j, i);
  }

  lemma DownIs(s: Net, j: Id)
    requires Inv(s) && IsId(s, j) && s.down[j] != []
    ensures var x := NodeStep(s.mode, s.n, s.nodes[j], s.down[j][0]);
            Received(s, Step(s, DeliverDown(j)), j, x.0, x.1)
  {
  }

  lemma OtherNode(s: Net, r: Net, j: Id, nd: Node, out: seq<UpMsg>, i: Id)
    requires Received(s, r, j, nd, out) && IsId(s, i) && i != j
    ensures NodeOk(r, i)
  {
    assert NodeOk(s, i);
  }

  lemma OtherPair(s: Net, r: Net, j: Id, nd: Node, out: seq<UpMsg>, i: Id, k: Id)
    requires Received(s, r, j, nd, out) && IsId(s, i) && IsId(s, k) && i != j && k != j && i != k
    ensures PairOk(r, i, k)
  {
    assert PairOk(s, i, k);
  }

  /** A signer's frame only moves its own part of the invariant and the pairs it is in. */
  lemma ReceivedKeeps(s: Net, r: Net, j: Id, nd: Node, out: seq<UpMsg>)
    requires Received(s, r, j, nd, out) && NodeOk(r, j)
    requires forall i {:trigger PairOk(r, i, j)} :: IsId(s, i) && i != j ==> PairOk(r, i, j) && PairOk(r, j, i)
    ensures Inv(r)
  {
    forall i | IsId(r, i) ensures NodeOk(r, i) {
      if i != j {
        OtherNode(s, r, j, nd, out, i);
      }
    }
    forall i, k | IsId(r, i) && IsId(r, k) && i != k ensures PairOk(r, i, k) {
      if i == j {
        assert PairOk(r, k, j);
      } else if k == j {
        assert PairOk(r, i, j);
      } else {
        OtherPair(s, r, j, nd, out, i, k);
      }
    }
  }

  lemma DownTail(d: seq<DownMsg>, n: nat, i: Id)
    requires d != [] && SortedDown(d) && DownIds(n, i, d)
    ensures SortedDown(d[1..]) && DownIds(n, i, d[1..])
    ensures forall m :: m in d[1..] ==> m in d
    ensures forall m :: m in d ==> DownRank(m) >= DownRank(d[0])
  {
    forall m | m in d ensures DownRank(m) >= DownRank(d[0]) {
      var k :| 0 <= k < |d| && d[k] == m;
    }
  }

  // ---------------------------------------------------------------- START

  lemma StartNode(mode: Mode, n: nat, c: Coordinator, i: Id, nd: Node, d: seq<DownMsg>)
    requires NodeAt(mode, n, c, i, nd, [], d) && d != [] && d[0] == StartMsg
    ensures NodeAt(mode, n, c, i, nd.(started := true), [Round1], d[1..])
  {
    DownTail(d, n, i);
    CntTail(d, StartMsg);
    CntTail(d, AllDone);
  }

  lemma StartKeeps(s: Net, r: Net, j: Id, nd: Node)
    requires Received(s, r, j, nd, [Round1]) && s.down[j][0] == StartMsg && nd == s.nodes[j].(started := true)
    ensures Inv(r)
  {
    assert NodeOk(s, j) && Cnt(s.down[j], StartMsg) > 0;
    NotStarted(s, j);
    StartNode(s.mode, s.n, s.c, j, s.nodes[j], s.down[j]);
    assert [] + [Round1] == [Round1];
    assert NodeOk(r, j);
    forall i | IsId(s, i) && i != j ensures PairOk(r, i, j) && PairOk(r, j, i) {
      assert PairOk(s, i, j) && PairOk(s, j, i);
      TakenPairs(s, r, j, nd, [Round1], i);
    }
    ReceivedKeeps(s, r, j, nd, [Round1]);
  }

  // ---------------------------------------------------------------- RELAY_R1

  /** A round-1 package is new to the signer, and does not overfill it. */
  lemma R1IsNew(s: Net, j: Id, src: Id)
    requires Inv(s) && IsId(s, j) && s.down[j] != [] && s.down[j][0] == RelayR1(src)
    ensures var r1 := s.nodes[j].r1 + [src];
            && IsPeer(s.n, j, src) && PeerIds(s.n, j, r1) && |r1| <= s.n - 1
            && (|r1| == s.n - 1 ==> forall k :: IsId(s, k) && k != j ==> Cnt(r1, k) == 1)
    ensures s.nodes[j].r2 == [] && s.nodes[j].started && Relayed(s) && !s.c.phase.Complete?
  {
    var r1 := s.nodes[j].r1 + [src];
    assert NodeOk(s, j);
    InFlight(s, j, RelayR1(src));
    forall k | IsId(s, k) && k != j ensures Cnt(r1, k) <= 1 {
      assert PairOk(s, k, j) && Cnt(s.down[j], RelayR1(src)) > 0;
      CntAppend(s.nodes[j].r1, [src], k);
    }
    PeersBound(s, j, r1);
    DownTail(s.down[j], s.n, j);
    assert StartMsg !in s.down[j];
    CompleteMeansPart2(s, j);
  }

  /** Everything in the channel of a signer still short of round-1 packages is its round-1 package. */
  lemma OnlyRound1Sent(s: Net, j: Id, m: UpMsg)
    requires Inv(s) && IsId(s, j) && !Part2(s, j) && s.nodes[j].r2 == [] && !s.c.phase.Complete? && m in s.up[j]
    ensures m.Round1?
  {
    Sent(s, j, m);
  }

  lemma R1NodePart(mode: Mode, n: nat, c: Coordinator, i: Id, nd: Node, u: seq<UpMsg>, d: seq<DownMsg>, src: Id)
    requires NodeAt(mode, n, c, i, nd, u, d) && d != [] && d[0] == RelayR1(src)
    requires nd.started && nd.r2 == [] && PeerIds(n, i, nd.r1 + [src]) && |nd.r1| + 1 < n - 1
    ensures NodeAt(mode, n, c, i, nd.(r1 := nd.r1 + [src]), u, d[1..])
  {
    DownTail(d, n, i);
    CntTail(d, StartMsg);
    CntTail(d, AllDone);
  }

  lemma Round2ForOk(peers: seq<Id>, n: nat, i: Id, mode: Mode)
    requires PeerIds(n, i, peers)
    ensures var out := Round2For(peers) + if mode.Refresh? then [R2Complete] else [];
            && SortedUp(out) && UpIds(n, i, out) && (forall m :: m in out ==> UpRank(m) >= 1)
            && Cnt(out, Round1) == 0 && Cnt(out, R2Complete) == Bit(mode.Refresh?) && Cnt(out, Finished) == 0
  {
    var q := Round2For(peers);
    assert Round1 !in q && R2Complete !in q && Finished !in q;
    CntAppend(q, if mode.Refresh? then [R2Complete] else [], Round1);
    CntAppend(q, if mode.Refresh? then [R2Complete] else [], R2Complete);
    CntAppend(q, if mode.Refresh? then [R2Complete] else [], Finished);
  }

  lemma R1NodeFull(mode: Mode, n: nat, c: Coordinator, i: Id, nd: Node, u: seq<UpMsg>, d: seq<DownMsg>, src: Id)
    requires NodeAt(mode, n, c, i, nd, u, d) && d != [] && d[0] == RelayR1(src) && 2 <= n
    requires nd.started && nd.r2 == [] && PeerIds(n, i, nd.r1 + [src]) && |nd.r1| + 1 == n - 1
    requires (forall m :: m in u ==> m.Round1?) && !c.phase.Complete?
    ensures var r1 := nd.r1 + [src];
            NodeAt(mode, n, c, i, nd.(r1 := r1, part2Runs := nd.part2Runs + 1),
                   u + (Round2For(r1) + if mode.Refresh? then [R2Complete] else []), d[1..])
  {
    var r1 := nd.r1 + [src];
    var out := Round2For(r1) + if mode.Refresh? then [R2Complete] else [];
    DownTail(d, n, i);
    CntTail(d, StartMsg);
    CntTail(d, AllDone);
    Round2ForOk(r1, n, i, mode);
    SortedUpAppend(u, out, 1);
    CntAppend(u, out, Round1);
    CntAppend(u, out, R2Complete);
    CntAppend(u, out, Finished);
    assert i !in c.r2Complete;
  }

  /** Of the round-2 packages a signer sends on a round-1 package, one goes to each peer, once it has them all. */
  lemma R1Sends(mode: Mode, n: nat, nd: Node, src: Id, i: Id)
    requires |nd.r1| + 1 <= n - 1 <= MAX_SIGNERS && 2 <= n
    ensures Cnt(OnRelayR1(mode, n, nd, src).1, Round2(i)) == if |nd.r1| + 1 < n - 1 then 0 else Cnt(nd.r1 + [src], i)
  {
    var r1 := nd.r1 + [src];
    CntRound2For(r1, i);
    CntAppend(Round2For(r1), if mode.Refresh? then [R2Complete] else [], Round2(i));
  }

  lemma R1Pair(s: Net, r: Net, j: Id, src: Id, i: Id)
    requires j in s.nodes && var x := OnRelayR1(s.mode, s.n, s.nodes[j], src); Taken(s, r, j, x.0, x.1)
    requires s.down[j][0] == RelayR1(src) && IsId(s, i) && i != j && PairOk(s, i, j) && PairOk(s, j, i)
    requires |s.nodes[j].r1| + 1 <= s.n - 1 && (|s.nodes[j].r1| + 1 == s.n - 1 ==> Cnt(s.nodes[j].r1 + [src], i) == 1)
    ensures PairOk(r, i, j) && PairOk(r, j, i)
  {
    var x := OnRelayR1(s.mode, s.n, s.nodes[j], src);
    CntAppend(s.nodes[j].r1, [src], i);
    R1Sends(s.mode, s.n, s.nodes[j], src, i);
    TakenPairs(s, r, j, x.0, x.1, i);
  }

  lemma R1NodeAt(mode: Mode, n: nat, c: Coordinator, i: Id, nd: Node, u: seq<UpMsg>, d: seq<DownMsg>, src: Id)
    requires NodeAt(mode, n, c, i, nd, u, d) && d != [] && d[0] == RelayR1(src) && 2 <= n <= MAX_SIGNERS
    requires nd.started && nd.r2 == [] && PeerIds(n, i, nd.r1 + [src]) && |nd.r1| + 1 <= n - 1
    requires (forall m :: m in u ==> m.Round1?) && !c.phase.Complete?
    ensures var x := OnRelayR1(mode, n, nd, src);
            NodeAt(mode, n, c, i, x.0, u + x.1, d[1..])
  {
    if |nd.r1| + 1 < n - 1 {
      R1NodePart(mode, n, c, i, nd, u, d, src);
      assert u + [] == u;
    } else {
      R1NodeFull(mode, n, c, i, nd, u, d, src);
    }
  }

  lemma R1Node(s: Net, r: Net, j: Id, src: Id)
    requires Inv(s) && IsId(s, j) && s.down[j] != [] && s.down[j][0] == RelayR1(src)
    requires var x := OnRelayR1(s.mode, s.n, s.nodes[j], src); Received(s, r, j, x.0, x.1)
    ensures NodeOk(r, j)
  {
    R1IsNew(s, j, src);
    assert NodeOk(s, j);
    forall m | m in s.up[j] ensures m.Round1? {
      OnlyRound1Sent(s, j, m);
    }
    R1NodeAt(s.mode, s.n, s.c, j, s.nodes[j], s.up[j], s.down[j], src);
  }

  lemma R1Keeps(s: Net, r: Net, j: Id, src: Id)
    requires Inv(s) && IsId(s, j) && s.down[j] != [] && s.down[j][0] == RelayR1(src)
    requires var x := OnRelayR1(s.mode, s.n, s.nodes[j], src); Received(s, r, j, x.0, x.1)
    ensures Inv(r)
  {
    var x := OnRelayR1(s.mode, s.n, s.nodes[j], src);
    R1Node(s, r, j, src);
    R1IsNew(s, j, src);
    forall i | IsId(s, i) && i != j ensures PairOk(r, i, j) && PairOk(r, j, i) {
      assert PairOk(s, i, j) && PairOk(s, j, i);
      R1Pair(s, r, j, src, i);
    }
    ReceivedKeeps(s, r, j, x.0, x.1);
  }

  // ---------------------------------------------------------------- RELAY_R2

  lemma R2IsNew(s: Net, j: Id, src: Id)
    requires Inv(s) && IsId(s, j) && s.down[j] != [] && s.down[j][0] == RelayR2(src)
    ensures var r2 := s.nodes[j].r2 + [src];
            && IsPeer(s.n, j, src) && PeerIds(s.n, j, r2) && |r2| <= s.n - 1
            && (|r2| == s.n - 1 ==> forall k :: IsId(s, k) && k != j ==> Cnt(r2, k) == 1)
    ensures NoRelayR1(s.down[j])
  {
    var r2 := s.nodes[j].r2 + [src];
    assert NodeOk(s, j);
    InFlight(s, j, RelayR2(src));
    forall k | IsId(s, k) && k != j ensures Cnt(r2, k) <= 1 {
      assert PairOk(s, k, j) && Cnt(s.down[j], RelayR2(src)) > 0;
      CntAppend(s.nodes[j].r2, [src], k);
    }
    PeersBound(s, j, r2);
    DownTail(s.down[j], s.n, j);
  }

  /** What a round-2 package does to a signer, apart from the queues. */
  lemma R2NodeCounts(mode: Mode, n: nat, c: Coordinator, i: Id, nd: Node, u: seq<UpMsg>, d: seq<DownMsg>, src: Id)
    requires CountsAt(mode, n, c, i, nd, u, d) && d != [] && d[0] == RelayR2(src)
    requires 2 <= n <= MAX_SIGNERS && |nd.r2| + 1 <= n - 1
    ensures var x := OnRelayR2(mode, n, nd, src);
            CountsAt(mode, n, c, i, x.0, u + x.1, d[1..])
  {
    var x := OnRelayR2(mode, n, nd, src);
    CntTail(d, StartMsg);
    CntTail(d, AllDone);
    CntAppend(u, x.1, Round1);
    CntAppend(u, x.1, R2Complete);
    CntAppend(u, x.1, Finished);
  }

  lemma R2NodeOrder(mode: Mode, n: nat, c: Coordinator, i: Id, nd: Node, u: seq<UpMsg>, d: seq<DownMsg>, src: Id)
    requires NodeAt(mode, n, c, i, nd, u, d) && d != [] && d[0] == RelayR2(src) && NoRelayR1(d)
    requires 2 <= n <= MAX_SIGNERS && PeerIds(n, i, nd.r2 + [src]) && |nd.r2| + 1 <= n - 1
    ensures var x := OnRelayR2(mode, n, nd, src);
            OrderAt(c, i, x.0, u + x.1, d[1..]) && IdsAt(n, i, x.0, u + x.1, d[1..])
  {
    var x := OnRelayR2(mode, n, nd, src);
    DownTail(d, n, i);
    if x.1 == [] {
      assert u + [] == u;
    } else {
      forall m | m in u ensures UpRank(m) <= 2 {
        assert Cnt(u, m) > 0;
      }
      SortedUpAppend(u, x.1, 2);
    }
  }

  lemma R2Pair(s: Net, r: Net, j: Id, src: Id, i: Id)
    requires j in s.nodes && var x := OnRelayR2(s.mode, s.n, s.nodes[j], src); Taken(s, r, j, x.0, x.1)
    requires s.down[j][0] == RelayR2(src) && IsId(s, i) && i != j && PairOk(s, i, j) && PairOk(s, j, i)
    requires |s.nodes[j].r2| + 1 <= s.n - 1
    ensures PairOk(r, i, j) && PairOk(r, j, i)
  {
    var x := OnRelayR2(s.mode, s.n, s.nodes[j], src);
    CntAppend(s.nodes[j].r2, [src], i);
    TakenPairs(s, r, j, x.0, x.1, i);
  }

  lemma R2Keeps(s: Net, r: Net, j: Id, src: Id)
    requires Inv(s) && IsId(s, j) && s.down[j] != [] && s.down[j][0] == RelayR2(src)
    requires var x := OnRelayR2(s.mode, s.n, s.nodes[j], src); Received(s, r, j, x.0, x.1)
    ensures Inv(r)
  {
    var x := OnRelayR2(s.mode, s.n, s.nodes[j], src);
    R2IsNew(s, j, src);
    assert NodeOk(s, j);
    R2NodeCounts(s.mode, s.n, s.c, j, s.nodes[j], s.up[j], s.down[j], src);
    R2NodeOrder(s.mode, s.n, s.c, j, s.nodes[j], s.up[j], s.down[j], src);
    assert NodeOk(r, j);
    forall i | IsId(s, i) && i != j ensures PairOk(r, i, j) && PairOk(r, j, i) {
      assert PairOk(s, i, j) && PairOk(s, j, i);
      R2Pair(s, r, j, src, i);
    }
    ReceivedKeeps(s, r, j, x.0, x.1);
  }

  // ---------------------------------------------------------------- DKG_DONE and REFRESH_FINALIZE

  /** When the announcement reaches a signer, nothing of rounds 1 and 2 is on its way any more. */
  lemma AnnouncedSeesAll(s: Net, j: Id, i: Id)
    requires Inv(s) && IsId(s, j) && s.down[j] != [] && s.down[j][0] == AllDone
    requires IsId(s, i) && i != j
    ensures Cnt(s.nodes[j].r1, i) == 1 && Cnt(s.nodes[j].r2, i) == 1
  {
    InFlight(s, j, AllDone);
    assert NodeOk(s, j) && NodeOk(s, i) && PairOk(s, i, j);
    DownTail(s.down[j], s.n, j);
    assert RelayR1(i) !in s.down[j] && RelayR2(i) !in s.down[j];
    assert i in s.c.r2Complete;
    assert Round2(j) !in s.up[i];
    CompleteMeansPart2(s, i);
    if s.mode.Dkg? {
      Part3MeansPart2(s, i);
    }
  }

  lemma Part3MeansPart2(s: Net, j: Id)
    requires Inv(s) && IsId(s, j) && Part3(s, j)
    ensures Part2(s, j)
  {
    R2Bound(s, j);
    assert NodeOk(s, j);
    R2MeansR1(s, j);
  }

  lemma AnnouncedCounts(s: Net, j: Id)
    requires Inv(s) && IsId(s, j) && s.down[j] != [] && s.down[j][0] == AllDone
    ensures |s.nodes[j].r1| == |s.nodes[j].r2| == s.n - 1
  {
    assert NodeOk(s, j);
    forall i | IsId(s, i) && i != j ensures Cnt(s.nodes[j].r1, i) == 1 && Cnt(s.nodes[j].r2, i) == 1 {
      AnnouncedSeesAll(s, j, i);
    }
    PeersBound(s, j, s.nodes[j].r1);
    PeersBound(s, j, s.nodes[j].r2);
  }

  lemma AllDoneCounts(mode: Mode, n: nat, c: Coordinator, i: Id, nd: Node, u: seq<UpMsg>, d: seq<DownMsg>)
    requires CountsAt(mode, n, c, i, nd, u, d) && d != [] && d[0] == AllDone && |nd.r2| == n - 1
    ensures var x := OnAllDone(mode, n, nd); CountsAt(mode, n, c, i, x.0, u + x.1, d[1..])
  {
    var x := OnAllDone(mode, n, nd);
    CntTail(d, StartMsg);
    CntTail(d, AllDone);
    CntAppend(u, x.1, Round1);
    CntAppend(u, x.1, R2Complete);
    CntAppend(u, x.1, Finished);
    assert Confirmed in d[1..] ==> Confirmed in d;
  }

  lemma AllDoneOrder(mode: Mode, n: nat, c: Coordinator, i: Id, nd: Node, u: seq<UpMsg>, d: seq<DownMsg>)
    requires OrderAt(c, i, nd, u, d) && IdsAt(n, i, nd, u, d) && d != [] && d[0] == AllDone
    ensures var x := OnAllDone(mode, n, nd); OrderAt(c, i, x.0, u + x.1, d[1..]) && IdsAt(n, i, x.0, u + x.1, d[1..])
  {
    DownTail(d, n, i);
    SortedUpAppend(u, OnAllDone(mode, n, nd).1, 3);
  }

  lemma AllDoneNode(mode: Mode, n: nat, c: Coordinator, i: Id, nd: Node, u: seq<UpMsg>, d: seq<DownMsg>)
    requires NodeAt(mode, n, c, i, nd, u, d) && d != [] && d[0] == AllDone && |nd.r2| == n - 1
    ensures var x := OnAllDone(mode, n, nd); NodeAt(mode, n, c, i, x.0, u + x.1, d[1..])
  {
    AllDoneCounts(mode, n, c, i, nd, u, d);
    AllDoneOrder(mode, n, c, i, nd, u, d);
  }

  lemma AllDoneKeeps(s: Net, r: Net, j: Id)
    requires Inv(s) && IsId(s, j) && s.down[j] != [] && s.down[j][0] == AllDone
    requires var x := OnAllDone(s.mode, s.n, s.nodes[j]); Received(s, r, j, x.0, x.1)
    ensures Inv(r)
  {
    var x := OnAllDone(s.mode, s.n, s.nodes[j]);
    AnnouncedCounts(s, j);
    assert NodeOk(s, j);
    AllDoneNode(s.mode, s.n, s.c, j, s.nodes[j], s.up[j], s.down[j]);
    forall i | IsId(s, i) && i != j ensures PairOk(r, i, j) && PairOk(r, j, i) {
      assert PairOk(s, i, j) && PairOk(s, j, i);
      TakenPairs(s, r, j, x.0, x.1, i);
    }
    ReceivedKeeps(s, r, j, x.0, x.1);
  }

  // ---------------------------------------------------------------- REFRESH_CONFIRMED

  lemma ConfirmedNode(mode: Mode, n: nat, c: Coordinator, i: Id, nd: Node, u: seq<UpMsg>, d: seq<DownMsg>)
    requires NodeAt(mode, n, c, i, nd, u, d) && d != [] && d[0] == Confirmed
    ensures NodeAt(mode, n, c, i, nd, u, d[1..])
  {
    DownTail(d, n, i);
    CntTail(d, StartMsg);
    CntTail(d, AllDone);
    assert Confirmed in d;
  }

  lemma ConfirmedKeeps(s: Net, r: Net, j: Id, nd: Node)
    requires Received(s, r, j, nd, []) && s.down[j][0] == Confirmed && nd == s.nodes[j]
    ensures Inv(r)
  {
    assert NodeOk(s, j);
    ConfirmedNode(s.mode, s.n, s.c, j, nd, s.up[j], s.down[j]);
    assert s.up[j] + [] == s.up[j];
    forall i | IsId(s, i) && i != j ensures PairOk(r, i, j) && PairOk(r, j, i) {
      assert PairOk(s, i, j) && PairOk(s, j, i);
      TakenPairs(s, r, j, nd, [], i);
    }
    ReceivedKeeps(s, r, j, nd, []);
  }

  lemma DeliverDownKeeps(s: Net, j: Id)
    requires Inv(s)
    ensures Inv(Step(s, DeliverDown(j)))
  {
    if j in s.down && s.down[j] != [] {
      var r := Step(s, DeliverDown(j));
      DownIs(s, j);
      match s.down[j][0]
      case StartMsg => StartKeeps(s, r, j, s.nodes[j].(started := true));
      case RelayR1(src) => R1Keeps(s, r, j, src);
      case RelayR2(src) => R2Keeps(s, r, j, src);
      case AllDone => AllDoneKeeps(s, r, j);
      case Confirmed => ConfirmedKeeps(s, r, j, s.nodes[j]);
    }
  }

  lemma StepKeeps(s: Net, e: Event)
    requires Inv(s)
    ensures Inv(Step(s, e))
  {
    match e
    case Register(id) => if IsId(s, id) && id !in s.c.members { RegisterKeeps(s, id); }
    case DeliverUp(id) => DeliverUpKeeps(s, id);
    case DeliverDown(id) => DeliverDownKeeps(s, id);
  }

  lemma StartIsFine(mode: Mode, n: nat)
    requires 2 <= n <= MAX_SIGNERS
    ensures Inv(Start(mode, n))
  {
    var s := Start(mode, n);
    assert 1 in Upto(n);
    forall i | IsId(s, i) ensures NodeOk(s, i) {
      assert s.up[i] == [] && s.down[i] == [];
    }
    forall i, j | IsId(s, i) && IsId(s, j) && i != j ensures PairOk(s, i, j) {
      assert s.up[i] == [] && s.down[j] == [];
    }
  }

  lemma {:induction false} RunKeeps(mode: Mode, n: nat, es: seq<Event>)
    requires 2 <= n <= MAX_SIGNERS
    ensures Inv(Run(Start(mode, n), es))
  {
    if es == [] {
      StartIsFine(mode, n);
    } else {
      var s := Run(Start(mode, n), es[..|es| - 1]);
      RunKeeps(mode, n, es[..|es| - 1]);
      StepKeeps(s, es[|es| - 1]);
    }
  }

  lemma {:induction false} RunIsOf(s: Net, es: seq<Event>)
    ensures Run(s, es).mode == s.mode && Run(s, es).n == s.n
  {
    if es != [] {
      RunIsOf(s, es[..|es| - 1]);
    }
  }
}
