/** What every interleaving of key generation and of share refresh guarantees. */
module CeremonyGuarantees {
  import opened Octets
  import opened Counting
  import opened Ceremony
  import opened CeremonyInvariant
  import opened CeremonySteps

  /** One package from each of the other n - 1 signers, in some order. */
  ghost predicate ExactlyThePeers(n: nat, j: Id, xs: seq<Id>) {
    |xs| == n - 1 && multiset(xs) == multiset(Upto(n) - {j})
  }

  lemma OnceEach(s: Net, j: Id, xs: seq<Id>)
    requires Dom(s) && IsId(s, j) && PeerIds(s.n, j, xs)
    requires forall i :: IsId(s, i) && i != j ==> Cnt(xs, i) == 1
    ensures ExactlyThePeers(s.n, j, xs)
  {
    PeersBound(s, j, xs);
    forall x ensures multiset(xs)[x] == multiset(Upto(s.n) - {j})[x] {
      if IsPeer(s.n, j, x) {
        assert IsId(s, x) && Cnt(xs, x) == 1;
      } else {
        assert x !in xs;
      }
    }
  }

  lemma FullR1(s: Net, j: Id)
    requires Inv(s) && IsId(s, j) && Part2(s, j)
    ensures ExactlyThePeers(s.n, j, s.nodes[j].r1)
  {
    assert NodeOk(s, j);
    R1Bound(s, j);
    OnceEach(s, j, s.nodes[j].r1);
  }

  lemma FullR2(s: Net, j: Id)
    requires Inv(s) && IsId(s, j) && Part3(s, j)
    ensures ExactlyThePeers(s.n, j, s.nodes[j].r2)
  {
    assert NodeOk(s, j);
    R2Bound(s, j);
    OnceEach(s, j, s.nodes[j].r2);
  }

  /**
   The refresh barrier: whenever REFRESH_FINALIZE is the next frame of signer j, j holds exactly
   one package of either round from each peer, so the count check lets it finalize, once.
   */
  lemma RefreshBarrier(n: nat, es: seq<Event>, j: Id)
    requires 2 <= n <= MAX_SIGNERS && 1 <= j <= n
    requires var s := Run(Start(Refresh, n), es); j in s.down && s.down[j] != [] && s.down[j][0] == AllDone
    ensures var s := Run(Start(Refresh, n), es);
            && j in s.nodes && ExactlyThePeers(n, j, s.nodes[j].r1) && ExactlyThePeers(n, j, s.nodes[j].r2)
            && s.nodes[j].finalized == 0 && Step(s, DeliverDown(j)).nodes[j].finalized == 1
            && Step(s, DeliverDown(j)).up[j] == s.up[j] + [Finished]
  {
    var s := Run(Start(Refresh, n), es);
    RunKeeps(Refresh, n, es);
    RunIsOf(Start(Refresh, n), es);
    AnnouncedCounts(s, j);
    FullR1(s, j);
    FullR2(s, j);
    assert NodeOk(s, j) && Cnt(s.down[j], AllDone) > 0;
  }

  /** REFRESH_FINALIZE never fails its check: a signer that saw it has finalized. */
  lemma FinalizeNeverRefused(n: nat, es: seq<Event>, j: Id)
    requires 2 <= n <= MAX_SIGNERS && 1 <= j <= n
    ensures var s := Run(Start(Refresh, n), es);
            j in s.nodes && s.nodes[j].finalized == s.nodes[j].announced <= 1
  {
    RunKeeps(Refresh, n, es);
    RunIsOf(Start(Refresh, n), es);
    assert NodeOk(Run(Start(Refresh, n), es), j);
  }

  /** Causality: when a round-2 package reaches signer j, every round-1 package has. */
  lemma Round1BeforeRound2(mode: Mode, n: nat, es: seq<Event>, j: Id)
    requires 2 <= n <= MAX_SIGNERS && 1 <= j <= n
    requires var s := Run(Start(mode, n), es); j in s.down && s.down[j] != [] && s.down[j][0].RelayR2?
    ensures var s := Run(Start(mode, n), es);
            j in s.nodes && ExactlyThePeers(n, j, s.nodes[j].r1) && s.nodes[j].part2Runs == 1 &&
              s.nodes[j].part3Runs == 0
  {
    var s := Run(Start(mode, n), es);
    RunKeeps(mode, n, es);
    RunIsOf(Start(mode, n), es);
    var src := s.down[j][0].src;
    R2IsNew(s, j, src);
    InFlight(s, j, s.down[j][0]);
    R1Bound(s, src);
    R2MeansR1(s, j);
    FullR1(s, j);
    assert NodeOk(s, j);
  }

  /** Each part runs at most once, and on exactly one package from every peer. */
  lemma PartsRunOnce(mode: Mode, n: nat, es: seq<Event>, j: Id)
    requires 2 <= n <= MAX_SIGNERS && 1 <= j <= n
    ensures var s := Run(Start(mode, n), es);
            && j in s.nodes && s.nodes[j].part2Runs <= 1 && s.nodes[j].part3Runs <= 1
            && (s.nodes[j].part2Runs == 1 <==> ExactlyThePeers(n, j, s.nodes[j].r1))
            && (mode.Dkg? ==> (s.nodes[j].part3Runs == 1 <==> ExactlyThePeers(n, j, s.nodes[j].r2)))
            && (s.nodes[j].part3Runs == 1 ==> s.nodes[j].part2Runs == 1)
  {
    var s := Run(Start(mode, n), es);
    RunKeeps(mode, n, es);
    RunIsOf(Start(mode, n), es);
    assert NodeOk(s, j);
    if Part2(s, j) {
      FullR1(s, j);
    }
    if Part3(s, j) {
      FullR2(s, j);
      Part3MeansPart2(s, j);
    }
  }

  /** The coordinator announces at most once, and is done only after it announced. */
  lemma AnnouncedOnce(mode: Mode, n: nat, es: seq<Event>)
    requires 2 <= n <= MAX_SIGNERS
    ensures var c := Run(Start(mode, n), es).c;
            && c.announcements <= 1 && (c.announcements == 1 <==> c.phase.Complete?) && (c.done ==> c.phase.Complete?)
  {
    var s := Run(Start(mode, n), es);
    RunKeeps(mode, n, es);
    if s.c.done {
      assert s.c.r2Complete == Upto(s.n);
    }
  }

  /** Everyone registered and nothing in any channel. */
  ghost predicate Quiet(s: Net) {
    forall i {:trigger s.up[i]} :: IsId(s, i) ==>
      i in s.c.members && i in s.up && i in s.down && s.up[i] == [] && s.down[i] == []
  }

  predicate AllRanOnce(mode: Mode, nd: Node) {
    nd.part2Runs == 1 && nd.announced == 1 && (if mode.Dkg? then nd.part3Runs else nd.finalized) == 1
  }

  lemma QuietPart2(s: Net, j: Id)
    requires Inv(s) && Quiet(s) && IsId(s, j)
    ensures !s.c.phase.Idle? && Relayed(s) && Part2(s, j)
  {
    forall i | IsId(s, i) ensures i in s.c.members && s.nodes[i].started && i in s.c.r1 {
      assert s.up[i] == [] && s.down[i] == [];
      EveryoneFills(s);
      assert NodeOk(s, i);
    }
    assert Upto(s.n) <= s.c.r1;
    assert s.up[j] == [];
    R2MeansR1(s, j);
  }

  lemma EveryoneFills(s: Net)
    requires Inv(s) && Quiet(s)
    ensures !s.c.phase.Idle?
  {
    var ms := s.c.members;
    forall i | i in Upto(s.n) ensures i in (set x | x in ms) {
      assert IsId(s, i) && s.up[i] == [];
    }
    DistinctCard(ms);
    CardMonotone(Upto(s.n), (set x | x in ms));
  }

  lemma QuietPart3(s: Net, j: Id)
    requires Inv(s) && Quiet(s) && IsId(s, j)
    ensures Part3(s, j)
  {
    assert NodeOk(s, j);
    assert s.up[j] == [] && s.down[j] == [];
    forall i | IsId(s, i) && i != j ensures Cnt(s.nodes[j].r2, i) == 1 {
      QuietPart2(s, i);
      assert PairOk(s, i, j) && s.up[i] == [];
    }
    PeersBound(s, j, s.nodes[j].r2);
  }

  /**
   No interleaving deadlocks: once everyone has registered, channels that run dry mean the
   ceremony is finished at the coordinator and at every signer.
   */
  lemma NeverStuck(mode: Mode, n: nat, es: seq<Event>)
    requires 2 <= n <= MAX_SIGNERS && Quiet(Run(Start(mode, n), es))
    ensures var s := Run(Start(mode, n), es);
            && s.c.done && s.c.announcements == 1
            && forall j :: 1 <= j <= n ==> j in s.nodes && AllRanOnce(mode, s.nodes[j])
  {
    RunKeeps(mode, n, es);
    RunIsOf(Start(mode, n), es);
    QuietDone(Run(Start(mode, n), es));
  }

  lemma QuietDone(s: Net)
    requires Inv(s) && Quiet(s)
    ensures s.c.done && s.c.announcements == 1
    ensures forall j :: 1 <= j <= s.n ==> j in s.nodes && AllRanOnce(s.mode, s.nodes[j])
  {
    forall j | IsId(s, j) ensures j in s.c.r2Complete && Part2(s, j) && Part3(s, j) {
      QuietReported(s, j);
    }
    assert Upto(s.n) <= s.c.r2Complete;
    forall j | IsId(s, j)
      ensures j in s.c.pub && AllRanOnce(s.mode, s.nodes[j]) {
      QuietFinished(s, j);
    }
    assert Upto(s.n) <= s.c.pub;
  }

  lemma QuietReported(s: Net, j: Id)
    requires Inv(s) && Quiet(s) && IsId(s, j)
    ensures j in s.c.r2Complete && Part2(s, j) && Part3(s, j)
  {
    QuietPart2(s, j);
    QuietPart3(s, j);
    assert NodeOk(s, j) && s.up[j] == [];
  }

  lemma QuietFinished(s: Net, j: Id)
    requires Inv(s) && Quiet(s) && IsId(s, j) && s.c.phase.Complete? && Part2(s, j) && Part3(s, j)
    ensures j in s.c.pub && AllRanOnce(s.mode, s.nodes[j])
  {
    assert NodeOk(s, j) && s.up[j] == [] && s.down[j] == [];
  }
}
