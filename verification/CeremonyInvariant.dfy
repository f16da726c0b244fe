/**
 Where every package is, at every moment of every interleaving: each message exists exactly
 once, in a channel or at its addressee, from the moment its author makes it; and the
 channels are sorted by protocol round.
 */
module CeremonyInvariant {
  import opened Octets
  import opened Counting
  import opened Ceremony

  function Cnt<T(==)>(q: seq<T>, x: T): nat {
    multiset(q)[x]
  }

  function Bit(b: bool): nat {
    if b then 1 else 0
  }

  predicate IsId(s: Net, i: Id) {
    1 <= i <= s.n
  }

  function UpRank(m: UpMsg): nat {
    match m case Round1 => 0 case Round2(_) => 1 case R2Complete => 2 case Finished => 3
  }

  function DownRank(m: DownMsg): nat {
    match m case StartMsg => 0 case RelayR1(_) => 1 case RelayR2(_) => 2 case AllDone => 3 case Confirmed => 4
  }

  predicate SortedUp(q: seq<UpMsg>) {
    forall a, b :: 0 <= a < b < |q| ==> UpRank(q[a]) <= UpRank(q[b])
  }

  predicate SortedDown(q: seq<DownMsg>) {
    forall a, b :: 0 <= a < b < |q| ==> DownRank(q[a]) <= DownRank(q[b])
  }

  /** The coordinator has relayed the round-1 packages. */
  predicate Relayed(s: Net) {
    s.c.phase.CollectingR2? || s.c.phase.Complete?
  }

  /** The signer has all round-1 packages, and so has run its second part. */
  predicate HasR1(n: nat, nd: Node) {
    |nd.r1| >= n - 1
  }

  predicate HasR2(n: nat, nd: Node) {
    |nd.r2| >= n - 1
  }

  predicate Part2(s: Net, i: Id)
    requires i in s.nodes
  {
    HasR1(s.n, s.nodes[i])
  }

  predicate Part3(s: Net, i: Id)
    requires i in s.nodes
  {
    HasR2(s.n, s.nodes[i])
  }

  predicate Dom(s: Net) {
    && 2 <= s.n <= MAX_SIGNERS
    && s.nodes.Keys == Upto(s.n) && s.up.Keys == Upto(s.n) && s.down.Keys == Upto(s.n)
  }

  predicate CoordAt(n: nat, c: Coordinator) {
    && Distinct(c.members) && (forall k :: 0 <= k < |c.members| ==> 1 <= c.members[k] <= n)
    && (c.phase.Idle? <==> |c.members| < n)
    && c.r1 <= Upto(n) && c.r2Complete <= Upto(n) && c.pub <= Upto(n)
    && (c.phase.CollectingR2? || c.phase.Complete? <==> c.r1 == Upto(n))
    && (c.phase.Complete? <==> c.r2Complete == Upto(n))
    && c.announcements == Bit(c.phase.Complete?)
    && c.finishedCount == |c.pub|
    && (c.done <==> c.pub == Upto(n))
    && c.pub <= c.r2Complete
  }

  predicate CoordOk(s: Net) {
    CoordAt(s.n, s.c)
  }

  /** Signer i's frames, each counted where it is: in its channels or taken. */
  predicate CountsAt(mode: Mode, n: nat, c: Coordinator, i: Id, nd: Node, u: seq<UpMsg>, d: seq<DownMsg>) {
    && Cnt(d, StartMsg) + Bit(nd.started) == Bit(!c.phase.Idle?)
    && Cnt(u, Round1) + Bit(i in c.r1) == Bit(nd.started)
    && Cnt(u, R2Complete) + Bit(i in c.r2Complete) == Bit(if mode.Refresh? then HasR1(n, nd) else HasR2(n, nd))
    && Cnt(d, AllDone) + nd.announced == Bit(c.phase.Complete?)
    && nd.finalized == (if mode.Refresh? then nd.announced else 0)
    && Cnt(u, Finished) + Bit(i in c.pub) == (if mode.Refresh? then nd.finalized else Bit(HasR2(n, nd)))
    && (Confirmed in d ==> c.done)
    && nd.part2Runs == Bit(HasR1(n, nd))
    && nd.part3Runs == Bit(mode.Dkg? && HasR2(n, nd))
  }

  predicate NoRound2(u: seq<UpMsg>) {
    forall m :: m in u ==> !m.Round2?
  }

  predicate NoRelayR1(d: seq<DownMsg>) {
    forall m :: m in d ==> !m.RelayR1?
  }

  predicate OrderAt(c: Coordinator, i: Id, nd: Node, u: seq<UpMsg>, d: seq<DownMsg>) {
    && SortedUp(u) && SortedDown(d)
    && (i in c.r2Complete ==> NoRound2(u))
    && (nd.r2 != [] ==> NoRelayR1(d))
    && (nd.r1 != [] ==> nd.started)
  }

  predicate IsPeer(n: nat, i: Id, x: Id) {
    1 <= x <= n && x != i
  }

  predicate UpIds(n: nat, i: Id, u: seq<UpMsg>) {
    forall m :: m in u && m.Round2? ==> IsPeer(n, i, m.dst)
  }

  predicate DownIds(n: nat, i: Id, d: seq<DownMsg>) {
    forall m :: m in d && (m.RelayR1? || m.RelayR2?) ==> IsPeer(n, i, m.src)
  }

  predicate PeerIds(n: nat, i: Id, xs: seq<Id>) {
    forall k :: 0 <= k < |xs| ==> IsPeer(n, i, xs[k])
  }

  predicate IdsAt(n: nat, i: Id, nd: Node, u: seq<UpMsg>, d: seq<DownMsg>) {
    UpIds(n, i, u) && DownIds(n, i, d) && PeerIds(n, i, nd.r1) && PeerIds(n, i, nd.r2)
  }

  predicate NodeAt(mode: Mode, n: nat, c: Coordinator, i: Id, nd: Node, u: seq<UpMsg>, d: seq<DownMsg>) {
    CountsAt(mode, n, c, i, nd, u, d) && OrderAt(c, i, nd, u, d) && IdsAt(n, i, nd, u, d)
  }

  predicate NodeOk(s: Net, i: Id)
    requires Dom(s) && IsId(s, i)
  {
    NodeAt(s.mode, s.n, s.c, i, s.nodes[i], s.up[i], s.down[i])
  }

  /** The round-1 package of i for j, and the round-2 package from i to j. */
  predicate PairOk(s: Net, i: Id, j: Id)
    requires Dom(s) && IsId(s, i) && IsId(s, j)
  {
    && Cnt(s.down[j], RelayR1(i)) + Cnt(s.nodes[j].r1, i) == Bit(Relayed(s))
    && Cnt(s.up[i], Round2(j)) + Cnt(s.down[j], RelayR2(i)) + Cnt(s.nodes[j].r2, i) == Bit(Part2(s, i))
  }

  ghost predicate Inv(s: Net) {
    && Dom(s) && CoordOk(s)
    && (forall i {:trigger NodeOk(s, i)} :: IsId(s, i) ==> NodeOk(s, i))
    && (forall i, j {:trigger PairOk(s, i, j)} :: IsId(s, i) && IsId(s, j) && i != j ==> PairOk(s, i, j))
  }

  // ---------------------------------------------------------------- queues

  lemma CntTail<T>(q: seq<T>, x: T)
    requires q != []
    ensures Cnt(q[1..], x) == Cnt(q, x) - Bit(q[0] == x)
  {
    assert q == [q[0]] + q[1..];
  }

  lemma CntAppend<T>(q: seq<T>, out: seq<T>, x: T)
    ensures Cnt(q + out, x) == Cnt(q, x) + Cnt(out, x)
  {
  }

  lemma TailOk(q: seq<UpMsg>, n: nat, i: Id)
    requires q != [] && SortedUp(q) && UpIds(n, i, q)
    ensures SortedUp(q[1..]) && UpIds(n, i, q[1..])
    ensures NoRound2(q) || UpRank(q[0]) >= 2 ==> NoRound2(q[1..])
  {
    forall m | m in q[1..] ensures m in q && UpRank(m) >= UpRank(q[0]) {
      var k :| 0 <= k < |q| - 1 && q[1..][k] == m;
      assert q[k + 1] == m;
    }
  }

  lemma SortedUpAppend(q: seq<UpMsg>, out: seq<UpMsg>, r: nat)
    requires SortedUp(q) && SortedUp(out)
    requires forall m :: m in q ==> UpRank(m) <= r
    requires forall m :: m in out ==> UpRank(m) >= r
    ensures SortedUp(q + out)
  {
    forall a, b | 0 <= a < b < |q + out| ensures UpRank((q + out)[a]) <= UpRank((q + out)[b]) {
      if a < |q| <= b {
        assert q[a] in q && out[b - |q|] in out;
      }
    }
  }

  lemma SortedDownAppend(q: seq<DownMsg>, out: seq<DownMsg>, r: nat)
    requires SortedDown(q) && SortedDown(out)
    requires forall m :: m in q ==> DownRank(m) <= r
    requires forall m :: m in out ==> DownRank(m) >= r
    ensures SortedDown(q + out)
  {
    forall a, b | 0 <= a < b < |q + out| ensures DownRank((q + out)[a]) <= DownRank((q + out)[b]) {
      if a < |q| <= b {
        assert q[a] in q && out[b - |q|] in out;
      }
    }
  }

  lemma {:induction false} CntRound2For(peers: seq<Id>, j: Id)
    ensures Cnt(Round2For(peers), Round2(j)) == Cnt(peers, j)
  {
    if peers != [] {
      var init, last := peers[..|peers| - 1], peers[|peers| - 1];
      CntRound2For(init, j);
      assert peers == init + [last];
      assert Round2For(peers) == Round2For(init) + [Round2(last)];
    }
  }

  lemma {:induction false} OthersR1Is(members: seq<Id>, self: Id, i: Id)
    requires Distinct(members)
    ensures Cnt(OthersR1(members, self), RelayR1(i)) == Bit(i in members && i != self)
    ensures forall m :: m in OthersR1(members, self) ==> m.RelayR1? && m.src in members && m.src != self
  {
    if members != [] {
      var tl := members[1..];
      OthersR1Is(tl, self, i);
      assert members == [members[0]] + tl;
      CntAppend(if members[0] != self then [RelayR1(members[0])] else [], OthersR1(tl, self), RelayR1(i));
      if members[0] == i {
        assert i !in tl;
      }
    }
  }

  // ---------------------------------------------------------------- full sets of packages

  lemma {:induction false} CountsDistinct(xs: seq<Id>)
    requires forall x :: Cnt(xs, x) <= 1
    ensures Distinct(xs)
  {
    if xs != [] {
      var init, last := xs[..|xs| - 1], xs[|xs| - 1];
      assert xs == init + [last];
      forall x ensures Cnt(init, x) <= 1 {
        assert Cnt(xs, x) == Cnt(init, x) + Cnt([last], x);
      }
      CountsDistinct(init);
      assert Cnt(xs, last) == Cnt(init, last) + 1;
      assert last !in init;
    }
  }

  /** Peers' ids, each at most once: at most n - 1 of them, and n - 1 only when all are there. */
  lemma PeersBound(s: Net, j: Id, xs: seq<Id>)
    requires Dom(s) && IsId(s, j) && PeerIds(s.n, j, xs)
    requires forall i :: IsId(s, i) && i != j ==> Cnt(xs, i) <= 1
    ensures Distinct(xs) && |xs| <= s.n - 1
    ensures |xs| == s.n - 1 <==> forall i :: IsId(s, i) && i != j ==> Cnt(xs, i) == 1
  {
    forall x ensures Cnt(xs, x) <= 1 {
      if x in xs {
        var k :| 0 <= k < |xs| && xs[k] == x;
        assert IsId(s, x);
      }
    }
    CountsDistinct(xs);
    var peers := Upto(s.n) - {j};
    assert |peers| == s.n - 1;
    Pigeonhole(xs, peers);
    if |xs| == s.n - 1 {
      forall i | IsId(s, i) && i != j ensures Cnt(xs, i) == 1 {
        assert i in peers && i in (set x | x in xs);
      }
    }
    if forall i :: IsId(s, i) && i != j ==> Cnt(xs, i) == 1 {
      forall i | i in peers ensures i in (set x | x in xs) {
        assert IsId(s, i) && Cnt(xs, i) == 1;
      }
      assert peers <= (set x | x in xs);
      DistinctCard(xs);
      CardMonotone(peers, (set x | x in xs));
    }
  }

  lemma R1Bound(s: Net, j: Id)
    requires Inv(s) && IsId(s, j)
    ensures Distinct(s.nodes[j].r1) && |s.nodes[j].r1| <= s.n - 1
    ensures Part2(s, j) ==> Relayed(s) && forall i :: IsId(s, i) && i != j ==> Cnt(s.nodes[j].r1, i) == 1
    ensures s.nodes[j].r1 != [] ==> Relayed(s)
  {
    var r1 := s.nodes[j].r1;
    assert NodeOk(s, j);
    forall i | IsId(s, i) && i != j ensures Cnt(r1, i) <= 1 {
      assert PairOk(s, i, j);
    }
    PeersBound(s, j, r1);
    if r1 != [] {
      assert r1[0] in r1 && PairOk(s, r1[0], j) && Cnt(r1, r1[0]) > 0;
    }
  }

  lemma R2Bound(s: Net, j: Id)
    requires Inv(s) && IsId(s, j)
    ensures Distinct(s.nodes[j].r2) && |s.nodes[j].r2| <= s.n - 1
    ensures Part3(s, j) ==> forall i :: IsId(s, i) && i != j ==> Cnt(s.nodes[j].r2, i) == 1 && Part2(s, i)
    ensures s.nodes[j].r2 != [] ==> Relayed(s)
  {
    var r2 := s.nodes[j].r2;
    assert NodeOk(s, j);
    forall i | IsId(s, i) && i != j ensures Cnt(r2, i) <= 1 {
      assert PairOk(s, i, j);
    }
    PeersBound(s, j, r2);
    if Part3(s, j) {
      forall i | IsId(s, i) && i != j ensures Cnt(r2, i) == 1 && Part2(s, i) {
        assert PairOk(s, i, j);
      }
    }
    if r2 != [] {
      assert r2[0] in r2 && PairOk(s, r2[0], j) && Cnt(r2, r2[0]) > 0;
      assert Part2(s, r2[0]);
      R1Bound(s, r2[0]);
    }
  }

  /** A relayed package in a channel was made by its author. */
  lemma InFlight(s: Net, j: Id, m: DownMsg)
    requires Inv(s) && IsId(s, j) && m in s.down[j]
    ensures m.RelayR1? ==> Relayed(s)
    ensures m.RelayR2? ==> IsId(s, m.src) && Part2(s, m.src)
    ensures m.AllDone? ==> s.c.phase.Complete?
    ensures m.Confirmed? ==> s.c.done
  {
    assert NodeOk(s, j) && Cnt(s.down[j], m) > 0;
    if m.RelayR1? || m.RelayR2? {
      assert IsPeer(s.n, j, m.src) && PairOk(s, m.src, j);
    }
  }

  lemma Sent(s: Net, j: Id, m: UpMsg)
    requires Inv(s) && IsId(s, j) && m in s.up[j]
    ensures m.Round2? ==> Part2(s, j) && j !in s.c.r2Complete && IsPeer(s.n, j, m.dst)
    ensures m.R2Complete? ==> j !in s.c.r2Complete && if s.mode.Refresh? then Part2(s, j) else Part3(s, j)
    ensures m.Finished? ==> j !in s.c.pub && if s.mode.Refresh? then s.c.phase.Complete? else Part3(s, j)
  {
    assert NodeOk(s, j) && Cnt(s.up[j], m) > 0;
    if m.Round2? {
      assert IsPeer(s.n, j, m.dst) && PairOk(s, j, m.dst);
    }
  }

  /** Round-2 packages only come to a signer that has all round-1 packages. */
  lemma R2MeansR1(s: Net, j: Id)
    requires Inv(s) && IsId(s, j) && Relayed(s) && NoRelayR1(s.down[j])
    ensures Part2(s, j) && s.nodes[j].r1 != []
  {
    var r1 := s.nodes[j].r1;
    R1Bound(s, j);
    assert NodeOk(s, j);
    forall i | IsId(s, i) && i != j ensures Cnt(r1, i) == 1 {
      assert PairOk(s, i, j) && RelayR1(i) !in s.down[j];
    }
    PeersBound(s, j, r1);
  }

  /** A signer that has not started has sent nothing. */
  lemma NotStarted(s: Net, j: Id)
    requires Inv(s) && IsId(s, j) && !s.nodes[j].started
    ensures s.up[j] == [] && s.nodes[j].r1 == [] && s.nodes[j].r2 == []
  {
    assert NodeOk(s, j);
    R2Bound(s, j);
    if s.nodes[j].r2 != [] {
      R2MeansR1(s, j);
    }
    if s.up[j] != [] {
      assert Cnt(s.up[j], s.up[j][0]) > 0;
      Sent(s, j, s.up[j][0]);
      CompleteMeansPart2(s, j);
    }
  }

  lemma CompleteMeansPart2(s: Net, j: Id)
    requires Inv(s) && IsId(s, j)
    ensures s.c.phase.Complete? ==> if s.mode.Refresh? then Part2(s, j) else Part3(s, j)
    ensures s.nodes[j].announced > 0 ==> s.c.phase.Complete?
  {
    assert NodeOk(s, j);
  }

  /** Before the relay nobody holds or expects anything of rounds 1 and 2. */
  lemma BeforeRelay(s: Net, j: Id)
    requires Inv(s) && IsId(s, j) && !Relayed(s)
    ensures s.nodes[j].r1 == [] && s.nodes[j].r2 == []
    ensures forall m :: m in s.down[j] ==> m.StartMsg?
  {
    R1Bound(s, j);
    R2Bound(s, j);
    forall m | m in s.down[j] ensures m.StartMsg? {
      InFlight(s, j, m);
      if m.RelayR2? {
        R1Bound(s, m.src);
      }
    }
  }

  lemma EveryoneIsIn(s: Net, j: Id)
    requires Dom(s) && CoordOk(s) && !s.c.phase.Idle? && IsId(s, j)
    ensures j in s.c.members
  {
    FullMeansEveryone(s.c.members, s.n, j);
  }
}
