/** Exclusion is permanent, and shares are routed to the one session they belong to. */
module RoastExclusion {
  import opened Octets
  import opened Bundles
  import opened Counting
  import opened Roast
  import opened RoastInvariant

  // ---------------------------------------------------------------- exclusion

  /** Slot `k` of a later state against the same slot earlier: cleared, kept, or formed since from the allowed ids. */
  predicate SlotEvolves(s: Coord, r: Coord, k: nat)
    requires k < |s.sessions| && k < |r.sessions|
  {
    var old_, new_ := s.sessions[k], r.sessions[k];
    || new_.state.Empty?
    || (!old_.state.Empty? && new_.id == old_.id && new_.members == old_.members)
    || (s.nextSid <= new_.id < r.nextSid && forall m :: m in new_.members ==> m !in s.blacklist)
  }

  predicate Evolves(s: Coord, r: Coord) {
    && s.blacklist <= r.blacklist
    && s.nextSid <= r.nextSid
    && |s.sessions| == |r.sessions|
    && forall k :: 0 <= k < |s.sessions| ==> SlotEvolves(s, r, k)
  }

  lemma EvolvesTrans(s: Coord, m: Coord, r: Coord)
    requires Evolves(s, m) && Evolves(m, r)
    ensures Evolves(s, r)
  {
    forall k | 0 <= k < |s.sessions| ensures SlotEvolves(s, r, k) {
      assert SlotEvolves(s, m, k) && SlotEvolves(m, r, k);
    }
  }

  lemma FormEvolves(s: Coord, now: int, assembled: bool)
    requires Inv(s)
    ensures Evolves(s, MaybeForm(s, now, assembled))
  {
    SelectIs(s);
  }

  lemma DropCulpritEvolves(s: Coord, k: nat, culprit: Id)
    requires SharesStored(s, k) && 1 <= culprit <= MAX_SIGNERS
    ensures Evolves(s, DropCulprit(s, k, culprit))
  {
    AddBlacklistIs(s.blacklist, culprit);
  }

  lemma FailUnknownEvolves(s: Coord, k: nat)
    requires SharesStored(s, k)
    ensures Evolves(s, FailUnknown(s, k))
  {
    AddAllBlacklistIs(s.blacklist, s.sessions[k].members);
  }

  /** Only these three parts of the state matter to the relation. */
  lemma EvolvesFrame(s: Coord, r: Coord, r2: Coord)
    requires Evolves(s, r)
    requires r2.blacklist == r.blacklist && r2.nextSid == r.nextSid && r2.sessions == r.sessions
    ensures Evolves(s, r2)
  {
    forall k | 0 <= k < |s.sessions| ensures SlotEvolves(s, r2, k) {
      assert SlotEvolves(s, r, k);
    }
  }

  lemma FailCulpritEvolves(s: Coord, k: nat, culprit: Id, now: int, assembled: bool)
    requires SharesStored(s, k) && !s.done && 1 <= culprit <= MAX_SIGNERS
    ensures Evolves(s, FailCulprit(s, k, culprit, now, assembled))
  {
    var m := DropCulprit(s, k, culprit);
    DropCulpritEvolves(s, k, culprit);
    DropCulpritKeeps(s, k, culprit);
    FormEvolves(m, now, assembled);
    EvolvesTrans(s, m, MaybeForm(m, now, assembled));
    EvolvesFrame(s, MaybeForm(m, now, assembled), FailCulprit(s, k, culprit, now, assembled));
  }

  lemma AggregateEvolves(s: Coord, k: nat, verdict: Verdict, now: int, assembled: bool)
    requires SharesStored(s, k)
    ensures Evolves(s, Aggregate(s, k, verdict, now, assembled))
  {
    if s.sessions[k].nShares >= s.t && !s.done {
      if verdict.Culprit? && 0 < verdict.culprit <= MAX_SIGNERS {
        FailCulpritEvolves(s, k, verdict.culprit, now, assembled);
      } else if !verdict.Good? {
        FailUnknownEvolves(s, k);
      }
    }
  }

  lemma CommitEvolves(s: Coord, id: Id, payload: Bytes, sig: Bytes, now: int, assembled: bool)
    requires Inv(s)
    ensures Evolves(s, OnCommit(s, id, payload, sig, now, assembled))
  {
    if CommitAccepted(s, id, payload, sig) {
      var m := StoreCommit(s, IndexOf(s.signers, id), payload, sig);
      StoreCommitKeeps(s, id, payload, sig);
      FormEvolves(m, now, assembled);
      EvolvesTrans(s, m, MaybeForm(m, now, assembled));
    }
  }

  lemma ShareEvolves(s: Coord, id: Id, payload: Bytes, verdict: Verdict, now: int, assembled: bool)
    requires Inv(s)
    ensures Evolves(s, OnShare(s, id, payload, verdict, now, assembled))
  {
    if |payload| <= MAX_PAYLOAD && Routable(s, id) {
      var m := StoreShare(s, id, payload);
      var k := FindSession(s.sessions, s.signers[IndexOf(s.signers, id)].sessionId);
      StoreShareKeeps(s, id, payload);
      AggregateEvolves(m, k, verdict, now, assembled);
      assert Evolves(s, m);
      EvolvesTrans(s, m, Aggregate(m, k, verdict, now, assembled));
    }
  }

  lemma ExpireEvolves(s: Coord, k: nat)
    requires Inv(s) && k < |s.sessions| && s.sessions[k].state.Awaiting?
    ensures Evolves(s, Expire(s, k))
  {
    var x := Expire(s, k);
    BlacklistStruckOutIs(s.blacklist, s.sessions[k].members, s.sessions[k], s.signers, x.strikes);
  }

  lemma SlotEvolution(m: Coord, k: nat, now: int, assembled: bool)
    requires Inv(m) && k < |m.sessions|
    ensures Evolves(m, SweepSlot(m, k, now, assembled))
  {
    if Expired(m.sessions[k], now) {
      var x := Expire(m, k);
      ExpireEvolves(m, k);
      ExpireKeeps(m, k);
      FormEvolves(x, now, assembled);
      EvolvesTrans(m, x, MaybeForm(x, now, assembled));
    }
  }

  lemma SweepEvolves(s: Coord, k: nat, now: int, after: set<int>)
    requires Inv(s) && !s.done && k <= |s.sessions|
    ensures Evolves(s, Sweep(s, k, now, after))
  {
    var inv := (i: nat, m: Coord) => Inv(m) && Evolves(s, m);
    forall i: nat, m: Coord | i < k && |m.sessions| == |s.sessions| && inv(i, m)
      ensures inv(i + 1, SweepSlot(m, i, now, i in after))
    {
      SlotKeeps(m, i, now, i in after);
      SlotEvolution(m, i, now, i in after);
      EvolvesTrans(s, m, SweepSlot(m, i, now, i in after));
    }
    SweepInduct(inv, s, k, now, after);
  }

  lemma QuietEvolves(s: Coord, e: Event)
    requires Inv(s) && (e.Hello? || e.Disconnect? || e.LoadFail? || e.NextCert?)
    ensures Evolves(s, Step(s, e))
  {
  }

  lemma StepEvolves(s: Coord, e: Event)
    requires Inv(s)
    ensures Evolves(s, Step(s, e))
  {
    match e
    case Commit(id, payload, sig, now, assembled) => CommitEvolves(s, id, payload, sig, now, assembled);
    case Share(id, payload, verdict, now, assembled) => ShareEvolves(s, id, payload, verdict, now, assembled);
    case Tick(now, after) => if !s.done { SweepEvolves(s, |s.sessions|, now, after); }
    case _ => QuietEvolves(s, e);
  }

  lemma {:induction false} RunEvolves(s: Coord, es: seq<Event>)
    requires Inv(s)
    ensures Evolves(s, Run(s, es))
  {
    if es != [] {
      var m := Run(s, es[..|es| - 1]);
      RunEvolves(s, es[..|es| - 1]);
      RunKeeps(s, es[..|es| - 1]);
      StepEvolves(m, es[|es| - 1]);
      EvolvesTrans(s, m, Step(m, es[|es| - 1]));
    }
  }

  /**
   Once blacklisted, always blacklisted: in every continuation, reconnects and broadcasts
   included, the id stays on a duplicate-free list that has room for it, and no session
   formed from then on has it as a member.
   */
  lemma ExclusionIsPermanent(s: Coord, es: seq<Event>, id: Id)
    requires Inv(s) && id in s.blacklist
    ensures var r := Run(s, es);
            && id in r.blacklist && Distinct(r.blacklist) && |r.blacklist| <= MAX_SIGNERS
            && forall k :: 0 <= k < |r.sessions| && !r.sessions[k].state.Empty? && r.sessions[k].id >= s.nextSid ==>
                 id !in r.sessions[k].members
  {
    var r := Run(s, es);
    RunEvolves(s, es);
    RunKeeps(s, es);
    BlacklistFits(r.blacklist, MAX_SIGNERS);
    forall k | 0 <= k < |r.sessions| && !r.sessions[k].state.Empty? && r.sessions[k].id >= s.nextSid
      ensures id !in r.sessions[k].members
    {
      assert SlotEvolves(s, r, k);
    }
  }

  lemma BlacklistFits(bl: seq<Id>, n: nat)
    requires Distinct(bl) && forall i :: 0 <= i < |bl| ==> 1 <= bl[i] <= n
    ensures |bl| <= n
  {
    Pigeonhole(bl, Upto(n));
  }

  /** Two strikes exclude for good: from the state that records them, in every continuation. */
  lemma TwoStrikesExclude(s: Coord, es: seq<Event>, id: Id)
    requires Inv(s) && Strikes(s.strikes, id) >= MAX_STRIKES
    ensures id in Run(s, es).blacklist
  {
    ExclusionIsPermanent(s, es, id);
  }

  // ---------------------------------------------------------------- routing

  /** A share is stored exactly when the sender's session id names a waiting session it belongs to. */
  lemma RoutableIff(s: Coord, i: nat)
    requires Inv(s) && i < |s.signers|
    ensures Routable(s, s.signers[i].id) <==>
            exists k :: 0 <= k < |s.sessions| && s.sessions[k].state.Awaiting?
                     && s.sessions[k].id == s.signers[i].sessionId && s.signers[i].id in s.sessions[k].members
  {
    var id, sid := s.signers[i].id, s.signers[i].sessionId;
    IndexOfIs(s.signers, i);
    var f := FindSession(s.sessions, sid);
    if k :| 0 <= k < |s.sessions| && s.sessions[k].state.Awaiting? && s.sessions[k].id == sid &&
            id in s.sessions[k].members {
      IdsUnique(s, k, f);
      assert SlotOf(s.sessions[k].members, id) < |s.sessions[k].members|;
    }
  }

  lemma IdsUnique(s: Coord, a: nat, b: nat)
    requires SessionsOk(s) && a < |s.sessions| && b < |s.sessions|
    requires !s.sessions[a].state.Empty? && s.sessions[a].id == s.sessions[b].id
    ensures a == b
  {
  }

  /** The zero id of a signer outside any session never matches: every zero slot is empty. */
  lemma ZeroIdNeverStores(s: Coord, i: nat)
    requires Inv(s) && i < |s.signers| && s.signers[i].sessionId == 0
    ensures !Routable(s, s.signers[i].id)
  {
    IndexOfIs(s.signers, i);
  }

  /** A session the timer retires always has a member that sent nothing. */
  lemma ExpiredHasSilentMember(s: Coord, k: nat)
    requires Inv(s) && !s.done && k < |s.sessions| && s.sessions[k].state.Awaiting?
    ensures exists m :: m in s.sessions[k].members && Silent(s.sessions[k], m)
  {
    var sess := s.sessions[k];
    SomeUnfilled(sess.shares);
    var i :| 0 <= i < |sess.shares| && sess.shares[i] == [];
    SlotOfIs(sess.members, i);
    assert Silent(sess, sess.members[i]);
  }

  lemma SlotOfIs(members: seq<Id>, i: nat)
    requires Distinct(members) && i < |members|
    ensures SlotOf(members, members[i]) == i
  {
  }

  // ---------------------------------------------------------------- counting

  /** The signer sends one non-empty share per bundle: what it sends is not empty and its place is still free. */
  predicate OneShareEach(s: Coord, e: Event) {
    e.Share? && Routable(s, e.id) ==>
      var k := FindSession(s.sessions, s.signers[IndexOf(s.signers, e.id)].sessionId);
      e.payload != [] && !Cooperated(s.sessions[k], e.id)
  }

  predicate CountsExact(ss: seq<Session>) {
    forall k :: 0 <= k < |ss| && !ss[k].state.Empty? ==> ss[k].nShares == Filled(ss[k].shares)
  }

  lemma MaybeFormCounts(s: Coord, now: int, assembled: bool)
    requires CountsExact(s.sessions)
    ensures CountsExact(MaybeForm(s, now, assembled).sessions)
  {
    NoneFilled(NoShares(|Select(s)|));
  }

  lemma {:induction false} SweepCounts(s: Coord, k: nat, now: int, after: set<int>)
    requires CountsExact(s.sessions) && k <= |s.sessions|
    ensures CountsExact(Sweep(s, k, now, after).sessions)
  {
    if k != 0 {
      SweepCounts(s, k - 1, now, after);
      var m := Sweep(s, k - 1, now, after);
      if Expired(m.sessions[k - 1], now) {
        MaybeFormCounts(Expire(m, k - 1), now, k - 1 in after);
      }
    }
  }

  lemma StoreShareCounts(s: Coord, id: Id, payload: Bytes)
    requires Inv(s) && CountsExact(s.sessions) && Routable(s, id) && payload != []
    requires !Cooperated(s.sessions[FindSession(s.sessions, s.signers[IndexOf(s.signers, id)].sessionId)], id)
    ensures CountsExact(StoreShare(s, id, payload).sessions)
  {
    var k := FindSession(s.sessions, s.signers[IndexOf(s.signers, id)].sessionId);
    FilledUpdate(s.sessions[k].shares, SlotOf(s.sessions[k].members, id), payload);
  }

  lemma AggregateCounts(s: Coord, k: nat, verdict: Verdict, now: int, assembled: bool)
    requires CountsExact(s.sessions) && k < |s.sessions| && !s.sessions[k].state.Empty?
    ensures CountsExact(Aggregate(s, k, verdict, now, assembled).sessions)
  {
    if s.sessions[k].nShares >= s.t && !s.done && verdict.Culprit? && 0 < verdict.culprit <= MAX_SIGNERS {
      MaybeFormCounts(DropCulprit(s, k, verdict.culprit), now, assembled);
    }
  }

  /** With one non-empty share per bundle, the share counter is exactly the number of filled places. */
  lemma ShareCounts(s: Coord, e: Event)
    requires e.Share? && Inv(s) && CountsExact(s.sessions) && OneShareEach(s, e)
    ensures CountsExact(OnShare(s, e.id, e.payload, e.verdict, e.now, e.assembled).sessions)
  {
    if |e.payload| <= MAX_PAYLOAD && Routable(s, e.id) {
      StoreShareCounts(s, e.id, e.payload);
      AggregateCounts(StoreShare(s, e.id, e.payload),
                      FindSession(s.sessions, s.signers[IndexOf(s.signers, e.id)].sessionId),
                      e.verdict, e.now, e.assembled);
    }
  }

  lemma StepCounts(s: Coord, e: Event)
    requires Inv(s) && CountsExact(s.sessions) && OneShareEach(s, e)
    ensures CountsExact(Step(s, e).sessions)
  {
    match e
    case Commit(id, payload, sig, now, assembled) =>
      if CommitAccepted(s, id, payload, sig) {
        MaybeFormCounts(StoreCommit(s, IndexOf(s.signers, id), payload, sig), now, assembled);
      }
    case Share(id, payload, verdict, now, assembled) => ShareCounts(s, e);
    case Tick(now, after) => if !s.done { SweepCounts(s, |s.sessions|, now, after); }
    case _ =>
  }

  ghost predicate AllOneShare(s: Coord, es: seq<Event>) {
    forall i :: 0 <= i < |es| ==> OneShareEach(Run(s, es[..i]), es[i])
  }

  lemma {:induction false} RunCounts(s: Coord, es: seq<Event>)
    requires Inv(s) && CountsExact(s.sessions) && AllOneShare(s, es)
    ensures CountsExact(Run(s, es).sessions)
  {
    if es != [] {
      var init := es[..|es| - 1];
      forall i | 0 <= i < |init| ensures OneShareEach(Run(s, init[..i]), init[i]) {
        assert init[..i] == es[..i];
      }
      RunCounts(s, init);
      RunKeeps(s, init);
      assert OneShareEach(Run(s, es[..|es| - 1]), es[|es| - 1]);
      StepCounts(Run(s, init), es[|es| - 1]);
    }
  }

  function Zip(members: seq<Id>, shares: seq<Bytes>): seq<(Id, Bytes)>
    requires |members| == |shares|
  {
    seq(|members|, i requires 0 <= i < |members| => (members[i], shares[i]))
  }

  lemma {:induction false} AllFilled(shares: seq<Bytes>, i: nat)
    requires Filled(shares) == |shares| && i < |shares|
    ensures shares[i] != []
  {
    if i < |shares| - 1 {
      AllFilled(shares[..|shares| - 1], i);
    }
  }

  lemma {:induction false} FullLines(members: seq<Id>, shares: seq<Bytes>)
    requires |members| == |shares| && forall i :: 0 <= i < |shares| ==> shares[i] != []
    ensures AggregateLines(members, shares) == Zip(members, shares)
  {
    if members != [] {
      FullLines(members[1..], shares[1..]);
      assert Zip(members, shares) == [(members[0], shares[0])] + Zip(members[1..], shares[1..]);
    }
  }

  /** So when a session reaches t shares, aggregate is fed exactly one line per member, in member order. */
  lemma AggregateGetsEveryMember(s: Coord, k: nat)
    requires SessionsOk(s) && CountsExact(s.sessions)
    requires k < |s.sessions| && s.sessions[k].state.Awaiting? && s.sessions[k].nShares >= s.t
    ensures var sess := s.sessions[k];
            AggregateLines(sess.members, sess.shares) == Zip(sess.members, sess.shares) && |sess.members| == s.t
  {
    var sess := s.sessions[k];
    forall i | 0 <= i < |sess.shares| ensures sess.shares[i] != [] {
      AllFilled(sess.shares, i);
    }
    FullLines(sess.members, sess.shares);
  }
}
