/**
 How many sessions can fail at most. Faulty signers may be silent or send bad shares, and nobody is
 obliged to commit; honest shares arrive before the deadline; `aggregate` answers with a signature
 or with a faulty member of the session. Then every failed session uses up part of a potential: the
 strikes that the faulty signers not yet blacklisted still have. (RoastPrompt adds that the honest
 signers do commit.)
 */
module RoastTermination {
  import opened Octets
  import opened Bundles
  import opened Counting
  import opened Roast
  import opened RoastInvariant
  import opened RoastExclusion
  import opened RoastCoherence

  // ---------------------------------------------------------------- the potential

  /** Strikes left to one faulty signer; none once it is blacklisted. */
  function Weight(bl: seq<Id>, strikes: seq<nat>, faulty: set<Id>, id: Id): int {
    if id in faulty && id !in bl then MAX_STRIKES - Strikes(strikes, id) else 0
  }

  function PotentialUpto(bl: seq<Id>, strikes: seq<nat>, faulty: set<Id>, n: nat): int {
    if n == 0 then 0 else PotentialUpto(bl, strikes, faulty, n - 1) + Weight(bl, strikes, faulty, n)
  }

  function Potential(s: Coord, faulty: set<Id>): int {
    PotentialUpto(s.blacklist, s.strikes, faulty, |s.strikes|)
  }

  lemma {:induction false} PotentialDrops(bl: seq<Id>, st: seq<nat>, bl2: seq<Id>, st2: seq<nat>, faulty: set<Id>,
                                          n: nat, hit: Id)
    requires forall id :: 1 <= id <= n ==> Weight(bl2, st2, faulty, id) <= Weight(bl, st, faulty, id)
    requires Weight(bl2, st2, faulty, hit) < Weight(bl, st, faulty, hit)
    ensures PotentialUpto(bl2, st2, faulty, n) <= PotentialUpto(bl, st, faulty, n) - if 1 <= hit <= n then 1 else 0
  {
    if n != 0 {
      PotentialDrops(bl, st, bl2, st2, faulty, n - 1, hit);
    }
  }

  lemma {:induction false} PotentialPositive(s: Coord, faulty: set<Id>, n: nat)
    requires LedgerOk(s) && n <= MAX_SIGNERS
    ensures PotentialUpto(s.blacklist, s.strikes, faulty, n) >= 0
  {
    if n != 0 {
      PotentialPositive(s, faulty, n - 1);
    }
  }

  /** At the start each faulty id counts twice. */
  lemma FaultyUpto(faulty: set<Id>, n: nat)
    requires n > 0
    ensures |faulty * Upto(n)| == |faulty * Upto(n - 1)| + if n in faulty then 1 else 0
  {
    if n in faulty {
      assert faulty * Upto(n) == faulty * Upto(n - 1) + {n};
    } else {
      assert faulty * Upto(n) == faulty * Upto(n - 1);
    }
  }

  lemma {:induction false} PotentialAtStart(strikes: seq<nat>, faulty: set<Id>, n: nat)
    requires forall i :: 0 <= i < |strikes| ==> strikes[i] == 0
    ensures PotentialUpto([], strikes, faulty, n) == MAX_STRIKES * |faulty * Upto(n)|
  {
    if n != 0 {
      PotentialAtStart(strikes, faulty, n - 1);
      FaultyUpto(faulty, n);
    }
  }

  function FailedCount(ss: seq<Session>): nat {
    if ss == [] then 0 else FailedCount(ss[..|ss| - 1]) + if ss[|ss| - 1].state.Failed? then 1 else 0
  }

  lemma {:induction false} FailedUpdate(ss: seq<Session>, k: nat, x: Session)
    requires k < |ss|
    ensures FailedCount(ss[k := x]) ==
            FailedCount(ss) + (if x.state.Failed? then 1 else 0) - (if ss[k].state.Failed? then 1 else 0)
  {
    var init := ss[..|ss| - 1];
    if k == |ss| - 1 {
      assert ss[k := x][..|ss| - 1] == init;
    } else {
      assert ss[k := x][..|ss| - 1] == init[k := x];
      FailedUpdate(init, k, x);
    }
  }

  // ---------------------------------------------------------------- the fault model

  predicate WaitsFor(s: Coord, k: int, m: Id) {
    Active(s, k) && m in s.sessions[k].members
  }

  /** Everyone a session waits for is still there and still trusted. */
  ghost predicate Present(s: Coord) {
    forall k, m :: WaitsFor(s, k, m) ==> Connected(s.signers, m) && m !in s.blacklist
  }

  ghost predicate HonestUnharmed(s: Coord, faulty: set<Id>) {
    && (forall id :: id in s.blacklist ==> id in faulty)
    && (forall id :: id !in faulty ==> Strikes(s.strikes, id) == 0)
  }

  ghost predicate FaultInv(s: Coord, faulty: set<Id>) {
    Inv(s) && Coherent(s) && Present(s) && HonestUnharmed(s, faulty)
  }

  /** Every honest member of a session that is about to expire has sent its share. */
  ghost predicate HonestInTime(s: Coord, now: int, faulty: set<Id>) {
    forall k, m ::
      0 <= k < |s.sessions| && Expired(s.sessions[k], now) && m in s.sessions[k].members && m !in faulty ==>
      Cooperated(s.sessions[k], m)
  }

  /** The verdict is a signature, or names a faulty member of the session the share went to. */
  ghost predicate FairVerdict(s: Coord, e: Event, faulty: set<Id>)
    requires e.Share?
  {
    Routable(s, e.id) ==>
      var k := FindSession(s.sessions, s.signers[IndexOf(s.signers, e.id)].sessionId);
      e.verdict.Good? || (e.verdict.Culprit? && e.verdict.culprit in faulty &&
                          e.verdict.culprit in s.sessions[k].members)
  }

  /** Nobody leaves a session that waits for it; verdicts are fair; honest signers are in time. */
  ghost predicate FaultStep(s: Coord, e: Event, faulty: set<Id>) {
    && (e.Disconnect? ==> !InActive(s, e.id))
    && (e.Share? ==> FairVerdict(s, e, faulty))
    && (e.Tick? ==> HonestInTime(s, e.now, faulty))
  }

  /** Presence is inherited by a later state whose sessions wait for nobody new and nobody newly excluded. */
  lemma PresentFrom(s: Coord, r: Coord)
    requires Present(s) && SameIds(s.signers, r.signers)
    requires forall k, m :: WaitsFor(r, k, m) ==> WaitsFor(s, k, m) && (m in r.blacklist ==> m in s.blacklist)
    ensures Present(r)
  {
    forall k, m | WaitsFor(r, k, m) ensures Connected(r.signers, m) && m !in r.blacklist {
      SameIdsConnected(s.signers, r.signers, m);
    }
  }

  // ---------------------------------------------------------------- forming

  lemma SelectedPresent(s: Coord, m: Id)
    requires SignersOk(s) && m in Select(s)
    ensures Connected(s.signers, m) && m !in s.blacklist
  {
    SelectIs(s);
    assert SelectableId(m, s);
  }

  lemma FormPresent(s: Coord, b: Bundle, f: nat, now: int)
    requires SignersOk(s) && Present(s) && f < |s.sessions|
    ensures Present(Form(s, Select(s), b, f, now))
  {
    SelectIs(s);
    var r := Form(s, Select(s), b, f, now);
    forall k, m | WaitsFor(r, k, m) ensures Connected(r.signers, m) && m !in r.blacklist {
      if k == f {
        SelectedPresent(s, m);
      } else {
        assert WaitsFor(s, k, m);
      }
      SameIdsConnected(s.signers, r.signers, m);
    }
  }

  lemma FormFault(s: Coord, now: int, assembled: bool, faulty: set<Id>)
    requires FaultInv(s, faulty) && SizesOk(s.n, s.t)
    ensures var r := MaybeForm(s, now, assembled);
            FaultInv(r, faulty) && FailedCount(r.sessions) == FailedCount(s.sessions) &&
              Potential(r, faulty) == Potential(s, faulty)
  {
    MaybeFormKeeps(s, now, assembled);
    MaybeFormCoherent(s, now, assembled);
    if !s.done && ActiveCount(s.sessions) < MAX_SESSIONS && Formable(s, assembled) {
      var f, b := FreeSlot(s.sessions), BundleFor(s, Select(s));
      FormPresent(s, b, f, now);
      FailedUpdate(s.sessions, f, NewSession(s, Select(s), b, now));
    }
  }

  // ---------------------------------------------------------------- identifiable abort

  lemma CulpritFault(s: Coord, k: nat, c: Id, faulty: set<Id>)
    requires SharesStored(s, k) && !s.done && Coherent(s) && Present(s) && HonestUnharmed(s, faulty)
    requires c in faulty && c in s.sessions[k].members
    ensures var r := DropCulprit(s, k, c);
            && FaultInv(r, faulty)
            && FailedCount(r.sessions) == FailedCount(s.sessions) + 1
            && Potential(r, faulty) <= Potential(s, faulty) - 1
  {
    var r := DropCulprit(s, k, c);
    assert WaitsFor(s, k, c);
    assert SessionOk(s.sessions[k], s.n, s.t);
    DropCulpritKeeps(s, k, c);
    DropCulpritCoherent(s, k, c);
    AddBlacklistIs(s.blacklist, c);
    FailedUpdate(s.sessions, k, r.sessions[k]);
    PotentialDrops(s.blacklist, s.strikes, r.blacklist, r.strikes, faulty, |s.strikes|, c);
    PresentAfterClose(s, r, k);
  }

  /** Closing session `k` while blacklisting only members of it leaves the other sessions intact. */
  lemma PresentAfterClose(s: Coord, r: Coord, k: nat)
    requires Active(s, k) && Present(s) && Disjoint(s) && SameIds(s.signers, r.signers)
    requires |r.sessions| == |s.sessions| && r.sessions == s.sessions[k := r.sessions[k]] &&
             !r.sessions[k].state.Awaiting?
    requires forall x :: x in r.blacklist && x !in s.blacklist ==> x in s.sessions[k].members
    ensures Present(r)
  {
    forall j, m | WaitsFor(r, j, m) ensures WaitsFor(s, j, m) && (m in r.blacklist ==> m in s.blacklist) {
      assert WaitsFor(s, j, m) && j != k;
    }
    PresentFrom(s, r);
  }

  // ---------------------------------------------------------------- expiry

  /** A time-out only adds names and strikes, and only those of silent members. */
  lemma ExpiryAdds(s: Coord, k: nat)
    requires LedgerOk(s) && k < |s.sessions| && SessionOk(s.sessions[k], s.n, s.t)
    ensures var r := Expire(s, k);
            && (forall x :: x in s.blacklist ==> x in r.blacklist)
            && (forall x :: x in r.blacklist && x !in s.blacklist ==>
                  x in s.sessions[k].members && Silent(s.sessions[k], x))
            && (forall x :: Strikes(s.strikes, x) <= Strikes(r.strikes, x))
            && (forall x :: Strikes(s.strikes, x) < Strikes(r.strikes, x) ==>
                  x in s.sessions[k].members && Silent(s.sessions[k], x))
  {
    var r, sess := Expire(s, k), s.sessions[k];
    BlacklistStruckOutIs(s.blacklist, sess.members, sess, s.signers, r.strikes);
  }

  lemma StrikesSpareHonest(s: Coord, k: nat, faulty: set<Id>)
    requires FaultInv(s, faulty) && Active(s, k)
    requires forall m :: m in s.sessions[k].members && m !in faulty ==> Cooperated(s.sessions[k], m)
    ensures HonestUnharmed(Expire(s, k), faulty)
  {
    assert SessionOk(s.sessions[k], s.n, s.t);
    ExpiryAdds(s, k);
  }

  /** Striking the silent members, all faulty, costs the potential at least one. */
  lemma StrikesArePaid(s: Coord, k: nat, faulty: set<Id>)
    requires FaultInv(s, faulty) && !s.done && Active(s, k)
    requires forall m :: m in s.sessions[k].members && m !in faulty ==> Cooperated(s.sessions[k], m)
    ensures Potential(Expire(s, k), faulty) <= Potential(s, faulty) - 1
  {
    var r, sess := Expire(s, k), s.sessions[k];
    assert SessionOk(sess, s.n, s.t);
    ExpiryAdds(s, k);
    ExpiredHasSilentMember(s, k);
    var hit :| hit in sess.members && Silent(sess, hit);
    assert WaitsFor(s, k, hit);
    assert Strikes(r.strikes, hit) == Strikes(s.strikes, hit) + 1;
    StrikePaid(s, r, faulty, hit);
  }

  lemma StrikePaid(s: Coord, r: Coord, faulty: set<Id>, hit: Id)
    requires LedgerOk(s) && |r.strikes| == |s.strikes| && 1 <= hit <= |s.strikes|
    requires hit in faulty && hit !in s.blacklist
    requires forall x :: x in s.blacklist ==> x in r.blacklist
    requires forall x :: Strikes(s.strikes, x) <= Strikes(r.strikes, x)
    requires Strikes(r.strikes, hit) == Strikes(s.strikes, hit) + 1
    ensures Potential(r, faulty) <= Potential(s, faulty) - 1
  {
    PotentialDrops(s.blacklist, s.strikes, r.blacklist, r.strikes, faulty, |s.strikes|, hit);
  }

  lemma ExpireFault(s: Coord, k: nat, faulty: set<Id>)
    requires FaultInv(s, faulty) && !s.done && Active(s, k)
    requires forall m :: m in s.sessions[k].members && m !in faulty ==> Cooperated(s.sessions[k], m)
    ensures var r := Expire(s, k);
            && FaultInv(r, faulty)
            && FailedCount(r.sessions) == FailedCount(s.sessions) + 1
            && Potential(r, faulty) <= Potential(s, faulty) - 1
  {
    var r, sess := Expire(s, k), s.sessions[k];
    ExpireKeeps(s, k);
    ExpireCoherent(s, k);
    FailedUpdate(s.sessions, k, sess.(state := Failed));
    StrikesArePaid(s, k, faulty);
    StrikesSpareHonest(s, k, faulty);
    assert SessionOk(sess, s.n, s.t);
    BlacklistStruckOutIs(s.blacklist, sess.members, sess, s.signers, r.strikes);
    PresentAfterClose(s, r, k);
  }

  /** Slots the sweep has not reached are as they were, or hold a session formed just now. */
  predicate Untouched(s: Coord, r: Coord, j: nat, now: int)
    requires j < |s.sessions| && j < |r.sessions|
  {
    r.sessions[j] == s.sessions[j] || !Expired(r.sessions[j], now)
  }

  lemma FormUntouched(s: Coord, now: int, assembled: bool, j: nat)
    requires j < |s.sessions|
    ensures Untouched(s, MaybeForm(s, now, assembled), j, now)
  {
  }

  ghost predicate RestUntouched(s: Coord, r: Coord, k: nat, now: int) {
    |r.sessions| == |s.sessions| && forall j :: k <= j < |r.sessions| ==> Untouched(s, r, j, now)
  }

  lemma SlotFault(s: Coord, m: Coord, k: nat, now: int, assembled: bool, faulty: set<Id>)
    requires FaultInv(m, faulty) && !m.done && HonestInTime(s, now, faulty) && k < |s.sessions|
    requires RestUntouched(s, m, k, now)
    ensures var r := SweepSlot(m, k, now, assembled);
            Paid(m, r, faulty) && !r.done && RestUntouched(s, r, k + 1, now)
  {
    if Expired(m.sessions[k], now) {
      assert Untouched(s, m, k, now);
      var x := Expire(m, k);
      ExpireFault(m, k, faulty);
      assert SessionOk(m.sessions[k], m.n, m.t);
      FormFault(x, now, assembled, faulty);
      var r := MaybeForm(x, now, assembled);
      forall j | k + 1 <= j < |r.sessions| ensures Untouched(s, r, j, now) {
        assert Untouched(s, m, j, now) && x.sessions[j] == m.sessions[j];
        FormUntouched(x, now, assembled, j);
      }
    }
  }

  /** What the sweep keeps slot by slot. */
  ghost predicate PaidOn(s: Coord, m: Coord, k: nat, now: int, faulty: set<Id>) {
    Paid(s, m, faulty) && !m.done && RestUntouched(s, m, k, now)
  }

  lemma SlotPaidOn(s: Coord, m: Coord, k: nat, now: int, assembled: bool, faulty: set<Id>)
    requires PaidOn(s, m, k, now, faulty) && HonestInTime(s, now, faulty) && k < |s.sessions| == |m.sessions|
    ensures PaidOn(s, SweepSlot(m, k, now, assembled), k + 1, now, faulty)
  {
    SlotFault(s, m, k, now, assembled, faulty);
  }

  lemma SweepFault(s: Coord, k: nat, now: int, after: set<int>, faulty: set<Id>)
    requires FaultInv(s, faulty) && !s.done && HonestInTime(s, now, faulty) && k <= |s.sessions|
    ensures var r := Sweep(s, k, now, after);
            Paid(s, r, faulty) && !r.done && RestUntouched(s, r, k, now)
  {
    var inv := (i: nat, m: Coord) => PaidOn(s, m, i, now, faulty);
    forall i: nat, m: Coord | i < k && |m.sessions| == |s.sessions| && inv(i, m)
      ensures inv(i + 1, SweepSlot(m, i, now, i in after))
    {
      SlotPaidOn(s, m, i, now, i in after, faulty);
    }
    SweepInduct(inv, s, k, now, after);
  }

  // ---------------------------------------------------------------- every step

  /** What one step may do: the invariant stays, and failures are paid for. */
  ghost predicate Paid(s: Coord, r: Coord, faulty: set<Id>) {
    && FaultInv(r, faulty)
    && FailedCount(s.sessions) <= FailedCount(r.sessions)
    && FailedCount(r.sessions) + Potential(r, faulty) <= FailedCount(s.sessions) + Potential(s, faulty)
  }

  lemma StoreShareFault(s: Coord, id: Id, payload: Bytes, faulty: set<Id>)
    requires FaultInv(s, faulty) && Routable(s, id)
    ensures var r := StoreShare(s, id, payload);
            && Coherent(r) && Present(r) && HonestUnharmed(r, faulty)
            && FailedCount(r.sessions) == FailedCount(s.sessions) && Potential(r, faulty) == Potential(s, faulty)
  {
    var r, i := StoreShare(s, id, payload), IndexOf(s.signers, id);
    var k := FindSession(s.sessions, s.signers[i].sessionId);
    assert r.sessions == s.sessions[k := r.sessions[k]];
    QuietCoherent(s, r);
    FailedUpdate(s.sessions, k, r.sessions[k]);
    PresentFrom(s, r);
  }

  lemma SucceedFault(s: Coord, k: nat, mintOk: bool, faulty: set<Id>)
    requires SharesStored(s, k) && Coherent(s) && Present(s) && HonestUnharmed(s, faulty)
    ensures Paid(s, Succeed(s, k, mintOk), faulty)
  {
    var r := Succeed(s, k, mintOk);
    assert Active(s, k);
    SucceedKeeps(s, k, mintOk);
    CloseCoherent(s, r, k);
    FailedUpdate(s.sessions, k, r.sessions[k]);
    PresentAfterClose(s, r, k);
  }

  /** The exit flag is no part of the invariant. */
  lemma FlagFault(s: Coord, r: Coord, faulty: set<Id>)
    requires FaultInv(s, faulty) && r == s.(roastFail := r.roastFail)
    ensures FaultInv(r, faulty) && Potential(r, faulty) == Potential(s, faulty)
  {
    QuietCoherent(s, r);
    PresentFrom(s, r);
  }

  lemma FailCulpritFault(s: Coord, k: nat, c: Id, now: int, assembled: bool, faulty: set<Id>)
    requires SharesStored(s, k) && !s.done && Coherent(s) && Present(s) && HonestUnharmed(s, faulty)
    requires c in faulty && c in s.sessions[k].members
    ensures Paid(s, FailCulprit(s, k, c, now, assembled), faulty)
  {
    assert SessionOk(s.sessions[k], s.n, s.t);
    CulpritFault(s, k, c, faulty);
    FormFault(DropCulprit(s, k, c), now, assembled, faulty);
    FlagFault(MaybeForm(DropCulprit(s, k, c), now, assembled), FailCulprit(s, k, c, now, assembled), faulty);
  }

  lemma AggregateFault(s: Coord, k: nat, v: Verdict, now: int, assembled: bool, faulty: set<Id>)
    requires SharesStored(s, k) && Coherent(s) && Present(s) && HonestUnharmed(s, faulty)
    requires v.Good? || (v.Culprit? && v.culprit in faulty && v.culprit in s.sessions[k].members)
    ensures Paid(s, Aggregate(s, k, v, now, assembled), faulty)
  {
    AggregateKeeps(s, k, v, now, assembled);
    if s.sessions[k].nShares >= s.t && !s.done {
      if v.Good? {
        SucceedFault(s, k, v.mintOk, faulty);
      } else {
        assert SessionOk(s.sessions[k], s.n, s.t);
        FailCulpritFault(s, k, v.culprit, now, assembled, faulty);
      }
    }
  }

  /** The state between storing a share in slot `k` and acting on it, under the fault model. */
  ghost predicate StoredFair(m: Coord, k: nat, faulty: set<Id>) {
    SharesStored(m, k) && Coherent(m) && Present(m) && HonestUnharmed(m, faulty)
  }

  lemma ShareFair(s: Coord, id: Id, payload: Bytes, faulty: set<Id>)
    requires FaultInv(s, faulty) && Routable(s, id)
    ensures var k := FindSession(s.sessions, s.signers[IndexOf(s.signers, id)].sessionId);
            var m := StoreShare(s, id, payload);
            && StoredFair(m, k, faulty) && m.sessions[k].members == s.sessions[k].members
            && FailedCount(m.sessions) == FailedCount(s.sessions) && Potential(m, faulty) == Potential(s, faulty)
  {
    StoreShareKeeps(s, id, payload);
    StoreShareFault(s, id, payload, faulty);
  }

  /** Acting on a share that was stored in a state with the same failures and potential. */
  lemma ActedPaid(s: Coord, m: Coord, k: nat, v: Verdict, now: int, assembled: bool, faulty: set<Id>)
    requires StoredFair(m, k, faulty)
    requires v.Good? || (v.Culprit? && v.culprit in faulty && v.culprit in m.sessions[k].members)
    requires FailedCount(m.sessions) == FailedCount(s.sessions) && Potential(m, faulty) == Potential(s, faulty)
    ensures Paid(s, Aggregate(m, k, v, now, assembled), faulty)
  {
    AggregateFault(m, k, v, now, assembled, faulty);
  }

  lemma ShareFault(s: Coord, e: Event, faulty: set<Id>)
    requires e.Share? && FaultInv(s, faulty) && FairVerdict(s, e, faulty)
    ensures Paid(s, OnShare(s, e.id, e.payload, e.verdict, e.now, e.assembled), faulty)
  {
    if |e.payload| <= MAX_PAYLOAD && Routable(s, e.id) {
      var k := FindSession(s.sessions, s.signers[IndexOf(s.signers, e.id)].sessionId);
      ShareFair(s, e.id, e.payload, faulty);
      ActedPaid(s, StoreShare(s, e.id, e.payload), k, e.verdict, e.now, e.assembled, faulty);
    }
  }

  /** A step that fails no session and blames nobody. */
  lemma QuietPaid(s: Coord, r: Coord, faulty: set<Id>)
    requires FaultInv(s, faulty) && Inv(r) && Coherent(r) && Present(r)
    requires r.sessions == s.sessions && r.blacklist == s.blacklist && r.strikes == s.strikes
    ensures Paid(s, r, faulty)
  {
  }

  lemma StoreCommitFault(s: Coord, id: Id, payload: Bytes, sig: Bytes, faulty: set<Id>)
    requires FaultInv(s, faulty) && CommitAccepted(s, id, payload, sig)
    ensures FaultInv(StoreCommit(s, IndexOf(s.signers, id), payload, sig), faulty)
  {
    var m := StoreCommit(s, IndexOf(s.signers, id), payload, sig);
    StoreCommitKeeps(s, id, payload, sig);
    QuietCoherent(s, m);
    PresentFrom(s, m);
  }

  lemma CommitFault(s: Coord, e: Event, faulty: set<Id>)
    requires e.Commit? && FaultInv(s, faulty)
    ensures Paid(s, Step(s, e), faulty)
  {
    if CommitAccepted(s, e.id, e.payload, e.sig) {
      var m := StoreCommit(s, IndexOf(s.signers, e.id), e.payload, e.sig);
      StoreCommitKeeps(s, e.id, e.payload, e.sig);
      StoreCommitFault(s, e.id, e.payload, e.sig, faulty);
      FormFault(m, e.now, e.assembled, faulty);
    }
  }

  lemma PresentMeansConnected(s: Coord, id: Id)
    requires Present(s) && InActive(s, id)
    ensures Connected(s.signers, id)
  {
    var k :| Active(s, k) && id in s.sessions[k].members;
    assert WaitsFor(s, k, id);
  }

  lemma HelloPresent(s: Coord, id: Id, n: int, t: int, authentic: bool)
    requires Present(s)
    ensures Present(OnHello(s, id, n, t, authentic))
  {
    var r := OnHello(s, id, n, t, authentic);
    forall j, m | WaitsFor(r, j, m) ensures Connected(r.signers, m) && m !in r.blacklist {
      assert WaitsFor(s, j, m);
      var a :| 0 <= a < |s.signers| && s.signers[a].id == m;
      assert r.signers == s.signers || r.signers[a + 1].id == m;
    }
  }

  lemma HelloSteady(s: Coord, id: Id, n: int, t: int, authentic: bool)
    requires Inv(s) && Coherent(s) && Present(s)
    ensures var r := OnHello(s, id, n, t, authentic); Inv(r) && Coherent(r) && Present(r)
  {
    if InActive(s, id) {
      PresentMeansConnected(s, id);
    }
    HelloKeeps(s, id, n, t, authentic);
    HelloCoherent(s, id, n, t, authentic);
    HelloPresent(s, id, n, t, authentic);
  }

  lemma HelloQuiet(s: Coord, id: Id, n: int, t: int, authentic: bool)
    ensures var r := OnHello(s, id, n, t, authentic);
            r.sessions == s.sessions && r.blacklist == s.blacklist && r.strikes == s.strikes
  {
  }

  lemma HelloFault(s: Coord, e: Event, faulty: set<Id>)
    requires e.Hello? && FaultInv(s, faulty)
    ensures Paid(s, OnHello(s, e.id, e.n, e.t, e.authentic), faulty)
  {
    HelloSteady(s, e.id, e.n, e.t, e.authentic);
    HelloQuiet(s, e.id, e.n, e.t, e.authentic);
  }

  lemma ConnectedAfterRemoval(l: seq<Signer>, i: nat, id: Id)
    requires i < |l| && Connected(l, id) && l[i].id != id
    ensures Connected(l[..i] + l[i + 1..], id)
  {
    var a :| 0 <= a < |l| && l[a].id == id;
    assert (l[..i] + l[i + 1..])[if a < i then a else a - 1].id == id;
  }

  lemma DisconnectFault(s: Coord, id: Id, faulty: set<Id>)
    requires FaultInv(s, faulty) && !InActive(s, id)
    ensures Paid(s, OnDisconnect(s, id), faulty)
  {
    var r, i := OnDisconnect(s, id), IndexOf(s.signers, id);
    DisconnectKeeps(s, id);
    DisconnectCoherent(s, id);
    forall j, m | WaitsFor(r, j, m) ensures Connected(r.signers, m) && m !in r.blacklist {
      assert WaitsFor(s, j, m) && m != id;
      if i < |s.signers| {
        ConnectedAfterRemoval(s.signers, i, m);
      }
    }
    QuietPaid(s, r, faulty);
  }

  lemma LoadFailFault(s: Coord, id: Id, faulty: set<Id>)
    requires FaultInv(s, faulty)
    ensures Paid(s, OnLoadFail(s, id), faulty)
  {
    LoadFailKeeps(s, id);
    QuietCoherent(s, OnLoadFail(s, id));
    PresentFrom(s, OnLoadFail(s, id));
    QuietPaid(s, OnLoadFail(s, id), faulty);
  }

  lemma NextCertFault(s: Coord, newTbs: Bytes, faulty: set<Id>)
    requires FaultInv(s, faulty)
    ensures var r := OnNextCert(s, newTbs);
            FaultInv(r, faulty) && FailedCount(r.sessions) <= FailedCount(s.sessions) &&
              Potential(r, faulty) == Potential(s, faulty)
  {
    var r := OnNextCert(s, newTbs);
    NextCertKeeps(s, newTbs);
    if r != s {
      assert forall k :: !Active(r, k);
      NoneFailed(r.sessions);
    }
  }

  lemma {:induction false} NoneFailed(ss: seq<Session>)
    requires forall i :: 0 <= i < |ss| ==> !ss[i].state.Failed?
    ensures FailedCount(ss) == 0
  {
    if ss != [] {
      NoneFailed(ss[..|ss| - 1]);
    }
  }

  /** Sessions that fail in one step; the next certificate starts a fresh table. */
  function NewFailures(s: Coord, r: Coord): nat {
    if FailedCount(r.sessions) > FailedCount(s.sessions) then FailedCount(r.sessions) - FailedCount(s.sessions) else 0
  }

  /** Every failed session strictly lowers the strikes the faulty signers have left. */
  lemma EveryFailureIsPaid(s: Coord, e: Event, faulty: set<Id>)
    requires FaultInv(s, faulty) && FaultStep(s, e, faulty)
    ensures FaultInv(Step(s, e), faulty)
    ensures NewFailures(s, Step(s, e)) + Potential(Step(s, e), faulty) <= Potential(s, faulty)
  {
    match e
    case Hello(_, _, _, _) => HelloFault(s, e, faulty);
    case Disconnect(id) => DisconnectFault(s, id, faulty);
    case LoadFail(id) =>
      LoadFailFault(s, id, faulty);
    case Commit(_, _, _, _, _) => CommitFault(s, e, faulty);
    case Share(_, _, _, _, _) => ShareFault(s, e, faulty);
    case Tick(now, after) => if !s.done { SweepFault(s, |s.sessions|, now, after, faulty); }
    case NextCert(newTbs) => NextCertFault(s, newTbs, faulty);
  }

  // ---------------------------------------------------------------- whole runs

  function Failures(s: Coord, es: seq<Event>): nat {
    if es == [] then 0 else
    var m := Run(s, es[..|es| - 1]);
    Failures(s, es[..|es| - 1]) + NewFailures(m, Step(m, es[|es| - 1]))
  }

  ghost predicate FaultRun(s: Coord, es: seq<Event>, faulty: set<Id>) {
    forall i :: 0 <= i < |es| ==> FaultStep(Run(s, es[..i]), es[i], faulty)
  }

  lemma FaultRunPrefix(s: Coord, es: seq<Event>, faulty: set<Id>)
    requires es != [] && FaultRun(s, es, faulty)
    ensures FaultRun(s, es[..|es| - 1], faulty) && FaultStep(Run(s, es[..|es| - 1]), es[|es| - 1], faulty)
  {
    var init := es[..|es| - 1];
    forall i | 0 <= i < |init| ensures FaultStep(Run(s, init[..i]), init[i], faulty) {
      assert init[..i] == es[..i];
    }
  }

  lemma {:induction false} FailuresBounded(s: Coord, es: seq<Event>, faulty: set<Id>)
    requires FaultInv(s, faulty) && FaultRun(s, es, faulty)
    ensures FaultInv(Run(s, es), faulty)
    ensures Failures(s, es) + Potential(Run(s, es), faulty) <= Potential(s, faulty)
  {
    if es != [] {
      FaultRunPrefix(s, es, faulty);
      FailuresBounded(s, es[..|es| - 1], faulty);
      EveryFailureIsPaid(Run(s, es[..|es| - 1]), es[|es| - 1], faulty);
    }
  }

  lemma StartFault(n: int, t: int, tbs: Bytes, serial: nat, m: nat, faulty: set<Id>)
    ensures FaultInv(Start(n, t, tbs, serial, m), faulty)
  {
    StartIsFine(n, t, tbs, serial, m);
    assert forall k :: !Active(Start(n, t, tbs, serial, m), k);
  }

  /**
   From start-up, over every run of the fault model and across all certificates, at most two
   sessions fail per faulty signer, and no honest signer is ever struck or blacklisted.
   */
  lemma AtMostTwoFailuresPerFaultySigner(n: int, t: int, tbs: Bytes, serial: nat, m: nat, es: seq<Event>,
                                         faulty: set<Id>)
    requires FaultRun(Start(n, t, tbs, serial, m), es, faulty)
    ensures Failures(Start(n, t, tbs, serial, m), es) <= MAX_STRIKES * |faulty|
    ensures HonestUnharmed(Run(Start(n, t, tbs, serial, m), es), faulty)
  {
    var s := Start(n, t, tbs, serial, m);
    StartFault(n, t, tbs, serial, m, faulty);
    FailuresBounded(s, es, faulty);
    PotentialAtStart(s.strikes, faulty, |s.strikes|);
    PotentialPositive(Run(s, es), faulty, |Run(s, es).strikes|);
    CardMonotone(faulty * Upto(|s.strikes|), faulty);
  }

  // ---------------------------------------------------------------- the quorum survives

  ghost predicate Quorum(s: Coord, q: set<Id>) {
    forall id :: id in q ==> exists i :: 0 <= i < |s.signers| && s.signers[i].id == id && !s.signers[i].phase.NoKey?
  }

  lemma {:induction false} RemainingAtLeast(l: seq<Signer>, bl: seq<Id>, q: set<Id>)
    requires forall id :: id in q ==> id !in bl && exists i :: 0 <= i < |l| && l[i].id == id && !l[i].phase.NoKey?
    ensures Remaining(l, bl) >= |q|
  {
    if l != [] {
      var init, last := l[..|l| - 1], l[|l| - 1];
      forall id | id in q - {last.id} ensures exists i :: 0 <= i < |init| && init[i].id == id && !init[i].phase.NoKey? {
        var i :| 0 <= i < |l| && l[i].id == id && !l[i].phase.NoKey?;
        assert init[i].id == id;
      }
      if last.id !in bl && !last.phase.NoKey? {
        RemainingAtLeast(init, bl, q - {last.id});
      } else {
        forall id | id in q ensures exists i :: 0 <= i < |init| && init[i].id == id && !init[i].phase.NoKey? {
          var i :| 0 <= i < |l| && l[i].id == id && !l[i].phase.NoKey?;
          assert init[i].id == id;
        }
        RemainingAtLeast(init, bl, q);
      }
    } else {
      assert forall id :: id !in q;
      assert q == {};
    }
  }

  /** t honest signers with a key are connected. */
  ghost predicate HonestQuorum(s: Coord, faulty: set<Id>) {
    exists q: set<Id> :: q !! faulty && |q| >= s.t && Quorum(s, q)
  }

  lemma FlagStep(s: Coord, e: Event, faulty: set<Id>)
    requires FaultInv(s, faulty) && FaultStep(s, e, faulty) && (e.Share? ==> HonestQuorum(Step(s, e), faulty))
    ensures Step(s, e).roastFail ==> s.roastFail
  {
    var r := Step(s, e);
    FlagMeansFew(s, e);
    if e.Share? {
      var q: set<Id> :| q !! faulty && |q| >= r.t && Quorum(r, q);
      EveryFailureIsPaid(s, e, faulty);
      RemainingAtLeast(r.signers, r.blacklist, q);
    }
  }

  lemma {:induction false} QuorumKeepsFlag(s: Coord, es: seq<Event>, faulty: set<Id>)
    requires FaultInv(s, faulty) && FaultRun(s, es, faulty)
    requires forall k :: 0 <= k < |es| && es[k].Share? ==> HonestQuorum(Run(s, es[..k + 1]), faulty)
    ensures Run(s, es).roastFail ==> s.roastFail
  {
    if es != [] {
      var init := es[..|es| - 1];
      FaultRunPrefix(s, es, faulty);
      forall k | 0 <= k < |init| && init[k].Share? ensures HonestQuorum(Run(s, init[..k + 1]), faulty) {
        assert init[..k + 1] == es[..k + 1] && es[k].Share?;
      }
      QuorumKeepsFlag(s, init, faulty);
      FailuresBounded(s, init, faulty);
      assert es[..|es| - 1 + 1] == es;
      FlagStep(Run(s, init), es[|es| - 1], faulty);
    }
  }

  /**
   If t honest signers with a key are connected after every share that is handled, the coordinator
   never gives up, over every run of the fault model.
   */
  lemma HonestQuorumNeverFails(n: int, t: int, tbs: Bytes, serial: nat, m: nat, es: seq<Event>, faulty: set<Id>)
    requires FaultRun(Start(n, t, tbs, serial, m), es, faulty)
    requires forall k :: 0 <= k < |es| && es[k].Share? ==>
      HonestQuorum(Run(Start(n, t, tbs, serial, m), es[..k + 1]), faulty)
    ensures !Run(Start(n, t, tbs, serial, m), es).roastFail
  {
    StartFault(n, t, tbs, serial, m, faulty);
    QuorumKeepsFlag(Start(n, t, tbs, serial, m), es, faulty);
  }

  /** Only a culprit's abort raises the flag, and only when fewer than t signers remain. */
  lemma FlagMeansFew(s: Coord, e: Event)
    ensures var r := Step(s, e); r.roastFail ==> s.roastFail || (e.Share? && Remaining(r.signers, r.blacklist) < r.t)
  {
    if e.Tick? && !s.done {
      SweepFlag(s, |s.sessions|, e.now, e.assembledAfter);
    }
  }

  lemma {:induction false} SweepFlag(s: Coord, k: nat, now: int, after: set<int>)
    requires k <= |s.sessions|
    ensures Sweep(s, k, now, after).roastFail == s.roastFail
  {
    if k != 0 {
      SweepFlag(s, k - 1, now, after);
    }
  }
}
