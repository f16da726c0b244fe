/**
 Commitments with bad signatures. The coordinator stores the signature of a COMMIT unverified; an honest
 signer that gets a bundle with an entry that does not verify refuses it and sends no share, and is struck
 when the session times out. So honest signers are struck if and only if a session with a bundle that is
 not genuine times out while they are members of it; and one faulty signer can have t - 1 honest ones
 blacklisted.
 */
module RoastRefusal {
  import opened Octets
  import opened Bundles
  import opened Roast
  import opened RoastInvariant
  import opened RoastCoherence
  import opened RoastTermination
  import SM = SignerModel

  // ---------------------------------------------------------------- what honest signers do

  /** Every entry of the session's bundle verifies for the bundle's message. */
  predicate Genuine(sess: Session, valid: SM.Signatures) {
    forall i :: 0 <= i < |sess.pkg.entries| ==> SM.Authentic(sess.pkg.entries[i], sess.pkg.tbs, valid)
  }

  /** A signer sends no share for a bundle that is not genuine. */
  lemma RefusesForged(nd: SM.Node, sess: Session, valid: SM.Signatures, o: SM.Oracle)
    requires WellFormed(sess.pkg) && !Genuine(sess, valid)
    ensures SM.OnRelayCommit(nd, Pack(sess.pkg), valid, o).out == []
  {
    UnpackInvertsPack(sess.pkg, []);
    assert Pack(sess.pkg) + [] == Pack(sess.pkg);
  }

  function SlotFor(s: Coord, id: Id): nat
    requires Connected(s.signers, id)
  {
    FindSession(s.sessions, s.signers[IndexOf(s.signers, id)].sessionId)
  }

  /** Every honest member of a genuine session that is about to expire has sent its share. */
  ghost predicate GenuineInTime(s: Coord, now: int, faulty: set<Id>, valid: SM.Signatures) {
    forall k, m ::
      (0 <= k < |s.sessions| && Expired(s.sessions[k], now) && Genuine(s.sessions[k], valid)
       && m in s.sessions[k].members && m !in faulty)
      ==> Cooperated(s.sessions[k], m)
  }

  /**
   Honest signers sign their commitments for the message at hand, and share in time for genuine bundles and for no
   others.
   */
  ghost predicate DutyStep(s: Coord, e: Event, faulty: set<Id>, valid: SM.Signatures) {
    && (e.Disconnect? ==> !InActive(s, e.id))
    && (e.Commit? && e.id !in faulty ==> SM.Authentic(Entry(e.id, e.payload, e.sig), s.tbs, valid))
    && (e.Share? ==> FairVerdict(s, e, faulty))
    && (e.Share? && e.id !in faulty && Routable(s, e.id) ==> Genuine(s.sessions[SlotFor(s, e.id)], valid))
    && (e.Tick? ==> GenuineInTime(s, e.now, faulty, valid))
  }

  ghost predicate DutyRun(s: Coord, es: seq<Event>, faulty: set<Id>, valid: SM.Signatures) {
    forall i :: 0 <= i < |es| ==> DutyStep(Run(s, es[..i]), es[i], faulty, valid)
  }

  /** A session with an honest member times out although its bundle is not genuine. */
  ghost predicate BadAt(s: Coord, k: int, m: Id, now: int, faulty: set<Id>, valid: SM.Signatures) {
    && 0 <= k < |s.sessions| && Expired(s.sessions[k], now) && !Genuine(s.sessions[k], valid)
    && m in s.sessions[k].members && m !in faulty
  }

  ghost predicate BadTick(s: Coord, e: Event, faulty: set<Id>, valid: SM.Signatures) {
    e.Tick? && !s.done && exists k, m :: BadAt(s, k, m, e.now, faulty, valid)
  }

  // ---------------------------------------------------------------- honest members withhold

  /** Honest members of a session that is not genuine have sent nothing. */
  ghost predicate Withheld(s: Coord, faulty: set<Id>, valid: SM.Signatures) {
    forall k, m :: Active(s, k) && !Genuine(s.sessions[k], valid) && m in s.sessions[k].members && m !in faulty ==>
      !Cooperated(s.sessions[k], m)
  }

  /** Waiting sessions of `r` are those of `s`, or new and without shares. */
  predicate NoNewShares(s: Coord, r: Coord) {
    && |r.sessions| == |s.sessions|
    && forall k :: 0 <= k < |r.sessions| && r.sessions[k].state.Awaiting? ==>
         r.sessions[k] == s.sessions[k] || forall i :: 0 <= i < |r.sessions[k].shares| ==> r.sessions[k].shares[i] == []
  }

  lemma WithheldOn(s: Coord, r: Coord, faulty: set<Id>, valid: SM.Signatures)
    requires Withheld(s, faulty, valid) && NoNewShares(s, r)
    ensures Withheld(r, faulty, valid)
  {
  }

  lemma FormNoShares(s: Coord, now: int, assembled: bool)
    ensures NoNewShares(s, MaybeForm(s, now, assembled))
  {
  }

  lemma AggregateNoShares(s: Coord, k: nat, v: Verdict, now: int, assembled: bool)
    requires k < |s.sessions|
    ensures NoNewShares(s, Aggregate(s, k, v, now, assembled))
  {
    if v.Culprit? {
      FormNoShares(DropCulprit(s, k, v.culprit), now, assembled);
    }
  }

  lemma SlotNoShares(s: Coord, k: nat, now: int, assembled: bool)
    requires k < |s.sessions|
    ensures NoNewShares(s, SweepSlot(s, k, now, assembled))
  {
    if Expired(s.sessions[k], now) {
      FormNoShares(Expire(s, k), now, assembled);
    }
  }

  lemma NoSharesTrans(s: Coord, m: Coord, r: Coord)
    requires NoNewShares(s, m) && NoNewShares(m, r)
    ensures NoNewShares(s, r)
  {
  }

  lemma SweepNoShares(s: Coord, k: nat, now: int, after: set<int>)
    requires k <= |s.sessions|
    ensures NoNewShares(s, Sweep(s, k, now, after))
  {
    var inv := (i: nat, m: Coord) => NoNewShares(s, m);
    forall i: nat, m: Coord | i < k && |m.sessions| == |s.sessions| && inv(i, m)
      ensures inv(i + 1, SweepSlot(m, i, now, i in after))
    {
      SlotNoShares(m, i, now, i in after);
      NoSharesTrans(s, m, SweepSlot(m, i, now, i in after));
    }
    SweepInduct(inv, s, k, now, after);
  }

  /** A share fills the place of its sender only. */
  lemma StoreShareWithheld(s: Coord, id: Id, payload: Bytes, faulty: set<Id>, valid: SM.Signatures)
    requires Inv(s) && Withheld(s, faulty, valid) && Routable(s, id)
    requires id !in faulty ==> Genuine(s.sessions[SlotFor(s, id)], valid)
    ensures Withheld(StoreShare(s, id, payload), faulty, valid)
  {
    var r, j := StoreShare(s, id, payload), SlotFor(s, id);
    forall k, m | Active(r, k) && !Genuine(r.sessions[k], valid) && m in r.sessions[k].members && m !in faulty
      ensures !Cooperated(r.sessions[k], m)
    {
      assert Active(s, k) && r.sessions[k].pkg == s.sessions[k].pkg && r.sessions[k].members == s.sessions[k].members;
      if k == j {
        OthersPlace(s.sessions[k], id, m, payload);
      }
    }
  }

  lemma OthersPlace(sess: Session, id: Id, m: Id, payload: Bytes)
    requires id in sess.members && m in sess.members && m != id && SlotOf(sess.members, id) < |sess.shares|
    ensures var slot := SlotOf(sess.members, id);
            Cooperated(sess.(shares := sess.shares[slot := payload], nShares := sess.nShares + 1), m) <==>
              Cooperated(sess, m)
  {
    assert sess.members[SlotOf(sess.members, id)] == id && sess.members[SlotOf(sess.members, m)] == m;
  }

  lemma ShareWithheld(s: Coord, e: Event, faulty: set<Id>, valid: SM.Signatures)
    requires e.Share? && Inv(s) && Withheld(s, faulty, valid) && DutyStep(s, e, faulty, valid)
    ensures Withheld(Step(s, e), faulty, valid)
  {
    if |e.payload| <= MAX_PAYLOAD && Routable(s, e.id) {
      var m, k := StoreShare(s, e.id, e.payload), SlotFor(s, e.id);
      StoreShareWithheld(s, e.id, e.payload, faulty, valid);
      AggregateNoShares(m, k, e.verdict, e.now, e.assembled);
      WithheldOn(m, Aggregate(m, k, e.verdict, e.now, e.assembled), faulty, valid);
    }
  }

  lemma CommitNoShares(s: Coord, e: Event)
    requires e.Commit?
    ensures NoNewShares(s, Step(s, e))
  {
    if CommitAccepted(s, e.id, e.payload, e.sig) {
      FormNoShares(StoreCommit(s, IndexOf(s.signers, e.id), e.payload, e.sig), e.now, e.assembled);
    }
  }

  lemma StepWithheld(s: Coord, e: Event, faulty: set<Id>, valid: SM.Signatures)
    requires Inv(s) && Withheld(s, faulty, valid) && DutyStep(s, e, faulty, valid)
    ensures Withheld(Step(s, e), faulty, valid)
  {
    if e.Share? {
      ShareWithheld(s, e, faulty, valid);
    } else {
      if e.Tick? && !s.done {
        SweepNoShares(s, |s.sessions|, e.now, e.assembledAfter);
      } else if e.Commit? {
        CommitNoShares(s, e);
      }
      WithheldOn(s, Step(s, e), faulty, valid);
    }
  }

  // ---------------------------------------------------------------- strikes

  /** Nobody's strikes are taken back. */
  predicate StrikesGrow(s: Coord, r: Coord) {
    |r.strikes| == |s.strikes| && forall i :: 0 <= i < |s.strikes| ==> s.strikes[i] <= r.strikes[i]
  }

  lemma FormStrikes(s: Coord, now: int, assembled: bool)
    ensures MaybeForm(s, now, assembled).strikes == s.strikes
    ensures SameIds(s.signers, MaybeForm(s, now, assembled).signers)
  {
  }

  lemma SlotStrikes(s: Coord, k: nat, now: int, assembled: bool)
    requires k < |s.sessions|
    ensures StrikesGrow(s, SweepSlot(s, k, now, assembled)) &&
            SameIds(s.signers, SweepSlot(s, k, now, assembled).signers)
    ensures forall x :: Expired(s.sessions[k], now) && Silent(s.sessions[k], x) && Connected(s.signers, x)
                        && 1 <= x <= |s.strikes| ==>
              Strikes(SweepSlot(s, k, now, assembled).strikes, x) > 0
  {
    if Expired(s.sessions[k], now) {
      FormStrikes(Expire(s, k), now, assembled);
    }
  }

  /** Slots that the sweep has not reached, and that are in use, are as they were. */
  predicate AheadKept(s: Coord, r: Coord, k: nat) {
    |r.sessions| == |s.sessions| && forall j :: k <= j < |s.sessions| && !s.sessions[j].state.Empty? ==>
      r.sessions[j] == s.sessions[j]
  }

  lemma SlotAhead(s: Coord, k: nat, now: int, assembled: bool)
    requires k < |s.sessions|
    ensures AheadKept(s, SweepSlot(s, k, now, assembled), k + 1)
  {
  }

  /** What the sweep keeps up to slot `k`. */
  predicate SweptTo(s: Coord, r: Coord, k: nat) {
    StrikesGrow(s, r) && SameIds(s.signers, r.signers) && AheadKept(s, r, k)
  }

  lemma SweptOn(s: Coord, m: Coord, k: nat, now: int, assembled: bool)
    requires SweptTo(s, m, k) && k < |m.sessions|
    ensures SweptTo(s, SweepSlot(m, k, now, assembled), k + 1)
  {
    SlotStrikes(m, k, now, assembled);
    SlotAhead(m, k, now, assembled);
  }

  lemma SweepStrikes(s: Coord, k: nat, now: int, after: set<int>)
    requires k <= |s.sessions|
    ensures SweptTo(s, Sweep(s, k, now, after), k)
  {
    var inv := (i: nat, m: Coord) => SweptTo(s, m, i);
    forall i: nat, m: Coord | i < k && |m.sessions| == |s.sessions| && inv(i, m)
      ensures inv(i + 1, SweepSlot(m, i, now, i in after))
    {
      SweptOn(s, m, i, now, i in after);
    }
    SweepInduct(inv, s, k, now, after);
  }

  lemma StrikesStay(s: Coord, r: Coord, x: Id)
    requires StrikesGrow(s, r) && Strikes(s.strikes, x) > 0
    ensures Strikes(r.strikes, x) > 0
  {
  }

  lemma StepStrikes(s: Coord, e: Event)
    ensures StrikesGrow(s, Step(s, e))
  {
    if e.Tick? && !s.done {
      SweepStrikes(s, |s.sessions|, e.now, e.assembledAfter);
    }
  }

  /** From slot `j` on the silent member `x` of its session is struck. */
  lemma StruckOn(s: Coord, m: Coord, i: nat, now: int, assembled: bool, j: nat, x: Id)
    requires SweptTo(s, m, i) && i < |m.sessions| && j < |s.sessions| && Expired(s.sessions[j], now) &&
             Silent(s.sessions[j], x)
    requires Connected(s.signers, x) && 1 <= x <= |s.strikes| && (j < i ==> Strikes(m.strikes, x) > 0) && j <= i
    ensures Strikes(SweepSlot(m, i, now, assembled).strikes, x) > 0
  {
    SlotStrikes(m, i, now, assembled);
    SameIdsConnected(s.signers, m.signers, x);
  }

  /** A silent connected member of an expired session is struck by the sweep, wherever its slot is. */
  lemma SweepStrikesSilent(s: Coord, k: nat, now: int, after: set<int>, j: nat, x: Id)
    requires j < k <= |s.sessions| && Expired(s.sessions[j], now) && Silent(s.sessions[j], x)
    requires Connected(s.signers, x) && 1 <= x <= |s.strikes|
    ensures Strikes(Sweep(s, k, now, after).strikes, x) > 0
  {
    var inv := (i: nat, m: Coord) => SweptTo(s, m, i) && (j < i ==> Strikes(m.strikes, x) > 0);
    forall i: nat, m: Coord | i < k && |m.sessions| == |s.sessions| && inv(i, m)
      ensures inv(i + 1, SweepSlot(m, i, now, i in after))
    {
      SweptOn(s, m, i, now, i in after);
      if j <= i {
        StruckOn(s, m, i, now, i in after, j, x);
      }
    }
    SweepInduct(inv, s, k, now, after);
  }

  // ---------------------------------------------------------------- exactly when

  /** Some honest signer was struck. */
  ghost predicate HonestStruck(s: Coord, faulty: set<Id>) {
    exists x :: x !in faulty && Strikes(s.strikes, x) > 0
  }

  lemma BadTickStrikes(s: Coord, e: Event, faulty: set<Id>, valid: SM.Signatures)
    requires FaultInv(s, faulty) && Withheld(s, faulty, valid) && BadTick(s, e, faulty, valid)
    ensures HonestStruck(Step(s, e), faulty)
  {
    var k, m :| BadAt(s, k, m, e.now, faulty, valid);
    assert Active(s, k) && WaitsFor(s, k, m) && SessionOk(s.sessions[k], s.n, s.t);
    assert Silent(s.sessions[k], m);
    SweepStrikesSilent(s, |s.sessions|, e.now, e.assembledAfter, k, m);
  }

  lemma GoodStepIsFault(s: Coord, e: Event, faulty: set<Id>, valid: SM.Signatures)
    requires DutyStep(s, e, faulty, valid) && !BadTick(s, e, faulty, valid) && !(e.Tick? && s.done)
    ensures FaultStep(s, e, faulty)
  {
    if e.Tick? {
      forall k, m | 0 <= k < |s.sessions| && Expired(s.sessions[k], e.now) && m in s.sessions[k].members && m !in faulty
        ensures Cooperated(s.sessions[k], m)
      {
        assert !BadAt(s, k, m, e.now, faulty, valid);
      }
    }
  }

  lemma StruckStays(s: Coord, e: Event, faulty: set<Id>)
    requires HonestStruck(s, faulty)
    ensures HonestStruck(Step(s, e), faulty)
  {
    var x :| x !in faulty && Strikes(s.strikes, x) > 0;
    StepStrikes(s, e);
    StrikesStay(s, Step(s, e), x);
  }

  /** Some Tick of the run is bad. */
  ghost predicate BadRun(s: Coord, es: seq<Event>, faulty: set<Id>, valid: SM.Signatures) {
    exists i :: 0 <= i < |es| && BadTick(Run(s, es[..i]), es[i], faulty, valid)
  }

  lemma BadRunSplits(s: Coord, es: seq<Event>, faulty: set<Id>, valid: SM.Signatures)
    requires es != []
    ensures var init := es[..|es| - 1];
            BadRun(s, es, faulty, valid) <==>
            BadRun(s, init, faulty, valid) || BadTick(Run(s, init), es[|es| - 1], faulty, valid)
  {
    var init := es[..|es| - 1];
    if i :| 0 <= i < |es| && BadTick(Run(s, es[..i]), es[i], faulty, valid) {
      if i < |init| {
        assert init[..i] == es[..i] && init[i] == es[i];
      }
    }
    if i :| 0 <= i < |init| && BadTick(Run(s, init[..i]), init[i], faulty, valid) {
      assert init[..i] == es[..i] && init[i] == es[i];
    }
    assert es[..|es| - 1] == init;
  }

  lemma DutyRunPrefix(s: Coord, es: seq<Event>, faulty: set<Id>, valid: SM.Signatures)
    requires es != [] && DutyRun(s, es, faulty, valid)
    ensures DutyRun(s, es[..|es| - 1], faulty, valid) && DutyStep(Run(s, es[..|es| - 1]), es[|es| - 1], faulty, valid)
  {
    var init := es[..|es| - 1];
    forall i | 0 <= i < |init| ensures DutyStep(Run(s, init[..i]), init[i], faulty, valid) {
      assert init[..i] == es[..i];
    }
  }

  /** Up to the first bad Tick nobody honest is harmed, and from then on somebody is. */
  ghost predicate Accounts(s: Coord, bad: bool, faulty: set<Id>, valid: SM.Signatures) {
    Inv(s) && Withheld(s, faulty, valid) && if bad then HonestStruck(s, faulty) else FaultInv(s, faulty)
  }

  lemma StepAccounts(s: Coord, e: Event, bad: bool, faulty: set<Id>, valid: SM.Signatures)
    requires Accounts(s, bad, faulty, valid) && DutyStep(s, e, faulty, valid)
    ensures Accounts(Step(s, e), bad || BadTick(s, e, faulty, valid), faulty, valid)
  {
    StepKeeps(s, e);
    StepWithheld(s, e, faulty, valid);
    if bad {
      StruckStays(s, e, faulty);
    } else if BadTick(s, e, faulty, valid) {
      BadTickStrikes(s, e, faulty, valid);
    } else if !(e.Tick? && s.done) {
      GoodStepIsFault(s, e, faulty, valid);
      EveryFailureIsPaid(s, e, faulty);
    }
  }

  lemma {:induction false} RunAccounts(n: int, t: int, tbs: Bytes, serial: nat, toMint: nat, es: seq<Event>,
                                       faulty: set<Id>, valid: SM.Signatures)
    requires DutyRun(Start(n, t, tbs, serial, toMint), es, faulty, valid)
    ensures var s := Start(n, t, tbs, serial, toMint);
            Accounts(Run(s, es), BadRun(s, es, faulty, valid), faulty, valid)
  {
    var s := Start(n, t, tbs, serial, toMint);
    if es == [] {
      StartIsFine(n, t, tbs, serial, toMint);
      assert forall k :: !Active(s, k);
    } else {
      var init := es[..|es| - 1];
      DutyRunPrefix(s, es, faulty, valid);
      RunAccounts(n, t, tbs, serial, toMint, init, faulty, valid);
      StepAccounts(Run(s, init), es[|es| - 1], BadRun(s, init, faulty, valid), faulty, valid);
      BadRunSplits(s, es, faulty, valid);
    }
  }

  /**
   Over every run in which honest signers do their duty: some honest signer is struck if and only if a
   session with an honest member times out whose bundle has an entry that does not verify.
   */
  lemma HonestStruckIff(n: int, t: int, tbs: Bytes, serial: nat, toMint: nat, es: seq<Event>, faulty: set<Id>,
                        valid: SM.Signatures)
    requires DutyRun(Start(n, t, tbs, serial, toMint), es, faulty, valid)
    ensures var s := Start(n, t, tbs, serial, toMint);
            HonestStruck(Run(s, es), faulty) <==> BadRun(s, es, faulty, valid)
  {
    RunAccounts(n, t, tbs, serial, toMint, es, faulty, valid);
  }
}
