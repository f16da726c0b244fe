/** Strikes and the blacklist, event by event: who is struck, how often, and who is excluded, exactly. */
module RoastLedger {
  import opened Bundles
  import opened Counting
  import opened Roast
  import opened RoastInvariant
  import opened RoastExclusion
  import opened RoastHistory
  import opened RoastFate
  import opened RoastQuorum
  import opened RoastIdentity

  /** The session waits, its deadline has come, and the place of its member `x` is empty. */
  predicate Misses(sess: Session, now: int, x: Id) {
    && sess.state.Awaiting? && now >= sess.deadline
    && exists i :: 0 <= i < |sess.members| && i < |sess.shares| && sess.members[i] == x && sess.shares[i] == []
  }

  /** How many of the first `k` sessions miss a share of `x`. */
  function MissedBy(s: Coord, now: int, x: Id, k: nat): nat
    requires k <= |s.sessions|
  {
    if k == 0 then 0 else MissedBy(s, now, x, k - 1) + if Misses(s.sessions[k - 1], now, x) then 1 else 0
  }

  /** The strikes the timer gives to `x`: one for each session that misses its share, if it is connected. */
  function Penalty(s: Coord, now: int, x: Id, k: nat): nat
    requires k <= |s.sessions|
  {
    if Connected(s.signers, x) && 1 <= x <= |s.strikes| then MissedBy(s, now, x, k) else 0
  }

  lemma MissesIsSilent(sess: Session, now: int, x: Id)
    requires Distinct(sess.members) && |sess.shares| == |sess.members|
    ensures Misses(sess, now, x) <==> Expired(sess, now) && Silent(sess, x)
  {
    if x in sess.members {
      var k := SlotOf(sess.members, x);
      assert sess.members[k] == x;
    }
  }

  /** What the sweep has done to the ledger when it reaches slot `i`. */
  ghost predicate Charged(s: Coord, m: Coord, i: nat, now: int) {
    && i <= |s.sessions| && Inv(m) && Timed(s, m, i, now) && SameIds(s.signers, m.signers)
    && |m.strikes| == |s.strikes| && m.n == s.n && m.t == s.t
    && (forall x {:trigger Strikes(m.strikes, x)} ::
          Strikes(m.strikes, x) == Strikes(s.strikes, x) + Penalty(s, now, x, i))
    && (forall x :: x in m.blacklist ==> x in s.blacklist || Strikes(m.strikes, x) >= MAX_STRIKES)
    && (forall x :: x in s.blacklist ==> x in m.blacklist)
  }

  /** A time-out strikes the connected silent members. */
  lemma ExpiryCharges(m: Coord, k: nat, now: int, x: Id)
    requires Inv(m) && k < |m.sessions| && Expired(m.sessions[k], now)
    ensures var r := Expire(m, k);
            && Strikes(r.strikes, x) == Strikes(m.strikes, x) +
               (if Misses(m.sessions[k], now, x) && Connected(m.signers, x) && 1 <= x <= |m.strikes| then 1 else 0)
            && (x in r.blacklist ==> x in m.blacklist || Strikes(r.strikes, x) >= MAX_STRIKES)
            && (x in m.blacklist ==> x in r.blacklist)
  {
    var sess, r := m.sessions[k], Expire(m, k);
    assert SessionOk(sess, m.n, m.t);
    MissesIsSilent(sess, now, x);
    BlacklistStruckOutIs(m.blacklist, sess.members, sess, m.signers, r.strikes);
  }

  lemma FormLedger(s: Coord, now: int, assembled: bool)
    ensures var r := MaybeForm(s, now, assembled);
            r.strikes == s.strikes && r.blacklist == s.blacklist && SameIds(s.signers, r.signers) && r.n == s.n &&
              r.t == s.t
  {
  }

  /** The slot the sweep is at is as it was at the beginning, if it is due at all. */
  lemma DueIsOld(s: Coord, m: Coord, i: nat, now: int)
    requires Timed(s, m, i, now) && i < |s.sessions|
    ensures Expired(m.sessions[i], now) <==> Expired(s.sessions[i], now)
    ensures Expired(m.sessions[i], now) ==> m.sessions[i] == s.sessions[i]
  {
    assert TimedSlot(s, m, i, now, i);
  }

  lemma SlotCharged(s: Coord, m: Coord, i: nat, next: nat, now: int, assembled: bool)
    requires Charged(s, m, i, now) && i < |s.sessions| && next == i + 1
    ensures Charged(s, SweepSlot(m, i, now, assembled), next, now)
  {
    var r := SweepSlot(m, i, now, assembled);
    DueIsOld(s, m, i, now);
    SlotTimed(s, m, i, next, now, assembled);
    SlotKeeps(m, i, now, assembled);
    forall x ensures Strikes(r.strikes, x) == Strikes(s.strikes, x) + Penalty(s, now, x, next) {
      assert Strikes(m.strikes, x) == Strikes(s.strikes, x) + Penalty(s, now, x, i);
      SameListed(s.signers, m.signers, x);
      SlotPenalty(m, i, now, assembled, x);
    }
    forall x ensures
      && (x in r.blacklist ==> x in s.blacklist || Strikes(r.strikes, x) >= MAX_STRIKES)
      && (x in s.blacklist ==> x in r.blacklist)
    {
      SlotPenalty(m, i, now, assembled, x);
    }
    SlotSame(m, i, now, assembled);
  }

  lemma SlotSame(m: Coord, i: nat, now: int, assembled: bool)
    requires i < |m.sessions|
    ensures var r := SweepSlot(m, i, now, assembled);
            SameIds(m.signers, r.signers) && |r.strikes| == |m.strikes| && r.n == m.n && r.t == m.t
  {
    if Expired(m.sessions[i], now) {
      FormLedger(Expire(m, i), now, assembled);
    }
  }

  /** What one slot of the sweep does to the strikes and to the blacklist. */
  lemma SlotPenalty(m: Coord, i: nat, now: int, assembled: bool, x: Id)
    requires Inv(m) && i < |m.sessions|
    ensures var r := SweepSlot(m, i, now, assembled);
            && Strikes(r.strikes, x) == Strikes(m.strikes, x) +
               (if Misses(m.sessions[i], now, x) && Connected(m.signers, x) && 1 <= x <= |m.strikes| then 1 else 0)
            && (x in r.blacklist ==> x in m.blacklist || Strikes(r.strikes, x) >= MAX_STRIKES)
            && (x in m.blacklist ==> x in r.blacklist)
  {
    if Expired(m.sessions[i], now) {
      ExpiryCharges(m, i, now, x);
      FormLedger(Expire(m, i), now, assembled);
    }
  }

  lemma ChargedSelf(s: Coord, now: int)
    requires Inv(s)
    ensures Charged(s, s, 0, now)
  {
    TimedSelf(s, now);
    forall x ensures Strikes(s.strikes, x) == Strikes(s.strikes, x) + Penalty(s, now, x, 0) {
    }
  }

  lemma {:induction false} SweepCharged(s: Coord, i: nat, now: int, after: set<int>)
    requires Inv(s) && i <= |s.sessions|
    ensures Charged(s, Sweep(s, i, now, after), i, now)
  {
    if i == 0 {
      ChargedSelf(s, now);
    } else {
      SweepCharged(s, i - 1, now, after);
      SlotCharged(s, Sweep(s, i - 1, now, after), i - 1, i, now, i - 1 in after);
    }
  }

  lemma OnlyTimerStrikes(s: Coord, e: Event)
    requires !e.Tick?
    ensures Step(s, e).strikes == s.strikes
  {
    match e
    case Share(id, payload, v, now, assembled) =>
      if |payload| <= MAX_PAYLOAD && Routable(s, id) {
        var f := FindSession(s.sessions, s.signers[IndexOf(s.signers, id)].sessionId);
        ActStrikesNobody(StoreShare(s, id, payload), f, v, now, assembled);
      }
    case Commit(id, payload, sig, now, assembled) =>
      if CommitAccepted(s, id, payload, sig) {
        FormLedger(StoreCommit(s, IndexOf(s.signers, id), payload, sig), now, assembled);
      }
    case _ =>
  }

  lemma ActStrikesNobody(m: Coord, f: nat, v: Verdict, now: int, assembled: bool)
    requires f < |m.sessions|
    ensures Aggregate(m, f, v, now, assembled).strikes == m.strikes
  {
    if v.Culprit? {
      FormLedger(DropCulprit(m, f, v.culprit), now, assembled);
    }
  }

  lemma TimerStrikes(s: Coord, now: int, after: set<int>, x: Id)
    requires Inv(s) && !s.done
    ensures Strikes(Step(s, Tick(now, after)).strikes, x) == Strikes(s.strikes, x) + Penalty(s, now, x, |s.sessions|)
  {
    SweepCharged(s, |s.sessions|, now, after);
  }

  /** Strikes after any event, exactly. */
  lemma StrikesExactly(s: Coord, e: Event, x: Id)
    requires Inv(s)
    ensures Strikes(Step(s, e).strikes, x) ==
            Strikes(s.strikes, x) + if e.Tick? && !s.done then Penalty(s, e.now, x, |s.sessions|) else 0
  {
    if e.Tick? {
      if !s.done {
        TimerStrikes(s, e.now, e.assembledAfter, x);
      }
    } else {
      OnlyTimerStrikes(s, e);
    }
  }

  /** Whom the event accuses: the culprit, or, when nobody is named, the members of the session that closes. */
  ghost predicate Accuses(s: Coord, e: Event, x: Id) {
    && e.Share? && !e.verdict.Good?
    && exists k :: ClosesSlot(s, e, k) && if Names(e.verdict) then x == e.verdict.culprit
       else x in s.sessions[k].members
  }

  lemma ActExcludes(m: Coord, f: nat, v: Verdict, now: int, assembled: bool, x: Id)
    requires SharesStored(m, f) && m.sessions[f].nShares >= m.t && !m.done
    ensures x in Aggregate(m, f, v, now, assembled).blacklist <==>
      x in m.blacklist || (!v.Good? && if Names(v) then x == v.culprit else x in m.sessions[f].members)
  {
    assert SessionOk(m.sessions[f], m.n, m.t);
    if Names(v) {
      AddBlacklistIs(m.blacklist, v.culprit);
      FormLedger(DropCulprit(m, f, v.culprit), now, assembled);
    } else if !v.Good? {
      AddAllBlacklistIs(m.blacklist, m.sessions[f].members);
    }
  }

  lemma OneCloses(s: Coord, e: Event, k: nat, f: nat)
    requires Inv(s) && ClosesSlot(s, e, k) && ClosesSlot(s, e, f)
    ensures k == f
  {
    BringsIsRouted(s, e, s.sessions[k].id, e.id);
    BringsIsRouted(s, e, s.sessions[f].id, e.id);
    IdsUnique(s, k, f);
  }

  lemma ClosingExcludes(s: Coord, e: Event, x: Id)
    requires Inv(s) && e.Share? && Closes(s, e)
    ensures x in Step(s, e).blacklist <==> x in s.blacklist || Accuses(s, e, x)
  {
    var f := ClosingIs(s, e);
    forall k | ClosesSlot(s, e, k) ensures k == f {
      OneCloses(s, e, k, f);
    }
    ActExcludes(StoreShare(s, e.id, e.payload), f, e.verdict, e.now, e.assembled, x);
  }

  /** The blacklist after any event, exactly: accused by this event, or struck twice by the timer. */
  lemma BlacklistIff(s: Coord, e: Event, x: Id)
    requires Inv(s)
    ensures x in Step(s, e).blacklist <==>
      x in s.blacklist || Accuses(s, e, x) || (e.Tick? && Strikes(Step(s, e).strikes, x) >= MAX_STRIKES)
  {
    if e.Share? {
      if Closes(s, e) {
        ClosingExcludes(s, e, x);
      } else {
        NotClosing(s, e);
      }
    } else if e.Tick? && !s.done {
      SweepCharged(s, |s.sessions|, e.now, e.assembledAfter);
    }
  }
}
