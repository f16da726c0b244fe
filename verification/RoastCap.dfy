/**
 A third bound on failures, for many faulty signers: once fewer than t signers are left no session can
 fail any more, so f faulty signers out of n spoil at most f + (n - t + 1) sessions of a message.
 */
module RoastCap {
  import opened Octets
  import opened Bundles
  import opened Counting
  import opened Roast
  import opened RoastInvariant
  import opened RoastCoherence
  import opened RoastTermination
  import opened RoastPrompt

  /** How many ids of `faulty` up to `n` are still trusted. */
  function Trusted(bl: seq<Id>, faulty: set<Id>, n: nat): nat {
    if n == 0 then 0 else Trusted(bl, faulty, n - 1) + if n in faulty && n !in bl then 1 else 0
  }

  /** Each trusted faulty signer has a strike left. */
  lemma {:induction false} PotentialFloor(s: Coord, faulty: set<Id>, n: nat)
    requires LedgerOk(s) && n <= |s.strikes|
    ensures PotentialUpto(s.blacklist, s.strikes, faulty, n) >= Trusted(s.blacklist, faulty, n)
  {
    if n != 0 {
      PotentialFloor(s, faulty, n - 1);
      assert n !in s.blacklist ==> s.strikes[n - 1] < MAX_STRIKES;
    }
  }

  /** How many ids up to `n` are in `a`. */
  function CountUpto(a: set<Id>, n: nat): nat {
    if n == 0 then 0 else CountUpto(a, n - 1) + if n in a then 1 else 0
  }

  lemma {:induction false} CountWithout(a: set<Id>, x: Id, n: nat)
    requires n < x
    ensures CountUpto(a - {x}, n) == CountUpto(a, n)
  {
    if n != 0 {
      CountWithout(a, x, n - 1);
    }
  }

  lemma {:induction false} CountAll(a: set<Id>, n: nat)
    requires a <= Upto(n)
    ensures CountUpto(a, n) == |a|
  {
    if n == 0 {
      assert a == {};
    } else {
      CountWithout(a, n, n - 1);
      CountAll(a - {n}, n - 1);
    }
  }

  /** Who is not trusted is blacklisted. */
  lemma {:induction false} TrustedCount(bl: seq<Id>, faulty: set<Id>, out: set<Id>, n: nat)
    requires forall x :: x in bl ==> x in out
    ensures CountUpto(faulty, n) <= Trusted(bl, faulty, n) + CountUpto(out, n)
  {
    if n != 0 {
      TrustedCount(bl, faulty, out, n - 1);
    }
  }

  /** While a session waits, its t members are trusted. */
  lemma WaitingLeavesT(s: Coord, k: nat, faulty: set<Id>)
    requires FaultInv(s, faulty) && SizesOk(s.n, s.t) && faulty <= Upto(s.n) && Active(s, k)
    ensures |s.blacklist| + s.t <= s.n
  {
    var sess := s.sessions[k];
    assert SessionOk(sess, s.n, s.t);
    var mine, out := set x | x in sess.members, set x | x in s.blacklist;
    DistinctCard(sess.members);
    DistinctCard(s.blacklist);
    forall x | x in mine ensures x !in out {
      assert WaitsFor(s, k, x);
    }
    CardMonotone(mine + out, Upto(s.n));
  }

  /** Failures so far, and the strikes that are left. */
  ghost predicate Tally(s: Coord, faulty: set<Id>) {
    FaultInv(s, faulty) && FailedCount(s.sessions) + Potential(s, faulty) <= MAX_STRIKES * |faulty|
  }

  lemma TalliedFailures(s: Coord, faulty: set<Id>)
    requires Tally(s, faulty) && faulty <= Upto(MAX_SIGNERS)
    ensures FailedCount(s.sessions) <= |faulty| + |s.blacklist|
  {
    var out := set x | x in s.blacklist;
    PotentialFloor(s, faulty, MAX_SIGNERS);
    TrustedCount(s.blacklist, faulty, out, MAX_SIGNERS);
    DistinctCard(s.blacklist);
    CountAll(faulty, MAX_SIGNERS);
    CountAll(out, MAX_SIGNERS);
  }

  /** Before a session fails, at most f + n - t have. */
  lemma BeforeFailure(s: Coord, k: nat, faulty: set<Id>)
    requires Tally(s, faulty) && SizesOk(s.n, s.t) && faulty <= Upto(s.n) && Active(s, k)
    ensures FailedCount(s.sessions) + s.t <= |faulty| + s.n
  {
    WaitingLeavesT(s, k, faulty);
    TalliedFailures(s, faulty);
  }

  ghost predicate Capped(s: Coord, n: int, t: int, faulty: set<Id>) {
    s.n == n && s.t == t && SizesOk(n, t) && Tally(s, faulty) && FailedCount(s.sessions) + t <= |faulty| + n + 1
  }

  lemma TallyOn(s: Coord, r: Coord, faulty: set<Id>)
    requires Tally(s, faulty) && Paid(s, r, faulty)
    ensures Tally(r, faulty)
  {
  }

  // ---------------------------------------------------------------- every step

  lemma FormCount(s: Coord, now: int, assembled: bool)
    ensures FailedCount(MaybeForm(s, now, assembled).sessions) == FailedCount(s.sessions)
  {
    var r, k := MaybeForm(s, now, assembled), FreeSlot(s.sessions);
    if r.sessions != s.sessions {
      assert r.sessions == s.sessions[k := r.sessions[k]];
      FailedUpdate(s.sessions, k, r.sessions[k]);
    }
  }

  lemma SlotCount(s: Coord, k: nat, now: int, assembled: bool)
    requires k < |s.sessions|
    ensures FailedCount(SweepSlot(s, k, now, assembled).sessions) ==
            FailedCount(s.sessions) + if Expired(s.sessions[k], now) then 1 else 0
  {
    if Expired(s.sessions[k], now) {
      FailedUpdate(s.sessions, k, s.sessions[k].(state := Failed));
      FormCount(Expire(s, k), now, assembled);
    }
  }

  lemma SlotCapped(m: Coord, k: nat, now: int, assembled: bool, n: int, t: int, faulty: set<Id>)
    requires Capped(m, n, t, faulty) && k < |m.sessions| && n >= 0 && faulty <= Upto(n)
    ensures FailedCount(SweepSlot(m, k, now, assembled).sessions) + t <= |faulty| + n + 1
  {
    SlotCount(m, k, now, assembled);
    if Expired(m.sessions[k], now) {
      BeforeFailure(m, k, faulty);
    }
  }

  /** What the sweep keeps slot by slot. */
  ghost predicate CappedOn(s: Coord, m: Coord, k: nat, now: int, n: int, t: int, faulty: set<Id>) {
    Capped(m, n, t, faulty) && !m.done && RestUntouched(s, m, k, now)
  }

  lemma SlotCappedOn(s: Coord, m: Coord, k: nat, now: int, assembled: bool, n: int, t: int, faulty: set<Id>)
    requires CappedOn(s, m, k, now, n, t, faulty) && HonestInTime(s, now, faulty)
    requires k < |s.sessions| == |m.sessions| && n >= 0 && faulty <= Upto(n)
    ensures CappedOn(s, SweepSlot(m, k, now, assembled), k + 1, now, n, t, faulty)
  {
    var r := SweepSlot(m, k, now, assembled);
    SlotFault(s, m, k, now, assembled, faulty);
    TallyOn(m, r, faulty);
    SlotCapped(m, k, now, assembled, n, t, faulty);
    assert r.n == m.n && r.t == m.t;
  }

  lemma SweepCapped(s: Coord, k: nat, now: int, after: set<int>, n: int, t: int, faulty: set<Id>)
    requires Capped(s, n, t, faulty) && !s.done && HonestInTime(s, now, faulty) && k <= |s.sessions| && n >= 0
    requires faulty <= Upto(n)
    ensures Capped(Sweep(s, k, now, after), n, t, faulty)
  {
    var inv := (i: nat, m: Coord) => CappedOn(s, m, i, now, n, t, faulty);
    forall i: nat, m: Coord | i < k && |m.sessions| == |s.sessions| && inv(i, m)
      ensures inv(i + 1, SweepSlot(m, i, now, i in after))
    {
      SlotCappedOn(s, m, i, now, i in after, n, t, faulty);
    }
    SweepInduct(inv, s, k, now, after);
  }

  /** A share makes at most the session it belongs to fail. */
  lemma ShareCount(s: Coord, id: Id, payload: Bytes, v: Verdict, now: int, assembled: bool)
    ensures FailedCount(OnShare(s, id, payload, v, now, assembled).sessions) <=
            FailedCount(s.sessions) + if Routable(s, id) then 1 else 0
  {
    if |payload| <= MAX_PAYLOAD && Routable(s, id) {
      var m, k := StoreShare(s, id, payload), FindSession(s.sessions, s.signers[IndexOf(s.signers, id)].sessionId);
      FailedUpdate(s.sessions, k, m.sessions[k]);
      AggregateCount(m, k, v, now, assembled);
    }
  }

  lemma AggregateCount(s: Coord, k: nat, v: Verdict, now: int, assembled: bool)
    requires k < |s.sessions|
    ensures FailedCount(Aggregate(s, k, v, now, assembled).sessions) <= FailedCount(s.sessions) + 1
  {
    FailedUpdate(s.sessions, k, s.sessions[k].(state := Failed));
    FailedUpdate(s.sessions, k, s.sessions[k].(state := Complete));
    if v.Culprit? {
      FormCount(DropCulprit(s, k, v.culprit), now, assembled);
    }
  }

  lemma CommitCount(s: Coord, e: Event)
    requires e.Commit?
    ensures FailedCount(Step(s, e).sessions) == FailedCount(s.sessions)
  {
    if CommitAccepted(s, e.id, e.payload, e.sig) {
      FormCount(StoreCommit(s, IndexOf(s.signers, e.id), e.payload, e.sig), e.now, e.assembled);
    }
  }

  lemma StepCapped(s: Coord, e: Event, n: int, t: int, faulty: set<Id>)
    requires Capped(s, n, t, faulty) && FaultStep(s, e, faulty) && n >= 0 && faulty <= Upto(n)
    requires Step(s, e).n == n && Step(s, e).t == t
    ensures Capped(Step(s, e), n, t, faulty)
  {
    EveryFailureIsPaid(s, e, faulty);
    assert Tally(Step(s, e), faulty);
    if e.Tick? && !s.done {
      SweepCapped(s, |s.sessions|, e.now, e.assembledAfter, n, t, faulty);
    } else if e.Share? {
      ShareCount(s, e.id, e.payload, e.verdict, e.now, e.assembled);
      if Routable(s, e.id) {
        BeforeFailure(s, FindSession(s.sessions, s.signers[IndexOf(s.signers, e.id)].sessionId), faulty);
      }
    } else if e.Commit? {
      CommitCount(s, e);
    } else if e.NextCert? && s.done && s.toMint > 0 {
      NoneFailed(Step(s, e).sessions);
    }
  }

  lemma StartFaultless(n: int, t: int, tbs: Bytes, serial: nat, toMint: nat, faulty: set<Id>)
    ensures FaultInv(Start(n, t, tbs, serial, toMint), faulty) &&
            FailedCount(Start(n, t, tbs, serial, toMint).sessions) == 0
  {
    var s := Start(n, t, tbs, serial, toMint);
    StartIsFine(n, t, tbs, serial, toMint);
    assert forall k :: !Active(s, k);
    NoneFailed(s.sessions);
  }

  lemma StartTally(n: int, t: int, tbs: Bytes, serial: nat, toMint: nat, faulty: set<Id>)
    ensures Tally(Start(n, t, tbs, serial, toMint), faulty) &&
            FailedCount(Start(n, t, tbs, serial, toMint).sessions) == 0
  {
    StartFaultless(n, t, tbs, serial, toMint, faulty);
    StartPotential(Start(n, t, tbs, serial, toMint), faulty);
  }

  lemma StartPotential(s: Coord, faulty: set<Id>)
    requires s.blacklist == [] && forall i :: 0 <= i < |s.strikes| ==> s.strikes[i] == 0
    ensures Potential(s, faulty) <= MAX_STRIKES * |faulty|
  {
    PotentialAtStart(s.strikes, faulty, |s.strikes|);
    CardMonotone(faulty * Upto(|s.strikes|), faulty);
  }

  /**
   f faulty signers out of n spoil at most f + (n - t + 1) sessions of a message, over every run of the fault model.
   */
  lemma {:induction false} CrowdBound(n: nat, t: int, tbs: Bytes, serial: nat, toMint: nat, es: seq<Event>,
                                      faulty: set<Id>)
    requires SizesOk(n, t) && faulty <= Upto(n) && FaultRun(Start(n, t, tbs, serial, toMint), es, faulty)
    ensures Capped(Run(Start(n, t, tbs, serial, toMint), es), n, t, faulty)
    ensures FailedCount(Run(Start(n, t, tbs, serial, toMint), es).sessions) <= |faulty| + (n - t + 1)
  {
    var s := Start(n, t, tbs, serial, toMint);
    if es == [] {
      StartTally(n, t, tbs, serial, toMint, faulty);
    } else {
      var init := es[..|es| - 1];
      FaultRunPrefix(s, es, faulty);
      CrowdBound(n, t, tbs, serial, toMint, init, faulty);
      StepSizes(Run(s, init), es[|es| - 1]);
      StepCapped(Run(s, init), es[|es| - 1], n, t, faulty);
    }
  }
}
