/**
 What prompt honest signers buy. While fewer than 64 sessions can fail, the coordinator is never
 idle: once t honest signers have answered, a session waits or the message is signed. With
 (f + 1) t <= n honest signers that have all answered mean a signature, so no session ever times
 out and each faulty signer can spoil one session only. The limit of 64 is real: sessions are not
 recycled within a message, and a full table of failures stays that way.
 */
module RoastProgress {
  import opened Octets
  import opened Bundles
  import opened Counting
  import opened Roast
  import opened RoastInvariant
  import opened RoastExclusion
  import opened RoastMinting
  import opened RoastCoherence
  import opened RoastTermination
  import opened RoastPrompt

  function Honest(n: nat, faulty: set<Id>): set<Id> {
    Upto(n) - faulty
  }

  lemma HonestCount(n: nat, faulty: set<Id>)
    ensures |Honest(n, faulty)| >= n - |faulty|
  {
    CardMonotone(Upto(n), Honest(n, faulty) + faulty);
    assert Honest(n, faulty) !! faulty;
  }

  // ---------------------------------------------------------------- the table

  lemma {:induction false} NoneFree(ss: seq<Session>)
    requires NoneComplete(ss) && forall i :: 0 <= i < |ss| ==> !ss[i].state.Empty?
    ensures FailedCount(ss) + ActiveCount(ss) == |ss|
  {
    if ss != [] {
      NoneFree(ss[..|ss| - 1]);
    }
  }

  lemma {:induction false} SomeActive(ss: seq<Session>)
    requires exists k :: 0 <= k < |ss| && ss[k].state.Awaiting?
    ensures ActiveCount(ss) >= 1
  {
    var k :| 0 <= k < |ss| && ss[k].state.Awaiting?;
    if k < |ss| - 1 {
      assert ss[..|ss| - 1][k].state.Awaiting?;
      SomeActive(ss[..|ss| - 1]);
    }
  }

  lemma {:induction false} NothingDue(s: Coord, k: nat, now: int, after: set<int>)
    requires k <= |s.sessions| && !Due(s, now)
    ensures Sweep(s, k, now, after) == s
  {
    if k != 0 {
      NothingDue(s, k - 1, now, after);
    }
  }

  // ---------------------------------------------------------------- where the honest signers are

  /** An honest signer that has answered offers its commitment or is in a waiting session. */
  lemma AnsweredOutside(s: Coord, n: int, t: int, faulty: set<Id>, id: Id)
    requires PromptInv(s, n, t, faulty) && id !in faulty && Answered(s, id) && id !in Taken(s.sessions)
    ensures id in Candidates(s)
  {
    TakenIs(s.sessions, id);
    if !(exists k :: ShareStored(s, k, id)) {
      var i :| 0 <= i < |s.signers| && CommitStored(s.signers[i], id);
      assert EligibleEither(s.signers[i], s.blacklist, s.strikes);
      assert Offers(s, id, s.signers[i].commit);
      CandidateOffers(s, id);
    }
  }

  lemma SilentUnanswered(s: Coord, n: int, t: int, faulty: set<Id>, k: nat, m: Id)
    requires PromptInv(s, n, t, faulty) && Active(s, k) && m in s.sessions[k].members && Silent(s.sessions[k], m)
    ensures !Answered(s, m)
  {
    forall j ensures !ShareStored(s, j, m) {
    }
    forall i | 0 <= i < |s.signers| ensures !CommitStored(s.signers[i], m) {
    }
  }

  /** While the honest signers have answered, whoever a session lacks is faulty. */
  lemma SilentIsFaulty(s: Coord, n: int, t: int, faulty: set<Id>, k: nat)
    requires PromptInv(s, n, t, faulty) && !s.done && HonestAnswered(s, faulty) && Active(s, k)
    ensures exists m :: m in s.sessions[k].members && m in faulty
  {
    ExpiredHasSilentMember(s, k);
    var m :| m in s.sessions[k].members && Silent(s.sessions[k], m);
    assert SessionOk(s.sessions[k], n, t);
    SilentUnanswered(s, n, t, faulty, k, m);
  }

  lemma MeetsBoth(x: set<Id>, a: set<Id>, b: set<Id>)
    requires a !! b
    ensures |x * (a + b)| == |x * a| + |x * b|
  {
    assert x * (a + b) == x * a + x * b;
  }

  predicate HoldsFaulty(sess: Session, n: int, t: int, faulty: set<Id>) {
    SessionOk(sess, n, t) && exists m :: m in sess.members && m in faulty
  }

  /** Sessions that each have a faulty member: how many there are, and how many honest signers they hold. */
  ghost predicate Holding(ss: seq<Session>, t: int, honest: set<Id>, faulty: set<Id>) {
    |honest * Taken(ss)| <= ActiveCount(ss) * (t - 1) && ActiveCount(ss) <= |faulty * Taken(ss)|
  }

  lemma HoldingOne(ss: seq<Session>, n: int, t: int, honest: set<Id>, faulty: set<Id>)
    requires ss != [] && honest !! faulty && SlotsApart(ss) && Holding(ss[..|ss| - 1], t, honest, faulty)
    requires ss[|ss| - 1].state.Awaiting? && HoldsFaulty(ss[|ss| - 1], n, t, faulty)
    ensures Holding(ss, t, honest, faulty)
  {
    var init, last := ss[..|ss| - 1], ss[|ss| - 1];
    LastApart(ss, init, last);
    OneMoreHeld(Taken(init), last, n, t, honest, faulty, Taken(ss));
    HeldStep(|honest * Taken(init)|, |honest * Taken(ss)|, ActiveCount(init), ActiveCount(ss), t);
  }

  lemma HoldingOn(ss: seq<Session>, t: int, honest: set<Id>, faulty: set<Id>)
    requires ss != [] && !ss[|ss| - 1].state.Awaiting? && Holding(ss[..|ss| - 1], t, honest, faulty)
    ensures Holding(ss, t, honest, faulty)
  {
    assert Taken(ss) == Taken(ss[..|ss| - 1]);
  }

  lemma {:induction false} HonestHeld(ss: seq<Session>, n: int, t: int, honest: set<Id>, faulty: set<Id>)
    requires honest !! faulty && SlotsApart(ss)
    requires forall k :: 0 <= k < |ss| && ss[k].state.Awaiting? ==> HoldsFaulty(ss[k], n, t, faulty)
    ensures Holding(ss, t, honest, faulty)
  {
    if ss != [] {
      HonestHeld(ss[..|ss| - 1], n, t, honest, faulty);
      if ss[|ss| - 1].state.Awaiting? {
        HoldingOne(ss, n, t, honest, faulty);
      } else {
        HoldingOn(ss, t, honest, faulty);
      }
    }
  }

  lemma OneMoreHeld(before: set<Id>, last: Session, n: int, t: int, honest: set<Id>, faulty: set<Id>, after: set<Id>)
    requires SessionOk(last, n, t) && honest !! faulty && (exists m :: m in last.members && m in faulty)
    requires (forall id :: id in before ==> id !in last.members) && after == before + (set id | id in last.members)
    ensures |honest * after| <= |honest * before| + (t - 1) && |faulty * after| >= |faulty * before| + 1
  {
    var mine := set id | id in last.members;
    OneHeld(last, n, t, honest, faulty, mine);
    MeetsBoth(honest, before, mine);
    MeetsBoth(faulty, before, mine);
  }

  lemma HeldStep(h: int, h2: int, a: nat, a2: nat, t: int)
    requires h <= a * (t - 1) && h2 <= h + (t - 1) && a2 == a + 1
    ensures h2 <= a2 * (t - 1)
  {
    assert a2 * (t - 1) == a * (t - 1) + (t - 1);
  }

  lemma OneHeld(sess: Session, n: int, t: int, honest: set<Id>, faulty: set<Id>, mine: set<Id>)
    requires SessionOk(sess, n, t) && honest !! faulty && mine == (set id | id in sess.members)
    requires exists m :: m in sess.members && m in faulty
    ensures |honest * mine| <= t - 1 && |faulty * mine| >= 1
  {
    var m :| m in sess.members && m in faulty;
    DistinctCard(sess.members);
    CardMonotone(honest * mine, mine - {m});
    CardMonotone({m}, faulty * mine);
  }

  // ---------------------------------------------------------------- never idle

  /**
   While fewer than 64 sessions can fail: whenever all honest signers have answered, and they are at
   least t, the message is signed or some session waits.
   */
  lemma NeverIdle(n: int, t: int, tbs: Bytes, serial: nat, toMint: nat, es: seq<Event>, faulty: set<Id>)
    requires SizesOk(n, t) && PromptRun(Start(n, t, tbs, serial, toMint), es, faulty)
    requires MAX_STRIKES * |faulty| < MAX_SESSIONS && |Honest(n, faulty)| >= t
    requires HonestAnswered(Run(Start(n, t, tbs, serial, toMint), es), faulty)
    ensures var s := Run(Start(n, t, tbs, serial, toMint), es); s.done || ActiveCount(s.sessions) >= 1
  {
    var s := Run(Start(n, t, tbs, serial, toMint), es);
    RunPrompt(n, t, tbs, serial, toMint, es, faulty);
    PromptIsFault(Start(n, t, tbs, serial, toMint), es, faulty);
    FailedInTable(n, t, tbs, serial, toMint, es, faulty);
    if exists k :: Active(s, k) {
      SomeActive(s.sessions);
    } else if !s.done {
      IdleMeansFull(s, n, t, faulty);
    }
  }

  /** Without a waiting session, t honest signers that have answered mean that the table is full of failures. */
  lemma IdleMeansFull(s: Coord, n: int, t: int, faulty: set<Id>)
    requires PromptInv(s, n, t, faulty) && !s.done && HonestAnswered(s, faulty) && |Honest(n, faulty)| >= t
    requires forall k :: !Active(s, k)
    ensures FailedCount(s.sessions) == MAX_SESSIONS
  {
    forall id | id in Honest(n, faulty) ensures id in Candidates(s) {
      IdleOffers(s, n, t, faulty, id);
    }
    CardMonotone(Honest(n, faulty), Candidates(s));
    assert FreeSlot(s.sessions) == |s.sessions|;
    forall k | 0 <= k < |s.sessions| ensures !s.sessions[k].state.Awaiting? {
      assert !Active(s, k);
    }
    NoActive(s.sessions);
    NoneFree(s.sessions);
  }

  lemma IdleOffers(s: Coord, n: int, t: int, faulty: set<Id>, id: Id)
    requires PromptInv(s, n, t, faulty) && HonestAnswered(s, faulty) && id in Honest(n, faulty)
    requires forall k :: !Active(s, k)
    ensures id in Candidates(s)
  {
    assert Answered(s, id);
    TakenIs(s.sessions, id);
    if id in Taken(s.sessions) {
      var k :| 0 <= k < |s.sessions| && s.sessions[k].state.Awaiting? && id in s.sessions[k].members;
      assert Active(s, k);
    }
    AnsweredOutside(s, n, t, faulty, id);
  }

  /** The failed sessions in the table all failed during the run. */
  lemma {:induction false} FailuresCoverTable(s: Coord, es: seq<Event>)
    ensures FailedCount(Run(s, es).sessions) <= FailedCount(s.sessions) + Failures(s, es)
  {
    if es != [] {
      FailuresCoverTable(s, es[..|es| - 1]);
    }
  }

  lemma FailedInTable(n: int, t: int, tbs: Bytes, serial: nat, toMint: nat, es: seq<Event>, faulty: set<Id>)
    requires FaultRun(Start(n, t, tbs, serial, toMint), es, faulty)
    ensures FailedCount(Run(Start(n, t, tbs, serial, toMint), es).sessions) <= MAX_STRIKES * |faulty|
  {
    var s0 := Start(n, t, tbs, serial, toMint);
    AtMostTwoFailuresPerFaultySigner(n, t, tbs, serial, toMint, es, faulty);
    FailuresCoverTable(s0, es);
    NoneFailed(s0.sessions);
  }

  // ---------------------------------------------------------------- few faults: no time-outs

  /** At most t - 1 honest signers that have answered are outside the waiting sessions. */
  lemma LeftOver(s: Coord, n: int, t: int, faulty: set<Id>)
    requires PromptInv(s, n, t, faulty) && !s.done && HonestAnswered(s, faulty) &&
             FailedCount(s.sessions) <= |s.blacklist|
    ensures |Honest(n, faulty) - Taken(s.sessions)| <= t - 1
  {
    var free := Honest(n, faulty) - Taken(s.sessions);
    if FreeSlot(s.sessions) < MAX_SESSIONS {
      forall id | id in free ensures id in Candidates(s) {
        assert Answered(s, id);
        AnsweredOutside(s, n, t, faulty, id);
      }
      CardMonotone(free, Candidates(s));
    } else {
      FullTable(s, n, t, faulty, free);
    }
  }

  /** Whom sessions wait for is a valid id and not blacklisted. */
  lemma TakenTrusted(s: Coord, faulty: set<Id>, id: Id)
    requires FaultInv(s, faulty) && id in Taken(s.sessions)
    ensures id in Upto(MAX_SIGNERS) && id !in s.blacklist
  {
    TakenIs(s.sessions, id);
    var k :| 0 <= k < |s.sessions| && s.sessions[k].state.Awaiting? && id in s.sessions[k].members;
    assert SessionOk(s.sessions[k], s.n, s.t) && WaitsFor(s, k, id);
  }

  lemma ThreeApart(a: set<Id>, b: set<Id>, c: set<Id>, all: set<Id>)
    requires a !! b && c !! a && c !! b && a + b + c <= all
    ensures |a| + |b| + |c| <= |all|
  {
    CardMonotone(a + b + c, all);
    assert |a + b| == |a| + |b| && |a + b + c| == |a + b| + |c|;
  }

  lemma FullTable(s: Coord, n: int, t: int, faulty: set<Id>, free: set<Id>)
    requires PromptInv(s, n, t, faulty) && !s.done && FailedCount(s.sessions) <= |s.blacklist|
    requires FreeSlot(s.sessions) == MAX_SESSIONS && free == Honest(n, faulty) - Taken(s.sessions)
    ensures |free| <= t - 1
  {
    var bl := set id | id in s.blacklist;
    NoneFree(s.sessions);
    DisjointApart(s);
    TakenCount(s.sessions, n, t);
    DistinctCard(s.blacklist);
    forall id | id in Taken(s.sessions) ensures id in Upto(MAX_SIGNERS) && id !in bl {
      TakenTrusted(s, faulty, id);
    }
    HonestTrusted(s, n, t, faulty, free, bl);
    ThreeApart(Taken(s.sessions), bl, free, Upto(MAX_SIGNERS));
    AtLeastOnce(ActiveCount(s.sessions), t);
  }

  lemma AtLeastOnce(a: nat, t: int)
    requires t >= 1
    ensures a * t >= a
  {
  }

  lemma HonestTrusted(s: Coord, n: int, t: int, faulty: set<Id>, free: set<Id>, bl: set<Id>)
    requires PromptInv(s, n, t, faulty) && free == Honest(n, faulty) - Taken(s.sessions) &&
             bl == set id | id in s.blacklist
    ensures free !! bl && free !! Taken(s.sessions) && free <= Upto(MAX_SIGNERS) && bl <= Upto(MAX_SIGNERS)
  {
  }

  lemma TooManyHonest(f: nat, a: nat, t: int, n: int, h: int)
    requires a <= f && t >= 1 && (f + 1) * t <= n && n - f <= h
    ensures h > a * (t - 1) + (t - 1)
  {
    assert a * (t - 1) <= f * (t - 1);
    assert (f + 1) * t == f * (t - 1) + f + t;
  }

  /** While the honest signers have answered, each waiting session lacks a faulty one, so there are few. */
  lemma FewSessions(s: Coord, n: int, t: int, faulty: set<Id>)
    requires PromptInv(s, n, t, faulty) && !s.done && HonestAnswered(s, faulty)
    ensures ActiveCount(s.sessions) <= |faulty|
    ensures |Honest(n, faulty) * Taken(s.sessions)| <= ActiveCount(s.sessions) * (t - 1)
  {
    forall k | 0 <= k < |s.sessions| && s.sessions[k].state.Awaiting?
      ensures HoldsFaulty(s.sessions[k], n, t, faulty)
    {
      SilentIsFaulty(s, n, t, faulty, k);
    }
    DisjointApart(s);
    HonestHeld(s.sessions, n, t, Honest(n, faulty), faulty);
    CardMonotone(faulty * Taken(s.sessions), faulty);
  }

  lemma Splits(a: set<Id>, b: set<Id>)
    ensures |a| == |a * b| + |a - b|
  {
    assert a == a * b + (a - b);
  }

  /** With (f + 1) t <= n, honest signers that have all answered mean that the message is signed. */
  lemma AnsweredStateSigned(s: Coord, n: int, t: int, faulty: set<Id>)
    requires PromptInv(s, n, t, faulty) && FailedCount(s.sessions) <= |s.blacklist| && (|faulty| + 1) * t <= n
    requires HonestAnswered(s, faulty)
    ensures s.done
  {
    if !s.done {
      var honest, taken := Honest(n, faulty), Taken(s.sessions);
      FewSessions(s, n, t, faulty);
      LeftOver(s, n, t, faulty);
      HonestCount(n, faulty);
      Splits(honest, taken);
      TooManyHonest(|faulty|, ActiveCount(s.sessions), t, n, |honest|);
    }
  }

  lemma ShareOnce(s: Coord, e: Event, faulty: set<Id>)
    requires e.Share? && FaultInv(s, faulty) && FairVerdict(s, e, faulty) && FailedCount(s.sessions) <= |s.blacklist|
    ensures FailedCount(Step(s, e).sessions) <= |Step(s, e).blacklist|
  {
    if |e.payload| <= MAX_PAYLOAD && Routable(s, e.id) {
      var m := StoreShare(s, e.id, e.payload);
      var k := FindSession(s.sessions, s.signers[IndexOf(s.signers, e.id)].sessionId);
      ShareFair(s, e.id, e.payload, faulty);
      AggregateOnce(m, k, e.verdict, e.now, e.assembled, faulty);
    }
  }

  lemma AggregateOnce(s: Coord, k: nat, v: Verdict, now: int, assembled: bool, faulty: set<Id>)
    requires StoredFair(s, k, faulty) && FailedCount(s.sessions) <= |s.blacklist|
    requires v.Good? || (v.Culprit? && v.culprit in faulty && v.culprit in s.sessions[k].members)
    ensures var r := Aggregate(s, k, v, now, assembled); FailedCount(r.sessions) <= |r.blacklist|
  {
    if s.sessions[k].nShares >= s.t && !s.done {
      assert SessionOk(s.sessions[k], s.n, s.t);
      if v.Culprit? {
        CulpritOnce(s, k, v.culprit, now, assembled, faulty);
      } else {
        FailedUpdate(s.sessions, k, s.sessions[k].(state := Complete));
      }
    }
  }

  lemma CulpritOnce(s: Coord, k: nat, c: Id, now: int, assembled: bool, faulty: set<Id>)
    requires SharesStored(s, k) && !s.done && Coherent(s) && Present(s) && HonestUnharmed(s, faulty)
    requires c in faulty && c in s.sessions[k].members && 1 <= c <= MAX_SIGNERS &&
             FailedCount(s.sessions) <= |s.blacklist|
    ensures var r := FailCulprit(s, k, c, now, assembled); FailedCount(r.sessions) <= |r.blacklist|
  {
    var m := DropCulprit(s, k, c);
    assert WaitsFor(s, k, c) && SessionOk(s.sessions[k], s.n, s.t);
    CulpritFault(s, k, c, faulty);
    AddBlacklistIs(s.blacklist, c);
    assert m.blacklist == s.blacklist + [c];
    FormFault(m, now, assembled, faulty);
  }

  lemma StepOnce(s: Coord, e: Event, n: int, t: int, faulty: set<Id>)
    requires PromptInv(s, n, t, faulty) && PromptStep(s, e, faulty) && (|faulty| + 1) * t <= n
    requires FailedCount(s.sessions) <= |s.blacklist|
    ensures FailedCount(Step(s, e).sessions) <= |Step(s, e).blacklist|
  {
    if e.Tick? && !s.done {
      if Due(s, e.now) {
        AnsweredStateSigned(s, n, t, faulty);
      }
      NothingDue(s, |s.sessions|, e.now, e.assembledAfter);
    } else if e.Share? {
      ShareOnce(s, e, faulty);
    } else if e.Commit? {
      CommitOnce(s, e, faulty);
    } else if e.NextCert? {
      NextCertFault(s, e.newTbs, faulty);
    }
  }

  lemma CommitOnce(s: Coord, e: Event, faulty: set<Id>)
    requires e.Commit? && FaultInv(s, faulty)
    ensures FailedCount(Step(s, e).sessions) == FailedCount(s.sessions) && Step(s, e).blacklist == s.blacklist
  {
    if CommitAccepted(s, e.id, e.payload, e.sig) {
      var m := StoreCommit(s, IndexOf(s.signers, e.id), e.payload, e.sig);
      var f, b := FreeSlot(m.sessions), BundleFor(m, Select(m));
      if Formable(m, e.assembled) {
        FailedUpdate(m.sessions, f, NewSession(m, Select(m), b, e.now));
      }
    }
  }

  lemma {:induction false} RunOnce(n: int, t: int, tbs: Bytes, serial: nat, toMint: nat, es: seq<Event>,
                                   faulty: set<Id>)
    requires SizesOk(n, t) && (|faulty| + 1) * t <= n && PromptRun(Start(n, t, tbs, serial, toMint), es, faulty)
    ensures var s := Run(Start(n, t, tbs, serial, toMint), es); FailedCount(s.sessions) <= |s.blacklist|
  {
    var s := Start(n, t, tbs, serial, toMint);
    if es == [] {
      NoneFailed(s.sessions);
    } else {
      PromptRunPrefix(s, es, faulty);
      RunOnce(n, t, tbs, serial, toMint, es[..|es| - 1], faulty);
      RunPrompt(n, t, tbs, serial, toMint, es[..|es| - 1], faulty);
      StepOnce(Run(s, es[..|es| - 1]), es[|es| - 1], n, t, faulty);
    }
  }

  /** With (f + 1) t <= n, over every prompt run: once all honest signers have answered, the message is signed. */
  lemma AnsweredMeansSigned(n: int, t: int, tbs: Bytes, serial: nat, toMint: nat, es: seq<Event>, faulty: set<Id>)
    requires SizesOk(n, t) && (|faulty| + 1) * t <= n && PromptRun(Start(n, t, tbs, serial, toMint), es, faulty)
    requires HonestAnswered(Run(Start(n, t, tbs, serial, toMint), es), faulty)
    ensures Run(Start(n, t, tbs, serial, toMint), es).done
  {
    RunOnce(n, t, tbs, serial, toMint, es, faulty);
    RunPrompt(n, t, tbs, serial, toMint, es, faulty);
    AnsweredStateSigned(Run(Start(n, t, tbs, serial, toMint), es), n, t, faulty);
  }

  /** With (f + 1) t <= n, at most one session fails per faulty signer, for each message. */
  lemma AtMostOneFailurePerFaultySigner(n: int, t: int, tbs: Bytes, serial: nat, toMint: nat, es: seq<Event>,
                                        faulty: set<Id>)
    requires SizesOk(n, t) && (|faulty| + 1) * t <= n && PromptRun(Start(n, t, tbs, serial, toMint), es, faulty)
    ensures FailedCount(Run(Start(n, t, tbs, serial, toMint), es).sessions) <= |faulty|
  {
    var s := Run(Start(n, t, tbs, serial, toMint), es);
    RunOnce(n, t, tbs, serial, toMint, es, faulty);
    RunPrompt(n, t, tbs, serial, toMint, es, faulty);
    DistinctCard(s.blacklist);
    CardMonotone((set id | id in s.blacklist), faulty);
  }

  // ---------------------------------------------------------------- the table runs out

  /** Every session of this message failed, and no slot is left. */
  predicate Exhausted(s: Coord) {
    !s.done && |s.sessions| == MAX_SESSIONS && forall k :: 0 <= k < |s.sessions| ==> s.sessions[k].state.Failed?
  }

  lemma ExhaustedStep(s: Coord, e: Event)
    requires Exhausted(s)
    ensures Exhausted(Step(s, e)) && Step(s, e).minted == s.minted && Step(s, e).roastFail == s.roastFail
  {
    if e.Tick? {
      assert !Due(s, e.now);
      NothingDue(s, |s.sessions|, e.now, e.assembledAfter);
    }
  }

  /** Then nothing is signed any more, whatever arrives, and the coordinator does not give up either. */
  lemma {:induction false} ExhaustedForever(s: Coord, es: seq<Event>)
    requires Exhausted(s)
    ensures Exhausted(Run(s, es)) && Run(s, es).minted == s.minted && Run(s, es).roastFail == s.roastFail
  {
    if es != [] {
      ExhaustedForever(s, es[..|es| - 1]);
      ExhaustedStep(Run(s, es[..|es| - 1]), es[|es| - 1]);
    }
  }

  /** Fewer than 32 faulty signers never exhaust the table. */
  lemma FewFaultsNeverExhaust(n: int, t: int, tbs: Bytes, serial: nat, toMint: nat, es: seq<Event>, faulty: set<Id>)
    requires FaultRun(Start(n, t, tbs, serial, toMint), es, faulty) && MAX_STRIKES * |faulty| < MAX_SESSIONS
    ensures !Exhausted(Run(Start(n, t, tbs, serial, toMint), es))
  {
    var s := Run(Start(n, t, tbs, serial, toMint), es);
    FailedInTable(n, t, tbs, serial, toMint, es, faulty);
    if Exhausted(s) {
      NoActive(s.sessions);
      NoneFree(s.sessions);
    }
  }
}
