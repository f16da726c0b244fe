/**
 One faulty signer with bad signatures under its commitments, and what it costs the others: a run in which
 signers 2..t are blacklisted although they did nothing but refuse bundles that do not verify.
 */
module RoastForgery {
  import opened Octets
  import opened Bundles
  import opened Counting
  import opened Roast
  import opened RoastInvariant
  import opened RoastMinting
  import opened RoastCoherence
  import opened RoastPrompt
  import opened RoastPaths
  import opened RoastScenes
  import opened RoastBatches
  import opened RoastRefusal
  import SM = SignerModel

  // ---------------------------------------------------------------- bundles name the members

  predicate NamesMembers(sess: Session) {
    |sess.pkg.entries| == |sess.members| && forall i :: 0 <= i < |sess.members| ==>
      sess.pkg.entries[i].id == sess.members[i]
  }

  /** The bundle of every session has one entry per member. */
  predicate PkgOk(s: Coord) {
    forall k :: 0 <= k < |s.sessions| && !s.sessions[k].state.Empty? ==> NamesMembers(s.sessions[k])
  }

  /** Used slots keep members and bundle, or hold a session whose bundle names its members. */
  predicate PkgKept(s: Coord, r: Coord) {
    && |r.sessions| == |s.sessions|
    && forall k :: 0 <= k < |r.sessions| && !r.sessions[k].state.Empty? ==>
         || NamesMembers(r.sessions[k])
         || (!s.sessions[k].state.Empty? && r.sessions[k].pkg == s.sessions[k].pkg &&
             r.sessions[k].members == s.sessions[k].members)
  }

  lemma PkgKeptOk(s: Coord, r: Coord)
    requires PkgOk(s) && PkgKept(s, r)
    ensures PkgOk(r)
  {
  }

  lemma FormPkg(s: Coord, now: int, assembled: bool)
    requires SignersOk(s)
    ensures PkgKept(s, MaybeForm(s, now, assembled))
  {
    var chosen := Select(s);
    SelectIs(s);
    forall i | 0 <= i < |chosen| ensures BundleFor(s, chosen).entries[i].id == chosen[i] {
      assert SelectableId(chosen[i], s);
    }
  }

  lemma PkgTrans(s: Coord, m: Coord, r: Coord)
    requires PkgKept(s, m) && PkgKept(m, r)
    ensures PkgKept(s, r)
  {
  }

  lemma CulpritPkg(s: Coord, k: nat, c: Id, now: int, assembled: bool)
    requires k < |s.sessions| && !s.sessions[k].state.Empty? && SignersOk(DropCulprit(s, k, c))
    ensures PkgKept(s, FailCulprit(s, k, c, now, assembled))
  {
    var m := DropCulprit(s, k, c);
    assert PkgKept(s, m);
    FormPkg(m, now, assembled);
    PkgTrans(s, m, MaybeForm(m, now, assembled));
  }

  lemma AggregatePkg(s: Coord, k: nat, v: Verdict, now: int, assembled: bool)
    requires SharesStored(s, k)
    ensures PkgKept(s, Aggregate(s, k, v, now, assembled))
  {
    if s.sessions[k].nShares >= s.t && !s.done {
      if v.Culprit? && 0 < v.culprit <= MAX_SIGNERS {
        DropCulpritKeeps(s, k, v.culprit);
        CulpritPkg(s, k, v.culprit, now, assembled);
      } else if v.Good? {
        SucceedPkg(s, k, v.mintOk);
      } else {
        UnknownPkg(s, k);
      }
    }
  }

  lemma SucceedPkg(s: Coord, k: nat, mintOk: bool)
    requires SharesStored(s, k)
    ensures PkgKept(s, Succeed(s, k, mintOk))
  {
  }

  lemma UnknownPkg(s: Coord, k: nat)
    requires SharesStored(s, k)
    ensures PkgKept(s, FailUnknown(s, k))
  {
  }

  lemma StoreSharePkg(s: Coord, id: Id, payload: Bytes)
    requires Routable(s, id)
    ensures PkgKept(s, StoreShare(s, id, payload))
  {
  }

  lemma SlotPkg(s: Coord, k: nat, now: int, assembled: bool)
    requires Inv(s) && k < |s.sessions|
    ensures PkgKept(s, SweepSlot(s, k, now, assembled))
  {
    if Expired(s.sessions[k], now) {
      ExpireKeeps(s, k);
      FormPkg(Expire(s, k), now, assembled);
    }
  }

  lemma {:induction false} SweepPkg(s: Coord, k: nat, now: int, after: set<int>)
    requires Inv(s) && PkgOk(s) && !s.done && k <= |s.sessions|
    ensures PkgOk(Sweep(s, k, now, after))
  {
    if k != 0 {
      var m := Sweep(s, k - 1, now, after);
      SweepPkg(s, k - 1, now, after);
      SweepKeeps(s, k - 1, now, after);
      SlotPkg(m, k - 1, now, k - 1 in after);
      PkgKeptOk(m, SweepSlot(m, k - 1, now, k - 1 in after));
    }
  }

  lemma SharePkg(s: Coord, e: Event)
    requires e.Share? && Inv(s) && PkgOk(s)
    ensures PkgOk(Step(s, e))
  {
    if |e.payload| <= MAX_PAYLOAD && Routable(s, e.id) {
      var m, k := StoreShare(s, e.id, e.payload), SlotFor(s, e.id);
      StoredPkg(s, e.id, e.payload);
      ActedPkg(m, k, e.verdict, e.now, e.assembled);
    }
  }

  lemma StoredPkg(s: Coord, id: Id, payload: Bytes)
    requires Inv(s) && PkgOk(s) && Routable(s, id)
    ensures SharesStored(StoreShare(s, id, payload), SlotFor(s, id)) && PkgOk(StoreShare(s, id, payload))
  {
    StoreShareKeeps(s, id, payload);
    StoreSharePkg(s, id, payload);
    PkgKeptOk(s, StoreShare(s, id, payload));
  }

  lemma ActedPkg(s: Coord, k: nat, v: Verdict, now: int, assembled: bool)
    requires SharesStored(s, k) && PkgOk(s)
    ensures PkgOk(Aggregate(s, k, v, now, assembled))
  {
    AggregatePkg(s, k, v, now, assembled);
    PkgKeptOk(s, Aggregate(s, k, v, now, assembled));
  }

  lemma CommitPkg(s: Coord, e: Event)
    requires e.Commit? && Inv(s) && PkgOk(s)
    ensures PkgOk(Step(s, e))
  {
    if CommitAccepted(s, e.id, e.payload, e.sig) {
      var m := StoreCommit(s, IndexOf(s.signers, e.id), e.payload, e.sig);
      StoreCommitKeeps(s, e.id, e.payload, e.sig);
      FormPkg(m, e.now, e.assembled);
      PkgKeptOk(m, MaybeForm(m, e.now, e.assembled));
    }
  }

  lemma StepPkg(s: Coord, e: Event)
    requires Inv(s) && PkgOk(s)
    ensures PkgOk(Step(s, e))
  {
    if e.Share? {
      SharePkg(s, e);
    } else if e.Commit? {
      CommitPkg(s, e);
    } else if e.Tick? && !s.done {
      SweepPkg(s, |s.sessions|, e.now, e.assembledAfter);
    }
  }

  lemma {:induction false} RunPkg(n: int, t: int, tbs: Bytes, serial: nat, toMint: nat, es: seq<Event>)
    ensures PkgOk(Run(Start(n, t, tbs, serial, toMint), es))
  {
    if es != [] {
      var s, init := Start(n, t, tbs, serial, toMint), es[..|es| - 1];
      RunPkg(n, t, tbs, serial, toMint, init);
      StartIsFine(n, t, tbs, serial, toMint);
      RunKeeps(s, init);
      StepPkg(Run(s, init), es[|es| - 1]);
    }
  }

  // ---------------------------------------------------------------- the signatures

  /** Signers 2..n sign their commitments; signer 1 does not. */
  function Vouched(p: Setting): SM.Signatures
    requires |p.tbs| < U16_LIMIT
  {
    set x | x in Upto(p.n) && x != 1 :: (x, SM.SignBuf(p.tbs, [7]), Zeros(SIG_SIZE))
  }

  ghost function DutyModel(p: Setting): Model
    requires |p.tbs| < U16_LIMIT
  {
    (s, e) => DutyStep(s, e, {1}, Vouched(p))
  }

  predicate ForgerySetting(p: Setting) {
    SettingOk(p) && p.faulty == {1} && p.t >= 2
  }

  /** A bundle with an entry of signer 1 is not genuine. */
  lemma NotGenuine(sess: Session, p: Setting)
    requires |p.tbs| < U16_LIMIT && NamesMembers(sess) && 1 in sess.members
    ensures !Genuine(sess, Vouched(p))
  {
    var i :| 0 <= i < |sess.members| && sess.members[i] == 1;
    assert sess.pkg.entries[i].id == 1;
    assert !SM.Authentic(sess.pkg.entries[i], sess.pkg.tbs, Vouched(p));
  }

  lemma ShortEnough(p: Setting)
    requires SettingOk(p)
    ensures |p.tbs| <= MAX_PAYLOAD < U16_LIMIT
  {
    assert p.t * (4 + 1 + SIG_SIZE) >= 0;
  }

  // ---------------------------------------------------------------- the run

  /** Some run in which signers 2..n do their duty leads from `s` to `r`. */
  ghost predicate Duties(s: Coord, r: Coord, p: Setting) {
    |p.tbs| < U16_LIMIT && LeadsIn(s, r, DutyModel(p))
  }

  lemma DutyOne(s: Coord, e: Event, p: Setting)
    requires |p.tbs| < U16_LIMIT && DutyStep(s, e, {1}, Vouched(p))
    ensures Duties(s, Step(s, e), p)
  {
    OneIn(s, e, DutyModel(p));
  }

  lemma DutyOn(s: Coord, m: Coord, r: Coord, p: Setting)
    requires Duties(s, m, p) && Duties(m, r, p)
    ensures Duties(s, r, p)
  {
    OnIn(s, m, r, DutyModel(p));
  }

  lemma DutyHello(s: Coord, p: Setting, id: Id)
    requires ForgerySetting(p) && Base(s, p) && 1 <= id <= p.n && !Connected(s.signers, id)
    ensures Duties(s, Register(s, id), p) && Base(Register(s, id), p)
  {
    ShortEnough(p);
    HelloIs(s, p, id);
    DutyOne(s, Hello(id, p.n, p.t, true), p);
  }

  lemma RegisteredNext(s: Coord, p: Setting, k: nat)
    requires Registered(s, p, k) && Base(Register(s, k + 1), p) && !Connected(s.signers, k + 1) && k + 1 !in s.blacklist
    ensures Registered(Register(s, k + 1), p, k + 1)
  {
    NewcomerGathers(s, k + 1, {});
    NewcomerAsked(s, k + 1, Upto(k));
    NextId(k);
    FreshJoins(s, k);
  }

  lemma DutyRegister(s: Coord, p: Setting, k: nat) returns (r: Coord)
    requires ForgerySetting(p) && Registered(s, p, k) && k < p.n
    ensures Duties(s, r, p) && Registered(r, p, k + 1)
  {
    NotYet(s, k);
    DutyHello(s, p, k + 1);
    RegisteredNext(s, p, k);
    r := Register(s, k + 1);
  }

  lemma {:induction false} DutyRegisterAll(p: Setting, k: nat) returns (s: Coord)
    requires ForgerySetting(p) && k <= p.n
    ensures Duties(Origin(p), s, p) && Registered(s, p, k)
  {
    ShortEnough(p);
    var s0 := Origin(p);
    if k == 0 {
      StartIsFine(p.n, p.t, p.tbs, p.serial, p.toMint);
      SelfIn(s0, DutyModel(p));
      assert s0.sessions[0].state.Empty?;
      s := s0;
    } else {
      var s1 := DutyRegisterAll(p, k - 1);
      s := DutyRegister(s1, p, k - 1);
      DutyOn(s0, s1, s, p);
    }
  }

  /** A commitment with the signature that honest signers put under it. */
  lemma DutyCommit(s: Coord, p: Setting, id: Id, now: int)
    requires ForgerySetting(p) && Base(s, p) && 1 <= id <= p.n && Connected(s.signers, id)
    requires CommitAccepted(s, id, [7], Zeros(SIG_SIZE))
    ensures Duties(s, MaybeForm(Stored(s, id), now, true), p)
  {
    ShortEnough(p);
    if id != 1 {
      assert id in Upto(p.n);
      assert (id, SM.SignBuf(p.tbs, [7]), Zeros(SIG_SIZE)) in Vouched(p);
    }
    DutyOne(s, Commitment(id, now), p);
  }

  lemma DutyCommitOne(s: Coord, p: Setting, done: set<Id>, id: Id, now: int) returns (m: Coord)
    requires ForgerySetting(p) && Base(s, p) && Gathered(s, done) && Asked(s, id) && 1 <= id <= p.n &&
             |done + {id}| < p.t
    ensures Duties(s, m, p) && Base(m, p) && Gathered(m, done + {id}) && SameBut(s, m, {id}) && m.sessions == s.sessions
  {
    StoredGathers(s, p, id, done);
    m := Stored(s, id);
    GatheredCandidates(m, done + {id});
    TooFewToForm(m, now, true);
    DutyCommit(s, p, id, now);
  }

  predicate AreIds(ids: set<Id>, n: int) {
    forall x :: x in ids ==> 1 <= x <= n
  }

  lemma {:induction false} DutyFill(s: Coord, p: Setting, pool: set<Id>, done: set<Id>, now: int) returns (m: Coord)
    requires ForgerySetting(p) && Base(s, p) && Gathered(s, done) && done <= pool && AreIds(pool, p.n) && |pool| < p.t
    requires AllAsked(s, pool - done)
    ensures Duties(s, m, p) && Base(m, p) && Gathered(m, pool) && SameBut(s, m, pool - done) && m.sessions == s.sessions
    decreases |pool| - |done|
  {
    if |done| == |pool| {
      ShortEnough(p);
      SubsetAll(done, pool);
      SelfIn(s, DutyModel(p));
      return s;
    }
    CardMonotone(done, pool);
    var x := Another(pool, done);
    CardMonotone(done + {x}, pool);
    var s1 := DutyCommitOne(s, p, done, x, now);
    StillAsked(s, s1, {x}, pool - done);
    m := DutyFill(s1, p, pool, done + {x}, now);
    DutyOn(s, s1, m, p);
    SameButTrans(s, s1, m, {x}, pool - (done + {x}));
    assert {x} + (pool - (done + {x})) == pool - done;
  }

  /** Signer 1 commits last, and the session of all that committed opens. */
  lemma DutyLast(s: Coord, p: Setting, pool: set<Id>, team: set<Id>, now: int) returns (m: Coord)
    requires ForgerySetting(p) && Base(s, p) && Gathered(s, pool) && Asked(s, 1) && FreeSlot(s.sessions) < MAX_SESSIONS
    requires team == pool + {1} && |team| == p.t
    ensures Duties(s, m, p) && Base(m, p) && Gathered(m, {}) && Opened(s, m, team, {}, now + SESSION_TIMEOUT)
  {
    StoredGathers(s, p, 1, pool);
    var c := Stored(s, 1);
    m := Forms(c, p, team, now);
    DutyCommit(s, p, 1, now);
    OpenedAfter(s, c, m, {1}, team, {}, now + SESSION_TIMEOUT);
  }

  lemma TeamOf(t: nat, pool: set<Id>)
    requires t >= 2 && pool == Upto(t) - {1}
    ensures pool + {1} == Upto(t) && |pool| == t - 1 && pool - {} == pool
  {
    assert 1 in Upto(t);
  }

  /** Signers 2..t commit, then signer 1; their session opens. */
  lemma DutyOpens(s: Coord, p: Setting, team: set<Id>, now: int) returns (m: Coord)
    requires ForgerySetting(p) && Base(s, p) && Gathered(s, {}) && AllAsked(s, team) &&
             FreeSlot(s.sessions) < MAX_SESSIONS
    requires 1 in team && |team| == p.t && AreIds(team, p.n)
    ensures Duties(s, m, p) && Base(m, p) && Gathered(m, {}) && Opened(s, m, team, {}, now + SESSION_TIMEOUT)
  {
    var pool := team - {1};
    assert pool + {1} == team && pool - {} == pool;
    var s1 := DutyFill(s, p, pool, {}, now);
    OneStillAsked(s, s1, pool, 1);
    m := DutyLast(s1, p, pool, team, now);
    DutyOn(s, s1, m, p);
    OpenedAfter(s, s1, m, pool, team, {}, now + SESSION_TIMEOUT);
  }

  /** Signer 1 sends a share, whatever it is; the others refuse the bundle. */
  lemma DutyShares(s: Coord, m: Coord, p: Setting, team: set<Id>, now: int) returns (r: Coord)
    requires ForgerySetting(p) && Base(m, p) && Gathered(m, {}) && Opened(s, m, team, {}, now + SESSION_TIMEOUT) &&
             1 in team
    ensures Duties(m, r, p) && Base(r, p) && Gathered(r, {}) && Opened(s, r, team, {1}, now + SESSION_TIMEOUT)
  {
    var k, d := FreeSlot(s.sessions), now + SESSION_TIMEOUT;
    ShortEnough(p);
    assert {} + {1} == {1};
    StoredShareSlot(m, p, k, team, {}, d, 1);
    StoredShareOpen(m, p, k, team, {}, d, 1);
    ShareGathers(m, 1, {});
    ShareIs(m, p, k, 1, now);
    DutyOne(m, ShareOf(1, now, Good(true)), p);
    r := StoreShare(m, 1, [9]);
    OpenedThenShared(s, m, r, team, {1}, d);
  }

  // ---------------------------------------------------------------- the time-out

  /** `a` sessions have failed, and each struck the team but for signer 1. */
  ghost predicate Facing(s: Coord, team: set<Id>, a: nat) {
    && FreeSlot(s.sessions) == a && (forall j :: 0 <= j < a ==> s.sessions[j].state.Failed?)
    && (forall x :: x in team && x != 1 ==> Strikes(s.strikes, x) == a) && s.blacklist == []
  }

  /** The session that opened last is the only one that waits, and only signer 1 has shared. */
  ghost predicate Pending(s: Coord, team: set<Id>, a: nat, deadline: int) {
    && Open(s, a, team, {1}, deadline) && FreeSlot(s.sessions) == a + 1
    && (forall j :: 0 <= j < a ==> s.sessions[j].state.Failed?)
    && (forall x :: x in team && x != 1 ==> Strikes(s.strikes, x) == a) && s.blacklist == []
  }

  lemma PendingFrom(s: Coord, r: Coord, team: set<Id>, a: nat, deadline: int)
    requires Facing(s, team, a) && Opened(s, r, team, {1}, deadline)
    ensures Pending(r, team, a, deadline)
  {
  }

  lemma OnlyOneDue(s: Coord, team: set<Id>, a: nat, deadline: int, k: nat, now: int)
    requires SessionsOk(s) && Pending(s, team, a, deadline) && k < |s.sessions| && k != a
    ensures !Expired(s.sessions[k], now)
  {
  }

  lemma ForgedTick(s: Coord, p: Setting, team: set<Id>, a: nat, deadline: int)
    requires ForgerySetting(p) && Base(s, p) && PkgOk(s) && Pending(s, team, a, deadline) && 1 in team
    ensures Duties(s, Step(s, Tick(deadline, AllSlots())), p)
  {
    ShortEnough(p);
    assert 1 in MembersOf(s, a);
    NotGenuine(s.sessions[a], p);
    forall k | 0 <= k < |s.sessions| && Expired(s.sessions[k], deadline) ensures !Genuine(s.sessions[k], Vouched(p)) {
      if k != a {
        OnlyOneDue(s, team, a, deadline, k, deadline);
      }
    }
    DutyOne(s, Tick(deadline, AllSlots()), p);
  }

  lemma TeamIsSession(s: Coord, team: set<Id>, a: nat, deadline: int, x: Id)
    requires Pending(s, team, a, deadline)
    ensures x in team <==> x in s.sessions[a].members
    ensures x in team ==> Connected(s.signers, x) && (Cooperated(s.sessions[a], x) <==> x == 1)
  {
    assert x in MembersOf(s, a) <==> x in s.sessions[a].members;
  }

  /** The others are struck. */
  lemma ForgedStrike(s: Coord, p: Setting, team: set<Id>, a: nat, deadline: int, x: Id)
    requires Base(s, p) && Pending(s, team, a, deadline) && x in team && x != 1
    ensures Strikes(Expire(s, a).strikes, x) == a + 1 && StruckOutIn(s, a, x) == (a + 1 >= MAX_STRIKES)
  {
    TeamIsSession(s, team, a, deadline, x);
    assert SessionOk(s.sessions[a], s.n, s.t);
    assert Silent(s.sessions[a], x);
  }

  predicate StruckOutIn(s: Coord, k: nat, x: Id)
    requires k < |s.sessions|
  {
    StruckOut(s.sessions[k], s.signers, Expire(s, k).strikes, x)
  }

  /** The second time they are blacklisted. */
  lemma ForgedBlacklist(s: Coord, p: Setting, team: set<Id>, a: nat, deadline: int, x: Id)
    requires Base(s, p) && Pending(s, team, a, deadline)
    ensures x in Expire(s, a).blacklist <==> x in team && x != 1 && a + 1 >= MAX_STRIKES
  {
    TeamIsSession(s, team, a, deadline, x);
    assert SessionOk(s.sessions[a], s.n, s.t);
    BlacklistStruckOutIs(s.blacklist, s.sessions[a].members, s.sessions[a], s.signers, Expire(s, a).strikes);
    if x in team && x != 1 {
      ForgedStrike(s, p, team, a, deadline, x);
    }
  }

  lemma NothingIn(xs: seq<Id>)
    requires xs == [] || xs[0] !in xs
    ensures xs == []
  {
  }

  lemma ForgedGathers(s: Coord, k: nat)
    requires Inv(s) && Gathered(s, {}) && Active(s, k)
    ensures Gathered(Expire(s, k), {})
  {
    var r := Expire(s, k);
    ExpireShrinks(s, k);
    ShrinkSubset(s, r);
    GatheredCandidates(s, {});
    forall x ensures !SelectableId(x, r) {
      CandidateOffers(r, x);
    }
  }

  /** The sweep retires that session and nothing else. */
  lemma ForgedSweep(s: Coord, p: Setting, team: set<Id>, a: nat, deadline: int)
    requires Base(s, p) && Gathered(s, {}) && Pending(s, team, a, deadline)
    ensures Step(s, Tick(deadline, AllSlots())) == Expire(s, a) && Base(Expire(s, a), p) && Gathered(Expire(s, a), {})
  {
    var m := Expire(s, a);
    ExpireKeeps(s, a);
    ForgedGathers(s, a);
    GatheredCandidates(m, {});
    TooFewToForm(m, deadline, true);
    forall j | 0 <= j < |s.sessions| && j != a
      ensures !Expired(s.sessions[j], deadline) && m.sessions[j] == s.sessions[j] {
      OnlyOneDue(s, team, a, deadline, j, deadline);
    }
    OneSlotSweep(s, m, a, deadline, AllSlots());
  }

  lemma FacingNext(s: Coord, p: Setting, team: set<Id>, deadline: int)
    requires Base(s, p) && Pending(s, team, 0, deadline) && 1 in team
    ensures Facing(Expire(s, 0), team, 1) && AllAsked(Expire(s, 0), team)
  {
    var m := Expire(s, 0);
    CloseSlot(s.sessions, 0, m.sessions[0]);
    forall x | x in team && x != 1 ensures Strikes(m.strikes, x) == 1 {
      ForgedStrike(s, p, team, 0, deadline, x);
    }
    forall x ensures x !in m.blacklist {
      ForgedBlacklist(s, p, team, 0, deadline, x);
    }
    NothingIn(m.blacklist);
    forall x | x in team ensures Asked(m, x) {
      TeamIsSession(s, team, 0, deadline, x);
      MemberAsked(s, 0, x);
    }
  }

  // ---------------------------------------------------------------- two sessions

  lemma DutyPkg(s: Coord, p: Setting)
    requires Duties(Origin(p), s, p)
    ensures PkgOk(s)
  {
    var es := IsRunIn(Origin(p), s, DutyModel(p));
    RunPkg(p.n, p.t, p.tbs, p.serial, p.toMint, es);
  }

  /** A session of the team opens, and signer 1 alone shares. */
  lemma ForgedSession(s: Coord, p: Setting, team: set<Id>, a: nat, now: int) returns (r: Coord)
    requires ForgerySetting(p) && Duties(Origin(p), s, p) && Base(s, p) && Gathered(s, {}) && AllAsked(s, team) &&
             Facing(s, team, a)
    requires 1 in team && |team| == p.t && AreIds(team, p.n) && a < MAX_SESSIONS
    ensures Duties(Origin(p), r, p) && Base(r, p) && Gathered(r, {}) && Pending(r, team, a, now + SESSION_TIMEOUT)
  {
    var m := DutyOpens(s, p, team, now);
    r := DutyShares(s, m, p, team, now);
    DutyOn(Origin(p), s, m, p);
    DutyOn(Origin(p), m, r, p);
    PendingFrom(s, r, team, a, now + SESSION_TIMEOUT);
  }

  lemma ForgedTimesOut(s: Coord, p: Setting, team: set<Id>, a: nat, deadline: int) returns (r: Coord)
    requires ForgerySetting(p) && Duties(Origin(p), s, p) && Base(s, p) && Gathered(s, {}) &&
             Pending(s, team, a, deadline)
    requires 1 in team
    ensures r == Expire(s, a) && Duties(Origin(p), r, p) && Base(r, p) && Gathered(r, {})
  {
    DutyPkg(s, p);
    ForgedTick(s, p, team, a, deadline);
    ForgedSweep(s, p, team, a, deadline);
    r := Expire(s, a);
    DutyOn(Origin(p), s, r, p);
  }

  lemma FreshFacing(s: Coord, n: nat, team: set<Id>)
    requires Fresh(s, n)
    ensures Facing(s, team, 0)
  {
  }

  lemma FewerAsked(s: Coord, n: nat, t: nat)
    requires AllAsked(s, Upto(n)) && t <= n
    ensures AllAsked(s, Upto(t))
  {
    forall x | x in Upto(t) ensures Asked(s, x) {
      assert x in Upto(n);
    }
  }

  /** All have registered. */
  lemma ForgeryBegins(p: Setting) returns (s: Coord)
    requires ForgerySetting(p)
    ensures Duties(Origin(p), s, p) && Base(s, p) && Gathered(s, {}) && AllAsked(s, Upto(p.t)) &&
            Facing(s, Upto(p.t), 0)
  {
    s := DutyRegisterAll(p, p.n);
    FreshFacing(s, p.n, Upto(p.t));
    FewerAsked(s, p.n, p.t);
  }

  lemma FirstForgery(s: Coord, p: Setting, team: set<Id>) returns (r: Coord)
    requires ForgerySetting(p) && Duties(Origin(p), s, p) && Base(s, p) && Gathered(s, {}) && AllAsked(s, team) &&
             Facing(s, team, 0)
    requires 1 in team && |team| == p.t && AreIds(team, p.n)
    ensures Duties(Origin(p), r, p) && Base(r, p) && Gathered(r, {}) && AllAsked(r, team) && Facing(r, team, 1)
  {
    var m := ForgedSession(s, p, team, 0, 0);
    r := ForgedTimesOut(m, p, team, 0, SESSION_TIMEOUT);
    FacingNext(m, p, team, SESSION_TIMEOUT);
  }

  lemma SecondForgery(s: Coord, p: Setting, team: set<Id>) returns (r: Coord)
    requires ForgerySetting(p) && Duties(Origin(p), s, p) && Base(s, p) && Gathered(s, {}) && AllAsked(s, team) &&
             Facing(s, team, 1)
    requires 1 in team && |team| == p.t && AreIds(team, p.n)
    ensures Duties(Origin(p), r, p) && forall x :: x in r.blacklist <==> x in team && x != 1
  {
    var m := ForgedSession(s, p, team, 1, SESSION_TIMEOUT);
    r := ForgedTimesOut(m, p, team, 1, 2 * SESSION_TIMEOUT);
    forall x ensures x in r.blacklist <==> x in team && x != 1 {
      ForgedBlacklist(m, p, team, 1, 2 * SESSION_TIMEOUT, x);
    }
  }

  lemma TwoForgeries(p: Setting) returns (s: Coord)
    requires ForgerySetting(p)
    ensures Duties(Origin(p), s, p) && forall x :: x in s.blacklist <==> 2 <= x <= p.t
  {
    var team := Upto(p.t);
    assert 1 in team && |team| == p.t && AreIds(team, p.n);
    var s0 := ForgeryBegins(p);
    var s1 := FirstForgery(s0, p, team);
    s := SecondForgery(s1, p, team);
  }

  /**
   For every n and t >= 2: a run in which only signer 1 is faulty, signing its commitments badly, and all others
   do their duty; it ends with exactly the honest signers 2..t blacklisted.
   */
  lemma BadSignaturesBlacklistHonest(n: nat, t: int, tbs: Bytes, serial: nat, toMint: nat)
      returns (es: seq<Event>, valid: SM.Signatures)
    requires 2 <= t && SizesOk(n, t) && Fits(t, 1, |tbs|)
    ensures DutyRun(Start(n, t, tbs, serial, toMint), es, {1}, valid)
    ensures forall x :: x in Run(Start(n, t, tbs, serial, toMint), es).blacklist <==> 2 <= x <= t
  {
    var p := Setting(n, t, tbs, serial, toMint, {1});
    ShortEnough(p);
    valid := Vouched(p);
    var s := TwoForgeries(p);
    es := IsRunIn(Origin(p), s, DutyModel(p));
    forall i | 0 <= i < |es| ensures DutyStep(Run(Origin(p), es[..i]), es[i], {1}, valid) {
      assert DutyModel(p)(Run(Origin(p), es[..i]), es[i]);
    }
  }
}
