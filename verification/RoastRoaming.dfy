/**
 Faulty signers that leave a session which waits for them, and come back. Only connected members are
 struck when a session times out, so one such signer, the rover, spoils every session of the table and
 keeps a clean record: it joins t - 1 honest signers, leaves before the time-out, comes back and
 joins the next ones. Hence in this model the documented bound holds if and only if nobody is faulty.
 */
module RoastRoaming {
  import opened Octets
  import opened Counting
  import opened Roast
  import opened RoastInvariant
  import opened RoastExclusion
  import opened RoastTermination
  import opened RoastPrompt
  import opened RoastPaths
  import opened RoastProgress
  import opened RoastScenes
  import opened RoastIncoherence
  import opened RoastBatches
  import opened RoastTightness

  // ---------------------------------------------------------------- the model

  /** As with prompt honest signers, but the faulty ones may leave whenever they like. */
  ghost predicate RoamStep(s: Coord, e: Event, faulty: set<Id>) {
    PromptStep(s, e, faulty) || (e.Disconnect? && e.id in faulty)
  }

  ghost predicate RoamRun(s: Coord, es: seq<Event>, faulty: set<Id>) {
    forall i :: 0 <= i < |es| ==> RoamStep(Run(s, es[..i]), es[i], faulty)
  }

  /** What a few faulty signers can do, more can do. */
  lemma MoreRoam(s: Coord, es: seq<Event>, some: set<Id>, more: set<Id>)
    requires RoamRun(s, es, some) && some <= more
    ensures RoamRun(s, es, more)
  {
    forall i | 0 <= i < |es| ensures RoamStep(Run(s, es[..i]), es[i], more) {
      MoreRoamStep(Run(s, es[..i]), es[i], some, more);
    }
  }

  lemma MoreRoamStep(s: Coord, e: Event, some: set<Id>, more: set<Id>)
    requires RoamStep(s, e, some) && some <= more
    ensures RoamStep(s, e, more)
  {
    if PromptStep(s, e, some) {
      assert e.Share? ==> FairVerdict(s, e, more);
    }
  }

  /** Without faulty signers it is the model of prompt ones. */
  lemma NobodyRoams(s: Coord, es: seq<Event>)
    requires RoamRun(s, es, {})
    ensures PromptRun(s, es, {})
  {
  }

  // ---------------------------------------------------------------- runs as a relation

  ghost function RoamModel(faulty: set<Id>): Model {
    (s, e) => RoamStep(s, e, faulty)
  }

  ghost predicate Roams(s: Coord, r: Coord, faulty: set<Id>) {
    LeadsIn(s, r, RoamModel(faulty))
  }

  lemma LeadsRoams(s: Coord, r: Coord, faulty: set<Id>)
    requires Leads(s, r, faulty)
    ensures Roams(s, r, faulty)
  {
    WiderIn(s, r, PromptModel(faulty), RoamModel(faulty));
  }

  lemma RoamsOne(s: Coord, e: Event, faulty: set<Id>)
    requires RoamStep(s, e, faulty)
    ensures Roams(s, Step(s, e), faulty)
  {
    OneIn(s, e, RoamModel(faulty));
  }

  lemma RoamsOn(s: Coord, m: Coord, r: Coord, faulty: set<Id>)
    requires Roams(s, m, faulty) && Roams(m, r, faulty)
    ensures Roams(s, r, faulty)
  {
    OnIn(s, m, r, RoamModel(faulty));
  }

  lemma RoamsIsRun(s: Coord, r: Coord, faulty: set<Id>) returns (es: seq<Event>)
    requires Roams(s, r, faulty)
    ensures Run(s, es) == r && RoamRun(s, es, faulty)
  {
    es := IsRunIn(s, r, RoamModel(faulty));
    forall i | 0 <= i < |es| ensures RoamStep(Run(s, es[..i]), es[i], faulty) {
      assert RoamModel(faulty)(Run(s, es[..i]), es[i]);
    }
  }

  // ---------------------------------------------------------------- the stage

  /** Nobody was struck or blacklisted. */
  predicate Unmarked(s: Coord) {
    s.blacklist == [] && forall i :: 0 <= i < |s.strikes| ==> s.strikes[i] == 0
  }

  /** This session waits for the rover alone. */
  ghost predicate Lacks(sess: Session, p: Setting, rover: Id, deadline: int) {
    && sess.state.Awaiting? && sess.deadline == deadline && rover in sess.members
    && forall x :: x in sess.members ==> if x == rover then !Cooperated(sess, x)
                                         else Cooperated(sess, x) && x in Honest(p.n, p.faulty)
  }

  ghost predicate RoamTable(s: Coord, p: Setting, rover: Id, a: nat, r: nat, deadline: int) {
    && a <= r == FreeSlot(s.sessions)
    && (forall j :: 0 <= j < a ==> s.sessions[j].state.Failed?)
    && (forall j :: a <= j < r ==> Lacks(s.sessions[j], p, rover, deadline))
  }

  /** No honest signer is in two waiting sessions. */
  ghost predicate HonestApart(s: Coord, p: Setting, a: nat, r: nat) {
    forall i, j, x :: a <= i < j < r && HeldAt(s, i, x) && x in Honest(p.n, p.faulty) ==> !HeldAt(s, j, x)
  }

  ghost predicate AllHere(s: Coord, ids: set<Id>) {
    forall x :: x in ids ==> Connected(s.signers, x)
  }

  /** The rover is away; the slots from `a` to `r` wait for it. */
  ghost predicate Roving(s: Coord, p: Setting, rover: Id, a: nat, r: nat, pool: set<Id>, done: set<Id>, deadline: int) {
    && p.faulty == {rover} && 1 <= rover <= p.n && Unmarked(s)
    && !Connected(s.signers, rover) && AllHere(s, Honest(p.n, p.faulty))
    && RoamTable(s, p, rover, a, r, deadline) && HonestApart(s, p, a, r) && HonestPlaced(s, p, a, r, pool, done)
  }

  // ---------------------------------------------------------------- one more session

  lemma HereAfter(s: Coord, s1: Coord, m: Coord, q: Coord, rover: Id, touched: set<Id>, ids: set<Id>)
    requires AllHere(s, ids) && rover !in ids && s1 == Register(s, rover) && SameBut(s1, m, touched)
    requires q == OnDisconnect(m, rover)
    ensures AllHere(q, ids)
  {
    forall x | x in ids ensures Connected(q.signers, x) {
      var i :| 0 <= i < |s.signers| && s.signers[i].id == x;
      assert m.signers[i + 1].id == s1.signers[i + 1].id == x;
      QuitKeepsOthers(m, rover, i + 1);
    }
  }

  lemma QuitKeepsOthers(m: Coord, rover: Id, i: nat)
    requires i < |m.signers| && m.signers[i].id != rover
    ensures Connected(OnDisconnect(m, rover).signers, m.signers[i].id)
  {
    var q, k := OnDisconnect(m, rover), IndexOf(m.signers, rover);
    if k < |m.signers| {
      var j := if i < k then i else i - 1;
      assert q.signers[j] == m.signers[i];
    } else {
      assert q.signers[i] == m.signers[i];
    }
  }

  lemma NewlyLacking(m: Coord, p: Setting, rover: Id, k: nat, helpers: set<Id>, deadline: int)
    requires Open(m, k, helpers + {rover}, helpers, deadline) && rover !in helpers && helpers <= Honest(p.n, p.faulty)
    ensures Lacks(m.sessions[k], p, rover, deadline)
    ensures forall x :: HeldAt(m, k, x) <==> x in helpers || x == rover
  {
    forall x ensures x in m.sessions[k].members <==> x in helpers + {rover} {
      assert x in m.sessions[k].members <==> x in MembersOf(m, k);
    }
    assert rover in helpers + {rover};
  }

  /** The table and the honest signers after one more session opened in slot `r`. */
  lemma MoreWaiting(s: Coord, q: Coord, p: Setting, rover: Id, a: nat, r: nat, pool: set<Id>, helpers: set<Id>,
                    deadline: int)
    requires RoamTable(s, p, rover, a, r, deadline) && HonestApart(s, p, a, r) && rover !in Honest(p.n, p.faulty)
    requires helpers <= pool <= Honest(p.n, p.faulty) && forall j, x :: a <= j < r && HeldAt(s, j, x) ==> x !in pool
    requires FreeSlot(q.sessions) == r + 1 <= |q.sessions| == |s.sessions| && Lacks(q.sessions[r], p, rover, deadline)
    requires forall j :: 0 <= j < |s.sessions| && j != r ==> q.sessions[j] == s.sessions[j]
    requires forall x :: HeldAt(q, r, x) <==> x in helpers || x == rover
    ensures RoamTable(q, p, rover, a, r + 1, deadline) && HonestApart(q, p, a, r + 1)
    ensures forall j, x :: a <= j <= r ==>
      (HeldAt(q, j, x) <==> if j < r then HeldAt(s, j, x) else x in helpers || x == rover)
  {
    forall i, j, x | a <= i < j < r + 1 && HeldAt(q, i, x) && x in Honest(p.n, p.faulty) ensures !HeldAt(q, j, x) {
      assert HeldAt(s, i, x);
      if j < r {
        assert !HeldAt(s, j, x);
      }
    }
  }

  /** The honest signers that are not in the new session are where they were. */
  lemma MorePlaced(s: Coord, s1: Coord, m: Coord, q: Coord, p: Setting, rover: Id, a: nat, r: nat, pool: set<Id>,
                   done: set<Id>, helpers: set<Id>)
    requires HonestPlaced(s, p, a, r, pool, done) && a <= r && done <= helpers <= pool && rover !in pool
    requires AllAsked(s1, pool - done) && SameBut(s1, m, helpers + {rover}) && q == OnDisconnect(m, rover) &&
             Gathered(q, {})
    requires forall j, x :: a <= j <= r ==>
      (HeldAt(q, j, x) <==> if j < r then HeldAt(s, j, x) else x in helpers || x == rover)
    ensures HonestPlaced(q, p, a, r + 1, pool - helpers, {})
  {
    StillAsked(s1, m, helpers + {rover}, pool - done);
    assert pool - helpers - {} == (pool - done) - (helpers + {rover});
    QuitAsked(m, rover, pool - helpers);
    forall x | x in Honest(p.n, p.faulty) && x !in pool - helpers ensures Held(q, a, r + 1, x) {
      if x in helpers {
        assert HeldAt(q, r, x);
      } else {
        assert Held(s, a, r, x);
        var j :| a <= j < r && HeldAt(s, j, x);
        assert HeldAt(q, j, x);
      }
    }
  }

  /** The rover comes back: it is asked, and so is everyone who was. */
  lemma Returns(s: Coord, p: Setting, rover: Id, pool: set<Id>, done: set<Id>) returns (s1: Coord)
    requires Base(s, p) && Unmarked(s) && 1 <= rover <= p.n && !Connected(s.signers, rover) && rover !in pool &&
             done <= pool
    requires Gathered(s, done) && AllAsked(s, pool - done)
    ensures s1 == Register(s, rover) && Roams(s, s1, p.faulty) && Base(s1, p) && Gathered(s1, done)
    ensures AllAsked(s1, pool - done) && Asked(s1, rover)
  {
    s1 := Joins(s, p, rover, done, pool - done);
    LeadsRoams(s, s1, p.faulty);
    assert rover in (pool - done) + {rover};
  }

  /** It leaves again while its session waits. */
  lemma Leaves(m: Coord, p: Setting, rover: Id) returns (q: Coord)
    requires Base(m, p) && rover in p.faulty && Gathered(m, {})
    ensures q == OnDisconnect(m, rover) && Roams(m, q, p.faulty) && Base(q, p) && Gathered(q, {})
    ensures !Connected(q.signers, rover)
  {
    q := OnDisconnect(m, rover);
    RoamsOne(m, Disconnect(rover), p.faulty);
    QuitBase(m, p, rover);
    QuitGathered(m, rover);
    QuitGone(m, rover);
  }

  /** Back, one more session with t - 1 honest signers of `pool`, and gone again. */
  lemma SpoilNext(s: Coord, p: Setting, rover: Id, a: nat, r: nat, pool: set<Id>, done: set<Id>, deadline: int)
      returns (q: Coord, left: set<Id>)
    requires Base(s, p) && Roving(s, p, rover, a, r, pool, done, deadline) && r < MAX_SESSIONS
    requires |done| < p.t && p.t - 1 <= |pool|
    ensures Roams(s, q, p.faulty) && Base(q, p) && Roving(q, p, rover, a, r + 1, left, {}, deadline)
  {
    var s1 := Returns(s, p, rover, pool, done);
    var m, helpers := OpenAndShare(s1, p, pool, done, rover, deadline - SESSION_TIMEOUT);
    LeadsRoams(s1, m, p.faulty);
    q := Leaves(m, p, rover);
    left := pool - helpers;
    RoamsOn(s, s1, m, p.faulty);
    RoamsOn(s, m, q, p.faulty);
    NewlyLacking(m, p, rover, r, helpers, deadline);
    MoreWaiting(s, q, p, rover, a, r, pool, helpers, deadline);
    MorePlaced(s, s1, m, q, p, rover, a, r, pool, done, helpers);
    HereAfter(s, s1, m, q, rover, helpers + {rover}, Honest(p.n, p.faulty));
  }

  // ---------------------------------------------------------------- the others commit

  /** Too few commitments, or no slot. */
  predicate Stuck(s: Coord, t: int, done: set<Id>) {
    |done| < t || FreeSlot(s.sessions) == MAX_SESSIONS
  }

  lemma StuckForms(m: Coord, done: set<Id>, now: int)
    requires SignersOk(m) && m.t >= 0 && Gathered(m, done) && |m.sessions| == MAX_SESSIONS && Stuck(m, m.t, done)
    ensures MaybeForm(m, now, true) == m
  {
    if |done| < m.t {
      GatheredCandidates(m, done);
      TooFewToForm(m, now, true);
    } else {
      assert !Formable(m, true);
    }
  }

  lemma CommitStuck(s: Coord, p: Setting, done: set<Id>, id: Id, now: int) returns (m: Coord)
    requires Base(s, p) && Gathered(s, done) && Asked(s, id) && Stuck(s, p.t, done + {id})
    ensures Leads(s, m, p.faulty)
    ensures Base(m, p) && Gathered(m, done + {id}) && SameBut(s, m, {id}) && m.sessions == s.sessions
  {
    StoredGathers(s, p, id, done);
    m := Stored(s, id);
    StuckForms(m, done + {id}, now);
    CommitIs(s, p, id, now);
  }

  lemma StuckSmaller(s: Coord, t: int, done: set<Id>, pool: set<Id>)
    requires Stuck(s, t, pool) && done <= pool
    ensures Stuck(s, t, done)
  {
    CardMonotone(done, pool);
  }

  lemma {:induction false} CommitAll(s: Coord, p: Setting, pool: set<Id>, done: set<Id>, now: int) returns (m: Coord)
    requires Base(s, p) && Gathered(s, done) && done <= pool && AllAsked(s, pool - done) && Stuck(s, p.t, pool)
    ensures Leads(s, m, p.faulty) && Base(m, p) && Gathered(m, pool) && SameBut(s, m, pool - done) &&
            m.sessions == s.sessions
    decreases |pool - done|
  {
    if done == pool {
      LeadsSelf(s, p.faulty);
      return s;
    }
    ProperSubset(done, pool);
    var x := Another(pool, done);
    StuckSmaller(s, p.t, done + {x}, pool);
    var s1 := CommitStuck(s, p, done, x, now);
    StillAsked(s, s1, {x}, pool - done);
    m := CommitAll(s1, p, pool, done + {x}, now);
    LeadsOn(s, s1, m, p.faulty);
    SameButTrans(s, s1, m, {x}, pool - (done + {x}));
    assert {x} + (pool - (done + {x})) == pool - done;
  }

  lemma ProperSubset(a: set<Id>, b: set<Id>)
    requires a <= b && a != b
    ensures |a| < |b|
  {
    CardMonotone(a, b);
    if |a| == |b| {
      SubsetAll(a, b);
    }
  }

  lemma RovingAfterCommits(s: Coord, m: Coord, p: Setting, rover: Id, a: nat, r: nat, pool: set<Id>, done: set<Id>,
                           deadline: int)
    requires Roving(s, p, rover, a, r, pool, done, deadline) && Gathered(m, pool) && SameBut(s, m, pool - done)
    requires m.sessions == s.sessions
    ensures Roving(m, p, rover, a, r, pool, pool, deadline)
  {
    FilledHonest(s, m, p, a, r, pool, done);
    forall x | Connected(m.signers, x) ensures Connected(s.signers, x) {
      var i :| 0 <= i < |m.signers| && m.signers[i].id == x;
      assert s.signers[i].id == x;
    }
    forall x | x in Honest(p.n, p.faulty) ensures Connected(m.signers, x) {
      SameIdsConnected(s.signers, m.signers, x);
    }
    forall i, j, x | a <= i < j < r && HeldAt(m, i, x) && x in Honest(p.n, p.faulty) ensures !HeldAt(m, j, x) {
      assert HeldAt(s, i, x) && !HeldAt(s, j, x);
    }
  }

  // ---------------------------------------------------------------- the time-out

  /** Nobody that is connected was silent, so nobody is struck. */
  lemma NobodyStruck(s: Coord, p: Setting, rover: Id, k: nat, deadline: int)
    requires Inv(s) && Unmarked(s) && !Connected(s.signers, rover) && k < |s.sessions| &&
             Lacks(s.sessions[k], p, rover, deadline)
    ensures Unmarked(Expire(s, k)) && Expire(s, k).strikes == s.strikes
  {
    var r, sess := Expire(s, k), s.sessions[k];
    forall x | Silent(sess, x) ensures x == rover {
    }
    assert r.strikes == s.strikes;
    assert SessionOk(sess, s.n, s.t);
    assert r.blacklist != [] ==> r.blacklist[0] in r.blacklist;
    BlacklistStruckOutIs(s.blacklist, sess.members, sess, s.signers, r.strikes);
  }

  /** Members are asked again, the others stay as they are. */
  lemma AfterRoam(s: Coord, p: Setting, rover: Id, k: nat, deadline: int, i: nat)
    requires !Connected(s.signers, rover) && k < |s.sessions| && Lacks(s.sessions[k], p, rover, deadline) &&
             i < |s.signers|
    ensures var r, sg := Expire(s, k), s.signers[i];
            r.signers[i] == if sg.id in s.sessions[k].members then Renew(sg, Init, s.tbs) else sg
  {
    var r := Expire(s, k);
    assert r.signers[i] == AfterExpiry(s.signers[i], s.sessions[k], r.strikes, s.tbs);
    assert s.signers[i].id != rover;
  }

  lemma RoamSelects(s: Coord, p: Setting, rover: Id, k: nat, deadline: int, x: Id)
    requires !Connected(s.signers, rover) && k < |s.sessions| && Lacks(s.sessions[k], p, rover, deadline)
    requires Unmarked(s) && Unmarked(Expire(s, k)) && Expire(s, k).strikes == s.strikes
    ensures SelectableId(x, Expire(s, k)) <==> SelectableId(x, s) && x !in s.sessions[k].members
  {
    var r := Expire(s, k);
    if SelectableId(x, r) {
      var i :| 0 <= i < |r.signers| && r.signers[i].id == x && EligibleEither(r.signers[i], r.blacklist, r.strikes);
      AfterRoam(s, p, rover, k, deadline, i);
      assert EligibleEither(s.signers[i], s.blacklist, s.strikes);
    }
    if SelectableId(x, s) && x !in s.sessions[k].members {
      var i :| 0 <= i < |s.signers| && s.signers[i].id == x && EligibleEither(s.signers[i], s.blacklist, s.strikes);
      AfterRoam(s, p, rover, k, deadline, i);
      assert EligibleEither(r.signers[i], r.blacklist, r.strikes);
    }
  }

  lemma RoamGathers(s: Coord, p: Setting, rover: Id, k: nat, deadline: int, done: set<Id>)
    requires !Connected(s.signers, rover) && k < |s.sessions| && Lacks(s.sessions[k], p, rover, deadline)
    requires Unmarked(s) && Unmarked(Expire(s, k)) && Expire(s, k).strikes == s.strikes
    requires Gathered(s, done) && forall x :: x in s.sessions[k].members ==> x !in done
    ensures Gathered(Expire(s, k), done)
  {
    var r := Expire(s, k);
    forall x ensures SelectableId(x, r) <==> x in done {
      RoamSelects(s, p, rover, k, deadline, x);
    }
    forall i | 0 <= i < |r.signers| && r.signers[i].id in done ensures |r.signers[i].commit| == 1 {
      AfterRoam(s, p, rover, k, deadline, i);
    }
  }

  lemma RoamAsks(s: Coord, p: Setting, rover: Id, k: nat, deadline: int, x: Id)
    requires !Connected(s.signers, rover) && k < |s.sessions| && Lacks(s.sessions[k], p, rover, deadline)
    requires Unmarked(Expire(s, k)) && (Asked(s, x) || (x in s.sessions[k].members && Connected(s.signers, x)))
    ensures Asked(Expire(s, k), x)
  {
    var i :| 0 <= i < |s.signers| && s.signers[i].id == x &&
      (x in s.sessions[k].members || WaitsForCommit(s.signers[i]));
    AfterRoam(s, p, rover, k, deadline, i);
    assert WaitsForCommit(Expire(s, k).signers[i]);
  }

  lemma RoamTableAfter(s: Coord, p: Setting, rover: Id, a: nat, r: nat, deadline: int)
    requires RoamTable(s, p, rover, a, r, deadline) && HonestApart(s, p, a, r) && a < r && |s.sessions| == MAX_SESSIONS
    ensures RoamTable(Expire(s, a), p, rover, a + 1, r, deadline) && HonestApart(Expire(s, a), p, a + 1, r)
  {
    var m := Expire(s, a);
    assert Lacks(s.sessions[a], p, rover, deadline);
    CloseSlot(s.sessions, a, m.sessions[a]);
    forall j | a + 1 <= j < r ensures Lacks(m.sessions[j], p, rover, deadline) {
      assert Lacks(s.sessions[j], p, rover, deadline);
    }
    forall i, j, x | a + 1 <= i < j < r && HeldAt(m, i, x) && x in Honest(p.n, p.faulty) ensures !HeldAt(m, j, x) {
      assert HeldAt(s, i, x) && !HeldAt(s, j, x);
    }
  }

  /** The honest members of slot `a` join those that can be asked. */
  lemma RoamPlacedAfter(s: Coord, p: Setting, rover: Id, a: nat, r: nat, pool: set<Id>, done: set<Id>, deadline: int)
      returns (more: set<Id>)
    requires Roving(s, p, rover, a, r, pool, done, deadline) && a < r
    requires Unmarked(Expire(s, a)) && Expire(s, a).strikes == s.strikes
    ensures HonestPlaced(Expire(s, a), p, a + 1, r, more, done)
  {
    var m, sess := Expire(s, a), s.sessions[a];
    assert Lacks(sess, p, rover, deadline);
    more := pool + (set x | x in sess.members && x in Honest(p.n, p.faulty));
    forall x | x in sess.members ensures x !in pool {
      assert HeldAt(s, a, x);
    }
    RoamGathers(s, p, rover, a, deadline, done);
    forall x | x in more - done ensures Asked(m, x) {
      RoamAsks(s, p, rover, a, deadline, x);
    }
    RoamHeld(s, p, a, r, pool, more);
  }

  lemma RoamHeld(s: Coord, p: Setting, a: nat, r: nat, pool: set<Id>, more: set<Id>)
    requires a < r <= |s.sessions| && HonestApart(s, p, a, r) && pool <= Honest(p.n, p.faulty)
    requires forall x {:trigger Held(s, a, r, x)} :: x in Honest(p.n, p.faulty) && x !in pool ==> Held(s, a, r, x)
    requires forall j, x :: a <= j < r && HeldAt(s, j, x) ==> x !in pool
    requires more == pool + (set x | x in s.sessions[a].members && x in Honest(p.n, p.faulty))
    ensures var m := Expire(s, a);
            && (forall x {:trigger Held(m, a + 1, r, x)} ::
                  x in Honest(p.n, p.faulty) && x !in more ==> Held(m, a + 1, r, x))
            && (forall j, x :: a + 1 <= j < r && HeldAt(m, j, x) ==> x !in more)
  {
    var m := Expire(s, a);
    forall x | x in Honest(p.n, p.faulty) && x !in more ensures Held(m, a + 1, r, x) {
      assert Held(s, a, r, x);
      var j :| a <= j < r && HeldAt(s, j, x);
      assert HeldAt(m, j, x);
    }
    forall j, x | a + 1 <= j < r && HeldAt(m, j, x) ensures x !in more {
      assert HeldAt(s, j, x) && (HeldAt(s, a, x) <==> x in s.sessions[a].members);
    }
  }

  lemma RoamHere(s: Coord, k: nat, rover: Id, ids: set<Id>)
    requires AllHere(s, ids) && !Connected(s.signers, rover) && k < |s.sessions|
    ensures AllHere(Expire(s, k), ids) && !Connected(Expire(s, k).signers, rover)
  {
    var m := Expire(s, k);
    assert SameIds(s.signers, m.signers);
    forall x | x in ids ensures Connected(m.signers, x) {
      SameIdsConnected(s.signers, m.signers, x);
    }
    if Connected(m.signers, rover) {
      SameIdsConnected(m.signers, s.signers, rover);
    }
  }

  /** Slot `a` times out: its members are asked again, and nobody is struck. */
  lemma RoamExpire(s: Coord, p: Setting, rover: Id, a: nat, r: nat, pool: set<Id>, done: set<Id>, deadline: int)
      returns (more: set<Id>)
    requires Base(s, p) && Roving(s, p, rover, a, r, pool, done, deadline) && a < r
    ensures Base(Expire(s, a), p) && Roving(Expire(s, a), p, rover, a + 1, r, more, done, deadline)
  {
    assert Lacks(s.sessions[a], p, rover, deadline);
    ExpireKeeps(s, a);
    NobodyStruck(s, p, rover, a, deadline);
    RoamTableAfter(s, p, rover, a, r, deadline);
    more := RoamPlacedAfter(s, p, rover, a, r, pool, done, deadline);
    RoamHere(s, a, rover, Honest(p.n, p.faulty));
  }

  /** The same in the sweep: nothing new forms. */
  lemma RoamSlot(s: Coord, p: Setting, rover: Id, a: nat, r: nat, pool: set<Id>, done: set<Id>, deadline: int)
      returns (m: Coord, more: set<Id>)
    requires Base(s, p) && Roving(s, p, rover, a, r, pool, done, deadline) && a < r &&
             (|done| < p.t || r == MAX_SESSIONS)
    ensures m == SweepSlot(s, a, deadline, a in AllSlots())
    ensures Base(m, p) && Roving(m, p, rover, a + 1, r, more, done, deadline)
  {
    assert Lacks(s.sessions[a], p, rover, deadline);
    more := RoamExpire(s, p, rover, a, r, pool, done, deadline);
    m := Expire(s, a);
    StuckForms(m, done, deadline);
  }

  lemma {:induction false} RoamSweep(s: Coord, p: Setting, rover: Id, a: nat, r: nat, pool: set<Id>, done: set<Id>,
                                     deadline: int, k: nat) returns (m: Coord, more: set<Id>)
    requires Base(s, p) && Roving(s, p, rover, a, r, pool, done, deadline) && (|done| < p.t || r == MAX_SESSIONS)
    requires a <= k <= r && Sweep(s, a, deadline, AllSlots()) == s
    ensures m == Sweep(s, k, deadline, AllSlots()) && Base(m, p) && Roving(m, p, rover, k, r, more, done, deadline)
    decreases k
  {
    if k == a {
      return s, pool;
    }
    var m1, more1 := RoamSweep(s, p, rover, a, r, pool, done, deadline, k - 1);
    m, more := RoamSlot(m1, p, rover, k - 1, r, more1, done, deadline);
  }

  lemma RoamNotDue(s: Coord, p: Setting, rover: Id, a: nat, r: nat, deadline: int, j: nat, now: int)
    requires SessionsOk(s) && RoamTable(s, p, rover, a, r, deadline) && j < |s.sessions| && (j < a || r <= j)
    ensures !Expired(s.sessions[j], now)
  {
  }

  lemma RoamBegins(s: Coord, p: Setting, rover: Id, a: nat, r: nat, deadline: int)
    requires SessionsOk(s) && RoamTable(s, p, rover, a, r, deadline)
    ensures Sweep(s, a, deadline, AllSlots()) == s
  {
    assert Sweep(s, 0, deadline, AllSlots()) == s;
    forall j | 0 <= j < a ensures !Expired(s.sessions[j], deadline) {
      RoamNotDue(s, p, rover, a, r, deadline, j, deadline);
    }
    SweepSkips(s, 0, a, deadline, AllSlots());
  }

  lemma RoamEnds(s: Coord, m: Coord, p: Setting, rover: Id, r: nat, deadline: int)
    requires !s.done && r <= |s.sessions| && m == Sweep(s, r, deadline, AllSlots())
    requires SessionsOk(m) && RoamTable(m, p, rover, r, r, deadline)
    ensures m == Step(s, Tick(deadline, AllSlots()))
  {
    forall j | r <= j < |m.sessions| ensures !Expired(m.sessions[j], deadline) {
      RoamNotDue(m, p, rover, r, r, deadline, j, deadline);
    }
    TickIs(s, m, r, deadline, AllSlots());
  }

  /** The whole sweep. */
  lemma RoamTick(s: Coord, p: Setting, rover: Id, a: nat, r: nat, pool: set<Id>, done: set<Id>, deadline: int)
      returns (m: Coord, more: set<Id>)
    requires Base(s, p) && Roving(s, p, rover, a, r, pool, done, deadline) && (|done| < p.t || r == MAX_SESSIONS)
    ensures m == Step(s, Tick(deadline, AllSlots())) && Base(m, p) && Roving(m, p, rover, r, r, more, done, deadline)
  {
    RoamBegins(s, p, rover, a, r, deadline);
    m, more := RoamSweep(s, p, rover, a, r, pool, done, deadline, r);
    RoamEnds(s, m, p, rover, r, deadline);
  }

  lemma RoamAnswered(s: Coord, p: Setting, rover: Id, a: nat, r: nat, pool: set<Id>, deadline: int, x: Id)
    requires Roving(s, p, rover, a, r, pool, pool, deadline) && x in Honest(p.n, p.faulty)
    ensures Answered(s, x)
  {
    if x in pool {
      ReliableAnswered(s, x);
    } else {
      assert Held(s, a, r, x);
      var j :| a <= j < r && HeldAt(s, j, x);
      assert Lacks(s.sessions[j], p, rover, deadline);
      assert ShareStored(s, j, x);
    }
  }

  lemma RoamTickIsPrompt(s: Coord, p: Setting, rover: Id, a: nat, r: nat, pool: set<Id>, deadline: int)
    requires Base(s, p) && Roving(s, p, rover, a, r, pool, pool, deadline)
    ensures PromptStep(s, Tick(deadline, AllSlots()), p.faulty)
  {
    forall k, m | 0 <= k < |s.sessions| && Expired(s.sessions[k], deadline) && m in s.sessions[k].members &&
      m !in p.faulty
      ensures Cooperated(s.sessions[k], m)
    {
      if k < a || r <= k {
        RoamNotDue(s, p, rover, a, r, deadline, k, deadline);
      }
      assert Lacks(s.sessions[k], p, rover, deadline);
    }
    forall id | 1 <= id <= s.n && id !in p.faulty ensures Answered(s, id) {
      RoamAnswered(s, p, rover, a, r, pool, deadline, id);
    }
  }

  /** Everyone left over commits, and all waiting sessions time out. */
  lemma RoamTimeOut(s: Coord, p: Setting, rover: Id, a: nat, r: nat, pool: set<Id>, done: set<Id>, deadline: int,
                    next: int)
      returns (m: Coord)
    requires Base(s, p) && Roving(s, p, rover, a, r, pool, done, deadline) && (|pool| < p.t || r == MAX_SESSIONS)
    ensures Roams(s, m, p.faulty) && Base(m, p) && Roving(m, p, rover, r, r, Honest(p.n, p.faulty), pool, next)
  {
    var s1 := CommitAll(s, p, pool, done, deadline - SESSION_TIMEOUT);
    RovingAfterCommits(s, s1, p, rover, a, r, pool, done, deadline);
    LeadsRoams(s, s1, p.faulty);
    RoamTickIsPrompt(s1, p, rover, a, r, pool, deadline);
    RoamsOne(s1, Tick(deadline, AllSlots()), p.faulty);
    var more;
    m, more := RoamTick(s1, p, rover, a, r, pool, pool, deadline);
    RoamsOn(s, s1, m, p.faulty);
    assert more == Honest(p.n, p.faulty) by {
      forall x | x in Honest(p.n, p.faulty) ensures x in more {
        assert !Held(m, r, r, x);
      }
    }
  }

  // ---------------------------------------------------------------- until the table is full

  ghost predicate RoamScene(s: Coord, p: Setting, rover: Id, a: nat, r: nat, pool: set<Id>, done: set<Id>,
                            deadline: int) {
    forall x {:trigger Look(x)} :: Look(x) && x == s ==>
      Roams(Origin(p), x, p.faulty) && Base(x, p) && Roving(x, p, rover, a, r, pool, done, deadline)
  }

  /** The slots below `a` can be failed, those up to `r` waiting, with `pool` at hand. */
  ghost predicate CanRove(p: Setting, rover: Id, a: nat, r: nat, pool: set<Id>, done: set<Id>, deadline: int) {
    exists s :: RoamScene(s, p, rover, a, r, pool, done, deadline)
  }

  lemma SpoilOne(p: Setting, rover: Id, a: nat, r: nat, pool: set<Id>, done: set<Id>, deadline: int)
      returns (left: set<Id>)
    requires CanRove(p, rover, a, r, pool, done, deadline) && r < MAX_SESSIONS && |done| < p.t && p.t - 1 <= |pool|
    ensures CanRove(p, rover, a, r + 1, left, {}, deadline)
  {
    var s :| RoamScene(s, p, rover, a, r, pool, done, deadline);
    assert Look(s);
    var q;
    q, left := SpoilNext(s, p, rover, a, r, pool, done, deadline);
    RoamsOn(Origin(p), s, q, p.faulty);
    assert RoamScene(q, p, rover, a, r + 1, left, {}, deadline);
  }

  lemma NoneIsFew(t: int)
    requires t >= 1
    ensures var none: set<Id> := {}; |none| < t
  {
  }

  /** Sessions are opened until there is no slot, or too few honest signers are left over to form one. */
  lemma {:induction false} SpoilMany(p: Setting, rover: Id, a: nat, r: nat, pool: set<Id>, done: set<Id>, deadline: int)
      returns (r2: nat, left: set<Id>, done2: set<Id>)
    requires CanRove(p, rover, a, r, pool, done, deadline) && r <= MAX_SESSIONS && |done| < p.t && p.t >= 1
    ensures CanRove(p, rover, a, r2, left, done2, deadline) && r <= r2 <= MAX_SESSIONS
    ensures r2 == MAX_SESSIONS || |left| < p.t - 1
    ensures r < MAX_SESSIONS && p.t - 1 <= |pool| ==> r < r2
    decreases MAX_SESSIONS - r
  {
    if r == MAX_SESSIONS || |pool| < p.t - 1 {
      return r, pool, done;
    }
    var less := SpoilOne(p, rover, a, r, pool, done, deadline);
    NoneIsFew(p.t);
    r2, left, done2 := SpoilMany(p, rover, a, r + 1, less, {}, deadline);
  }

  lemma LetExpire(p: Setting, rover: Id, a: nat, r: nat, pool: set<Id>, done: set<Id>, deadline: int, next: int)
    requires CanRove(p, rover, a, r, pool, done, deadline) && (|pool| < p.t || r == MAX_SESSIONS)
    ensures CanRove(p, rover, r, r, Honest(p.n, p.faulty), pool, next)
  {
    var s :| RoamScene(s, p, rover, a, r, pool, done, deadline);
    assert Look(s);
    var m := RoamTimeOut(s, p, rover, a, r, pool, done, deadline, next);
    RoamsOn(Origin(p), s, m, p.faulty);
    assert RoamScene(m, p, rover, r, r, Honest(p.n, p.faulty), pool, next);
  }

  lemma {:induction false} SpoilAll(p: Setting, rover: Id, a: nat, done: set<Id>) returns (last: set<Id>)
    requires CanRove(p, rover, a, a, Honest(p.n, p.faulty), done, ClockAt(a)) && a <= MAX_SESSIONS
    requires a < MAX_SESSIONS ==> |done| < p.t
    requires 1 <= p.t && p.t - 1 <= |Honest(p.n, p.faulty)|
    ensures CanRove(p, rover, MAX_SESSIONS, MAX_SESSIONS, Honest(p.n, p.faulty), last, ClockAt(MAX_SESSIONS))
    decreases MAX_SESSIONS - a
  {
    if a == MAX_SESSIONS {
      return done;
    }
    var r, left, done2 := SpoilMany(p, rover, a, a, Honest(p.n, p.faulty), done, ClockAt(a));
    LetExpire(p, rover, a, r, left, done2, ClockAt(a), ClockAt(r));
    last := SpoilAll(p, rover, r, left);
  }

  // ---------------------------------------------------------------- the beginning

  lemma RegisteredHere(s: Coord, p: Setting)
    requires Registered(s, p, p.n)
    ensures AllHere(s, Upto(p.n)) && Unmarked(s)
  {
    forall x | x in Upto(p.n) ensures Connected(s.signers, x) {
      assert Asked(s, x);
    }
  }

  /** Everyone has registered, and the rover has left. */
  lemma RoverGone(s: Coord, p: Setting, rover: Id, deadline: int) returns (q: Coord)
    requires Registered(s, p, p.n) && p.faulty == {rover} && 1 <= rover <= p.n
    ensures Roams(s, q, p.faulty) && Base(q, p) && Roving(q, p, rover, 0, 0, Honest(p.n, p.faulty), {}, deadline)
  {
    var honest := Honest(p.n, p.faulty);
    q := Leaves(s, p, rover);
    RegisteredHere(s, p);
    OthersHere(s, rover, honest);
    forall x | x in honest ensures Asked(s, x) {
    }
    QuitAsked(s, rover, honest);
    NobodyHeld(q, p, rover, honest, deadline);
  }

  /** Before the first session. */
  lemma NobodyHeld(q: Coord, p: Setting, rover: Id, honest: set<Id>, deadline: int)
    requires honest == Honest(p.n, p.faulty) && Gathered(q, {}) && AllAsked(q, honest) && FreeSlot(q.sessions) == 0
    ensures RoamTable(q, p, rover, 0, 0, deadline) && HonestApart(q, p, 0, 0) && HonestPlaced(q, p, 0, 0, honest, {})
  {
    assert honest - {} == honest;
  }

  lemma OthersHere(s: Coord, rover: Id, ids: set<Id>)
    requires rover !in ids && forall x :: x in ids ==> Connected(s.signers, x)
    ensures AllHere(OnDisconnect(s, rover), ids)
  {
    forall x | x in ids ensures Connected(OnDisconnect(s, rover).signers, x) {
      var i :| 0 <= i < |s.signers| && s.signers[i].id == x;
      QuitKeepsOthers(s, rover, i);
    }
  }

  lemma RoamBegin(p: Setting, rover: Id)
    requires SettingOk(p) && p.faulty == {rover} && 1 <= rover <= p.n
    ensures CanRove(p, rover, 0, 0, Honest(p.n, p.faulty), {}, ClockAt(0))
  {
    var s := RegisterAll(p, p.n);
    LeadsRoams(Origin(p), s, p.faulty);
    var q := RoverGone(s, p, rover, ClockAt(0));
    RoamsOn(Origin(p), s, q, p.faulty);
    assert RoamScene(q, p, rover, 0, 0, Honest(p.n, p.faulty), {}, ClockAt(0));
  }

  lemma AllButOne(n: nat, rover: Id)
    requires 1 <= rover <= n
    ensures |Honest(n, {rover})| == n - 1
  {
    assert Upto(n) == Honest(n, {rover}) + {rover};
  }

  // ---------------------------------------------------------------- the flag

  /** The failure flag means that somebody was blacklisted. */
  lemma FlagStepBlames(s: Coord, e: Event)
    requires Inv(s) && (s.roastFail ==> s.blacklist != [])
    ensures Step(s, e).roastFail ==> Step(s, e).blacklist != []
  {
    StepEvolves(s, e);
    FlagMeansFew(s, e);
    if e.Share? && Step(s, e).roastFail && !s.roastFail {
      FlagShareBlames(s, e);
    }
  }

  lemma FlagShareBlames(s: Coord, e: Event)
    requires e.Share? && Inv(s) && Step(s, e).roastFail && !s.roastFail
    ensures Step(s, e).blacklist != []
  {
    var m := StoreShare(s, e.id, e.payload);
    var k := FindSession(s.sessions, s.signers[IndexOf(s.signers, e.id)].sessionId);
    assert Step(s, e) == Aggregate(m, k, e.verdict, e.now, e.assembled);
    FlagActBlames(m, k, e.verdict, e.now, e.assembled);
  }

  lemma FlagActBlames(m: Coord, k: nat, v: Verdict, now: int, assembled: bool)
    requires k < |m.sessions| && Aggregate(m, k, v, now, assembled).roastFail && !m.roastFail
    ensures Aggregate(m, k, v, now, assembled).blacklist != []
  {
    assert Aggregate(m, k, v, now, assembled) == FailCulprit(m, k, v.culprit, now, assembled);
    assert DropCulprit(m, k, v.culprit).blacklist != [];
  }

  lemma {:induction false} FlagBlames(n: int, t: int, tbs: Bytes, serial: nat, toMint: nat, es: seq<Event>)
    ensures var s := Run(Start(n, t, tbs, serial, toMint), es); s.roastFail ==> s.blacklist != []
  {
    if es != [] {
      var s0, init := Start(n, t, tbs, serial, toMint), es[..|es| - 1];
      FlagBlames(n, t, tbs, serial, toMint, init);
      StartIsFine(n, t, tbs, serial, toMint);
      RunKeeps(s0, init);
      FlagStepBlames(Run(s0, init), es[|es| - 1]);
    }
  }

  // ---------------------------------------------------------------- what it means

  /**
   For every n, t and faulty set with a signer in it: a run in which all 64 sessions fail, although every
   honest signer answers in time, nobody is struck or blacklisted, and no flag is raised.
   */
  lemma LeavingMembersExhaust(n: nat, t: int, tbs: Bytes, serial: nat, toMint: nat, faulty: set<Id>, rover: Id)
      returns (es: seq<Event>)
    requires 2 <= n && SizesOk(n, t) && Fits(t, 1, |tbs|) && rover in faulty && 1 <= rover <= n
    ensures RoamRun(Start(n, t, tbs, serial, toMint), es, faulty)
    ensures var s := Run(Start(n, t, tbs, serial, toMint), es); Exhausted(s) && Unmarked(s) && !s.roastFail
  {
    var p := Setting(n, t, tbs, serial, toMint, {rover});
    RoamBegin(p, rover);
    AllButOne(n, rover);
    NoneIsFew(t);
    var last := SpoilAll(p, rover, 0, {});
    var s :| RoamScene(s, p, rover, MAX_SESSIONS, MAX_SESSIONS, Honest(n, {rover}), last, ClockAt(MAX_SESSIONS));
    assert Look(s);
    es := RoamsIsRun(Origin(p), s, {rover});
    MoreRoam(Origin(p), es, {rover}, faulty);
    FlagBlames(n, t, tbs, serial, toMint, es);
  }

  /** The documented bound, if faulty signers may leave and come back. */
  ghost predicate RoamingBound(n: nat, t: int, tbs: Bytes, serial: nat, toMint: nat, f: nat) {
    forall faulty, es :: |faulty| <= f && RoamRun(Start(n, t, tbs, serial, toMint), es, faulty) ==>
      FailedCount(Run(Start(n, t, tbs, serial, toMint), es).sessions) + 1 <= n - t + 1
  }

  /** It holds exactly when nobody is faulty. */
  lemma RoamingBoundIff(n: nat, t: int, tbs: Bytes, serial: nat, toMint: nat, f: nat)
    requires 2 <= n && SizesOk(n, t) && Fits(t, 1, |tbs|)
    ensures RoamingBound(n, t, tbs, serial, toMint, f) <==> f == 0
  {
    if f == 0 {
      forall faulty, es | |faulty| <= f && RoamRun(Start(n, t, tbs, serial, toMint), es, faulty)
        ensures FailedCount(Run(Start(n, t, tbs, serial, toMint), es).sessions) + 1 <= n - t + 1
      {
        assert faulty == {};
        NobodyRoams(Start(n, t, tbs, serial, toMint), es);
        MostIsUpper(n, t, tbs, serial, toMint, {}, es);
      }
    } else {
      var es := LeavingMembersExhaust(n, t, tbs, serial, toMint, {1}, 1);
      ExhaustedCount(Run(Start(n, t, tbs, serial, toMint), es));
      assert |{1}| <= f;
    }
  }

  ghost predicate RoamersCanExhaust(n: nat, t: int, tbs: Bytes, serial: nat, toMint: nat, f: nat) {
    exists faulty, es :: |faulty| == f && faulty <= Upto(n) && RoamRun(Start(n, t, tbs, serial, toMint), es, faulty)
                         && Exhausted(Run(Start(n, t, tbs, serial, toMint), es))
  }

  /** And one faulty signer is enough to use up the table. */
  lemma RoamersCanExhaustIff(n: nat, t: int, tbs: Bytes, serial: nat, toMint: nat, f: nat)
    requires 2 <= n && SizesOk(n, t) && Fits(t, 1, |tbs|) && f <= n
    ensures RoamersCanExhaust(n, t, tbs, serial, toMint, f) <==> f >= 1
  {
    if f >= 1 {
      var es := LeavingMembersExhaust(n, t, tbs, serial, toMint, Upto(f), 1);
      assert |Upto(f)| == f && Upto(f) <= Upto(n);
    }
    if RoamersCanExhaust(n, t, tbs, serial, toMint, f) && f == 0 {
      var faulty, es :| |faulty| == f && faulty <= Upto(n) && RoamRun(Start(n, t, tbs, serial, toMint), es, faulty)
                        && Exhausted(Run(Start(n, t, tbs, serial, toMint), es));
      assert faulty == {};
      NobodyRoams(Start(n, t, tbs, serial, toMint), es);
      MostIsUpper(n, t, tbs, serial, toMint, {}, es);
      ExhaustedCount(Run(Start(n, t, tbs, serial, toMint), es));
    }
  }
}
