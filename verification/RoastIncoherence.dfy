/**
 What the two exceptional steps of RoastCoherence lead to, as runs from start-up. Signers that
 reconnect while their session waits pile up waiting sessions of the same members, as many as the
 table holds. After an unattributed failure the members of another waiting session are asked again
 and enter a second one. In both cases the older session gets no share any more; it can only time
 out, and then it strikes signers that did nothing wrong.
 */
module RoastIncoherence {
  import opened Octets
  import opened Counting
  import opened Roast
  import opened RoastInvariant
  import opened RoastExclusion
  import opened RoastCoherence
  import opened RoastDeserted
  import opened RoastTermination
  import opened RoastPrompt
  import opened RoastScenes

  // ---------------------------------------------------------------- runs

  ghost predicate Reaches(s: Coord, r: Coord) {
    exists es :: Run(s, es) == r
  }

  lemma {:induction false} RunOn(s: Coord, a: seq<Event>, b: seq<Event>)
    ensures Run(s, a + b) == Run(Run(s, a), b)
  {
    if b == [] {
      assert a + b == a;
    } else {
      RunOn(s, a, b[..|b| - 1]);
      assert (a + b)[..|a + b| - 1] == a + b[..|b| - 1];
    }
  }

  lemma ReachesOn(s: Coord, m: Coord, r: Coord)
    requires Reaches(s, m) && Reaches(m, r)
    ensures Reaches(s, r)
  {
    var a :| Run(s, a) == m;
    var b :| Run(m, b) == r;
    RunOn(s, a, b);
  }

  lemma ReachesOne(s: Coord, e: Event)
    ensures Reaches(s, Step(s, e))
  {
    assert [e][..0] == [];
    assert Run(s, [e]) == Step(Run(s, []), e);
  }

  lemma LeadsReach(s: Coord, r: Coord, faulty: set<Id>)
    requires Leads(s, r, faulty)
    ensures Reaches(s, r)
  {
    var es := LeadsIsRun(s, r, faulty);
  }

  // ---------------------------------------------------------------- a session of given signers

  lemma OneOf(s: Coord, ids: set<Id>, cur: Id)
    requires AllAsked(s, ids) && cur in ids
    ensures AllAsked(s, (ids - {cur}) - {}) && Asked(s, cur) && |ids - {cur}| == |ids| - 1 &&
            (ids - {cur}) + {cur} == ids
  {
  }

  /** The signers `ids` commit, and a session of them waits. */
  lemma OpenOf(s: Coord, p: Setting, ids: set<Id>, now: int) returns (r: Coord)
    requires Base(s, p) && Gathered(s, {}) && AllAsked(s, ids) && |ids| == p.t && FreeSlot(s.sessions) < MAX_SESSIONS
    ensures Reaches(s, r) && Base(r, p) && Gathered(r, {}) && Opened(s, r, ids, {}, now + SESSION_TIMEOUT)
  {
    var cur := Another(ids, {});
    var helpers;
    OneOf(s, ids, cur);
    r, helpers := OpenWith(s, p, ids - {cur}, {}, cur, now);
    SubsetAll(helpers, ids - {cur});
    LeadsReach(s, r, p.faulty);
  }

  /** The same, and all but `cur` send their shares. */
  lemma OpenAllBut(s: Coord, p: Setting, ids: set<Id>, cur: Id, now: int) returns (r: Coord)
    requires Base(s, p) && Gathered(s, {}) && AllAsked(s, ids) && |ids| == p.t && cur in ids &&
             FreeSlot(s.sessions) < MAX_SESSIONS
    ensures Reaches(s, r) && Base(r, p) && Gathered(r, {}) && Opened(s, r, ids, ids - {cur}, now + SESSION_TIMEOUT)
  {
    var helpers;
    OneOf(s, ids, cur);
    r, helpers := OpenAndShare(s, p, ids - {cur}, {}, cur, now);
    SubsetAll(helpers, ids - {cur});
    LeadsReach(s, r, p.faulty);
  }

  // ---------------------------------------------------------------- reconnecting members

  predicate NobodyShared(sess: Session) {
    forall x :: x in sess.members ==> !Cooperated(sess, x)
  }

  /** The first `k` sessions all wait for `team`. */
  ghost predicate Pile(s: Coord, team: set<Id>, k: nat) {
    && s.blacklist == [] && FreeSlot(s.sessions) == k
    && (forall j :: 0 <= j < k ==> Active(s, j) && MembersOf(s, j) == team && NobodyShared(s.sessions[j]))
    && (k > 0 ==> Open(s, k - 1, team, {}, SESSION_TIMEOUT))
  }

  ghost predicate Stacked(s: Coord, p: Setting, k: nat) {
    Base(s, p) && Gathered(s, {}) && Pile(s, Upto(p.t), k)
  }

  /** A signer that goes leaves the others as they are. */
  lemma QuitAsked(s: Coord, id: Id, ids: set<Id>)
    requires AllAsked(s, ids) && id !in ids
    ensures AllAsked(OnDisconnect(s, id), ids)
  {
    var r, k := OnDisconnect(s, id), IndexOf(s.signers, id);
    forall x | x in ids ensures Asked(r, x) {
      var i :| 0 <= i < |s.signers| && s.signers[i].id == x && WaitsForCommit(s.signers[i]);
      var j := if i < k then i else i - 1;
      if k < |s.signers| {
        assert r.signers[j] == s.signers[i];
      } else {
        assert r.signers[i] == s.signers[i];
      }
    }
  }

  lemma QuitGathered(s: Coord, id: Id)
    requires Gathered(s, {})
    ensures Gathered(OnDisconnect(s, id), {})
  {
    var r := OnDisconnect(s, id);
    QuitShrinks(s, Disconnect(id));
    ShrinkSubset(s, r);
    GatheredCandidates(s, {});
    forall x ensures !SelectableId(x, r) {
      CandidateOffers(r, x);
    }
  }

  lemma QuitGone(s: Coord, id: Id)
    requires SignersOk(s)
    ensures !Connected(OnDisconnect(s, id).signers, id)
  {
    var r, k := OnDisconnect(s, id), IndexOf(s.signers, id);
    forall i | 0 <= i < |r.signers| ensures r.signers[i].id != id {
      if k < |s.signers| {
        assert r.signers[i] == s.signers[if i < k then i else i + 1];
      }
    }
  }

  lemma QuitBase(s: Coord, p: Setting, id: Id)
    requires Base(s, p)
    ensures Base(OnDisconnect(s, id), p)
  {
    DisconnectKeeps(s, id);
  }

  /** Only the list of signers changed. */
  predicate SameTable(s: Coord, r: Coord) {
    r.sessions == s.sessions && r.blacklist == s.blacklist
  }

  lemma QuitScene(s: Coord, p: Setting, id: Id, ids: set<Id>) returns (q: Coord)
    requires Base(s, p) && Gathered(s, {}) && AllAsked(s, ids) && id !in ids
    ensures Reaches(s, q) && Base(q, p) && Gathered(q, {}) && AllAsked(q, ids) && SameTable(s, q) &&
            !Connected(q.signers, id)
  {
    q := OnDisconnect(s, id);
    QuitAsked(s, id, ids);
    QuitGone(s, id);
    QuitBase(s, p, id);
    QuitGathered(s, id);
    ReachesOne(s, Disconnect(id));
  }

  lemma JoinScene(q: Coord, p: Setting, id: Id, ids: set<Id>) returns (r: Coord)
    requires Base(q, p) && Gathered(q, {}) && q.blacklist == [] && AllAsked(q, ids) && !Connected(q.signers, id) &&
             1 <= id <= p.n
    ensures Reaches(q, r) && Base(r, p) && Gathered(r, {}) && SameTable(q, r) && AllAsked(r, ids + {id})
  {
    r := Joins(q, p, id, {}, ids);
    LeadsReach(q, r, p.faulty);
  }

  /** A signer reconnects, and is asked for a commitment again. */
  lemma RejoinOne(s: Coord, p: Setting, id: Id, ids: set<Id>) returns (r: Coord)
    requires Base(s, p) && Gathered(s, {}) && s.blacklist == [] && AllAsked(s, ids) && id !in ids && 1 <= id <= p.n
    ensures Reaches(s, r) && Base(r, p) && Gathered(r, {}) && SameTable(s, r) && AllAsked(r, ids + {id})
  {
    var q := QuitScene(s, p, id, ids);
    r := JoinScene(q, p, id, ids);
    ReachesOn(s, q, r);
  }

  lemma {:induction false} RejoinAll(s: Coord, p: Setting, j: nat) returns (r: Coord)
    requires Base(s, p) && Gathered(s, {}) && s.blacklist == [] && j <= p.n
    ensures Reaches(s, r) && Base(r, p) && Gathered(r, {}) && SameTable(s, r) && AllAsked(r, Upto(j))
  {
    if j == 0 {
      assert Run(s, []) == s;
      r := s;
    } else {
      var m := RejoinAll(s, p, j - 1);
      r := RejoinOne(m, p, j, Upto(j - 1));
      NextId(j - 1);
      ReachesOn(s, m, r);
    }
  }

  lemma PileOn(s: Coord, m: Coord, r: Coord, team: set<Id>, k: nat)
    requires Pile(s, team, k) && SameTable(s, m) && Opened(m, r, team, {}, SESSION_TIMEOUT)
    ensures Pile(r, team, k + 1)
  {
    forall j | 0 <= j < k + 1 ensures Active(r, j) && MembersOf(r, j) == team && NobodyShared(r.sessions[j]) {
      if j < k {
        assert r.sessions[j] == s.sessions[j] && Active(s, j) && MembersOf(s, j) == team;
      } else {
        assert forall x :: x in r.sessions[j].members ==> x in MembersOf(r, j);
      }
    }
  }

  lemma OpenOnPile(s: Coord, m: Coord, p: Setting, team: set<Id>, k: nat) returns (r: Coord)
    requires Base(m, p) && Pile(s, team, k) && k < MAX_SESSIONS && SameTable(s, m)
    requires Gathered(m, {}) && AllAsked(m, team) && |team| == p.t
    ensures Reaches(m, r) && Base(r, p) && Gathered(r, {}) && Pile(r, team, k + 1)
  {
    r := OpenOf(m, p, team, 0);
    PileOn(s, m, r, team, k);
  }

  /** The members of the last session reconnect and open one more. */
  lemma StackOne(s: Coord, p: Setting, k: nat) returns (r: Coord)
    requires Stacked(s, p, k) && k < MAX_SESSIONS
    ensures Reaches(s, r) && Stacked(r, p, k + 1)
  {
    var m := RejoinAll(s, p, p.t);
    r := OpenOnPile(s, m, p, Upto(p.t), k);
    ReachesOn(s, m, r);
  }

  lemma StackNext(o: Coord, s: Coord, p: Setting, k: nat) returns (r: Coord)
    requires Reaches(o, s) && 1 <= k <= MAX_SESSIONS && Stacked(s, p, k - 1)
    ensures Reaches(o, r) && Stacked(r, p, k)
  {
    r := StackOne(s, p, k - 1);
    ReachesOn(o, s, r);
  }

  lemma {:induction false} StackMany(p: Setting, k: nat) returns (r: Coord)
    requires SettingOk(p) && 1 <= k <= MAX_SESSIONS
    ensures Reaches(Origin(p), r) && Stacked(r, p, k)
  {
    var s: Coord;
    if k == 1 {
      s := RegisterAll(p, p.n);
      LeadsReach(Origin(p), s, p.faulty);
    } else {
      s := StackMany(p, k - 1);
    }
    r := StackNext(Origin(p), s, p, k);
  }

  lemma {:induction false} CountWaiting(ss: seq<Session>, a: nat)
    requires a <= |ss| && forall j :: 0 <= j < |ss| ==> (ss[j].state.Awaiting? <==> j < a)
    ensures ActiveCount(ss) == a
  {
    if ss != [] {
      CountWaiting(ss[..|ss| - 1], if a < |ss| then a else a - 1);
    }
  }

  /** A session whose members' shares no longer reach it strikes them all when it times out. */
  lemma StrikesEveryone(s: Coord, j: nat, x: Id)
    requires j < |s.sessions| && NobodyShared(s.sessions[j]) && x in s.sessions[j].members
    requires Connected(s.signers, x) && 1 <= x <= |s.strikes|
    ensures Strikes(Expire(s, j).strikes, x) == Strikes(s.strikes, x) + 1
  {
    assert Silent(s.sessions[j], x);
  }

  lemma SharesGoTo(s: Coord, p: Setting, k: nat, members: set<Id>, deadline: int, x: Id)
    requires Base(s, p) && Open(s, k, members, {}, deadline) && x in members
    ensures Routable(s, x) && FindSession(s.sessions, s.signers[IndexOf(s.signers, x)].sessionId) == k &&
            Connected(s.signers, x)
  {
    ShareRoutes(s, p, k, members, {}, deadline, x);
  }

  /**
   Session `j` waits for shares that go to session `k`. Now and in every continuation no share reaches it
   any more, and its members are struck.
   */
  ghost predicate Abandoned(s: Coord, j: nat, k: nat) {
    && Active(s, j) && Active(s, k) && j != k && Deserted(s, j)
    && forall x :: x in s.sessions[j].members ==>
         && x in s.sessions[k].members && Routable(s, x)
         && FindSession(s.sessions, s.signers[IndexOf(s.signers, x)].sessionId) == k
         && Strikes(Expire(s, j).strikes, x) == Strikes(s.strikes, x) + 1
  }

  lemma IsAbandoned(s: Coord, p: Setting, j: nat, k: nat, members: set<Id>, deadline: int)
    requires Base(s, p) && Open(s, k, members, {}, deadline) && j != k
    requires Active(s, j) && MembersOf(s, j) == members && NobodyShared(s.sessions[j])
    ensures Abandoned(s, j, k) && !Disjoint(s)
  {
    assert SessionOk(s.sessions[j], s.n, s.t);
    forall x | x in s.sessions[j].members
      ensures x in s.sessions[k].members && Routable(s, x)
      ensures FindSession(s.sessions, s.signers[IndexOf(s.signers, x)].sessionId) == k
      ensures Strikes(Expire(s, j).strikes, x) == Strikes(s.strikes, x) + 1
    {
      assert x in MembersOf(s, j) && x in MembersOf(s, k);
      SharesGoTo(s, p, k, members, deadline, x);
      StrikesEveryone(s, j, x);
    }
    PointElsewhere(s, p, j, k, members, deadline);
    var x := s.sessions[j].members[0];
    assert x in s.sessions[k].members;
  }

  lemma PointElsewhere(s: Coord, p: Setting, j: nat, k: nat, members: set<Id>, deadline: int)
    requires Base(s, p) && Open(s, k, members, {}, deadline) && j != k && Active(s, j) && MembersOf(s, j) == members
    ensures Deserted(s, j)
  {
    forall i | 0 <= i < |s.signers| && s.signers[i].id in s.sessions[j].members
      ensures s.signers[i].sessionId != s.sessions[j].id
    {
      assert s.signers[i].id in MembersOf(s, j);
      if s.sessions[k].id == s.sessions[j].id {
        IdsUnique(s, k, j);
      }
    }
    IsDeserted(s, j);
  }

  lemma OnlyWaiting(s: Coord, k: nat)
    requires SessionsOk(s) && FreeSlot(s.sessions) == k && forall j :: 0 <= j < k ==> Active(s, j)
    ensures ActiveCount(s.sessions) == k
  {
    forall j | 0 <= j < |s.sessions| ensures s.sessions[j].state.Awaiting? <==> j < k {
      assert j < k ==> Active(s, j);
      assert j >= k ==> s.sessions[k].state.Empty?;
    }
    CountWaiting(s.sessions, k);
  }

  /**
   For every n, t and last < 64: a run in which signers only commit and reconnect, and then
   last + 1 sessions wait for the same t members. All but the last one are abandoned.
   */
  lemma ReconnectingMembersPileUp(n: nat, t: int, tbs: Bytes, serial: nat, toMint: nat, last: nat)
      returns (es: seq<Event>)
    requires 2 <= n && SizesOk(n, t) && Fits(t, 1, |tbs|) && last < MAX_SESSIONS
    ensures var s := Run(Start(n, t, tbs, serial, toMint), es);
            && ActiveCount(s.sessions) == last + 1 && (last > 0 ==> !Disjoint(s))
            && forall j: nat :: j < last ==> Abandoned(s, j, last)
  {
    var p := Setting(n, t, tbs, serial, toMint, {});
    var s := StackMany(p, last + 1);
    es :| Run(Origin(p), es) == s;
    OnlyWaiting(s, last + 1);
    forall j: nat | j < last ensures Abandoned(s, j, last) && !Disjoint(s) {
      IsAbandoned(s, p, j, last, Upto(t), SESSION_TIMEOUT);
    }
  }

  // ---------------------------------------------------------------- an unattributed failure

  /** Two sessions wait: `second` in slot 0, and `first` in slot 1, which lacks the share of `cur`. */
  ghost predicate TwoWait(s: Coord, p: Setting, first: set<Id>, second: set<Id>, cur: Id) {
    && Base(s, p) && Gathered(s, {}) && s.blacklist == [] && FreeSlot(s.sessions) == 2
    && cur in first && |first| == |second| == p.t && first !! second
    && Open(s, 0, second, {}, SESSION_TIMEOUT) && Open(s, 1, first, first - {cur}, SESSION_TIMEOUT)
  }

  /** A session stays open while others change. */
  lemma StaysOpen(s: Coord, m: Coord, k: nat, members: set<Id>, shared: set<Id>, deadline: int, touched: set<Id>)
    requires Open(s, k, members, shared, deadline) && SameBut(s, m, touched) && touched !! members
    requires k < |m.sessions| && m.sessions[k] == s.sessions[k]
    ensures Open(m, k, members, shared, deadline)
  {
    forall x | x in members ensures Connected(m.signers, x) {
      SameIdsConnected(s.signers, m.signers, x);
    }
    assert MembersOf(m, k) == MembersOf(s, k);
  }

  lemma OpenSecond(m: Coord, p: Setting, first: set<Id>, second: set<Id>, cur: Id) returns (r: Coord)
    requires Base(m, p) && Gathered(m, {}) && m.blacklist == [] && FreeSlot(m.sessions) == 1 && AllAsked(m, first)
    requires Open(m, 0, second, {}, SESSION_TIMEOUT) && cur in first && |first| == |second| == p.t && first !! second
    ensures Reaches(m, r) && TwoWait(r, p, first, second, cur)
  {
    r := OpenAllBut(m, p, first, cur, 0);
    StaysOpen(m, r, 0, second, {}, SESSION_TIMEOUT, first);
  }

  lemma OpenFirst(s: Coord, p: Setting, first: set<Id>, second: set<Id>) returns (m: Coord)
    requires Base(s, p) && Gathered(s, {}) && s.blacklist == [] && FreeSlot(s.sessions) == 0
    requires |second| == p.t && first !! second && AllAsked(s, first) && AllAsked(s, second)
    ensures Reaches(s, m) && Base(m, p) && Gathered(m, {}) && m.blacklist == [] && FreeSlot(m.sessions) == 1 &&
            AllAsked(m, first)
    ensures Open(m, 0, second, {}, SESSION_TIMEOUT)
  {
    m := OpenOf(s, p, second, 0);
    StillAsked(s, m, second, first);
    assert first - second == first;
  }

  lemma OpenTwo(s: Coord, p: Setting, first: set<Id>, second: set<Id>, cur: Id) returns (r: Coord)
    requires Base(s, p) && Gathered(s, {}) && s.blacklist == [] && FreeSlot(s.sessions) == 0
    requires cur in first && |first| == |second| == p.t && first !! second && AllAsked(s, first) && AllAsked(s, second)
    ensures Reaches(s, r) && TwoWait(r, p, first, second, cur)
  {
    var m := OpenFirst(s, p, first, second);
    r := OpenSecond(m, p, first, second, cur);
    ReachesOn(s, m, r);
  }

  /** What the unattributed failure of slot 1 does to a signer that is not in it. */
  lemma UnknownSigner(c: Coord, i: nat)
    requires |c.sessions| > 1 && c.blacklist == [] && InRange(c.sessions[1].members)
    requires i < |c.signers| && c.signers[i].id !in c.sessions[1].members && !c.signers[i].phase.NoKey?
    ensures var r := FailUnknown(c, 1);
            c.signers[i].id !in r.blacklist && r.signers[i] == Renew(c.signers[i], Init, c.tbs)
            && BanishAll(c.signers, c.sessions[1].members)[i] == c.signers[i]
  {
    AddAllBlacklistIs(c.blacklist, c.sessions[1].members);
  }

  /** After an unattributed failure nobody can be chosen before it commits again. */
  lemma UnknownGathers(c: Coord)
    requires |c.sessions| > 1
    ensures Gathered(FailUnknown(c, 1), {})
  {
    var r := FailUnknown(c, 1);
    forall x ensures !SelectableId(x, r) {
      forall i | 0 <= i < |r.signers| ensures !EligibleEither(r.signers[i], r.blacklist, r.strikes) {
        assert r.signers[i] == BroadcastTo(BanishAll(c.signers, c.sessions[1].members)[i], r.blacklist, c.tbs);
      }
    }
  }

  /** The last share of slot 1 arrives, and `aggregate` names nobody. */
  lemma FallIs(s: Coord, p: Setting, cur: Id)
    requires Base(s, p) && Active(s, 1) && s.sessions[1].nShares + 1 == p.t
    requires Routable(s, cur) && FindSession(s.sessions, s.signers[IndexOf(s.signers, cur)].sessionId) == 1
    ensures var c := StoreShare(s, cur, [9]);
            Reaches(s, FailUnknown(c, 1)) && Inv(FailUnknown(c, 1)) && c.sessions[1].members == s.sessions[1].members
  {
    var e := Share(cur, [9], Unknown, 0, true);
    FallStep(s, cur);
    ReachesOne(s, e);
    StepKeeps(s, e);
  }

  lemma FallStep(s: Coord, cur: Id)
    requires Inv(s) && !s.done && Active(s, 1) && s.sessions[1].nShares + 1 == s.t
    requires Routable(s, cur) && FindSession(s.sessions, s.signers[IndexOf(s.signers, cur)].sessionId) == 1
    ensures Step(s, Share(cur, [9], Unknown, 0, true)) == FailUnknown(StoreShare(s, cur, [9]), 1)
    ensures StoreShare(s, cur, [9]).sessions[1].members == s.sessions[1].members
  {
  }

  lemma SecondAsked(s: Coord, cur: Id, x: Id)
    requires Routable(s, cur) && FindSession(s.sessions, s.signers[IndexOf(s.signers, cur)].sessionId) == 1
    requires s.blacklist == [] && InRange(s.sessions[1].members) && x !in s.sessions[1].members && x != cur
    requires exists i :: 0 <= i < |s.signers| && s.signers[i].id == x && !s.signers[i].phase.NoKey?
    ensures Asked(FailUnknown(StoreShare(s, cur, [9]), 1), x)
    ensures var c := StoreShare(s, cur, [9]); var l := BanishAll(c.signers, c.sessions[1].members);
            exists i :: 0 <= i < |l| && l[i].id == x && !l[i].phase.NoKey?
  {
    var c := StoreShare(s, cur, [9]);
    var i :| 0 <= i < |s.signers| && s.signers[i].id == x && !s.signers[i].phase.NoKey?;
    assert c.signers[i] == s.signers[i];
    UnknownSigner(c, i);
    assert WaitsForCommit(FailUnknown(c, 1).signers[i]);
    assert BanishAll(c.signers, c.sessions[1].members)[i].id == x;
  }

  /** After the failure `second` are asked again although slot 0 still waits for them. */
  ghost predicate AskedAgain(r: Coord, p: Setting, second: set<Id>) {
    && Base(r, p) && Gathered(r, {}) && AllAsked(r, second) && |second| == p.t && FreeSlot(r.sessions) == 2
    && Active(r, 0) && MembersOf(r, 0) == second && NobodyShared(r.sessions[0])
  }

  lemma FallTable(s: Coord, cur: Id)
    requires Routable(s, cur) && FindSession(s.sessions, s.signers[IndexOf(s.signers, cur)].sessionId) == 1
    ensures var r := FailUnknown(StoreShare(s, cur, [9]), 1);
            FreeSlot(r.sessions) == FreeSlot(s.sessions) && r.sessions[0] == s.sessions[0] &&
              |r.sessions| == |s.sessions|
  {
    var c := StoreShare(s, cur, [9]);
    CloseSlot(s.sessions, 1, c.sessions[1]);
    CloseSlot(c.sessions, 1, c.sessions[1].(state := Failed));
  }

  /** Enough signers remain for the coordinator to go on. */
  lemma FallGoesOn(s: Coord, p: Setting, cur: Id, second: set<Id>)
    requires Base(s, p) && s.blacklist == [] && |second| == p.t && InRange(s.sessions[1].members)
    requires Routable(s, cur) && FindSession(s.sessions, s.signers[IndexOf(s.signers, cur)].sessionId) == 1
    requires forall x :: x in second ==> x !in s.sessions[1].members && x != cur
    requires forall x :: x in second ==> exists i ::
      0 <= i < |s.signers| && s.signers[i].id == x && !s.signers[i].phase.NoKey?
    ensures var r := FailUnknown(StoreShare(s, cur, [9]), 1); !r.done && AllAsked(r, second)
  {
    var c := StoreShare(s, cur, [9]);
    var l, bl := BanishAll(c.signers, c.sessions[1].members), AddAllBlacklist([], c.sessions[1].members);
    AddAllBlacklistIs([], c.sessions[1].members);
    forall x | x in second
      ensures Asked(FailUnknown(c, 1), x) && x !in bl && exists i :: 0 <= i < |l| && l[i].id == x && !l[i].phase.NoKey?
    {
      SecondAsked(s, cur, x);
    }
    RemainingAtLeast(l, bl, second);
  }

  lemma OpenMembers(s: Coord, k: nat, members: set<Id>, shared: set<Id>, deadline: int)
    requires Open(s, k, members, shared, deadline)
    ensures forall x :: x in members <==> x in s.sessions[k].members
    ensures forall x :: x in members ==> exists i ::
      0 <= i < |s.signers| && s.signers[i].id == x && !s.signers[i].phase.NoKey?
  {
    assert forall x :: x in MembersOf(s, k) <==> x in s.sessions[k].members;
    forall x | x in members ensures exists i ::
      0 <= i < |s.signers| && s.signers[i].id == x && !s.signers[i].phase.NoKey? {
      var i :| 0 <= i < |s.signers| && s.signers[i].id == x;
      assert !s.signers[i].phase.NoKey?;
    }
  }

  lemma FallAsks(s: Coord, p: Setting, first: set<Id>, second: set<Id>, cur: Id)
    requires TwoWait(s, p, first, second, cur)
    requires Routable(s, cur) && FindSession(s.sessions, s.signers[IndexOf(s.signers, cur)].sessionId) == 1
    ensures var r := FailUnknown(StoreShare(s, cur, [9]), 1); !r.done && AllAsked(r, second)
    ensures NobodyShared(s.sessions[0])
  {
    assert SessionOk(s.sessions[1], s.n, s.t);
    OpenMembers(s, 0, second, {}, SESSION_TIMEOUT);
    OpenMembers(s, 1, first, first - {cur}, SESSION_TIMEOUT);
    FallGoesOn(s, p, cur, second);
  }

  lemma Fall(s: Coord, p: Setting, first: set<Id>, second: set<Id>, cur: Id) returns (r: Coord)
    requires TwoWait(s, p, first, second, cur)
    ensures Reaches(s, r) && AskedAgain(r, p, second)
  {
    ShareRoutes(s, p, 1, first, first - {cur}, SESSION_TIMEOUT, cur);
    FallIs(s, p, cur);
    FallTable(s, cur);
    FallAsks(s, p, first, second, cur);
    UnknownGathers(StoreShare(s, cur, [9]));
    r := FailUnknown(StoreShare(s, cur, [9]), 1);
    assert MembersOf(r, 0) == MembersOf(s, 0);
  }

  /**
   For every n and t with 2 t <= n: a run in which one session fails without a culprit while another
   waits, and afterwards two sessions wait for the same members. The older one is abandoned.
   */
  lemma UnattributedFailureOverlaps(n: nat, t: int, tbs: Bytes, serial: nat, toMint: nat) returns (es: seq<Event>)
    requires 2 <= n && SizesOk(n, t) && Fits(t, 1, |tbs|) && 2 * t <= n
    ensures var s := Run(Start(n, t, tbs, serial, toMint), es); Abandoned(s, 0, 2) && !Disjoint(s)
  {
    var p := Setting(n, t, tbs, serial, toMint, {});
    var first, second := Upto(t), Upto(2 * t) - Upto(t);
    assert Upto(2 * t) == first + second;
    var s := RegisterAll(p, n);
    LeadsReach(Origin(p), s, p.faulty);
    var s1 := OpenTwo(s, p, first, second, t);
    var s2 := Fall(s1, p, first, second, t);
    var s3 := OverlapOf(s2, p, second);
    ReachesOn(Origin(p), s, s1);
    ReachesOn(Origin(p), s1, s2);
    ReachesOn(Origin(p), s2, s3);
    es :| Run(Origin(p), es) == s3;
  }

  lemma OverlapOf(s: Coord, p: Setting, second: set<Id>) returns (r: Coord)
    requires AskedAgain(s, p, second)
    ensures Reaches(s, r) && Abandoned(r, 0, 2) && !Disjoint(r)
  {
    r := OpenOf(s, p, second, 0);
    assert r.sessions[0] == s.sessions[0] && MembersOf(r, 0) == MembersOf(s, 0);
    IsAbandoned(r, p, 0, 2, second, SESSION_TIMEOUT);
  }
}
