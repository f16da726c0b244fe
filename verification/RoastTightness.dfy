/**
 How many sessions f faulty signers can spoil when the honest ones answer in time and nobody leaves a
 session that waits for it: one each if (f + 1) t <= n, and otherwise two each, but for those that are
 left when fewer than t signers remain. All of this up to the 64 slots of the table; all of it is
 reached. Hence the documented bound of n - t + 1 sessions holds for t >= 2 if and only if
 2 f <= n - t, and for t = 1 if and only if f < n.

 The run that reaches them times out as many full batches as fit (RoastBatches); what is left is
 spoiled one session at a time by bad shares. With more than n - t + 1 faulty signers they take turns
 (RoastCrowd).
 */
module RoastTightness {
  import opened Octets
  import opened Counting
  import opened Roast
  import opened RoastInvariant
  import opened RoastCoherence
  import opened RoastTermination
  import opened RoastPrompt
  import opened RoastProgress
  import opened RoastScenes
  import opened RoastBatches
  import opened RoastCrowd
  import opened RoastCap

  // ---------------------------------------------------------------- bad shares

  /** Slots below `a` failed; the faulty signers of the turns up to `b` can still be asked. */
  ghost predicate Between(s: Coord, p: Setting, f: nat, a: nat, b: nat, done: set<Id>) {
    && p.faulty == Upto(f) && f <= p.n && b <= 2 * f && b - a <= f
    && FreeSlot(s.sessions) == a && (forall j :: 0 <= j < a ==> s.sessions[j].state.Failed?)
    && done <= Honest(p.n, p.faulty) && Gathered(s, done) && AllAsked(s, Honest(p.n, p.faulty) - done)
    && forall e :: a <= e < b ==> Asked(s, CurOf(e, f))
  }

  /** A bad share completes the session: its sender is blacklisted, and nothing new forms. */
  lemma CulpritIs(s: Coord, p: Setting, k: nat, id: Id, now: int) returns (r: Coord)
    requires Base(s, p) && FaultInv(s, p.faulty) && Active(s, k) && s.sessions[k].nShares + 1 == p.t
    requires id in p.faulty && id in s.sessions[k].members
    requires Routable(s, id) && FindSession(s.sessions, s.signers[IndexOf(s.signers, id)].sessionId) == k
    requires Gathered(DropCulprit(StoreShare(s, id, [9]), k, id), {})
    ensures Leads(s, r, p.faulty) && FaultInv(r, p.faulty) && Inv(r)
    ensures var d := DropCulprit(StoreShare(s, id, [9]), k, id); r == d.(roastFail := r.roastFail)
  {
    var e, c := ShareOf(id, now, Culprit(id)), StoreShare(s, id, [9]);
    EveryFailureIsPaid(s, e, p.faulty);
    LeadsOne(s, e, p.faulty);
    CulpritEffect(s, p, k, id, now);
    r := Step(s, e);
  }

  lemma CulpritEffect(s: Coord, p: Setting, k: nat, id: Id, now: int)
    requires Base(s, p) && Active(s, k) && s.sessions[k].nShares + 1 == p.t && id in s.sessions[k].members
    requires Routable(s, id) && FindSession(s.sessions, s.signers[IndexOf(s.signers, id)].sessionId) == k
    requires Gathered(DropCulprit(StoreShare(s, id, [9]), k, id), {})
    ensures var d, r := DropCulprit(StoreShare(s, id, [9]), k, id), Step(s, ShareOf(id, now, Culprit(id)));
            r == d.(roastFail := r.roastFail)
  {
    var c := StoreShare(s, id, [9]);
    assert SessionOk(s.sessions[k], s.n, s.t);
    StoreShareKeeps(s, id, [9]);
    DropCulpritKeeps(c, k, id);
    NothingForms(DropCulprit(c, k, id), now);
    CulpritStep(s, c, k, id, now);
  }

  lemma NothingForms(d: Coord, now: int)
    requires Inv(d) && d.t >= 1 && Gathered(d, {})
    ensures MaybeForm(d, now, true) == d
  {
    GatheredCandidates(d, {});
    TooFewToForm(d, now, true);
  }

  lemma CulpritStep(s: Coord, c: Coord, k: nat, id: Id, now: int)
    requires Routable(s, id) && c == StoreShare(s, id, [9]) && k < |s.sessions| && 1 <= id <= MAX_SIGNERS
    requires FindSession(s.sessions, s.signers[IndexOf(s.signers, id)].sessionId) == k &&
             c.sessions[k].nShares >= c.t && !c.done
    requires MaybeForm(DropCulprit(c, k, id), now, true) == DropCulprit(c, k, id)
    ensures var r := Step(s, ShareOf(id, now, Culprit(id))); r == DropCulprit(c, k, id).(roastFail := r.roastFail)
  {
  }

  /** What the bad share of `cur` does: its session fails, `cur` is out, the others are asked. */
  lemma BadShareSlot(m: Coord, p: Setting, k: nat, helpers: set<Id>, cur: Id, deadline: int)
    requires Base(m, p) && Open(m, k, helpers + {cur}, helpers, deadline) && cur !in helpers && Gathered(m, {})
    ensures Routable(m, cur) && FindSession(m.sessions, m.signers[IndexOf(m.signers, cur)].sessionId) == k
    ensures var d := DropCulprit(StoreShare(m, cur, [9]), k, cur);
            && |d.sessions| == |m.sessions| && FreeSlot(d.sessions) == FreeSlot(m.sessions) &&
               d.sessions[k].state.Failed?
            && (forall j :: 0 <= j < |m.sessions| && j != k ==> d.sessions[j] == m.sessions[j])
  {
    StoredShareSlot(m, p, k, helpers + {cur}, helpers, deadline, cur);
    var c := StoreShare(m, cur, [9]);
    CloseSlot(c.sessions, k, c.sessions[k].(state := Failed));
  }

  lemma BadShareGathers(m: Coord, k: nat, cur: Id)
    requires Inv(m) && Gathered(m, {}) && k < |m.sessions| && 1 <= cur <= MAX_SIGNERS
    requires Routable(m, cur) && FindSession(m.sessions, m.signers[IndexOf(m.signers, cur)].sessionId) == k
    ensures Gathered(DropCulprit(StoreShare(m, cur, [9]), k, cur), {})
  {
    var c := StoreShare(m, cur, [9]);
    var d := DropCulprit(c, k, cur);
    StoreShareShrinks(m, cur, [9]);
    DropCulpritShrinks(c, k, cur);
    ShrinkSubset(m, c);
    ShrinkSubset(c, d);
    GatheredCandidates(m, {});
    forall x ensures !SelectableId(x, d) {
      CandidateOffers(d, x);
    }
  }

  /** The sender of the bad share is out; its fellow members are asked again; nobody else notices. */
  lemma BadShareSigner(m: Coord, k: nat, cur: Id, i: nat)
    requires Routable(m, cur) && FindSession(m.sessions, m.signers[IndexOf(m.signers, cur)].sessionId) == k
    requires i < |m.signers| && m.signers[i].id != cur && m.signers[i].id !in m.blacklist
    ensures var d, sg := DropCulprit(StoreShare(m, cur, [9]), k, cur), m.signers[i];
            && i < |d.signers| && sg.id !in d.blacklist
            && d.signers[i] == if sg.id in m.sessions[k].members then Renew(sg, Init, m.tbs) else sg
  {
    var c := StoreShare(m, cur, [9]);
    assert c.signers[i] == m.signers[i];
    assert DropCulprit(c, k, cur).signers[i] == AfterCulprit(c.signers[i], m.sessions[k].members, cur, m.tbs);
  }

  lemma BadShareAsks(m: Coord, r: Coord, k: nat, cur: Id, x: Id)
    requires Routable(m, cur) && FindSession(m.sessions, m.signers[IndexOf(m.signers, cur)].sessionId) == k
    requires r == DropCulprit(StoreShare(m, cur, [9]), k, cur).(roastFail := r.roastFail)
    requires x != cur && (Asked(m, x) || (x in m.sessions[k].members && x !in m.blacklist && Connected(m.signers, x)))
    ensures Asked(r, x)
  {
    var i :| 0 <= i < |m.signers| && m.signers[i].id == x &&
      (x in m.sessions[k].members || WaitsForCommit(m.signers[i]));
    BadShareSigner(m, k, cur, i);
    assert WaitsForCommit(r.signers[i]);
  }

  /** The bad share of `cur` was the answer to the session that opened last. */
  ghost predicate Aborted(s: Coord, m: Coord, r: Coord, p: Setting, helpers: set<Id>, cur: Id, deadline: int) {
    var k := FreeSlot(s.sessions);
    && Opened(s, m, helpers + {cur}, helpers, deadline) && cur !in helpers
    && Routable(m, cur) && FindSession(m.sessions, m.signers[IndexOf(m.signers, cur)].sessionId) == k
    && r == DropCulprit(StoreShare(m, cur, [9]), k, cur).(roastFail := r.roastFail)
  }

  lemma StillAskedAfter(s: Coord, m: Coord, r: Coord, p: Setting, helpers: set<Id>, cur: Id, deadline: int, x: Id)
    requires Aborted(s, m, r, p, helpers, cur, deadline) && x != cur
    requires Asked(s, x) || (x in helpers && x !in m.blacklist)
    ensures Asked(r, x)
  {
    var k := FreeSlot(s.sessions);
    if x in helpers {
      assert x in MembersOf(m, k) && Connected(m.signers, x);
    } else {
      OneStillAsked(s, m, helpers + {cur}, x);
    }
    BadShareAsks(m, r, k, cur, x);
  }

  lemma AbortedTable(s: Coord, m: Coord, r: Coord, p: Setting, a: nat, helpers: set<Id>, cur: Id, deadline: int)
    requires Base(m, p) && Gathered(m, {}) && Aborted(s, m, r, p, helpers, cur, deadline)
    requires FreeSlot(s.sessions) == a && forall j :: 0 <= j < a ==> s.sessions[j].state.Failed?
    ensures FreeSlot(r.sessions) == a + 1 && forall j :: 0 <= j < a + 1 ==> r.sessions[j].state.Failed?
  {
    BadShareSlot(m, p, a, helpers, cur, deadline);
  }

  /** After the bad share the stage is set for the next turn. */
  lemma AbortedBetween(s: Coord, m: Coord, r: Coord, p: Setting, f: nat, a: nat, b: nat, done: set<Id>,
                       helpers: set<Id>, deadline: int)
    requires Between(s, p, f, a, b, done) && a < b && done <= helpers <= Honest(p.n, p.faulty)
    requires Base(m, p) && Gathered(m, {}) && HonestUnharmed(m, p.faulty) &&
             Aborted(s, m, r, p, helpers, CurOf(a, f), deadline)
    requires Gathered(r, {})
    ensures Between(r, p, f, a + 1, b, {})
  {
    AbortedTable(s, m, r, p, a, helpers, CurOf(a, f), deadline);
    AbortedHonest(s, m, r, p, f, a, b, done, helpers, deadline);
    AbortedTurns(s, m, r, p, f, a, b, done, helpers, deadline);
  }

  lemma AbortedHonest(s: Coord, m: Coord, r: Coord, p: Setting, f: nat, a: nat, b: nat, done: set<Id>,
                      helpers: set<Id>, deadline: int)
    requires Between(s, p, f, a, b, done) && a < b && done <= helpers <= Honest(p.n, p.faulty)
    requires HonestUnharmed(m, p.faulty) && Aborted(s, m, r, p, helpers, CurOf(a, f), deadline)
    ensures AllAsked(r, Honest(p.n, p.faulty) - {})
  {
    assert CurOf(a, f) in Upto(f);
    forall x | x in Honest(p.n, p.faulty) ensures Asked(r, x) {
      StillAskedAfter(s, m, r, p, helpers, CurOf(a, f), deadline, x);
    }
  }

  lemma AbortedTurns(s: Coord, m: Coord, r: Coord, p: Setting, f: nat, a: nat, b: nat, done: set<Id>, helpers: set<Id>,
                     deadline: int)
    requires Between(s, p, f, a, b, done) && a < b && Aborted(s, m, r, p, helpers, CurOf(a, f), deadline)
    ensures forall e :: a + 1 <= e < b ==> Asked(r, CurOf(e, f))
  {
    forall e | a + 1 <= e < b ensures Asked(r, CurOf(e, f)) {
      TurnsApart(a, e, f);
      StillAskedAfter(s, m, r, p, helpers, CurOf(a, f), deadline, CurOf(e, f));
    }
  }

  lemma FlagGathered(d: Coord, r: Coord)
    requires Gathered(d, {}) && r == d.(roastFail := r.roastFail)
    ensures Gathered(r, {})
  {
    forall x ensures !SelectableId(x, r) {
      assert !SelectableId(x, d);
    }
  }

  /** The member that is missing sends a bad share. */
  lemma SendBadShare(s: Coord, m: Coord, p: Setting, helpers: set<Id>, cur: Id, now: int) returns (r: Coord)
    requires Base(m, p) && FaultInv(m, p.faulty) && Gathered(m, {}) && cur in p.faulty && cur !in helpers &&
             |helpers| == p.t - 1
    requires Opened(s, m, helpers + {cur}, helpers, now + SESSION_TIMEOUT)
    ensures Leads(m, r, p.faulty) && Base(r, p) && Gathered(r, {}) &&
            Aborted(s, m, r, p, helpers, cur, now + SESSION_TIMEOUT)
  {
    var k := FreeSlot(s.sessions);
    BadShareSlot(m, p, k, helpers, cur, now + SESSION_TIMEOUT);
    assert cur in MembersOf(m, k) && SessionOk(m.sessions[k], m.n, m.t);
    BadShareGathers(m, k, cur);
    r := CulpritIs(m, p, k, cur, now);
    FlagGathered(DropCulprit(StoreShare(m, cur, [9]), k, cur), r);
  }

  /** Turn `a` is spent on a bad share. */
  lemma AbortNext(s: Coord, p: Setting, f: nat, a: nat, b: nat, done: set<Id>, now: int) returns (r: Coord)
    requires Reached(s, p) && Between(s, p, f, a, b, done) && a < b && a < MAX_SESSIONS
    requires |done| < p.t && p.t - 1 <= |Honest(p.n, p.faulty)|
    ensures Reached(r, p) && Between(r, p, f, a + 1, b, {})
  {
    var cur := CurOf(a, f);
    ReachedBase(s, p);
    assert cur in Upto(f) && Asked(s, cur);
    var m, helpers := OpenAndShare(s, p, Honest(p.n, p.faulty), done, cur, now);
    ReachedOn(s, m, p);
    ReachedBase(m, p);
    r := SendBadShare(s, m, p, helpers, cur, now);
    AbortedBetween(s, m, r, p, f, a, b, done, helpers, now + SESSION_TIMEOUT);
    ReachedOn(m, r, p);
  }

  ghost predicate AbortScene(s: Coord, p: Setting, f: nat, a: nat, b: nat, done: set<Id>) {
    forall x {:trigger Look(x)} :: Look(x) && x == s ==> Reached(x, p) && Between(x, p, f, a, b, done) && |done| < p.t
  }

  /** A state after `a` failures can be reached in which the turns up to `b` are still to come. */
  ghost predicate CanAbort(p: Setting, f: nat, a: nat, b: nat) {
    exists s, done :: AbortScene(s, p, f, a, b, done)
  }

  lemma AbortOne(p: Setting, f: nat, a: nat, b: nat, now: int)
    requires CanAbort(p, f, a, b) && a < b && a < MAX_SESSIONS && p.t - 1 <= |Honest(p.n, p.faulty)|
    ensures CanAbort(p, f, a + 1, b)
  {
    var s, done :| AbortScene(s, p, f, a, b, done);
    assert Look(s);
    var r := AbortNext(s, p, f, a, b, done, now);
    assert AbortScene(r, p, f, a + 1, b, {});
  }

  lemma {:induction false} AbortMany(p: Setting, f: nat, a: nat, b: nat, now: int)
    requires CanAbort(p, f, a, b) && a <= b <= MAX_SESSIONS && p.t - 1 <= |Honest(p.n, p.faulty)|
    ensures CanAbort(p, f, b, b)
    decreases b - a
  {
    if a < b {
      AbortOne(p, f, a, b, now);
      AbortMany(p, f, a + 1, b, now);
    }
  }

  // ---------------------------------------------------------------- batches, then bad shares

  /** With no session waiting, the signers whose turns come next are asked. */
  lemma LayoutBetween(s: Coord, p: Setting, f: nat, a: nat, b: nat, pool: set<Id>, done: set<Id>, deadline: int)
    requires Base(s, p) && FaultInv(s, p.faulty) && Layout(s, p, f, a, a, pool, done, deadline)
    requires a <= b <= 2 * f && b - a <= f
    ensures Between(s, p, f, a, b, done)
  {
    EveryoneBack(s, p, f, a, pool, done, deadline, deadline);
    forall e | a <= e < b ensures Asked(s, CurOf(e, f)) {
      TurnToCome(a, e, f);
      assert !TurnBetween(f, a, a, CurOf(e, f));
    }
  }

  lemma ParkThenAbort(p: Setting, f: nat, a: nat, b: nat, size: int, deadline: int)
    requires CanPark(p, f, a, a, size, deadline) && a <= b <= 2 * f && b - a <= f
    ensures CanAbort(p, f, a, b)
  {
    var s, pool, done :| Scene(s, p, f, a, a, pool, done, size, deadline);
    assert Look(s);
    ReachedBase(s, p);
    LayoutBetween(s, p, f, a, b, pool, done, deadline);
    assert AbortScene(s, p, f, a, b, done);
  }

  lemma BeginsLayout(s: Coord, p: Setting, f: nat, honest: set<Id>, deadline: int)
    requires Registered(s, p, p.n) && p.faulty == Upto(f) && f <= p.n && honest == Honest(p.n, p.faulty)
    ensures Layout(s, p, f, 0, 0, honest, {}, deadline)
  {
    assert honest - {} == honest;
    assert HonestPlaced(s, p, 0, 0, honest, {});
    assert FaultyPlaced(s, f, 0, 0);
  }

  /** After registration. */
  lemma CanBegin(p: Setting, f: nat, deadline: int)
    requires SettingOk(p) && p.faulty == Upto(f) && f <= p.n
    ensures CanPark(p, f, 0, 0, |Honest(p.n, p.faulty)|, deadline)
  {
    var s := RegisterAll(p, p.n);
    var honest := Honest(p.n, p.faulty);
    BeginsLayout(s, p, f, honest, deadline);
    assert Scene(s, p, f, 0, 0, honest, {}, |honest|, deadline);
  }

  /** `g` sessions side by side leave `left` < t honest signers over. */
  predicate BatchSize(n: nat, t: int, f: nat, g: nat, left: nat) {
    1 <= g <= f && n - f == left + Helpers(t, g) && left < t
  }

  lemma HasBatchSize(n: nat, t: int, f: nat) returns (g: nat, left: nat)
    requires 1 <= t <= n && 1 <= f <= n - t + 1 && n < (f + 1) * t
    ensures BatchSize(n, t, f, g, left)
  {
    if t == 1 {
      g, left := 1, 0;
    } else {
      g, left := Divides(n - f, t - 1);
      if g > f {
        g, left := f, n - f - f * (t - 1);
        Distributes(f, t);
      }
    }
    HelpersIs(t, g);
  }

  lemma Divides(h: nat, d: nat) returns (q: nat, r: nat)
    requires 1 <= d <= h
    ensures h == r + q * d && r < d && q >= 1
    ensures forall k: nat :: k <= q ==> k * d <= h
  {
    q, r := h / d, h % d;
    forall k: nat | k <= q ensures k * d <= h {
      assert k * d <= q * d;
    }
  }

  lemma Distributes(f: nat, t: int)
    ensures f * (t - 1) == f * t - f && (f + 1) * t == f * t + t
  {
  }

  lemma HonestSize(n: nat, f: nat)
    requires f <= n
    ensures |Honest(n, Upto(f))| == n - f
  {
    assert Upto(n) == Honest(n, Upto(f)) + Upto(f);
  }

  /** The clock of slot `a`: sessions opened from there on time out at this time. */
  function ClockAt(a: nat): int {
    SESSION_TIMEOUT * (a + 1)
  }

  /** No session waits, `a` have failed, and everyone honest is at hand. */
  ghost predicate CanPause(p: Setting, f: nat, a: nat) {
    p.faulty == Upto(f) && CanPark(p, f, a, a, |Honest(p.n, p.faulty)|, ClockAt(a))
  }

  lemma OneBatch(p: Setting, f: nat, a: nat, g: nat, left: nat)
    requires CanPause(p, f, a) && p.t >= 1 && |Honest(p.n, p.faulty)| == left + Helpers(p.t, g) && left < p.t
    requires a + g <= 2 * f && g <= f && a + g <= MAX_SESSIONS
    ensures CanPause(p, f, a + g)
  {
    ParkMany(p, f, a, ClockAt(a), g, left);
    Batch(p, f, a, a + g, left, ClockAt(a), ClockAt(a + g));
  }

  /** In steps of `g` as far as they fit. */
  lemma {:induction false} InSteps(can: nat -> bool, a: nat, g: nat, rounds: nat) returns (b: nat)
    requires can(a) && g >= 1 && a <= rounds && forall k: nat :: can(k) && k + g <= rounds ==> can(k + g)
    ensures can(b) && b <= rounds < b + g
    decreases rounds - a
  {
    if a + g <= rounds {
      b := InSteps(can, a + g, g, rounds);
    } else {
      b := a;
    }
  }

  lemma BatchByBatch(p: Setting, f: nat, g: nat, left: nat, rounds: nat)
    requires |Honest(p.n, p.faulty)| == left + Helpers(p.t, g) && left < p.t && g <= f && rounds <= 2 * f &&
             rounds <= MAX_SESSIONS
    ensures forall k: nat :: CanPause(p, f, k) && k + g <= rounds ==> CanPause(p, f, k + g)
  {
    forall k: nat | CanPause(p, f, k) && k + g <= rounds ensures CanPause(p, f, k + g) {
      OneBatch(p, f, k, g, left);
    }
  }

  lemma Batches(p: Setting, f: nat, g: nat, left: nat, rounds: nat) returns (b: nat)
    requires SettingOk(p) && p.faulty == Upto(f) && f <= p.n && BatchSize(p.n, p.t, f, g, left)
    requires rounds <= 2 * f && rounds <= MAX_SESSIONS
    ensures CanPause(p, f, b) && b <= rounds < b + g
  {
    CanBegin(p, f, ClockAt(0));
    HonestSize(p.n, f);
    BatchByBatch(p, f, g, left, rounds);
    b := InSteps((k: nat) => CanPause(p, f, k), 0, g, rounds);
  }

  lemma Rounds(p: Setting, f: nat, rounds: nat)
    requires SettingOk(p) && p.faulty == Upto(f) && f <= p.n - p.t + 1 && rounds <= MAX_SESSIONS
    requires rounds <= if p.n < (f + 1) * p.t then 2 * f else f
    ensures CanAbort(p, f, rounds, rounds)
  {
    var b := 0;
    if 1 <= f && p.n < (f + 1) * p.t {
      var g, left := HasBatchSize(p.n, p.t, f);
      b := Batches(p, f, g, left, rounds);
    } else {
      CanBegin(p, f, ClockAt(0));
    }
    ParkThenAbort(p, f, b, rounds, |Honest(p.n, p.faulty)|, ClockAt(b));
    HonestSize(p.n, f);
    AbortMany(p, f, b, rounds, ClockAt(b));
  }

  // ---------------------------------------------------------------- exact bounds

  lemma {:induction false} CountFailed(ss: seq<Session>, a: nat)
    requires a <= |ss| && forall j :: 0 <= j < |ss| ==> (ss[j].state.Failed? <==> j < a)
    ensures FailedCount(ss) == a
  {
    if ss != [] {
      var init := ss[..|ss| - 1];
      CountFailed(init, if a < |ss| then a else a - 1);
    }
  }

  /** A reached state with `rounds` failed sessions, and none that waits. */
  lemma FailuresCanBe(p: Setting, f: nat, rounds: nat) returns (s: Coord)
    requires SettingOk(p) && p.faulty == Upto(f) && f <= p.n && rounds <= Most(p.n, p.t, f)
    ensures Reached(s, p) && FreeSlot(s.sessions) == rounds && forall j :: 0 <= j < rounds ==>
      s.sessions[j].state.Failed?
  {
    if f <= p.n - p.t + 1 {
      Rounds(p, f, rounds);
      var done;
      s, done :| AbortScene(s, p, f, rounds, rounds, done);
      assert Look(s);
    } else {
      s := CrowdFails(p, f, rounds);
    }
  }

  /** A run in which exactly `rounds` sessions fail for one message, and then none waits. */
  lemma FailuresReached(p: Setting, f: nat, rounds: nat) returns (es: seq<Event>)
    requires SettingOk(p) && p.faulty == Upto(f) && f <= p.n && rounds <= Most(p.n, p.t, f)
    ensures PromptRun(Origin(p), es, p.faulty)
    ensures var s := Run(Origin(p), es);
            FailedCount(s.sessions) == rounds && FreeSlot(s.sessions) == rounds && s.tbs == p.tbs && !s.done
    ensures rounds == MAX_SESSIONS ==> Exhausted(Run(Origin(p), es))
  {
    var s := FailuresCanBe(p, f, rounds);
    ReachedBase(s, p);
    es := LeadsIsRun(Origin(p), s, p.faulty);
    OnlyFailures(s, rounds);
  }

  lemma OnlyFailures(s: Coord, a: nat)
    requires SessionsOk(s) && FreeSlot(s.sessions) == a && forall j :: 0 <= j < a ==> s.sessions[j].state.Failed?
    ensures FailedCount(s.sessions) == a
  {
    forall j | a <= j < |s.sessions| ensures s.sessions[j].state.Empty? {
      assert s.sessions[a].state.Empty?;
    }
    CountFailed(s.sessions, a);
  }

  /**
   What f faulty signers can spoil: if the honest ones cannot go on without them, twice each while t signers remain.
   */
  function Most(n: nat, t: int, f: nat): nat
    requires t <= n
  {
    var m := if (f + 1) * t <= n then f else f + if f < n - t + 1 then f else n - t + 1;
    if m < MAX_SESSIONS then m else MAX_SESSIONS
  }

  /**
   Some run with f faulty signers out of n and prompt honest ones leaves `r` failed sessions for the current message.
   */
  ghost predicate CanSpoil(n: nat, t: int, tbs: Bytes, serial: nat, toMint: nat, f: nat, r: nat) {
    exists faulty, es :: |faulty| == f && faulty <= Upto(n) && PromptRun(Start(n, t, tbs, serial, toMint), es, faulty)
                         && FailedCount(Run(Start(n, t, tbs, serial, toMint), es).sessions) == r
  }

  lemma {:induction false} FailedAtMost(ss: seq<Session>)
    ensures FailedCount(ss) <= |ss|
  {
    if ss != [] {
      FailedAtMost(ss[..|ss| - 1]);
    }
  }

  lemma MostIsUpper(n: nat, t: int, tbs: Bytes, serial: nat, toMint: nat, faulty: set<Id>, es: seq<Event>)
    requires SizesOk(n, t) && faulty <= Upto(n) && PromptRun(Start(n, t, tbs, serial, toMint), es, faulty)
    ensures FailedCount(Run(Start(n, t, tbs, serial, toMint), es).sessions) <= Most(n, t, |faulty|)
  {
    RunPrompt(n, t, tbs, serial, toMint, es, faulty);
    FailedAtMost(Run(Start(n, t, tbs, serial, toMint), es).sessions);
    if (|faulty| + 1) * t <= n {
      AtMostOneFailurePerFaultySigner(n, t, tbs, serial, toMint, es, faulty);
    } else {
      PromptIsFault(Start(n, t, tbs, serial, toMint), es, faulty);
      FailedInTable(n, t, tbs, serial, toMint, es, faulty);
      CrowdBound(n, t, tbs, serial, toMint, es, faulty);
    }
  }

  /** The number of failures per message takes every value up to `Most`, and none above. */
  lemma CanSpoilIff(n: nat, t: int, tbs: Bytes, serial: nat, toMint: nat, f: nat, r: nat)
    requires 2 <= n && SizesOk(n, t) && f <= n && Fits(t, 1, |tbs|)
    ensures CanSpoil(n, t, tbs, serial, toMint, f, r) <==> r <= Most(n, t, f)
  {
    if r <= Most(n, t, f) {
      var p := Setting(n, t, tbs, serial, toMint, Upto(f));
      var es := FailuresReached(p, f, r);
      assert |p.faulty| == f && p.faulty <= Upto(n);
    }
    if CanSpoil(n, t, tbs, serial, toMint, f, r) {
      var faulty, es :| |faulty| == f && faulty <= Upto(n) && PromptRun(Start(n, t, tbs, serial, toMint), es, faulty)
                        && FailedCount(Run(Start(n, t, tbs, serial, toMint), es).sessions) == r;
      MostIsUpper(n, t, tbs, serial, toMint, faulty, es);
    }
  }

  /** The documented bound: with at most f faulty signers, the failed sessions and one more are at most n - t + 1. */
  ghost predicate DocumentedBound(n: nat, t: int, tbs: Bytes, serial: nat, toMint: nat, f: nat) {
    forall faulty, es :: |faulty| <= f && PromptRun(Start(n, t, tbs, serial, toMint), es, faulty) ==>
      FailedCount(Run(Start(n, t, tbs, serial, toMint), es).sessions) + 1 <= n - t + 1
  }

  predicate FewEnough(n: nat, t: int, f: nat) {
    if t == 1 then f < n else 2 * f <= n - t
  }

  lemma DocumentedBoundHolds(n: nat, t: int, tbs: Bytes, serial: nat, toMint: nat, f: nat)
    requires SizesOk(n, t) && FewEnough(n, t, f)
    ensures DocumentedBound(n, t, tbs, serial, toMint, f)
  {
    forall faulty, es | |faulty| <= f && PromptRun(Start(n, t, tbs, serial, toMint), es, faulty)
      ensures FailedCount(Run(Start(n, t, tbs, serial, toMint), es).sessions) + 1 <= n - t + 1
    {
      if t == 1 {
        AtMostOneFailurePerFaultySigner(n, t, tbs, serial, toMint, es, faulty);
      } else {
        PromptIsFault(Start(n, t, tbs, serial, toMint), es, faulty);
        FailedInTable(n, t, tbs, serial, toMint, es, faulty);
      }
    }
  }

  /** So many faulty signers are enough to spoil n - t + 1 sessions. */
  lemma EnoughFaulty(n: nat, t: int, f: nat) returns (k: nat)
    requires 2 <= n && SizesOk(n, t) && !FewEnough(n, t, f)
    ensures k <= f && k <= n - t + 1 && n < (k + 1) * t && n - t + 1 <= 2 * k
  {
    if t == 1 {
      k := n;
    } else {
      k := (n - t + 2) / 2;
      TwiceEnough(n, t, k);
    }
  }

  lemma TwiceEnough(n: int, t: int, k: int)
    requires 2 <= t <= n && n - t + 1 <= 2 * k
    ensures n < (k + 1) * t
  {
    AtLeastOnce(t - 2, k + 1);
    assert (k + 1) * t == 2 * (k + 1) + (t - 2) * (k + 1);
  }

  /** The documented bound holds exactly when the faulty signers are few enough, for every n, t and f. */
  lemma DocumentedBoundIff(n: nat, t: int, tbs: Bytes, serial: nat, toMint: nat, f: nat)
    requires 2 <= n && SizesOk(n, t) && Fits(t, 1, |tbs|)
    ensures DocumentedBound(n, t, tbs, serial, toMint, f) <==> FewEnough(n, t, f)
  {
    if FewEnough(n, t, f) {
      DocumentedBoundHolds(n, t, tbs, serial, toMint, f);
    } else {
      var k := EnoughFaulty(n, t, f);
      var p := Setting(n, t, tbs, serial, toMint, Upto(k));
      var es := FailuresReached(p, k, n - t + 1);
      assert |p.faulty| <= f;
    }
  }

  /** Some run with f faulty signers out of n and prompt honest ones ends with a full table of failures. */
  ghost predicate CanExhaust(n: nat, t: int, tbs: Bytes, serial: nat, toMint: nat, f: nat) {
    exists faulty, es :: |faulty| == f && faulty <= Upto(n) && PromptRun(Start(n, t, tbs, serial, toMint), es, faulty)
                         && Exhausted(Run(Start(n, t, tbs, serial, toMint), es))
  }

  lemma ExhaustedCount(s: Coord)
    requires Exhausted(s)
    ensures FailedCount(s.sessions) == MAX_SESSIONS
  {
    CountFailed(s.sessions, |s.sessions|);
  }

  /** The table runs out in some run exactly when the faulty signers can spoil 64 sessions. */
  lemma CanExhaustIff(n: nat, t: int, tbs: Bytes, serial: nat, toMint: nat, f: nat)
    requires 2 <= n && SizesOk(n, t) && f <= n && Fits(t, 1, |tbs|)
    ensures CanExhaust(n, t, tbs, serial, toMint, f) <==> Most(n, t, f) == MAX_SESSIONS
  {
    if Most(n, t, f) == MAX_SESSIONS {
      var p := Setting(n, t, tbs, serial, toMint, Upto(f));
      var es := FailuresReached(p, f, MAX_SESSIONS);
      assert |p.faulty| == f && p.faulty <= Upto(n);
    }
    if CanExhaust(n, t, tbs, serial, toMint, f) {
      var faulty, es :| |faulty| == f && faulty <= Upto(n) && PromptRun(Start(n, t, tbs, serial, toMint), es, faulty)
                        && Exhausted(Run(Start(n, t, tbs, serial, toMint), es));
      ExhaustedCount(Run(Start(n, t, tbs, serial, toMint), es));
      MostIsUpper(n, t, tbs, serial, toMint, faulty, es);
    }
  }

  /** Spelled out: n is small for f, and f or n - t + 1 on top of f make 64. */
  lemma ExhaustionThreshold(n: nat, t: int, f: nat)
    requires SizesOk(n, t) && f <= n
    ensures Most(n, t, f) == MAX_SESSIONS <==>
            n < (f + 1) * t && 2 * f >= MAX_SESSIONS && f + (n - t + 1) >= MAX_SESSIONS
  {
    AtLeastOnce(f + 1, t);
  }
}
