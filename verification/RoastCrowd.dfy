/**
 More than n - t + 1 faulty signers: fewer than t - 1 are honest, so every session has several faulty
 members. They take turns being silent, one session after the other, while the rest of them helps out.
 Each can do so twice, until fewer than t signers are left: f + (n - t + 1) sessions fail.
 */
module RoastCrowd {
  import opened Counting
  import opened Roast
  import opened RoastInvariant
  import opened RoastTermination
  import opened RoastPrompt
  import opened RoastProgress
  import opened RoastScenes
  import opened RoastBatches

  // ---------------------------------------------------------------- the stage

  /** Strikes say whose turn it was, and only two of them exclude. */
  ghost predicate Ledger(s: Coord, f: nat, a: nat) {
    && (forall x :: 1 <= x <= f ==> Strikes(s.strikes, x) == Turns(a, f, x))
    && (forall x :: x in s.blacklist ==> Strikes(s.strikes, x) >= MAX_STRIKES)
  }

  /** No session waits, `a` have failed, `done` have committed, and everyone else who is trusted is asked. */
  ghost predicate Crowd(s: Coord, p: Setting, f: nat, a: nat, done: set<Id>, deadline: int) {
    && p.faulty == Upto(f) && f <= p.n && a <= 2 * f
    && Table(s, f, a, a, deadline) && Ledger(s, f, a)
    && done <= Honest(p.n, p.faulty) && Gathered(s, done)
    && (forall x {:trigger Asked(s, x)} :: 1 <= x <= p.n && x !in done && x !in s.blacklist ==> Asked(s, x))
  }

  /** Slot `a` lacks one share only; the honest signers outside it have committed. */
  ghost predicate Ripe(s: Coord, p: Setting, f: nat, a: nat, rest: set<Id>, deadline: int) {
    && p.faulty == Upto(f) && f <= p.n && a < 2 * f
    && Table(s, f, a, a + 1, deadline) && Ledger(s, f, a)
    && rest <= Honest(p.n, p.faulty) && Gathered(s, rest)
    && (forall x :: x in Honest(p.n, p.faulty) && x !in rest ==> HeldAt(s, a, x))
    && (forall x {:trigger Asked(s, x)} :: 1 <= x <= p.n && x !in rest && x !in s.blacklist ==>
          Asked(s, x) || HeldAt(s, a, x))
  }

  // ---------------------------------------------------------------- who can help

  /** Everyone who is trusted, but for the one whose turn it is. */
  function Helping(s: Coord, n: nat, cur: Id): set<Id> {
    set x | x in Upto(n) && x !in s.blacklist && x != cur
  }

  lemma EnoughHelp(s: Coord, p: Setting, f: nat, a: nat, cur: Id)
    requires Ledger(s, f, a) && HonestUnharmed(s, Upto(f)) && f <= p.n && a <= f + p.n - p.t && 1 <= p.t <= p.n
    ensures |Helping(s, p.n, cur)| >= p.t - 1
  {
    var gone := if a <= f then 0 else a - f;
    forall x | x in Upto(p.n) ensures x in Helping(s, p.n, cur) + Upto(gone) + {cur} {
      if x in s.blacklist {
        assert x in Upto(f) && Turns(a, f, x) >= MAX_STRIKES;
      }
    }
    Covers(Helping(s, p.n, cur), Upto(gone), cur, Upto(p.n));
  }

  lemma Covers(a: set<Id>, b: set<Id>, c: Id, all: set<Id>)
    requires all <= a + b + {c}
    ensures |all| <= |a| + |b| + 1
  {
    CardMonotone(all, a + b + {c});
  }

  lemma TurnIsOpen(s: Coord, p: Setting, f: nat, a: nat, done: set<Id>, deadline: int)
    requires Crowd(s, p, f, a, done, deadline) && a < 2 * f
    ensures Asked(s, CurOf(a, f)) && CurOf(a, f) in Upto(f) && CurOf(a, f) !in done
  {
    TurnToCome(a, a, f);
    assert CurOf(a, f) in Upto(f);
  }

  // ---------------------------------------------------------------- one session

  lemma CrowdOpens(s: Coord, p: Setting, f: nat, a: nat, done: set<Id>, deadline: int)
      returns (m: Coord, helpers: set<Id>)
    requires Reached(s, p) && Crowd(s, p, f, a, done, deadline) && a < 2 * f && a < MAX_SESSIONS && a <= f + p.n - p.t
    requires |done| < p.t
    ensures Leads(s, m, p.faulty) && Base(m, p) && Gathered(m, {}) && done <= helpers && CurOf(a, f) !in helpers
    ensures Opened(s, m, helpers + {CurOf(a, f)}, helpers, deadline) && Table(m, f, a, a + 1, deadline)
  {
    var cur := CurOf(a, f);
    ReachedBase(s, p);
    TurnIsOpen(s, p, f, a, done, deadline);
    EnoughHelp(s, p, f, a, cur);
    var pool := Helping(s, p.n, cur);
    forall x | x in pool - done ensures Asked(s, x) {
    }
    m, helpers := OpenAndShare(s, p, pool, done, cur, deadline - SESSION_TIMEOUT);
    ParkedTable(s, m, f, a, a, helpers, deadline);
  }

  /** The honest signers that are left over commit; they are too few for a session. */
  lemma CrowdCommits(s: Coord, m: Coord, p: Setting, f: nat, a: nat, done: set<Id>, helpers: set<Id>, deadline: int,
                     rest: set<Id>)
      returns (r: Coord)
    requires Crowd(s, p, f, a, done, deadline) && a < 2 * f && done <= helpers &&
             rest == Honest(p.n, p.faulty) - helpers
    requires Base(m, p) && Gathered(m, {}) && HonestUnharmed(s, p.faulty) && CurOf(a, f) !in helpers && |rest| < p.t
    requires Opened(s, m, helpers + {CurOf(a, f)}, helpers, deadline) && Table(m, f, a, a + 1, deadline)
    ensures Leads(m, r, p.faulty) && Base(r, p) && Ripe(r, p, f, a, rest, deadline)
  {
    var cur, full := CurOf(a, f), rest;
    assert cur in Upto(f);
    forall x | x in rest - {} ensures Asked(m, x) {
      OneStillAsked(s, m, helpers + {cur}, x);
    }
    r, full := FillUp(m, p, rest, {}, |rest|, deadline - SESSION_TIMEOUT);
    SubsetAll(full, rest);
    CrowdRipe(s, m, r, p, f, a, done, helpers, deadline, rest);
  }

  lemma CrowdRipe(s: Coord, m: Coord, r: Coord, p: Setting, f: nat, a: nat, done: set<Id>, helpers: set<Id>,
                  deadline: int, rest: set<Id>)
    requires Crowd(s, p, f, a, done, deadline) && a < 2 * f && done <= helpers &&
             rest == Honest(p.n, p.faulty) - helpers
    requires Opened(s, m, helpers + {CurOf(a, f)}, helpers, deadline) && Table(m, f, a, a + 1, deadline)
    requires Gathered(r, rest) && SameBut(m, r, rest - {}) && r.sessions == m.sessions
    ensures Ripe(r, p, f, a, rest, deadline)
  {
    var cur := CurOf(a, f);
    forall x ensures HeldAt(r, a, x) <==> x in helpers + {cur} {
      assert x in MembersOf(m, a) <==> x in m.sessions[a].members;
    }
    ParkedFrame(m, r, f, a, deadline);
    forall x | 1 <= x <= p.n && x !in rest && x !in r.blacklist ensures Asked(r, x) || HeldAt(r, a, x) {
      if x !in helpers + {cur} {
        OneStillAsked(s, m, helpers + {cur}, x);
        OneStillAsked(m, r, rest - {}, x);
      }
    }
  }

  // ---------------------------------------------------------------- the time-out

  lemma RipeAnswered(s: Coord, p: Setting, f: nat, a: nat, rest: set<Id>, deadline: int, x: Id)
    requires HonestUnharmed(s, p.faulty) && Ripe(s, p, f, a, rest, deadline) && x in Honest(p.n, p.faulty)
    ensures Answered(s, x)
  {
    if x in rest {
      ReliableAnswered(s, x);
    } else {
      assert HeldAt(s, a, x) && Parked(s, f, a, deadline) && CurOf(a, f) in Upto(f);
      assert ShareStored(s, a, x);
    }
  }

  lemma RipeTick(s: Coord, p: Setting, f: nat, a: nat, rest: set<Id>, deadline: int)
    requires Base(s, p) && FaultInv(s, p.faulty) && Ripe(s, p, f, a, rest, deadline)
    ensures PromptStep(s, Tick(deadline, AllSlots()), p.faulty)
  {
    assert Parked(s, f, a, deadline) && CurOf(a, f) in Upto(f);
    forall k, m | 0 <= k < |s.sessions| && Expired(s.sessions[k], deadline) && m in s.sessions[k].members &&
      m !in p.faulty
      ensures Cooperated(s.sessions[k], m)
    {
      assert k == a;
    }
    forall id | 1 <= id <= s.n && id !in p.faulty ensures Answered(s, id) {
      RipeAnswered(s, p, f, a, rest, deadline, id);
    }
  }

  lemma RipeAsks(s: Coord, p: Setting, f: nat, a: nat, rest: set<Id>, deadline: int, x: Id)
    requires Base(s, p) && Ripe(s, p, f, a, rest, deadline) && 1 <= x <= p.n && x !in rest
    requires LedgerOk(Expire(s, a)) && s.blacklist <= Expire(s, a).blacklist && x !in Expire(s, a).blacklist
    ensures Asked(Expire(s, a), x)
  {
    assert Parked(s, f, a, deadline);
    if HeldAt(s, a, x) {
      MemberAsked(s, a, x);
    } else {
      assert x !in s.blacklist;
      AskedAnyway(s, a, x);
    }
  }

  lemma RipeLedger(s: Coord, p: Setting, f: nat, a: nat, rest: set<Id>, deadline: int)
    requires Base(s, p) && Ripe(s, p, f, a, rest, deadline)
    ensures Ledger(Expire(s, a), f, a + 1) && s.blacklist <= Expire(s, a).blacklist
  {
    var m := Expire(s, a);
    assert Parked(s, f, a, deadline) && SessionOk(s.sessions[a], s.n, s.t);
    ExpiryLedger(s, p, f, a, deadline);
    BlacklistStruckOutIs(s.blacklist, s.sessions[a].members, s.sessions[a], s.signers, m.strikes);
  }

  lemma RipeExpires(s: Coord, p: Setting, f: nat, a: nat, rest: set<Id>, deadline: int)
    requires Base(s, p) && FaultInv(s, p.faulty) && Ripe(s, p, f, a, rest, deadline)
    ensures Base(Expire(s, a), p) && Crowd(Expire(s, a), p, f, a + 1, rest, deadline)
  {
    var m := Expire(s, a);
    assert Parked(s, f, a, deadline);
    ExpireKeeps(s, a);
    ExpiryTable(s, p, f, a, a + 1, deadline);
    RipeLedger(s, p, f, a, rest, deadline);
    ExpiryGathers(s, a, rest);
    forall x | 1 <= x <= p.n && x !in rest && x !in m.blacklist ensures Asked(m, x) {
      RipeAsks(s, p, f, a, rest, deadline, x);
    }
  }

  lemma RipeTimesOut(s: Coord, p: Setting, f: nat, a: nat, rest: set<Id>, deadline: int) returns (m: Coord)
    requires Base(s, p) && FaultInv(s, p.faulty) && Ripe(s, p, f, a, rest, deadline) && |rest| < p.t
    ensures m == Step(s, Tick(deadline, AllSlots())) && Base(m, p) && Crowd(m, p, f, a + 1, rest, deadline)
  {
    assert Parked(s, f, a, deadline);
    SweepBegins(s, p, f, a, a + 1, deadline);
    RipeExpires(s, p, f, a, rest, deadline);
    m := Expire(s, a);
    GatheredCandidates(m, rest);
    TooFewToForm(m, deadline, true);
    assert Sweep(s, a + 1, deadline, AllSlots()) == SweepSlot(s, a, deadline, a in AllSlots()) == m;
    SweepEnds(s, m, p, f, a + 1, deadline);
  }

  // ---------------------------------------------------------------- round after round

  /** One turn: a session opens, all but one of its members share, it times out. */
  lemma CrowdRound(s: Coord, p: Setting, f: nat, a: nat, done: set<Id>, deadline: int, next: int)
      returns (r: Coord, rest: set<Id>)
    requires Reached(s, p) && Crowd(s, p, f, a, done, deadline) && a < 2 * f && a < MAX_SESSIONS && a <= f + p.n - p.t
    requires |done| < p.t && |Honest(p.n, p.faulty)| < p.t
    ensures Reached(r, p) && Crowd(r, p, f, a + 1, rest, next) && |rest| < p.t
  {
    var m, helpers := CrowdOpens(s, p, f, a, done, deadline);
    ReachedBase(s, p);
    rest := Honest(p.n, p.faulty) - helpers;
    CardMonotone(rest, Honest(p.n, p.faulty));
    var c := CrowdCommits(s, m, p, f, a, done, helpers, deadline, rest);
    ReachedOn(s, m, p);
    ReachedOn(m, c, p);
    r := CrowdTimesOut(c, p, f, a, rest, deadline);
    CrowdClock(r, p, f, a + 1, rest, deadline, next);
  }

  lemma CrowdTimesOut(c: Coord, p: Setting, f: nat, a: nat, rest: set<Id>, deadline: int) returns (r: Coord)
    requires Reached(c, p) && Ripe(c, p, f, a, rest, deadline) && |rest| < p.t
    ensures Reached(r, p) && Crowd(r, p, f, a + 1, rest, deadline)
  {
    ReachedBase(c, p);
    RipeTick(c, p, f, a, rest, deadline);
    LeadsOne(c, Tick(deadline, AllSlots()), p.faulty);
    r := RipeTimesOut(c, p, f, a, rest, deadline);
    ReachedOn(c, r, p);
  }

  /** With no session waiting the deadline does not matter. */
  lemma CrowdClock(s: Coord, p: Setting, f: nat, a: nat, done: set<Id>, deadline: int, next: int)
    requires Crowd(s, p, f, a, done, deadline)
    ensures Crowd(s, p, f, a, done, next)
  {
  }

  ghost predicate CrowdScene(s: Coord, p: Setting, f: nat, a: nat, done: set<Id>) {
    forall x {:trigger Look(x)} :: Look(x) && x == s ==>
      Reached(x, p) && Crowd(x, p, f, a, done, SESSION_TIMEOUT * (a + 1)) && |done| < p.t
  }

  ghost predicate CanCrowd(p: Setting, f: nat, a: nat) {
    exists s, done :: CrowdScene(s, p, f, a, done)
  }

  lemma CrowdOne(p: Setting, f: nat, a: nat)
    requires CanCrowd(p, f, a) && a < 2 * f && a < MAX_SESSIONS && a <= f + p.n - p.t && |Honest(p.n, p.faulty)| < p.t
    ensures CanCrowd(p, f, a + 1)
  {
    var s, done :| CrowdScene(s, p, f, a, done);
    assert Look(s);
    var r, rest := CrowdRound(s, p, f, a, done, SESSION_TIMEOUT * (a + 1), SESSION_TIMEOUT * (a + 2));
    assert CrowdScene(r, p, f, a + 1, rest);
  }

  lemma {:induction false} CrowdMany(p: Setting, f: nat, rounds: nat)
    requires CanCrowd(p, f, 0) && rounds <= 2 * f && rounds <= MAX_SESSIONS && rounds <= f + p.n - p.t + 1
    requires |Honest(p.n, p.faulty)| < p.t
    ensures CanCrowd(p, f, rounds)
  {
    if rounds != 0 {
      CrowdMany(p, f, rounds - 1);
      CrowdOne(p, f, rounds - 1);
    }
  }

  lemma CrowdBegins(p: Setting, f: nat)
    requires SettingOk(p) && p.faulty == Upto(f) && f <= p.n
    ensures CanCrowd(p, f, 0)
  {
    var s := RegisterAll(p, p.n);
    assert Table(s, f, 0, 0, SESSION_TIMEOUT);
    forall x | 1 <= x <= p.n ensures Asked(s, x) {
      assert x in Upto(p.n);
    }
    assert Crowd(s, p, f, 0, {}, SESSION_TIMEOUT);
    assert CrowdScene(s, p, f, 0, {});
  }

  /** With f > n - t faulty signers, some run fails `rounds` sessions and has none waiting. */
  lemma CrowdFails(p: Setting, f: nat, rounds: nat) returns (s: Coord)
    requires SettingOk(p) && p.faulty == Upto(f) && p.n - p.t < f <= p.n
    requires rounds <= MAX_SESSIONS && rounds <= f + p.n - p.t + 1 && rounds <= 2 * f
    ensures Reached(s, p) && FreeSlot(s.sessions) == rounds && forall j :: 0 <= j < rounds ==>
      s.sessions[j].state.Failed?
  {
    CrowdBegins(p, f);
    assert Upto(p.n) == Honest(p.n, p.faulty) + Upto(f);
    CrowdMany(p, f, rounds);
    var done;
    s, done :| CrowdScene(s, p, f, rounds, done);
    assert Look(s);
  }
}
