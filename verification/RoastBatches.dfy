/**
 Sessions that time out in batches. The faulty signers are 1..f. Sessions of one faulty signer and
 t - 1 honest ones are opened side by side until fewer than t honest signers are left over; the
 honest members share, the faulty ones stay silent, the left over ones commit, and the sessions
 time out together. In slot e the silent member is CurOf(e), so every faulty signer takes its turn
 twice.
 */
module RoastBatches {
  import opened Octets
  import opened Counting
  import opened Roast
  import opened RoastInvariant
  import opened RoastCoherence
  import opened RoastTermination
  import opened RoastPrompt
  import opened RoastProgress
  import opened RoastScenes

  // ---------------------------------------------------------------- whose turn it is

  /** The faulty signer that spoils the session in slot `e`. */
  function CurOf(e: nat, f: nat): Id {
    if e < f then 1 + e else 1 + e - f
  }

  /** Strikes of faulty signer `x` once the slots below `a` have timed out. */
  function Turns(a: nat, f: nat, x: Id): nat {
    (if x - 1 < a then 1 else 0) + (if f + x - 1 < a then 1 else 0)
  }

  lemma TurnsStep(a: nat, f: nat, x: Id)
    requires a < 2 * f && 1 <= x <= f
    ensures Turns(a + 1, f, x) == Turns(a, f, x) + if x == CurOf(a, f) then 1 else 0
    ensures x == CurOf(a, f) ==> Turns(a, f, x) < MAX_STRIKES
  {
  }

  lemma TurnsApart(i: nat, j: nat, f: nat)
    requires i < j < 2 * f && j - i < f
    ensures CurOf(i, f) != CurOf(j, f)
  {
  }

  /** A signer whose turn is still to come, within the next f, is not struck out. */
  lemma TurnToCome(a: nat, e: nat, f: nat)
    requires a <= e < 2 * f
    ensures Turns(a, f, CurOf(e, f)) < MAX_STRIKES
  {
  }

  // ---------------------------------------------------------------- the stage

  /** Slot `j` waits for its faulty member alone. */
  ghost predicate Parked(s: Coord, f: nat, j: nat, deadline: int) {
    && Active(s, j) && s.sessions[j].deadline == deadline && CurOf(j, f) in s.sessions[j].members
    && forall x :: x in s.sessions[j].members ==>
         Connected(s.signers, x) && (Cooperated(s.sessions[j], x) <==> x != CurOf(j, f))
  }

  /** The slots below `a` failed, those up to `r` are parked, the others were never used. */
  ghost predicate Table(s: Coord, f: nat, a: nat, r: nat, deadline: int) {
    && a <= r == FreeSlot(s.sessions)
    && (forall j :: 0 <= j < a ==> s.sessions[j].state.Failed?)
    && (forall j :: a <= j < r ==> Parked(s, f, j, deadline))
  }

  /** An honest signer of this waiting session. */
  predicate HeldAt(s: Coord, j: int, x: Id) {
    0 <= j < |s.sessions| && x in s.sessions[j].members
  }

  predicate Held(s: Coord, a: nat, r: nat, x: Id) {
    exists j :: a <= j < r && HeldAt(s, j, x)
  }

  ghost predicate HonestPlaced(s: Coord, p: Setting, a: nat, r: nat, pool: set<Id>, done: set<Id>) {
    && done <= pool <= Honest(p.n, p.faulty) && Gathered(s, done) && AllAsked(s, pool - done)
    && (forall x {:trigger Held(s, a, r, x)} :: x in Honest(p.n, p.faulty) && x !in pool ==> Held(s, a, r, x))
    && (forall j, x :: a <= j < r && HeldAt(s, j, x) ==> x !in pool)
  }

  predicate TurnBetween(f: nat, a: nat, r: nat, x: Id) {
    exists j :: a <= j < r && CurOf(j, f) == x
  }

  /** The faulty signers: struck as often as it was their turn, asked unless their session waits or they are out. */
  ghost predicate FaultyPlaced(s: Coord, f: nat, a: nat, r: nat) {
    && (forall x :: 1 <= x <= f ==> Strikes(s.strikes, x) == Turns(a, f, x))
    && (forall x :: x in s.blacklist ==> Strikes(s.strikes, x) >= MAX_STRIKES)
    && (forall x {:trigger Asked(s, x)} :: 1 <= x <= f ==> Asked(s, x) || x in s.blacklist || TurnBetween(f, a, r, x))
  }

  ghost predicate Layout(s: Coord, p: Setting, f: nat, a: nat, r: nat, pool: set<Id>, done: set<Id>, deadline: int) {
    && p.faulty == Upto(f) && f <= p.n && r <= 2 * f
    && Table(s, f, a, r, deadline) && HonestPlaced(s, p, a, r, pool, done) && FaultyPlaced(s, f, a, r)
  }

  ghost predicate Stage(s: Coord, p: Setting, f: nat, a: nat, r: nat, pool: set<Id>, done: set<Id>, deadline: int) {
    Base(s, p) && FaultInv(s, p.faulty) && Layout(s, p, f, a, r, pool, done, deadline)
  }

  // ---------------------------------------------------------------- parking one more session

  /** The faulty signer whose turn is next is asked. */
  lemma NextAsked(s: Coord, p: Setting, f: nat, a: nat, r: nat, pool: set<Id>, done: set<Id>, deadline: int)
    requires Stage(s, p, f, a, r, pool, done, deadline) && r < 2 * f && r - a < f
    ensures Asked(s, CurOf(r, f)) && CurOf(r, f) !in pool
  {
    var cur := CurOf(r, f);
    TurnToCome(a, r, f);
    assert 1 <= cur <= f;
    if TurnBetween(f, a, r, cur) {
      var j :| a <= j < r && CurOf(j, f) == cur;
      TurnsApart(j, r, f);
    }
    assert cur in Upto(f);
  }

  lemma ParkedFrame(s: Coord, m: Coord, f: nat, j: nat, deadline: int)
    requires Parked(s, f, j, deadline) && SameIds(s.signers, m.signers)
    requires j < |m.sessions| && m.sessions[j] == s.sessions[j]
    ensures Parked(m, f, j, deadline)
  {
    forall x | x in s.sessions[j].members ensures Connected(m.signers, x) {
      SameIdsConnected(s.signers, m.signers, x);
    }
  }

  /** A session that opened in slot `r` and lacks only the share of its faulty member is parked. */
  lemma NewlyParked(m: Coord, f: nat, r: nat, helpers: set<Id>, deadline: int)
    requires CurOf(r, f) !in helpers && Open(m, r, helpers + {CurOf(r, f)}, helpers, deadline)
    ensures Parked(m, f, r, deadline)
    ensures forall x :: HeldAt(m, r, x) <==> x in helpers || x == CurOf(r, f)
  {
    var cur := CurOf(r, f);
    forall x ensures x in m.sessions[r].members <==> x in helpers + {cur} {
      assert x in m.sessions[r].members <==> x in MembersOf(m, r);
    }
    assert cur in helpers + {cur};
  }

  lemma ParkedTable(s: Coord, m: Coord, f: nat, a: nat, r: nat, helpers: set<Id>, deadline: int)
    requires Table(s, f, a, r, deadline) && CurOf(r, f) !in helpers
    requires Opened(s, m, helpers + {CurOf(r, f)}, helpers, deadline)
    ensures Table(m, f, a, r + 1, deadline)
    ensures forall j, x :: a <= j <= r ==>
      (HeldAt(m, j, x) <==> if j < r then HeldAt(s, j, x) else x in helpers || x == CurOf(r, f))
  {
    NewlyParked(m, f, r, helpers, deadline);
    forall j | a <= j < r + 1 ensures Parked(m, f, j, deadline) {
      if j < r {
        ParkedFrame(s, m, f, j, deadline);
      }
    }
  }

  lemma ParkedHonest(s: Coord, m: Coord, p: Setting, a: nat, r: nat, pool: set<Id>, done: set<Id>, helpers: set<Id>,
                     cur: Id)
    requires HonestPlaced(s, p, a, r, pool, done) && done <= helpers <= pool && cur !in pool && cur in p.faulty &&
             a <= r
    requires SameBut(s, m, helpers + {cur}) && Gathered(m, {})
    requires forall j, x :: a <= j <= r ==>
      (HeldAt(m, j, x) <==> if j < r then HeldAt(s, j, x) else x in helpers || x == cur)
    ensures HonestPlaced(m, p, a, r + 1, pool - helpers, {})
  {
    StillAsked(s, m, helpers + {cur}, pool - done);
    assert pool - helpers - {} == (pool - done) - (helpers + {cur});
    forall x | x in Honest(p.n, p.faulty) && x !in pool - helpers ensures Held(m, a, r + 1, x) {
      if x in helpers {
        assert HeldAt(m, r, x);
      } else {
        assert Held(s, a, r, x);
        var j :| a <= j < r && HeldAt(s, j, x);
        assert HeldAt(m, j, x);
      }
    }
  }

  lemma ParkedFaulty(s: Coord, m: Coord, f: nat, a: nat, r: nat, helpers: set<Id>)
    requires FaultyPlaced(s, f, a, r) && a <= r && SameBut(s, m, helpers + {CurOf(r, f)})
    requires forall x :: x in helpers ==> x > f
    ensures FaultyPlaced(m, f, a, r + 1)
  {
    var cur := CurOf(r, f);
    forall x | 1 <= x <= f ensures Asked(m, x) || x in m.blacklist || TurnBetween(f, a, r + 1, x) {
      if x == cur {
        assert TurnBetween(f, a, r + 1, x);
      } else if TurnBetween(f, a, r, x) {
        var j :| a <= j < r && CurOf(j, f) == x;
        assert TurnBetween(f, a, r + 1, x);
      } else if x !in s.blacklist {
        OneStillAsked(s, m, helpers + {cur}, x);
      }
    }
  }

  lemma ParkNext(s: Coord, p: Setting, f: nat, a: nat, r: nat, pool: set<Id>, done: set<Id>, deadline: int)
      returns (m: Coord, left: set<Id>)
    requires Reached(s, p) && Layout(s, p, f, a, r, pool, done, deadline) && r < 2 * f && r - a < f && r < MAX_SESSIONS
    requires |done| < p.t && p.t - 1 <= |pool|
    ensures Reached(m, p) && Layout(m, p, f, a, r + 1, left, {}, deadline) && |left| == |pool| - (p.t - 1)
  {
    var cur := CurOf(r, f);
    ReachedBase(s, p);
    NextAsked(s, p, f, a, r, pool, done, deadline);
    var helpers;
    m, helpers := OpenAndShare(s, p, pool, done, cur, deadline - SESSION_TIMEOUT);
    left := pool - helpers;
    ParkedTable(s, m, f, a, r, helpers, deadline);
    ParkedHonest(s, m, p, a, r, pool, done, helpers, cur);
    ParkedFaulty(s, m, f, a, r, helpers);
    ReachedOn(s, m, p);
  }

  /** Always true. Facts about a scene are stated for the states one looks at, which keeps them out of other proofs. */
  predicate Look(s: Coord) {
    true
  }

  /** Slots `a` to `r` of the reached state `s` are parked, and `size` honest signers are outside them. */
  ghost predicate Scene(s: Coord, p: Setting, f: nat, a: nat, r: nat, pool: set<Id>, done: set<Id>, size: int,
                        deadline: int) {
    forall x {:trigger Look(x)} :: Look(x) && x == s ==>
      Reached(x, p) && Layout(x, p, f, a, r, pool, done, deadline) && |pool| == size && |done| < p.t
  }

  ghost predicate CanPark(p: Setting, f: nat, a: nat, r: nat, size: int, deadline: int) {
    exists s, pool, done :: Scene(s, p, f, a, r, pool, done, size, deadline)
  }

  lemma ParkOne(p: Setting, f: nat, a: nat, r: nat, size: int, deadline: int)
    requires CanPark(p, f, a, r, size, deadline) && r < 2 * f && r - a < f && r < MAX_SESSIONS && p.t - 1 <= size
    ensures CanPark(p, f, a, r + 1, size - (p.t - 1), deadline)
  {
    var s, pool, done :| Scene(s, p, f, a, r, pool, done, size, deadline);
    assert Look(s);
    var m, left := ParkNext(s, p, f, a, r, pool, done, deadline);
    assert Scene(m, p, f, a, r + 1, left, {}, size - (p.t - 1), deadline);
  }

  /** How many helpers `k` sessions take. */
  function Helpers(t: int, k: nat): int {
    if k == 0 then 0 else Helpers(t, k - 1) + (t - 1)
  }

  lemma {:induction false} HelpersIs(t: int, k: nat)
    ensures Helpers(t, k) == k * (t - 1)
  {
    if k != 0 {
      HelpersIs(t, k - 1);
    }
  }

  lemma {:induction false} HelpersPositive(t: int, k: nat)
    requires t >= 1
    ensures Helpers(t, k) >= 0
  {
    if k != 0 {
      HelpersPositive(t, k - 1);
    }
  }

  /** `k` steps that cost t - 1 each. */
  lemma {:induction false} StepByStep(can: (nat, int) -> bool, t: int, r: nat, k: nat, left: int)
    requires can(r, left + Helpers(t, k)) && t >= 1 && left >= 0
    requires forall j: nat, z :: j < r + k && can(j, z) && t - 1 <= z ==> can(j + 1, z - (t - 1))
    ensures can(r + k, left)
    decreases k
  {
    if k != 0 {
      HelpersPositive(t, k - 1);
      StepByStep(can, t, r + 1, k - 1, left);
    }
  }

  /** `k` sessions, which leave `left` honest signers outside. */
  lemma ParkMany(p: Setting, f: nat, a: nat, deadline: int, k: nat, left: int)
    requires CanPark(p, f, a, a, left + Helpers(p.t, k), deadline) && p.t >= 1
    requires a + k <= 2 * f && k <= f && a + k <= MAX_SESSIONS && left >= 0
    ensures CanPark(p, f, a, a + k, left, deadline)
  {
    var can := (r: nat, z: int) => CanPark(p, f, a, r, z, deadline);
    forall j: nat, z | j < a + k && can(j, z) && p.t - 1 <= z ensures can(j + 1, z - (p.t - 1)) {
      ParkOne(p, f, a, j, z, deadline);
    }
    StepByStep(can, p.t, a, k, left);
  }

  // ---------------------------------------------------------------- the left over ones commit

  lemma FilledLayout(s: Coord, m: Coord, p: Setting, f: nat, a: nat, r: nat, pool: set<Id>, done: set<Id>,
                     deadline: int)
    requires Layout(s, p, f, a, r, pool, done, deadline)
    requires Gathered(m, pool) && SameBut(s, m, pool - done) && m.sessions == s.sessions
    ensures Layout(m, p, f, a, r, pool, pool, deadline)
  {
    forall j | a <= j < r ensures Parked(m, f, j, deadline) {
      ParkedFrame(s, m, f, j, deadline);
    }
    FilledFaulty(s, m, f, a, r, pool - done);
    FilledHonest(s, m, p, a, r, pool, done);
  }

  lemma FilledHonest(s: Coord, m: Coord, p: Setting, a: nat, r: nat, pool: set<Id>, done: set<Id>)
    requires HonestPlaced(s, p, a, r, pool, done) && Gathered(m, pool) && m.sessions == s.sessions
    ensures HonestPlaced(m, p, a, r, pool, pool)
  {
    forall x | x in Honest(p.n, p.faulty) && x !in pool ensures Held(m, a, r, x) {
      assert Held(s, a, r, x);
      var j :| a <= j < r && HeldAt(s, j, x);
      assert HeldAt(m, j, x);
    }
    forall j, x | a <= j < r && HeldAt(m, j, x) ensures x !in pool {
      assert HeldAt(s, j, x);
    }
  }

  lemma FilledFaulty(s: Coord, m: Coord, f: nat, a: nat, r: nat, touched: set<Id>)
    requires FaultyPlaced(s, f, a, r) && SameBut(s, m, touched) && forall x :: x in touched ==> x > f
    ensures FaultyPlaced(m, f, a, r)
  {
    forall x | 1 <= x <= f ensures Asked(m, x) || x in m.blacklist || TurnBetween(f, a, r, x) {
      if Asked(s, x) {
        OneStillAsked(s, m, touched, x);
      }
    }
  }

  lemma CommitRest(s: Coord, p: Setting, f: nat, a: nat, r: nat, pool: set<Id>, done: set<Id>, deadline: int, now: int)
      returns (m: Coord)
    requires Reached(s, p) && Layout(s, p, f, a, r, pool, done, deadline) && |pool| < p.t
    ensures Reached(m, p) && Layout(m, p, f, a, r, pool, pool, deadline)
  {
    var full;
    ReachedBase(s, p);
    CardMonotone(done, pool);
    m, full := FillUp(s, p, pool, done, |pool|, now);
    SubsetAll(full, pool);
    ReachedOn(s, m, p);
    FilledLayout(s, m, p, f, a, r, pool, done, deadline);
  }

  // ---------------------------------------------------------------- the time-out

  /** Who has no strike and can be chosen has its commitment stored. */
  lemma ReliableAnswered(s: Coord, x: Id)
    requires SelectableId(x, s) && Strikes(s.strikes, x) == 0
    ensures Answered(s, x)
  {
    var i :| 0 <= i < |s.signers| && s.signers[i].id == x && Eligible(s.signers[i], s.blacklist, s.strikes, false);
    assert CommitStored(s.signers[i], x);
  }

  lemma StageAnswered(s: Coord, p: Setting, f: nat, a: nat, r: nat, pool: set<Id>, deadline: int, x: Id)
    requires HonestUnharmed(s, p.faulty) && Layout(s, p, f, a, r, pool, pool, deadline) && x in Honest(p.n, p.faulty)
    ensures Answered(s, x)
  {
    if x in pool {
      ReliableAnswered(s, x);
    } else {
      assert Held(s, a, r, x);
      var j :| a <= j < r && HeldAt(s, j, x);
      assert Parked(s, f, j, deadline);
      assert x != CurOf(j, f) by {
        assert CurOf(j, f) in Upto(f);
      }
      assert ShareStored(s, j, x);
    }
  }

  predicate IsSlot(k: int) {
    0 <= k < MAX_SESSIONS
  }

  function AllSlots(): set<int> {
    set k | 0 <= k < MAX_SESSIONS && IsSlot(k)
  }

  lemma TickIsPrompt(s: Coord, p: Setting, f: nat, a: nat, r: nat, pool: set<Id>, deadline: int)
    requires Stage(s, p, f, a, r, pool, pool, deadline)
    ensures PromptStep(s, Tick(deadline, AllSlots()), p.faulty)
  {
    forall k, m | 0 <= k < |s.sessions| && Expired(s.sessions[k], deadline) && m in s.sessions[k].members &&
      m !in p.faulty
      ensures Cooperated(s.sessions[k], m)
    {
      assert a <= k < r;
      assert Parked(s, f, k, deadline);
      assert CurOf(k, f) in Upto(f);
    }
    forall id | 1 <= id <= s.n && id !in p.faulty ensures Answered(s, id) {
      StageAnswered(s, p, f, a, r, pool, deadline, id);
    }
  }

  /** Only the silent member pays. */
  lemma OneStrike(s: Coord, sess: Session, cur: Id)
    requires |s.strikes| == MAX_SIGNERS && 1 <= cur <= MAX_SIGNERS && cur in sess.members && Connected(s.signers, cur)
    requires forall x :: x in sess.members ==> (Cooperated(sess, x) <==> x != cur)
    ensures StrikeSilent(s.strikes, s.signers, sess) == s.strikes[cur - 1 := s.strikes[cur - 1] + 1]
  {
  }

  /** The time-out of a parked session strikes the one whose turn it is. */
  lemma ExpiryStrikes(s: Coord, p: Setting, f: nat, a: nat, deadline: int)
    requires Base(s, p) && Parked(s, f, a, deadline) && f <= p.n && a < 2 * f
    ensures var m, cur := Expire(s, a), CurOf(a, f);
            && 1 <= cur <= MAX_SIGNERS && m.strikes == s.strikes[cur - 1 := s.strikes[cur - 1] + 1]
            && (forall x :: x in m.blacklist <==>
                  x in s.blacklist || (x == cur && Strikes(m.strikes, cur) >= MAX_STRIKES))
  {
    var m, sess, cur := Expire(s, a), s.sessions[a], CurOf(a, f);
    assert SessionOk(sess, s.n, s.t);
    OneStrike(s, sess, cur);
    OneStruckOut(s.blacklist, sess, s.signers, m.strikes, cur);
  }

  lemma OneStruckOut(bl: seq<Id>, sess: Session, l: seq<Signer>, strikes: seq<nat>, cur: Id)
    requires GoodBlacklist(bl) && InRange(sess.members) && cur in sess.members
    requires forall x :: x in sess.members ==> Connected(l, x) && (Cooperated(sess, x) <==> x != cur)
    ensures forall x :: x in BlacklistStruckOut(bl, sess.members, sess, l, strikes) <==>
      x in bl || (x == cur && Strikes(strikes, cur) >= MAX_STRIKES)
  {
    BlacklistStruckOutIs(bl, sess.members, sess, l, strikes);
  }

  /** What the time-out of slot `a` does to the ledger. */
  lemma ExpiryLedger(s: Coord, p: Setting, f: nat, a: nat, deadline: int)
    requires Base(s, p) && Parked(s, f, a, deadline) && f <= p.n && a < 2 * f
    requires forall x :: 1 <= x <= f ==> Strikes(s.strikes, x) == Turns(a, f, x)
    requires forall x :: x in s.blacklist ==> Strikes(s.strikes, x) >= MAX_STRIKES
    ensures var m, cur := Expire(s, a), CurOf(a, f);
            && (forall x :: 1 <= x <= f ==> Strikes(m.strikes, x) == Turns(a + 1, f, x))
            && (forall x :: x in m.blacklist <==>
                  x in s.blacklist || (x == cur && Strikes(m.strikes, cur) >= MAX_STRIKES))
            && (forall x :: x in m.blacklist ==> Strikes(m.strikes, x) >= MAX_STRIKES)
            && (forall x :: x != cur ==> Strikes(m.strikes, x) == Strikes(s.strikes, x))
  {
    var m := Expire(s, a);
    ExpiryStrikes(s, p, f, a, deadline);
    forall x | 1 <= x <= f ensures Strikes(m.strikes, x) == Turns(a + 1, f, x) {
      TurnsStep(a, f, x);
    }
  }

  /** Members that are not struck out are asked again. */
  lemma MemberAsked(s: Coord, k: nat, x: Id)
    requires k < |s.sessions| && x in s.sessions[k].members && Connected(s.signers, x) && x !in Expire(s, k).blacklist
    requires Cooperated(s.sessions[k], x) || Strikes(Expire(s, k).strikes, x) < MAX_STRIKES
    ensures Asked(Expire(s, k), x)
  {
    var m := Expire(s, k);
    var i :| 0 <= i < |s.signers| && s.signers[i].id == x;
    assert m.signers[i] == AfterExpiry(s.signers[i], s.sessions[k], m.strikes, s.tbs);
    assert m.signers[i].id == x && WaitsForCommit(m.signers[i]);
  }

  /** Whoever was asked is still asked unless struck out now. */
  lemma AskedAnyway(s: Coord, k: nat, x: Id)
    requires k < |s.sessions| && Asked(s, x) && x !in Expire(s, k).blacklist &&
             Strikes(Expire(s, k).strikes, x) < MAX_STRIKES
    ensures Asked(Expire(s, k), x)
  {
    var m := Expire(s, k);
    var i :| 0 <= i < |s.signers| && s.signers[i].id == x && WaitsForCommit(s.signers[i]);
    assert m.signers[i] == AfterExpiry(s.signers[i], s.sessions[k], m.strikes, s.tbs);
    assert m.signers[i].id == x && WaitsForCommit(m.signers[i]);
  }

  /** Those that have committed belong to no waiting session, so the time-out leaves them alone. */
  lemma ExpiryGathers(s: Coord, k: nat, done: set<Id>)
    requires Inv(s) && Coherent(s) && Active(s, k) && Gathered(s, done)
    ensures Gathered(Expire(s, k), done)
  {
    var m := Expire(s, k);
    forall x ensures SelectableId(x, m) <==> x in done {
      ExpirySelects(s, k, x);
    }
    forall i | 0 <= i < |m.signers| && m.signers[i].id in done ensures |m.signers[i].commit| == 1 {
      ExpirySpares(s, k, i);
    }
  }

  lemma ExpirySelects(s: Coord, k: nat, x: Id)
    requires Inv(s) && Coherent(s) && Active(s, k)
    ensures SelectableId(x, Expire(s, k)) <==> SelectableId(x, s)
  {
    if SelectableId(x, s) {
      ExpiryKeepsOffer(s, k, x);
    }
    if SelectableId(x, Expire(s, k)) {
      var m := Expire(s, k);
      var i :| 0 <= i < |m.signers| && m.signers[i].id == x && EligibleEither(m.signers[i], m.blacklist, m.strikes);
      ExpirePlace(s, k, i);
    }
  }

  lemma ExpirySpares(s: Coord, k: nat, i: nat)
    requires SignersOk(s) && Coherent(s) && Active(s, k) && i < |s.signers| && SelectableId(s.signers[i].id, s)
    ensures Expire(s, k).signers[i] == s.signers[i]
  {
    FreeIsOutside(s, k, s.signers[i].id);
    assert Expire(s, k).signers[i] == AfterExpiry(s.signers[i], s.sessions[k], Expire(s, k).strikes, s.tbs);
  }

  lemma FreeIsOutside(s: Coord, k: nat, x: Id)
    requires SignersOk(s) && Coherent(s) && Active(s, k) && SelectableId(x, s)
    ensures x !in s.sessions[k].members
  {
    var i :| 0 <= i < |s.signers| && s.signers[i].id == x && Free(s.signers[i]);
  }

  lemma ExpiryKeepsOffer(s: Coord, k: nat, x: Id)
    requires Inv(s) && Coherent(s) && Active(s, k) && SelectableId(x, s)
    ensures SelectableId(x, Expire(s, k))
  {
    FreeIsOutside(s, k, x);
    OutsiderStanding(s, k, x);
    OfferKept(s, k, x);
  }

  lemma OfferKept(s: Coord, k: nat, x: Id)
    requires k < |s.sessions| && x !in s.sessions[k].members && SelectableId(x, s)
    requires var m := Expire(s, k);
             Strikes(m.strikes, x) == Strikes(s.strikes, x) && (x in m.blacklist <==> x in s.blacklist)
    ensures SelectableId(x, Expire(s, k))
  {
    var m := Expire(s, k);
    var suspect := !EligibleId(x, s.signers, s.blacklist, s.strikes, false);
    var i :| 0 <= i < |s.signers| && s.signers[i].id == x && Eligible(s.signers[i], s.blacklist, s.strikes, suspect);
    assert m.signers[i] == AfterExpiry(s.signers[i], s.sessions[k], m.strikes, s.tbs) == s.signers[i];
    assert Eligible(m.signers[i], m.blacklist, m.strikes, suspect);
    assert EligibleId(x, m.signers, m.blacklist, m.strikes, suspect);
  }

  lemma OutsiderStanding(s: Coord, k: nat, x: Id)
    requires Inv(s) && Active(s, k) && x !in s.sessions[k].members
    ensures var m := Expire(s, k);
            Strikes(m.strikes, x) == Strikes(s.strikes, x) && (x in m.blacklist <==> x in s.blacklist)
  {
    var m, sess := Expire(s, k), s.sessions[k];
    assert SessionOk(sess, s.n, s.t);
    BlacklistStruckOutIs(s.blacklist, sess.members, sess, s.signers, m.strikes);
  }

  lemma ExpiryTable(s: Coord, p: Setting, f: nat, a: nat, r: nat, deadline: int)
    requires Base(s, p) && Table(s, f, a, r, deadline) && a < r
    ensures Table(Expire(s, a), f, a + 1, r, deadline)
  {
    var m := Expire(s, a);
    assert Parked(s, f, a, deadline);
    CloseSlot(s.sessions, a, m.sessions[a]);
    forall j | a + 1 <= j < r ensures Parked(m, f, j, deadline) {
      assert Parked(s, f, j, deadline);
      ParkedFrame(s, m, f, j, deadline);
    }
  }

  lemma HonestAsked(s: Coord, p: Setting, f: nat, a: nat, r: nat, pool: set<Id>, done: set<Id>, deadline: int, x: Id)
    requires Stage(s, p, f, a, r, pool, done, deadline) && a < r && FaultInv(Expire(s, a), p.faulty)
    requires x in Honest(p.n, p.faulty) && (x in s.sessions[a].members || x in pool - done)
    ensures Asked(Expire(s, a), x)
  {
    assert Parked(s, f, a, deadline);
    assert x !in p.faulty && x !in Expire(s, a).blacklist;
    if x in s.sessions[a].members {
      assert CurOf(a, f) in Upto(f);
      MemberAsked(s, a, x);
    } else {
      AskedAnyway(s, a, x);
    }
  }

  /** The helpers of slot `a` join those that can be asked. */
  lemma ExpiryHonest(s: Coord, p: Setting, f: nat, a: nat, r: nat, pool: set<Id>, done: set<Id>, deadline: int)
      returns (more: set<Id>)
    requires Stage(s, p, f, a, r, pool, done, deadline) && a < r && FaultInv(Expire(s, a), p.faulty)
    ensures HonestPlaced(Expire(s, a), p, a + 1, r, more, done)
  {
    var m, sess := Expire(s, a), s.sessions[a];
    assert Parked(s, f, a, deadline);
    more := pool + (set x | x in sess.members && x in Honest(p.n, p.faulty));
    ExpiryGathers(s, a, done);
    forall x | x in more - done ensures Asked(m, x) {
      HonestAsked(s, p, f, a, r, pool, done, deadline, x);
    }
    ExpiryHeld(s, p, f, a, r, pool, more, done, deadline);
  }

  lemma ExpiryHeld(s: Coord, p: Setting, f: nat, a: nat, r: nat, pool: set<Id>, more: set<Id>, done: set<Id>,
                   deadline: int)
    requires Stage(s, p, f, a, r, pool, done, deadline) && a < r && Active(s, a)
    requires more == pool + (set x | x in s.sessions[a].members && x in Honest(p.n, p.faulty))
    ensures var m := Expire(s, a);
            && (forall x {:trigger Held(m, a + 1, r, x)} :: x in Honest(p.n, p.faulty) && x !in more ==>
                  Held(m, a + 1, r, x))
            && (forall j, x :: a + 1 <= j < r && HeldAt(m, j, x) ==> x !in more)
  {
    var m := Expire(s, a);
    forall x | x in Honest(p.n, p.faulty) && x !in more ensures Held(m, a + 1, r, x) {
      assert Held(s, a, r, x);
      var j :| a <= j < r && HeldAt(s, j, x);
      assert HeldAt(m, j, x);
    }
    forall j, x | a + 1 <= j < r && HeldAt(m, j, x) ensures x !in more {
      assert HeldAt(s, j, x) && Parked(s, f, j, deadline) && Active(s, j);
    }
  }

  lemma ExpiryFaulty(s: Coord, p: Setting, f: nat, a: nat, r: nat, pool: set<Id>, done: set<Id>, deadline: int)
    requires Stage(s, p, f, a, r, pool, done, deadline) && a < r && LedgerOk(Expire(s, a))
    ensures FaultyPlaced(Expire(s, a), f, a + 1, r)
  {
    var m := Expire(s, a);
    assert Parked(s, f, a, deadline);
    ExpiryLedger(s, p, f, a, deadline);
    forall x | 1 <= x <= f ensures Asked(m, x) || x in m.blacklist || TurnBetween(f, a + 1, r, x) {
      if x !in m.blacklist {
        assert x !in s.blacklist && Strikes(m.strikes, x) < MAX_STRIKES;
        FaultyAgain(s, p, f, a, r, deadline, x);
      }
    }
  }

  lemma FaultyAgain(s: Coord, p: Setting, f: nat, a: nat, r: nat, deadline: int, x: Id)
    requires a < r && 1 <= x <= f && Parked(s, f, a, deadline)
    requires Asked(s, x) || TurnBetween(f, a, r, x)
    requires var m := Expire(s, a); x !in m.blacklist && Strikes(m.strikes, x) < MAX_STRIKES
    ensures Asked(Expire(s, a), x) || TurnBetween(f, a + 1, r, x)
  {
    if x == CurOf(a, f) {
      MemberAsked(s, a, x);
    } else if Asked(s, x) {
      AskedAnyway(s, a, x);
    } else {
      var j :| a <= j < r && CurOf(j, f) == x;
      assert TurnBetween(f, a + 1, r, x);
    }
  }

  /** The next slot times out. */
  lemma ExpireNext(s: Coord, p: Setting, f: nat, a: nat, r: nat, pool: set<Id>, done: set<Id>, deadline: int)
      returns (more: set<Id>)
    requires Stage(s, p, f, a, r, pool, done, deadline) && a < r
    ensures Stage(Expire(s, a), p, f, a + 1, r, more, done, deadline)
  {
    assert Parked(s, f, a, deadline);
    forall m | m in s.sessions[a].members && m !in p.faulty ensures Cooperated(s.sessions[a], m) {
      assert CurOf(a, f) in Upto(f);
    }
    ExpireFault(s, a, p.faulty);
    ExpireKeeps(s, a);
    ExpiryTable(s, p, f, a, r, deadline);
    more := ExpiryHonest(s, p, f, a, r, pool, done, deadline);
    ExpiryFaulty(s, p, f, a, r, pool, done, deadline);
  }

  /** Slots that are not due change nothing. */
  lemma {:induction false} SweepSkips(s: Coord, from: nat, k: nat, now: int, after: set<int>)
    requires from <= k <= |s.sessions|
    requires var m := Sweep(s, from, now, after); forall j :: from <= j < k ==> !Expired(m.sessions[j], now)
    ensures Sweep(s, k, now, after) == Sweep(s, from, now, after)
    decreases k
  {
    if from < k {
      SweepSkips(s, from, k - 1, now, after);
    }
  }

  /** If no slot from `r` on is due, the sweep ends there. */
  lemma TickIs(s: Coord, m: Coord, r: nat, now: int, after: set<int>)
    requires !s.done && r <= |s.sessions| && m == Sweep(s, r, now, after)
    requires forall j :: r <= j < |m.sessions| ==> !Expired(m.sessions[j], now)
    ensures Step(s, Tick(now, after)) == m
  {
    SweepSkips(s, r, |s.sessions|, now, after);
  }

  /** If only slot `a` is due, the whole sweep is what happens to it. */
  lemma OneSlotSweep(s: Coord, m: Coord, a: nat, now: int, after: set<int>)
    requires !s.done && a < |s.sessions| && m == SweepSlot(s, a, now, a in after)
    requires forall j :: 0 <= j < a ==> !Expired(s.sessions[j], now)
    requires forall j :: a < j < |m.sessions| ==> !Expired(m.sessions[j], now)
    ensures Step(s, Tick(now, after)) == m
  {
    assert Sweep(s, 0, now, after) == s;
    SweepSkips(s, 0, a, now, after);
    TickIs(s, m, a + 1, now, after);
  }

  /** The time-out of slot `a` in the sweep, with fewer than t commitments waiting. */
  lemma SlotStage(s: Coord, p: Setting, f: nat, a: nat, r: nat, pool: set<Id>, done: set<Id>, deadline: int,
                  assembled: bool) returns (m: Coord, more: set<Id>)
    requires Stage(s, p, f, a, r, pool, done, deadline) && |done| < p.t && a < r
    ensures m == SweepSlot(s, a, deadline, assembled) && Stage(m, p, f, a + 1, r, more, done, deadline)
  {
    assert Parked(s, f, a, deadline);
    more := ExpireNext(s, p, f, a, r, pool, done, deadline);
    m := Expire(s, a);
    GatheredCandidates(m, done);
    TooFewToForm(m, deadline, assembled);
  }

  ghost predicate Staged(s: Coord, p: Setting, f: nat, a: nat, r: nat, done: set<Id>, deadline: int) {
    forall x {:trigger Look(x)} :: Look(x) && x == s ==> exists pool :: Stage(x, p, f, a, r, pool, done, deadline)
  }

  lemma SlotStaged(s: Coord, p: Setting, f: nat, a: nat, r: nat, done: set<Id>, deadline: int, assembled: bool)
    requires Staged(s, p, f, a, r, done, deadline) && |done| < p.t && a < r && a < |s.sessions|
    ensures Staged(SweepSlot(s, a, deadline, assembled), p, f, a + 1, r, done, deadline)
  {
    assert Look(s);
    var pool :| Stage(s, p, f, a, r, pool, done, deadline);
    var m, more := SlotStage(s, p, f, a, r, pool, done, deadline, assembled);
  }

  /** Nothing happens before slot `a`; from there on the stage advances. */
  ghost predicate StagedFrom(s: Coord, m: Coord, p: Setting, f: nat, a: nat, i: nat, r: nat, done: set<Id>,
                             deadline: int) {
    if i <= a then m == s else Staged(m, p, f, i, r, done, deadline)
  }

  lemma SlotStagedFrom(s: Coord, m: Coord, p: Setting, f: nat, a: nat, i: nat, r: nat, done: set<Id>, deadline: int,
                       assembled: bool)
    requires Staged(s, p, f, a, r, done, deadline) && |done| < p.t && i < r <= |s.sessions| == |m.sessions|
    requires forall j :: 0 <= j < a ==> j < |s.sessions| && !Expired(s.sessions[j], deadline)
    requires StagedFrom(s, m, p, f, a, i, r, done, deadline)
    ensures StagedFrom(s, SweepSlot(m, i, deadline, assembled), p, f, a, i + 1, r, done, deadline)
  {
    if i >= a {
      SlotStaged(m, p, f, i, r, done, deadline, assembled);
    }
  }

  lemma {:induction false} SweepStaged(s: Coord, p: Setting, f: nat, a: nat, r: nat, done: set<Id>, deadline: int,
                                       after: set<int>, k: nat)
    requires Staged(s, p, f, a, r, done, deadline) && |done| < p.t && a <= r <= |s.sessions| && k <= r
    requires forall j :: 0 <= j < a ==> !Expired(s.sessions[j], deadline)
    ensures StagedFrom(s, Sweep(s, k, deadline, after), p, f, a, k, r, done, deadline)
  {
    if k != 0 {
      SweepStaged(s, p, f, a, r, done, deadline, after, k - 1);
      SlotStagedFrom(s, Sweep(s, k - 1, deadline, after), p, f, a, k - 1, r, done, deadline, k - 1 in after);
    }
  }

  /** Only the parked slots are due. */
  lemma OthersNotDue(s: Coord, p: Setting, f: nat, a: nat, r: nat, deadline: int, j: nat, now: int)
    requires Base(s, p) && Table(s, f, a, r, deadline) && j < |s.sessions| && (j < a || r <= j)
    ensures !Expired(s.sessions[j], now)
  {
  }

  lemma SweepBegins(s: Coord, p: Setting, f: nat, a: nat, r: nat, deadline: int)
    requires Base(s, p) && Table(s, f, a, r, deadline)
    ensures Sweep(s, a, deadline, AllSlots()) == s
  {
    assert Sweep(s, 0, deadline, AllSlots()) == s;
    forall j | 0 <= j < a ensures !Expired(s.sessions[j], deadline) {
      OthersNotDue(s, p, f, a, r, deadline, j, deadline);
    }
    SweepSkips(s, 0, a, deadline, AllSlots());
  }

  lemma SweepEnds(s: Coord, m: Coord, p: Setting, f: nat, r: nat, deadline: int)
    requires !s.done && r <= |s.sessions| && m == Sweep(s, r, deadline, AllSlots())
    requires Base(m, p) && Table(m, f, r, r, deadline)
    ensures m == Step(s, Tick(deadline, AllSlots()))
  {
    forall j | r <= j < |m.sessions| ensures !Expired(m.sessions[j], deadline) {
      OthersNotDue(m, p, f, r, r, deadline, j, deadline);
    }
    TickIs(s, m, r, deadline, AllSlots());
  }

  /** The whole sweep. */
  lemma SweepAll(s: Coord, p: Setting, f: nat, a: nat, r: nat, pool: set<Id>, done: set<Id>, deadline: int)
      returns (m: Coord, more: set<Id>)
    requires Stage(s, p, f, a, r, pool, done, deadline) && |done| < p.t
    ensures m == Step(s, Tick(deadline, AllSlots())) && Stage(m, p, f, r, r, more, done, deadline)
  {
    forall j | 0 <= j < a ensures !Expired(s.sessions[j], deadline) {
      OthersNotDue(s, p, f, a, r, deadline, j, deadline);
    }
    SweepStaged(s, p, f, a, r, done, deadline, AllSlots(), r);
    m := Sweep(s, r, deadline, AllSlots());
    assert Look(m);
    more :| Stage(m, p, f, r, r, more, done, deadline);
    SweepEnds(s, m, p, f, r, deadline);
  }

  /** All parked sessions time out together. */
  lemma TimeOut(s: Coord, p: Setting, f: nat, a: nat, r: nat, pool: set<Id>, deadline: int, next: int)
      returns (m: Coord)
    requires Reached(s, p) && Layout(s, p, f, a, r, pool, pool, deadline) && |pool| < p.t
    ensures Reached(m, p) && Layout(m, p, f, r, r, Honest(p.n, p.faulty), pool, next)
  {
    ReachedBase(s, p);
    TickIsPrompt(s, p, f, a, r, pool, deadline);
    LeadsOne(s, Tick(deadline, AllSlots()), p.faulty);
    var more;
    m, more := SweepAll(s, p, f, a, r, pool, pool, deadline);
    ReachedOn(s, m, p);
    EveryoneBack(m, p, f, r, more, pool, deadline, next);
  }

  /** With no session left, every honest signer is asked or has committed. */
  lemma EveryoneBack(m: Coord, p: Setting, f: nat, r: nat, more: set<Id>, done: set<Id>, deadline: int, next: int)
    requires Layout(m, p, f, r, r, more, done, deadline)
    ensures more == Honest(p.n, p.faulty) && Layout(m, p, f, r, r, more, done, next)
  {
    forall x | x in Honest(p.n, p.faulty) ensures x in more {
      assert !Held(m, r, r, x);
    }
  }

  /** A batch: sessions up to slot `r`, the left over honest signers commit, all time out. */
  lemma Batch(p: Setting, f: nat, a: nat, r: nat, size: int, deadline: int, next: int)
    requires CanPark(p, f, a, r, size, deadline) && size < p.t
    ensures CanPark(p, f, r, r, |Honest(p.n, p.faulty)|, next)
  {
    var s, pool, done :| Scene(s, p, f, a, r, pool, done, size, deadline);
    assert Look(s);
    var s1 := CommitRest(s, p, f, a, r, pool, done, deadline, deadline - SESSION_TIMEOUT);
    var s2 := TimeOut(s1, p, f, a, r, pool, deadline, next);
    assert Scene(s2, p, f, r, r, Honest(p.n, p.faulty), pool, |Honest(p.n, p.faulty)|, next);
  }
}
