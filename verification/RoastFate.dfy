/**
 When a waiting session ends and how: event by event, and over runs. The timer fails a session at its deadline and
 not before; a share closes it when it is the t-th; a new message clears it; nothing else touches it.
 */
module RoastFate {
  import opened Octets
  import opened Bundles
  import opened Roast
  import opened RoastInvariant
  import opened RoastExclusion
  import opened RoastHistory

  // ---------------------------------------------------------------- the timer

  /** Slot `j` of `s` after the sweep reached slot `i`. */
  predicate TimedSlot(s: Coord, m: Coord, i: int, now: int, j: int)
    requires 0 <= j < |s.sessions| && j < |m.sessions|
  {
    var a, b := s.sessions[j], m.sessions[j];
    if a.state.Empty? then b.state.Empty? || b.id >= s.nextSid
    else b == if j < i && a.state.Awaiting? && now >= a.deadline then a.(state := Failed) else a
  }

  /** Sessions formed since `s` wait, and are not due. */
  predicate NewWait(s: Coord, m: Coord, now: int) {
    && s.nextSid <= m.nextSid
    && forall j :: 0 <= j < |m.sessions| && !m.sessions[j].state.Empty? && m.sessions[j].id >= s.nextSid ==>
         m.sessions[j].state.Awaiting? && m.sessions[j].deadline > now
  }

  predicate Timed(s: Coord, m: Coord, i: int, now: int) {
    && |m.sessions| == |s.sessions| && NewWait(s, m, now)
    && forall j {:trigger TimedSlot(s, m, i, now, j)} :: 0 <= j < |s.sessions| ==> TimedSlot(s, m, i, now, j)
  }

  lemma FormTimed(s: Coord, m: Coord, i: int, now: int, assembled: bool)
    requires Timed(s, m, i, now)
    ensures Timed(s, MaybeForm(m, now, assembled), i, now)
  {
    var r := MaybeForm(m, now, assembled);
    forall j | 0 <= j < |s.sessions| ensures TimedSlot(s, r, i, now, j) {
      assert TimedSlot(s, m, i, now, j);
    }
  }

  lemma SlotTimed(s: Coord, m: Coord, i: nat, next: nat, now: int, assembled: bool)
    requires Timed(s, m, i, now) && i < |s.sessions| && next == i + 1
    ensures Timed(s, SweepSlot(m, i, now, assembled), next, now)
  {
    assert TimedSlot(s, m, i, now, i);
    if Expired(m.sessions[i], now) {
      var x := Expire(m, i);
      forall j | 0 <= j < |s.sessions| ensures TimedSlot(s, x, next, now, j) {
        assert TimedSlot(s, m, i, now, j);
      }
      FormTimed(s, x, next, now, assembled);
    } else {
      forall j | 0 <= j < |s.sessions| ensures TimedSlot(s, m, next, now, j) {
        assert TimedSlot(s, m, i, now, j);
      }
    }
  }

  lemma TimedSelf(s: Coord, now: int)
    requires SessionsOk(s)
    ensures Timed(s, s, 0, now)
  {
    forall j | 0 <= j < |s.sessions| ensures TimedSlot(s, s, 0, now, j) {
    }
  }

  lemma SweepTimed(s: Coord, k: nat, now: int, after: set<int>)
    requires SessionsOk(s) && k <= |s.sessions|
    ensures Timed(s, Sweep(s, k, now, after), k, now)
  {
    var inv := (i: nat, m: Coord) => Timed(s, m, i, now);
    TimedSelf(s, now);
    forall i: nat, m: Coord | i < k && |m.sessions| == |s.sessions| && inv(i, m)
      ensures inv(i + 1, SweepSlot(m, i, now, i in after))
    {
      SlotTimed(s, m, i, i + 1, now, i in after);
    }
    SweepInduct(inv, s, k, now, after);
  }

  /** The timer fails a waiting session if and only if its deadline has come, and leaves it alone otherwise. */
  lemma TickFailsIff(s: Coord, now: int, after: set<int>, k: nat)
    requires SessionsOk(s) && !s.done && k < |s.sessions| && s.sessions[k].state.Awaiting?
    ensures var r := Step(s, Tick(now, after));
            && |r.sessions| == |s.sessions|
            && (r.sessions[k].state.Failed? <==> now >= s.sessions[k].deadline)
            && r.sessions[k] == s.sessions[k].(state := r.sessions[k].state)
            && (now < s.sessions[k].deadline ==> r.sessions[k] == s.sessions[k])
  {
    SweepTimed(s, |s.sessions|, now, after);
    assert TimedSlot(s, Sweep(s, |s.sessions|, now, after), |s.sessions|, now, k);
  }

  lemma {:induction false} NothingDueYet(s: Coord, k: nat, now: int, after: set<int>)
    requires k <= |s.sessions|
    requires forall j :: 0 <= j < |s.sessions| && s.sessions[j].state.Awaiting? ==> now < s.sessions[j].deadline
    ensures Sweep(s, k, now, after) == s
  {
    if k != 0 {
      NothingDueYet(s, k - 1, now, after);
    }
  }

  /** Before the first deadline the timer changes nothing at all. */
  lemma EarlyTick(s: Coord, now: int, after: set<int>)
    requires forall j :: 0 <= j < |s.sessions| && s.sessions[j].state.Awaiting? ==> now < s.sessions[j].deadline
    ensures Step(s, Tick(now, after)) == s
  {
    NothingDueYet(s, |s.sessions|, now, after);
  }

  /** Over every run: a session times out at a Tick if and only if ten seconds have passed since it was formed. */
  lemma TimesOutIff(n: int, t: int, tbs: Bytes, serial: nat, toMint: nat, es: seq<Event>, now: int, after: set<int>,
                    k: nat)
    requires k < MAX_SESSIONS == |Run(Start(n, t, tbs, serial, toMint), es).sessions|
    requires var s := Run(Start(n, t, tbs, serial, toMint), es); !s.done && s.sessions[k].state.Awaiting?
    ensures var s0 := Start(n, t, tbs, serial, toMint);
            var s := Run(s0, es);
            var r := Run(s0, es + [Tick(now, after)]);
            && |r.sessions| == MAX_SESSIONS && r.sessions[k].id == s.sessions[k].id
            && (r.sessions[k].state.Failed? <==> now >= FormedAt(s0, es, s.sessions[k].id) + SESSION_TIMEOUT)
            && (r.sessions[k].state.Awaiting? <==> now < FormedAt(s0, es, s.sessions[k].id) + SESSION_TIMEOUT)
  {
    var s0 := Start(n, t, tbs, serial, toMint);
    RunRecorded(n, t, tbs, serial, toMint, es, k);
    StartIsFine(n, t, tbs, serial, toMint);
    RunKeeps(s0, es);
    TickFailsIff(Run(s0, es), now, after, k);
    assert (es + [Tick(now, after)])[..|es|] == es;
  }

  // ---------------------------------------------------------------- every event

  /** The share that makes its session complete, while the message is not done. */
  predicate ClosesSlot(s: Coord, e: Event, k: int) {
    && e.Share? && !s.done && 0 <= k < |s.sessions| && s.sessions[k].state.Awaiting?
    && Brings(s, e, s.sessions[k].id, e.id) && s.sessions[k].nShares + 1 >= s.t
  }

  /** The state of the waiting slot `k` after an event. */
  function Fate(s: Coord, e: Event, k: nat): SessionState
    requires k < |s.sessions|
  {
    if e.Tick? && !s.done && e.now >= s.sessions[k].deadline then Failed
    else if ClosesSlot(s, e, k) then if e.verdict.Good? then Complete else Failed
    else if e.NextCert? && s.done && s.toMint > 0 then Empty
    else Awaiting
  }

  /** Forming a session touches only a slot that was never used. */
  lemma FormSpares(s: Coord, now: int, assembled: bool, k: nat)
    requires k < |s.sessions| && !s.sessions[k].state.Empty?
    ensures k < |MaybeForm(s, now, assembled).sessions| && MaybeForm(s, now, assembled).sessions[k] == s.sessions[k]
  {
  }

  lemma AggregateFate(s: Coord, f: nat, v: Verdict, now: int, assembled: bool, k: nat)
    requires f < |s.sessions| && k < |s.sessions| && !s.sessions[k].state.Empty?
    ensures var r := Aggregate(s, f, v, now, assembled);
            && |r.sessions| == |s.sessions|
            && r.sessions[k].state ==
               if k == f && s.sessions[f].nShares >= s.t && !s.done then if v.Good? then Complete else Failed
               else s.sessions[k].state
  {
    if v.Culprit? {
      FormSpares(DropCulprit(s, f, v.culprit), now, assembled, k);
    }
  }

  lemma ShareFate(s: Coord, e: Event, k: nat)
    requires Inv(s) && e.Share? && k < |s.sessions| && s.sessions[k].state.Awaiting?
    ensures |Step(s, e).sessions| == |s.sessions| && Step(s, e).sessions[k].state == Fate(s, e, k)
  {
    BringsIsRouted(s, e, s.sessions[k].id, e.id);
    if |e.payload| <= MAX_PAYLOAD && Routable(s, e.id) {
      var f := FindSession(s.sessions, s.signers[IndexOf(s.signers, e.id)].sessionId);
      if s.sessions[k].id == s.sessions[f].id {
        IdsUnique(s, k, f);
      }
      AggregateFate(StoreShare(s, e.id, e.payload), f, e.verdict, e.now, e.assembled, k);
    }
  }

  lemma CommitFate(s: Coord, e: Event, k: nat)
    requires e.Commit? && k < |s.sessions| && !s.sessions[k].state.Empty?
    ensures |Step(s, e).sessions| == |s.sessions| && Step(s, e).sessions[k] == s.sessions[k]
  {
    if CommitAccepted(s, e.id, e.payload, e.sig) {
      FormSpares(StoreCommit(s, IndexOf(s.signers, e.id), e.payload, e.sig), e.now, e.assembled, k);
    }
  }

  /** What becomes of a waiting session, exactly, for every event. */
  lemma SessionFate(s: Coord, e: Event, k: nat)
    requires Inv(s) && k < |s.sessions| && s.sessions[k].state.Awaiting?
    ensures |Step(s, e).sessions| == |s.sessions| && Step(s, e).sessions[k].state == Fate(s, e, k)
  {
    match e
    case Share(_, _, _, _, _) => ShareFate(s, e, k);
    case Commit(_, _, _, _, _) => CommitFate(s, e, k);
    case Tick(now, after) => if !s.done { TickFailsIff(s, now, after, k); }
    case _ =>
  }
}
