/**
 What a session holds is history: its deadline is ten seconds after the event that formed it, and the place of
 a member holds the payload of the last share this member sent to it, byte for byte. Both are read off the
 events of a run.
 */
module RoastHistory {
  import opened Octets
  import opened Bundles
  import opened Roast
  import opened RoastInvariant
  import opened RoastExclusion

  // ---------------------------------------------------------------- what the events say

  /** The clock of an event; the others form no session. */
  function TimeOf(e: Event): int {
    match e
    case Commit(_, _, _, now, _) => now
    case Share(_, _, _, now, _) => now
    case Tick(now, _) => now
    case _ => 0
  }

  /** Session `sid` waits, has `m` as a member, and is the one that the connected `m` points to. */
  predicate WaitsOn(s: Coord, sid: nat, m: Id) {
    && (exists i :: 0 <= i < |s.signers| && s.signers[i].id == m && s.signers[i].sessionId == sid)
    && exists k :: 0 <= k < |s.sessions| && s.sessions[k].state.Awaiting? && s.sessions[k].id == sid
                && m in s.sessions[k].members
  }

  /** The event brings a share of `m` for session `sid`. */
  predicate Brings(s: Coord, e: Event, sid: nat, m: Id) {
    e.Share? && e.id == m && |e.payload| <= MAX_PAYLOAD && WaitsOn(s, sid, m)
  }

  /** The payload of the last share that `m` sent to session `sid`, nothing if it sent none. */
  function LastSent(s: Coord, es: seq<Event>, sid: nat, m: Id): Bytes {
    if es == [] then [] else
    var init, e := es[..|es| - 1], es[|es| - 1];
    if Brings(Run(s, init), e, sid, m) then e.payload else LastSent(s, init, sid, m)
  }

  /** How many shares were sent to session `sid`. */
  function SentTo(s: Coord, es: seq<Event>, sid: nat): nat {
    if es == [] then 0 else
    var init, e := es[..|es| - 1], es[|es| - 1];
    SentTo(s, init, sid) + if e.Share? && Brings(Run(s, init), e, sid, e.id) then 1 else 0
  }

  /** The time of the event that formed session `sid`. */
  function FormedAt(s: Coord, es: seq<Event>, sid: nat): int {
    if es == [] then 0 else
    var init, e := es[..|es| - 1], es[|es| - 1];
    if Run(s, init).nextSid <= sid < Run(s, es).nextSid then TimeOf(e) else FormedAt(s, init, sid)
  }

  // ---------------------------------------------------------------- what a step does to the slots

  /** Slot `k`: cleared, the same session with at most another state, or formed since. */
  predicate SlotKept(s: Coord, r: Coord, now: int, k: int)
    requires 0 <= k < |s.sessions| && k < |r.sessions|
  {
    var a, b := s.sessions[k], r.sessions[k];
    || b.state.Empty?
    || (!a.state.Empty? && b == a.(state := b.state))
    || (s.nextSid <= b.id < r.nextSid && b.deadline == now + SESSION_TIMEOUT && b.nShares == 0
        && forall i :: 0 <= i < |b.shares| ==> b.shares[i] == [])
  }

  predicate Kept(s: Coord, r: Coord, now: int) {
    && |r.sessions| == |s.sessions| && s.nextSid <= r.nextSid
    && forall k {:trigger SlotKept(s, r, now, k)} :: 0 <= k < |s.sessions| ==> SlotKept(s, r, now, k)
  }

  lemma KeptTrans(s: Coord, m: Coord, r: Coord, now: int)
    requires Kept(s, m, now) && Kept(m, r, now)
    ensures Kept(s, r, now)
  {
    forall k | 0 <= k < |s.sessions| ensures SlotKept(s, r, now, k) {
      assert SlotKept(s, m, now, k) && SlotKept(m, r, now, k);
    }
  }

  /** Only the sessions matter. */
  lemma KeptFrame(s: Coord, r: Coord, r2: Coord, now: int)
    requires Kept(s, r, now) && r2.sessions == r.sessions && r2.nextSid == r.nextSid
    ensures Kept(s, r2, now)
  {
    forall k | 0 <= k < |s.sessions| ensures SlotKept(s, r2, now, k) {
      assert SlotKept(s, r, now, k);
    }
  }

  lemma FormKept(s: Coord, now: int, assembled: bool)
    ensures Kept(s, MaybeForm(s, now, assembled), now)
  {
  }

  lemma CulpritKept(s: Coord, k: nat, c: Id, now: int, assembled: bool)
    requires k < |s.sessions| && s.sessions[k].state.Awaiting?
    ensures Kept(s, FailCulprit(s, k, c, now, assembled), now)
  {
    var m := DropCulprit(s, k, c);
    FormKept(m, now, assembled);
    assert Kept(s, m, now);
    KeptTrans(s, m, MaybeForm(m, now, assembled), now);
    KeptFrame(s, MaybeForm(m, now, assembled), FailCulprit(s, k, c, now, assembled), now);
  }

  lemma AggregateKept(s: Coord, k: nat, v: Verdict, now: int, assembled: bool)
    requires k < |s.sessions| && s.sessions[k].state.Awaiting?
    ensures Kept(s, Aggregate(s, k, v, now, assembled), now)
  {
    if s.sessions[k].nShares >= s.t && !s.done && v.Culprit? && 0 < v.culprit <= MAX_SIGNERS {
      CulpritKept(s, k, v.culprit, now, assembled);
    }
  }

  lemma CommitKept(s: Coord, id: Id, payload: Bytes, sig: Bytes, now: int, assembled: bool)
    ensures Kept(s, OnCommit(s, id, payload, sig, now, assembled), now)
  {
    if CommitAccepted(s, id, payload, sig) {
      var m := StoreCommit(s, IndexOf(s.signers, id), payload, sig);
      FormKept(m, now, assembled);
      assert Kept(s, m, now);
      KeptTrans(s, m, MaybeForm(m, now, assembled), now);
    }
  }

  lemma SlotSweptKept(s: Coord, k: nat, now: int, assembled: bool)
    requires k < |s.sessions|
    ensures Kept(s, SweepSlot(s, k, now, assembled), now)
  {
    if Expired(s.sessions[k], now) {
      var m := Expire(s, k);
      FormKept(m, now, assembled);
      assert Kept(s, m, now);
      KeptTrans(s, m, MaybeForm(m, now, assembled), now);
    }
  }

  lemma SweepKept(s: Coord, k: nat, now: int, after: set<int>)
    requires k <= |s.sessions|
    ensures Kept(s, Sweep(s, k, now, after), now)
  {
    var inv := (i: nat, m: Coord) => Kept(s, m, now);
    forall i: nat, m: Coord | i < k && |m.sessions| == |s.sessions| && inv(i, m)
      ensures inv(i + 1, SweepSlot(m, i, now, i in after))
    {
      SlotSweptKept(m, i, now, i in after);
      KeptTrans(s, m, SweepSlot(m, i, now, i in after), now);
    }
    SweepInduct(inv, s, k, now, after);
  }

  lemma QuietKept(s: Coord, e: Event)
    requires !e.Share?
    ensures Kept(s, Step(s, e), TimeOf(e))
  {
    match e
    case Commit(id, payload, sig, now, assembled) => CommitKept(s, id, payload, sig, now, assembled);
    case Tick(now, after) => if !s.done { SweepKept(s, |s.sessions|, now, after); }
    case _ =>
  }

  // ---------------------------------------------------------------- a step, place by place

  /** Slot `k` after an event that changed it at most by what the event brings: an old session or a new one. */
  predicate Stepped(s: Coord, r: Coord, e: Event, k: int)
    requires 0 <= k < |s.sessions| && k < |r.sessions|
  {
    var a, b := s.sessions[k], r.sessions[k];
    || b.state.Empty?
    || (!a.state.Empty? && b.id == a.id < s.nextSid && Fills(s, e, a, b))
    || (s.nextSid <= b.id < r.nextSid && b.deadline == TimeOf(e) + SESSION_TIMEOUT && b.nShares == 0
        && forall i :: 0 <= i < |b.shares| ==> b.shares[i] == [])
  }

  /** The place of the event's sender gets the payload, if it belongs there; nothing else changes but the state. */
  predicate Fills(s: Coord, e: Event, a: Session, b: Session) {
    && b.deadline == a.deadline && b.members == a.members && b.pkg == a.pkg
    && |b.shares| == |a.shares| == |a.members|
    && b.nShares == a.nShares + (if e.Share? && Brings(s, e, a.id, e.id) then 1 else 0)
    && forall i :: 0 <= i < |a.shares| ==>
         b.shares[i] == if Brings(s, e, a.id, a.members[i]) then e.payload else a.shares[i]
  }

  lemma KeptStepped(s: Coord, r: Coord, e: Event, k: nat)
    requires SessionsOk(s) && k < |s.sessions| && Kept(s, r, TimeOf(e))
    requires forall m :: !Brings(s, e, s.sessions[k].id, m)
    ensures Stepped(s, r, e, k)
  {
    assert SlotKept(s, r, TimeOf(e), k);
    assert !s.sessions[k].state.Empty? ==> SessionOk(s.sessions[k], s.n, s.t);
  }

  /** What a share of `m` for `sid` needs is just what lets the coordinator route it. */
  lemma BringsIsRouted(s: Coord, e: Event, sid: nat, m: Id)
    requires Inv(s)
    ensures Brings(s, e, sid, m) <==>
      (e.Share? && e.id == m && |e.payload| <= MAX_PAYLOAD && Routable(s, m)
       && s.signers[IndexOf(s.signers, m)].sessionId == sid)
  {
    if i :| 0 <= i < |s.signers| && s.signers[i].id == m {
      IndexOfIs(s.signers, i);
      RoutableIff(s, i);
    }
  }

  lemma StoredFills(s: Coord, e: Event)
    requires Inv(s) && e.Share? && |e.payload| <= MAX_PAYLOAD && Routable(s, e.id)
    ensures var k := FindSession(s.sessions, s.signers[IndexOf(s.signers, e.id)].sessionId);
            Fills(s, e, s.sessions[k], StoreShare(s, e.id, e.payload).sessions[k])
  {
    var k := FindSession(s.sessions, s.signers[IndexOf(s.signers, e.id)].sessionId);
    var a, b := s.sessions[k], StoreShare(s, e.id, e.payload).sessions[k];
    assert SessionOk(a, s.n, s.t);
    BringsIsRouted(s, e, a.id, e.id);
    forall i | 0 <= i < |a.shares|
      ensures b.shares[i] == if Brings(s, e, a.id, a.members[i]) then e.payload else a.shares[i]
    {
      BringsIsRouted(s, e, a.id, a.members[i]);
      SlotOfIs(a.members, i);
    }
  }

  /** First the share is stored, which leaves the state of the slot alone; then the coordinator acts on it. */
  lemma SteppedVia(s: Coord, m: Coord, r: Coord, e: Event, k: nat)
    requires k < |s.sessions| && k < |m.sessions| && k < |r.sessions| && m.nextSid == s.nextSid
    requires m.sessions[k].state == s.sessions[k].state && m.sessions[k].id == s.sessions[k].id
    requires !s.sessions[k].state.Empty? ==> s.sessions[k].id < s.nextSid && Fills(s, e, s.sessions[k], m.sessions[k])
    requires SlotKept(m, r, TimeOf(e), k)
    ensures Stepped(s, r, e, k)
  {
  }

  /** A share that is not routed to slot `k` leaves its places alone. */
  lemma FillsNothing(s: Coord, e: Event, k: nat)
    requires SessionsOk(s) && k < |s.sessions| && !s.sessions[k].state.Empty?
    requires forall m :: !Brings(s, e, s.sessions[k].id, m)
    ensures Fills(s, e, s.sessions[k], s.sessions[k])
  {
    assert SessionOk(s.sessions[k], s.n, s.t);
  }

  lemma StoredSlot(s: Coord, e: Event, k: nat)
    requires Inv(s) && e.Share? && |e.payload| <= MAX_PAYLOAD && Routable(s, e.id)
    requires k < |s.sessions| && !s.sessions[k].state.Empty?
    ensures Fills(s, e, s.sessions[k], StoreShare(s, e.id, e.payload).sessions[k])
  {
    if k == FindSession(s.sessions, s.signers[IndexOf(s.signers, e.id)].sessionId) {
      StoredFills(s, e);
    } else {
      forall m ensures !Brings(s, e, s.sessions[k].id, m) {
        OthersGetNothing(s, e, k, m);
      }
      FillsNothing(s, e, k);
    }
  }

  lemma StoredSame(s: Coord, id: Id, payload: Bytes, k: nat)
    requires Routable(s, id) && k < |s.sessions|
    ensures var m := StoreShare(s, id, payload);
            && |m.sessions| == |s.sessions| && m.nextSid == s.nextSid
            && m.sessions[k].state == s.sessions[k].state && m.sessions[k].id == s.sessions[k].id
  {
  }

  lemma ActedKept(s: Coord, e: Event, k: nat)
    requires e.Share? && |e.payload| <= MAX_PAYLOAD && Routable(s, e.id) && k < |s.sessions|
    ensures var m := StoreShare(s, e.id, e.payload);
            |m.sessions| == |s.sessions| == |Step(s, e).sessions| && SlotKept(m, Step(s, e), e.now, k)
  {
    var f := FindSession(s.sessions, s.signers[IndexOf(s.signers, e.id)].sessionId);
    AggregateKept(StoreShare(s, e.id, e.payload), f, e.verdict, e.now, e.assembled);
  }

  lemma RoutedStepped(s: Coord, e: Event, k: nat)
    requires Inv(s) && e.Share? && |e.payload| <= MAX_PAYLOAD && Routable(s, e.id) && k < |s.sessions|
    ensures k < |Step(s, e).sessions| && Stepped(s, Step(s, e), e, k)
  {
    if !s.sessions[k].state.Empty? {
      StoredSlot(s, e, k);
    }
    StoredSame(s, e.id, e.payload, k);
    ActedKept(s, e, k);
    SteppedVia(s, StoreShare(s, e.id, e.payload), Step(s, e), e, k);
  }

  lemma ShareStepped(s: Coord, e: Event, k: nat)
    requires Inv(s) && e.Share? && k < |s.sessions|
    ensures k < |Step(s, e).sessions| && Stepped(s, Step(s, e), e, k)
  {
    if |e.payload| <= MAX_PAYLOAD && Routable(s, e.id) {
      RoutedStepped(s, e, k);
    } else {
      forall m ensures !Brings(s, e, s.sessions[k].id, m) {
        BringsIsRouted(s, e, s.sessions[k].id, m);
      }
      assert forall j :: 0 <= j < |s.sessions| ==> SlotKept(s, s, e.now, j);
      KeptStepped(s, s, e, k);
    }
  }

  lemma OthersGetNothing(s: Coord, e: Event, k: nat, m: Id)
    requires Inv(s) && e.Share? && Routable(s, e.id) && k < |s.sessions| && !s.sessions[k].state.Empty?
    requires k != FindSession(s.sessions, s.signers[IndexOf(s.signers, e.id)].sessionId)
    ensures !Brings(s, e, s.sessions[k].id, m)
  {
    var f := FindSession(s.sessions, s.signers[IndexOf(s.signers, e.id)].sessionId);
    BringsIsRouted(s, e, s.sessions[k].id, m);
    if s.sessions[k].id == s.sessions[f].id {
      IdsUnique(s, k, f);
    }
  }

  lemma StepStepped(s: Coord, e: Event, k: nat)
    requires Inv(s) && k < |s.sessions|
    ensures k < |Step(s, e).sessions| && Stepped(s, Step(s, e), e, k)
  {
    if e.Share? {
      ShareStepped(s, e, k);
    } else {
      QuietKept(s, e);
      KeptStepped(s, Step(s, e), e, k);
    }
  }

  // ---------------------------------------------------------------- over every run

  lemma {:induction false} NothingSentYet(s: Coord, es: seq<Event>, sid: nat, m: Id)
    requires Inv(s) && sid >= Run(s, es).nextSid
    ensures LastSent(s, es, sid, m) == [] && SentTo(s, es, sid) == 0
  {
    if es != [] {
      var init := es[..|es| - 1];
      RunKeeps(s, init);
      StepEvolves(Run(s, init), es[|es| - 1]);
      NothingSentYet(s, init, sid, m);
      if Brings(Run(s, init), es[|es| - 1], sid, m) {
        BringsIsRouted(Run(s, init), es[|es| - 1], sid, m);
      }
      if es[|es| - 1].Share? {
        BringsIsRouted(Run(s, init), es[|es| - 1], sid, es[|es| - 1].id);
      }
    }
  }

  /** Slot `k` after the run holds what the events say. */
  predicate Recorded(s: Coord, es: seq<Event>, k: nat)
    requires k < |Run(s, es).sessions|
  {
    var sess := Run(s, es).sessions[k];
    !sess.state.Empty? ==>
      && sess.deadline == FormedAt(s, es, sess.id) + SESSION_TIMEOUT
      && |sess.shares| == |sess.members| && sess.nShares == SentTo(s, es, sess.id)
      && forall i :: 0 <= i < |sess.members| ==> sess.shares[i] == LastSent(s, es, sess.id, sess.members[i])
  }

  lemma NotYetFormed(s: Coord, e: Event, sid: nat, m: Id)
    requires Inv(s) && sid >= s.nextSid
    ensures !Brings(s, e, sid, m)
  {
    BringsIsRouted(s, e, sid, m);
  }

  /** Slot `k` holds a session formed by the last event. */
  lemma NewRecorded(s: Coord, es: seq<Event>, k: nat)
    requires es != [] && Inv(s) && Inv(Run(s, es[..|es| - 1])) && SessionsOk(Run(s, es))
    requires k < |Run(s, es).sessions| == |Run(s, es[..|es| - 1]).sessions|
    requires Stepped(Run(s, es[..|es| - 1]), Run(s, es), es[|es| - 1], k)
    requires Run(s, es).sessions[k].id >= Run(s, es[..|es| - 1]).nextSid
    ensures Recorded(s, es, k)
  {
    var p, e, sess := Run(s, es[..|es| - 1]), es[|es| - 1], Run(s, es).sessions[k];
    if !sess.state.Empty? {
      assert SessionOk(sess, Run(s, es).n, Run(s, es).t);
      forall m ensures !Brings(p, e, sess.id, m) && LastSent(s, es, sess.id, m) == [] {
        NotYetFormed(p, e, sess.id, m);
        NothingSentYet(s, es[..|es| - 1], sess.id, m);
      }
      NothingSentYet(s, es[..|es| - 1], sess.id, 0);
    }
  }

  /** Slot `k` holds an older session. */
  lemma OldRecorded(s: Coord, es: seq<Event>, k: nat)
    requires es != [] && k < |Run(s, es).sessions| == |Run(s, es[..|es| - 1]).sessions|
    requires Recorded(s, es[..|es| - 1], k) && Stepped(Run(s, es[..|es| - 1]), Run(s, es), es[|es| - 1], k)
    requires Run(s, es).sessions[k].id < Run(s, es[..|es| - 1]).nextSid
    ensures Recorded(s, es, k)
  {
  }

  lemma RecordedStep(s: Coord, es: seq<Event>, k: nat)
    requires es != [] && Inv(Run(s, es[..|es| - 1])) && Inv(s)
    requires k < |Run(s, es[..|es| - 1]).sessions| && Recorded(s, es[..|es| - 1], k)
    ensures k < |Run(s, es).sessions| && Recorded(s, es, k)
  {
    var p, e := Run(s, es[..|es| - 1]), es[|es| - 1];
    StepStepped(p, e, k);
    StepKeeps(p, e);
    if Run(s, es).sessions[k].id >= p.nextSid {
      NewRecorded(s, es, k);
    } else {
      OldRecorded(s, es, k);
    }
  }

  lemma {:induction false} RunRecorded(n: int, t: int, tbs: Bytes, serial: nat, toMint: nat, es: seq<Event>, k: nat)
    requires k < MAX_SESSIONS
    ensures var s := Start(n, t, tbs, serial, toMint); |Run(s, es).sessions| == MAX_SESSIONS && Recorded(s, es, k)
  {
    var s := Start(n, t, tbs, serial, toMint);
    StartIsFine(n, t, tbs, serial, toMint);
    RunKeeps(s, es);
    if es != [] {
      RunRecorded(n, t, tbs, serial, toMint, es[..|es| - 1], k);
      RunKeeps(s, es[..|es| - 1]);
      RecordedStep(s, es, k);
    }
  }

  /** A line of aggregate's input for each non-empty place, with the member it belongs to. */
  lemma {:induction false} LinesAre(members: seq<Id>, shares: seq<Bytes>, m: Id, x: Bytes)
    requires |members| == |shares|
    ensures (m, x) in AggregateLines(members, shares) <==>
      x != [] && exists i :: 0 <= i < |members| && members[i] == m && shares[i] == x
  {
    if members != [] {
      LinesAre(members[1..], shares[1..], m, x);
      assert forall i :: 0 < i < |members| ==> members[i] == members[1..][i - 1] && shares[i] == shares[1..][i - 1];
      if i :| 0 <= i < |members[1..]| && members[1..][i] == m && shares[1..][i] == x {
        assert members[i + 1] == m && shares[i + 1] == x;
      }
    }
  }

  /**
   Whatever aggregate is fed for a session, over every run: a line for a member is the payload of the last share
   that this member sent to this session, and nobody else has a line.
   */
  lemma LinesWereSent(n: int, t: int, tbs: Bytes, serial: nat, toMint: nat, es: seq<Event>, k: nat, m: Id, x: Bytes)
    requires k < MAX_SESSIONS == |Run(Start(n, t, tbs, serial, toMint), es).sessions|
    requires !Run(Start(n, t, tbs, serial, toMint), es).sessions[k].state.Empty?
    ensures var s := Start(n, t, tbs, serial, toMint);
            var sess := Run(s, es).sessions[k];
            && |sess.members| == |sess.shares|
            && ((m, x) in AggregateLines(sess.members, sess.shares) <==>
                m in sess.members && x != [] && x == LastSent(s, es, sess.id, m))
  {
    RunRecorded(n, t, tbs, serial, toMint, es, k);
    var sess := Run(Start(n, t, tbs, serial, toMint), es).sessions[k];
    LinesAre(sess.members, sess.shares, m, x);
  }
}
