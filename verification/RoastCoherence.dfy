/**
 Session coherence: members of a waiting session point back to it, and waiting sessions are
 disjoint. Two steps can break it, a registration of an id that a waiting session still
 counts on and the broadcast after an unattributed failure; each is given its exact condition.
 */
module RoastCoherence {
  import opened Octets
  import opened Bundles
  import opened Counting
  import opened Roast
  import opened RoastInvariant

  predicate Active(s: Coord, k: int) {
    0 <= k < |s.sessions| && s.sessions[k].state.Awaiting?
  }

  ghost predicate InActive(s: Coord, id: Id) {
    exists k :: Active(s, k) && id in s.sessions[k].members
  }

  /** Phases of a signer that is free to be chosen now or after its next commitment. */
  predicate Free(sg: Signer) {
    sg.phase.Init? || sg.phase.Committed? || sg.phase.Suspect?
  }

  ghost predicate PointsBack(s: Coord) {
    forall i, k :: 0 <= i < |s.signers| && Active(s, k) && s.signers[i].id in s.sessions[k].members ==>
      s.signers[i].sessionId == s.sessions[k].id && !Free(s.signers[i])
  }

  ghost predicate Disjoint(s: Coord) {
    forall j, k, id :: Active(s, j) && Active(s, k) && j != k && id in s.sessions[j].members ==>
      id !in s.sessions[k].members
  }

  ghost predicate Coherent(s: Coord) {
    PointsBack(s) && Disjoint(s)
  }

  // ---------------------------------------------------------------- steps

  /** Nobody that can be chosen belongs to a waiting session. */
  lemma ChosenAreFree(s: Coord, id: Id)
    requires SignersOk(s) && Coherent(s) && id in Select(s)
    ensures !InActive(s, id)
  {
    SelectIs(s);
    assert SelectableId(id, s);
    var i :| 0 <= i < |s.signers| && s.signers[i].id == id && Free(s.signers[i]);
  }

  lemma StartCoherent(s: Coord, chosen: seq<Id>, b: Bundle, f: nat, now: int)
    requires Coherent(s) && f < |s.sessions| && s.sessions[f].state.Empty?
    requires forall id :: id in chosen ==> !InActive(s, id)
    ensures Coherent(Form(s, chosen, b, f, now))
  {
    var r := Form(s, chosen, b, f, now);
    assert forall k :: Active(r, k) ==> k == f || (Active(s, k) && r.sessions[k] == s.sessions[k]);
    forall i, k | 0 <= i < |r.signers| && Active(r, k) && r.signers[i].id in r.sessions[k].members
      ensures r.signers[i].sessionId == r.sessions[k].id && !Free(r.signers[i])
    {
      if k != f {
        assert InActive(s, s.signers[i].id);
      }
    }
    forall j, k, id | Active(r, j) && Active(r, k) && j != k && id in r.sessions[j].members
      ensures id !in r.sessions[k].members
    {
      if j == f {
        assert Active(s, k);
      } else if k == f {
        assert InActive(s, id);
      }
    }
  }

  lemma FormCoherent(s: Coord, now: int, assembled: bool)
    requires Inv(s) && Coherent(s) && Formable(s, assembled)
    ensures Coherent(TryForm(s, now, assembled))
  {
    forall id | id in Select(s) ensures !InActive(s, id) {
      ChosenAreFree(s, id);
    }
    StartCoherent(s, Select(s), BundleFor(s, Select(s)), FreeSlot(s.sessions), now);
  }

  lemma MaybeFormCoherent(s: Coord, now: int, assembled: bool)
    requires Inv(s) && Coherent(s)
    ensures Coherent(MaybeForm(s, now, assembled))
  {
    if Formable(s, assembled) {
      FormCoherent(s, now, assembled);
    }
  }

  /** Closing session `k` and touching only its members, or signers that stay taken, keeps coherence. */
  lemma CloseCoherent(s: Coord, r: Coord, k: nat)
    requires Coherent(s) && Active(s, k)
    requires |r.sessions| == |s.sessions| && r.sessions == s.sessions[k := r.sessions[k]] &&
             !r.sessions[k].state.Awaiting?
    requires |r.signers| == |s.signers|
    requires forall i :: 0 <= i < |s.signers| ==> r.signers[i].id == s.signers[i].id
    requires forall i :: 0 <= i < |s.signers| && s.signers[i].id !in s.sessions[k].members ==>
               r.signers[i].sessionId == s.signers[i].sessionId && (Free(r.signers[i]) ==> Free(s.signers[i]))
    ensures Coherent(r)
  {
    assert forall j :: Active(r, j) ==> j != k && Active(s, j) && r.sessions[j] == s.sessions[j];
  }

  lemma DropCulpritCoherent(s: Coord, k: nat, culprit: Id)
    requires Coherent(s) && Active(s, k)
    ensures Coherent(DropCulprit(s, k, culprit))
  {
    CloseCoherent(s, DropCulprit(s, k, culprit), k);
  }

  lemma ExpireCoherent(s: Coord, k: nat)
    requires Coherent(s) && Active(s, k)
    ensures Coherent(Expire(s, k))
  {
    CloseCoherent(s, Expire(s, k), k);
  }

  lemma {:induction false} SweepCoherent(s: Coord, k: nat, now: int, after: set<int>)
    requires Inv(s) && !s.done && Coherent(s) && k <= |s.sessions|
    ensures Coherent(Sweep(s, k, now, after))
  {
    if k != 0 {
      SweepCoherent(s, k - 1, now, after);
      SweepKeeps(s, k - 1, now, after);
      var m := Sweep(s, k - 1, now, after);
      if Expired(m.sessions[k - 1], now) {
        ExpireCoherent(m, k - 1);
        ExpireKeeps(m, k - 1);
        MaybeFormCoherent(Expire(m, k - 1), now, k - 1 in after);
      }
    }
  }

  /** The sessions keep ids, members and states, and no signer becomes free or changes its session id. */
  lemma QuietCoherent(s: Coord, r: Coord)
    requires Coherent(s) && |r.sessions| == |s.sessions| && |r.signers| == |s.signers|
    requires forall k :: 0 <= k < |s.sessions| ==>
      r.sessions[k].id == s.sessions[k].id && r.sessions[k].members == s.sessions[k].members
      && (r.sessions[k].state.Awaiting? ==> s.sessions[k].state.Awaiting?)
    requires forall i :: 0 <= i < |s.signers| ==>
      r.signers[i].id == s.signers[i].id && r.signers[i].sessionId == s.signers[i].sessionId
      && (Free(r.signers[i]) ==> Free(s.signers[i]))
    ensures Coherent(r)
  {
    assert forall k :: Active(r, k) ==> Active(s, k);
  }

  /** Every signer that the broadcast would reset while another session waits for it is out of its reach. */
  ghost predicate BroadcastSafe(s: Coord, k: nat)
    requires k < |s.sessions|
  {
    forall i, j :: 0 <= i < |s.signers| && Active(s, j) && j != k && s.signers[i].id in s.sessions[j].members ==>
      s.signers[i].id in s.blacklist || s.signers[i].phase.NoKey?
  }

  /** An unattributed failure keeps coherence if and only if its broadcast resets nobody else's member. */
  lemma UnknownCoherentIff(s: Coord, k: nat)
    requires SharesStored(s, k) && Coherent(s)
    ensures Coherent(FailUnknown(s, k)) <==> BroadcastSafe(s, k)
  {
    var r := FailUnknown(s, k);
    AddAllBlacklistIs(s.blacklist, s.sessions[k].members);
    assert forall j :: Active(r, j) <==> j != k && Active(s, j);
    if Coherent(r) {
      forall i, j | 0 <= i < |s.signers| && Active(s, j) && j != k && s.signers[i].id in s.sessions[j].members
        ensures s.signers[i].id in s.blacklist || s.signers[i].phase.NoKey?
      {
        assert Active(r, j) && r.sessions[j] == s.sessions[j];
        assert s.signers[i].id !in s.sessions[k].members;
        assert !Free(r.signers[i]);
      }
    }
    if BroadcastSafe(s, k) {
      forall i, j | 0 <= i < |r.signers| && Active(r, j) && r.signers[i].id in r.sessions[j].members
        ensures r.signers[i].sessionId == r.sessions[j].id && !Free(r.signers[i])
      {
        assert Active(s, j) && s.signers[i].id !in s.sessions[k].members;
      }
    }
  }

  /** A registration keeps coherence if and only if no waiting session still counts on that id. */
  lemma RegisterCoherentIff(s: Coord, id: Id)
    requires Coherent(s) && !Connected(s.signers, id)
    ensures Coherent(Register(s, id)) <==> !InActive(s, id)
  {
    var r := Register(s, id);
    assert forall k :: Active(r, k) <==> Active(s, k);
    assert forall i :: 0 < i < |r.signers| ==> r.signers[i] == s.signers[i - 1];
    if !InActive(s, id) {
      forall i, k | 0 <= i < |r.signers| && Active(r, k) && r.signers[i].id in r.sessions[k].members
        ensures r.signers[i].sessionId == r.sessions[k].id && !Free(r.signers[i])
      {
        assert i > 0 && Active(s, k) && s.signers[i - 1].id in s.sessions[k].members;
      }
    } else {
      var k :| Active(s, k) && id in s.sessions[k].members;
      assert Active(r, k) && r.signers[0].id in r.sessions[k].members && Free(r.signers[0]);
    }
  }

  /** The verdict attributes the failure to nobody. */
  predicate Unattributed(v: Verdict) {
    v.Unknown? || (v.Culprit? && !(0 < v.culprit <= MAX_SIGNERS))
  }

  ghost predicate Steady(s: Coord, e: Event) {
    && (e.Hello? && !Connected(s.signers, e.id) ==> !InActive(s, e.id))
    && (e.Share? && Routable(s, e.id) && Unattributed(e.verdict) ==>
          BroadcastSafe(s, FindSession(s.sessions, s.signers[IndexOf(s.signers, e.id)].sessionId)))
  }

  lemma AggregateCoherent(s: Coord, k: nat, verdict: Verdict, now: int, assembled: bool)
    requires SharesStored(s, k) && Coherent(s)
    requires Unattributed(verdict) ==> BroadcastSafe(s, k)
    ensures Coherent(Aggregate(s, k, verdict, now, assembled))
  {
    if s.sessions[k].nShares >= s.t && !s.done {
      if verdict.Good? {
        CloseCoherent(s, Succeed(s, k, verdict.mintOk), k);
      } else if Unattributed(verdict) {
        UnknownCoherentIff(s, k);
      } else {
        var m := DropCulprit(s, k, verdict.culprit);
        DropCulpritCoherent(s, k, verdict.culprit);
        DropCulpritKeeps(s, k, verdict.culprit);
        MaybeFormCoherent(m, now, assembled);
        QuietCoherent(MaybeForm(m, now, assembled), FailCulprit(s, k, verdict.culprit, now, assembled));
      }
    }
  }

  lemma ShareCoherent(s: Coord, id: Id, payload: Bytes, verdict: Verdict, now: int, assembled: bool)
    requires Inv(s) && Coherent(s) && Steady(s, Share(id, payload, verdict, now, assembled))
    ensures Coherent(OnShare(s, id, payload, verdict, now, assembled))
  {
    if |payload| <= MAX_PAYLOAD && Routable(s, id) {
      var m := StoreShare(s, id, payload);
      var k := FindSession(s.sessions, s.signers[IndexOf(s.signers, id)].sessionId);
      StoreShareKeeps(s, id, payload);
      QuietCoherent(s, m);
      if Unattributed(verdict) {
        forall i, j | 0 <= i < |m.signers| && Active(m, j) && j != k && m.signers[i].id in m.sessions[j].members
          ensures m.signers[i].id in m.blacklist || m.signers[i].phase.NoKey?
        {
          assert Active(s, j) && Active(s, k);
          assert s.signers[i].id != id;
        }
      }
      AggregateCoherent(m, k, verdict, now, assembled);
    }
  }

  lemma CommitCoherent(s: Coord, id: Id, payload: Bytes, sig: Bytes, now: int, assembled: bool)
    requires Inv(s) && Coherent(s)
    ensures Coherent(OnCommit(s, id, payload, sig, now, assembled))
  {
    if CommitAccepted(s, id, payload, sig) {
      var m := StoreCommit(s, IndexOf(s.signers, id), payload, sig);
      StoreCommitKeeps(s, id, payload, sig);
      QuietCoherent(s, m);
      MaybeFormCoherent(m, now, assembled);
    }
  }

  lemma DisconnectCoherent(s: Coord, id: Id)
    requires Coherent(s)
    ensures Coherent(OnDisconnect(s, id))
  {
    var i, r := IndexOf(s.signers, id), OnDisconnect(s, id);
    if i < |s.signers| {
      assert forall k :: Active(r, k) <==> Active(s, k);
      assert forall a :: 0 <= a < |r.signers| ==> r.signers[a] == s.signers[if a < i then a else a + 1];
    }
  }

  lemma HelloCoherent(s: Coord, id: Id, n: int, t: int, authentic: bool)
    requires Coherent(s) && Steady(s, Hello(id, n, t, authentic))
    ensures Coherent(OnHello(s, id, n, t, authentic))
  {
    var s1 := if s.n == 0 then s.(n := n, t := t) else s;
    QuietCoherent(s, s1);
    assert forall k :: Active(s1, k) <==> Active(s, k);
    if !Connected(s1.signers, id) {
      assert !InActive(s1, id);
      RegisterCoherentIff(s1, id);
    }
  }

  lemma StepCoherent(s: Coord, e: Event)
    requires Inv(s) && Coherent(s) && Steady(s, e)
    ensures Coherent(Step(s, e))
  {
    match e
    case Hello(id, n, t, authentic) => HelloCoherent(s, id, n, t, authentic);
    case Disconnect(id) => DisconnectCoherent(s, id);
    case LoadFail(id) => QuietCoherent(s, OnLoadFail(s, id));
    case Commit(id, payload, sig, now, assembled) => CommitCoherent(s, id, payload, sig, now, assembled);
    case Share(id, payload, verdict, now, assembled) => ShareCoherent(s, id, payload, verdict, now, assembled);
    case Tick(now, after) => if !s.done { SweepCoherent(s, |s.sessions|, now, after); }
    case NextCert(newTbs) =>
      var r := OnNextCert(s, newTbs);
      if r != s {
        assert forall k :: !Active(r, k);
      }
  }

  ghost predicate AllSteady(s: Coord, es: seq<Event>) {
    forall i :: 0 <= i < |es| ==> Steady(Run(s, es[..i]), es[i])
  }

  lemma AllSteadyPrefix(s: Coord, es: seq<Event>)
    requires es != [] && AllSteady(s, es)
    ensures AllSteady(s, es[..|es| - 1]) && Steady(Run(s, es[..|es| - 1]), es[|es| - 1])
  {
    var init := es[..|es| - 1];
    forall i | 0 <= i < |init| ensures Steady(Run(s, init[..i]), init[i]) {
      assert init[..i] == es[..i];
    }
  }

  /** Coherence over whole runs, through formation, abort, expiry and the next certificate. */
  lemma {:induction false} RunCoherent(s: Coord, es: seq<Event>)
    requires Inv(s) && Coherent(s) && AllSteady(s, es)
    ensures Coherent(Run(s, es))
  {
    if es != [] {
      AllSteadyPrefix(s, es);
      RunCoherent(s, es[..|es| - 1]);
      RunKeeps(s, es[..|es| - 1]);
      StepCoherent(Run(s, es[..|es| - 1]), es[|es| - 1]);
    }
  }

  // ---------------------------------------------------------------- how many at once

  /** Everyone that the first `k` slots wait for. */
  function Taken(ss: seq<Session>): set<Id> {
    if ss == [] then {} else
    var last := ss[|ss| - 1];
    Taken(ss[..|ss| - 1]) + if last.state.Awaiting? then (set id | id in last.members) else {}
  }

  lemma {:induction false} TakenIs(ss: seq<Session>, id: Id)
    ensures id in Taken(ss) <==> exists k :: 0 <= k < |ss| && ss[k].state.Awaiting? && id in ss[k].members
  {
    if ss != [] {
      var init := ss[..|ss| - 1];
      TakenIs(init, id);
      if k :| 0 <= k < |ss| && ss[k].state.Awaiting? && id in ss[k].members {
        if k < |init| {
          assert init[k].state.Awaiting? && id in init[k].members;
        }
      }
      if k :| 0 <= k < |init| && init[k].state.Awaiting? && id in init[k].members {
        assert ss[k].state.Awaiting? && id in ss[k].members;
      }
    }
  }

  /** No two waiting sessions of the table share a member. */
  ghost predicate SlotsApart(ss: seq<Session>) {
    forall j, k, id :: 0 <= j < |ss| && 0 <= k < |ss| && j != k && ss[j].state.Awaiting? && ss[k].state.Awaiting? ==>
      id in ss[j].members ==> id !in ss[k].members
  }

  lemma DisjointApart(s: Coord)
    requires Disjoint(s)
    ensures SlotsApart(s.sessions)
  {
    forall j, k, id | 0 <= j < |s.sessions| && 0 <= k < |s.sessions| && j != k && s.sessions[j].state.Awaiting?
      && s.sessions[k].state.Awaiting? && id in s.sessions[j].members
      ensures id !in s.sessions[k].members
    {
      assert Active(s, j) && Active(s, k);
    }
  }

  /** The last session, if it waits, shares nobody with those before it. */
  lemma LastApart(ss: seq<Session>, init: seq<Session>, last: Session)
    requires ss == init + [last] && SlotsApart(ss) && last.state.Awaiting?
    ensures forall id :: id in Taken(init) ==> id !in last.members
  {
    forall id | id in Taken(init) ensures id !in last.members {
      TakenIs(init, id);
      var k :| 0 <= k < |init| && init[k].state.Awaiting? && id in init[k].members;
      assert ss[k] == init[k] && ss[|init|] == last;
    }
  }

  lemma {:induction false} TakenCount(ss: seq<Session>, n: int, t: int)
    requires forall k :: 0 <= k < |ss| && ss[k].state.Awaiting? ==> SessionOk(ss[k], n, t)
    requires SlotsApart(ss)
    ensures |Taken(ss)| == ActiveCount(ss) * t
  {
    if ss != [] {
      var init, last := ss[..|ss| - 1], ss[|ss| - 1];
      TakenCount(init, n, t);
      if last.state.Awaiting? {
        var mine := set id | id in last.members;
        DistinctCard(last.members);
        LastApart(ss, init, last);
        assert |Taken(init) + mine| == |Taken(init)| + |mine|;
        assert (ActiveCount(init) + 1) * t == ActiveCount(init) * t + t;
      }
    }
  }

  /** Disjoint sessions of t members out of n: never more than n / t at once. */
  lemma AtMostNOverT(s: Coord)
    requires Inv(s) && Coherent(s) && SizesOk(s.n, s.t)
    ensures ActiveCount(s.sessions) * s.t <= s.n
  {
    DisjointApart(s);
    TakenCount(s.sessions, s.n, s.t);
    forall id | id in Taken(s.sessions) ensures id in Upto(s.n) {
      TakenIs(s.sessions, id);
      var k :| 0 <= k < |s.sessions| && s.sessions[k].state.Awaiting? && id in s.sessions[k].members;
      assert SessionOk(s.sessions[k], s.n, s.t);
    }
    CardMonotone(Taken(s.sessions), Upto(s.n));
  }
}
