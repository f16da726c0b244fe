/**
 A session that none of its members points to gets no share any more, in no continuation: session ids
 only grow, so a signer never comes back to an older one. Such a session can only time out.
 */
module RoastDeserted {
  import opened Octets
  import opened Bundles
  import opened Roast
  import opened RoastInvariant

  /** Slot `j` held the session `was`, whose members all point elsewhere; it still lacks what it lacked. */
  predicate Left(s: Coord, j: nat, was: Session) {
    && j < |s.sessions| && 0 < was.id < s.nextSid
    && (forall i :: 0 <= i < |s.signers| && s.signers[i].id in was.members ==> s.signers[i].sessionId != was.id)
    && (s.sessions[j].id == was.id ==>
          s.sessions[j] == was.(state := s.sessions[j].state) &&
            (s.sessions[j].state.Awaiting? || s.sessions[j].state.Failed?))
  }

  lemma FormLeft(s: Coord, now: int, assembled: bool, j: nat, was: Session)
    requires Left(s, j, was)
    ensures Left(MaybeForm(s, now, assembled), j, was)
  {
  }

  lemma CulpritLeft(s: Coord, k: nat, c: Id, now: int, assembled: bool, j: nat, was: Session)
    requires Left(s, j, was) && k < |s.sessions| && (k == j ==> s.sessions[j].id != was.id)
    ensures Left(FailCulprit(s, k, c, now, assembled), j, was)
  {
    FormLeft(DropCulprit(s, k, c), now, assembled, j, was);
  }

  lemma AggregateLeft(s: Coord, k: nat, v: Verdict, now: int, assembled: bool, j: nat, was: Session)
    requires Left(s, j, was) && k < |s.sessions| && (k == j ==> s.sessions[j].id != was.id)
    ensures Left(Aggregate(s, k, v, now, assembled), j, was)
  {
    if s.sessions[k].nShares >= s.t && !s.done && v.Culprit? && 0 < v.culprit <= MAX_SIGNERS {
      CulpritLeft(s, k, v.culprit, now, assembled, j, was);
    }
  }

  lemma ShareLeft(s: Coord, id: Id, payload: Bytes, v: Verdict, now: int, assembled: bool, j: nat, was: Session)
    requires Left(s, j, was)
    ensures Left(OnShare(s, id, payload, v, now, assembled), j, was)
  {
    if |payload| <= MAX_PAYLOAD && Routable(s, id) {
      var k := FindSession(s.sessions, s.signers[IndexOf(s.signers, id)].sessionId);
      assert s.sessions[k].members[SlotOf(s.sessions[k].members, id)] == id;
      AggregateLeft(StoreShare(s, id, payload), k, v, now, assembled, j, was);
    }
  }

  lemma SlotLeft(s: Coord, k: nat, now: int, assembled: bool, j: nat, was: Session)
    requires Left(s, j, was) && k < |s.sessions|
    ensures Left(SweepSlot(s, k, now, assembled), j, was)
  {
    if Expired(s.sessions[k], now) {
      FormLeft(Expire(s, k), now, assembled, j, was);
    }
  }

  lemma SweepLeft(s: Coord, k: nat, now: int, after: set<int>, j: nat, was: Session)
    requires Left(s, j, was) && k <= |s.sessions|
    ensures Left(Sweep(s, k, now, after), j, was)
  {
    var inv := (i: nat, m: Coord) => Left(m, j, was);
    forall i: nat, m: Coord | i < k && |m.sessions| == |s.sessions| && inv(i, m)
      ensures inv(i + 1, SweepSlot(m, i, now, i in after))
    {
      SlotLeft(m, i, now, i in after, j, was);
    }
    SweepInduct(inv, s, k, now, after);
  }

  lemma QuitLeft(s: Coord, id: Id, j: nat, was: Session)
    requires Left(s, j, was)
    ensures Left(OnDisconnect(s, id), j, was)
  {
    var r, k := OnDisconnect(s, id), IndexOf(s.signers, id);
    forall i | 0 <= i < |r.signers| && r.signers[i].id in was.members ensures r.signers[i].sessionId != was.id {
      assert k < |s.signers| ==> r.signers[i] == s.signers[if i < k then i else i + 1];
    }
  }

  lemma HelloLeft(s: Coord, id: Id, n: int, t: int, authentic: bool, j: nat, was: Session)
    requires Left(s, j, was)
    ensures Left(OnHello(s, id, n, t, authentic), j, was)
  {
    var r := OnHello(s, id, n, t, authentic);
    forall i | 0 <= i < |r.signers| && r.signers[i].id in was.members ensures r.signers[i].sessionId != was.id {
      assert |r.signers| == |s.signers| + 1 && i > 0 ==> r.signers[i] == s.signers[i - 1];
    }
  }

  lemma CommitLeft(s: Coord, id: Id, payload: Bytes, sig: Bytes, now: int, assembled: bool, j: nat, was: Session)
    requires Left(s, j, was)
    ensures Left(OnCommit(s, id, payload, sig, now, assembled), j, was)
  {
    if CommitAccepted(s, id, payload, sig) {
      FormLeft(StoreCommit(s, IndexOf(s.signers, id), payload, sig), now, assembled, j, was);
    }
  }

  lemma StepLeft(s: Coord, e: Event, j: nat, was: Session)
    requires Left(s, j, was)
    ensures Left(Step(s, e), j, was)
  {
    match e
    case Hello(id, n, t, authentic) => HelloLeft(s, id, n, t, authentic, j, was);
    case Disconnect(id) => QuitLeft(s, id, j, was);
    case LoadFail(id) =>
    case Commit(id, payload, sig, now, assembled) => CommitLeft(s, id, payload, sig, now, assembled, j, was);
    case Share(id, payload, v, now, assembled) => ShareLeft(s, id, payload, v, now, assembled, j, was);
    case Tick(now, after) => if !s.done { SweepLeft(s, |s.sessions|, now, after, j, was); }
    case NextCert(newTbs) =>
  }

  lemma {:induction false} RunLeft(s: Coord, es: seq<Event>, j: nat, was: Session)
    requires Left(s, j, was)
    ensures Left(Run(s, es), j, was)
  {
    if es != [] {
      RunLeft(s, es[..|es| - 1], j, was);
      StepLeft(Run(s, es[..|es| - 1]), es[|es| - 1], j, was);
    }
  }

  /** In every continuation slot `j` is as it was, waiting or failed, for as long as it holds this session. */
  ghost predicate Deserted(s: Coord, j: nat) {
    j < |s.sessions| && forall more {:trigger Run(s, more)} :: Left(Run(s, more), j, s.sessions[j])
  }

  lemma IsDeserted(s: Coord, j: nat)
    requires SessionsOk(s) && j < |s.sessions| && s.sessions[j].state.Awaiting?
    requires forall i :: 0 <= i < |s.signers| && s.signers[i].id in s.sessions[j].members ==>
      s.signers[i].sessionId != s.sessions[j].id
    ensures Deserted(s, j)
  {
    forall more ensures Left(Run(s, more), j, s.sessions[j]) {
      RunLeft(s, more, j, s.sessions[j]);
    }
  }
}
