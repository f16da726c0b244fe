/**
 What a COMMIT and a SHARE_LOAD_FAIL lead to. A COMMIT that was not asked for changes nothing; one that was is kept
 byte for byte. A signer without a key is neither chosen nor counted until it registers again, unless a session
 still waits for its share.
 */
module RoastReplies {
  import opened Octets
  import opened Bundles
  import opened Roast
  import opened RoastInvariant
  import opened RoastExclusion
  import opened RoastCoherence
  import opened RoastQuorum
  import opened RoastIdentity

  // ---------------------------------------------------------------- COMMIT

  /** The signer is connected and was asked for a commitment that it has not given yet. */
  predicate Awaited(s: Coord, id: Id) {
    exists i :: 0 <= i < |s.signers| && s.signers[i].id == id &&
      (s.signers[i].phase.Init? || s.signers[i].phase.Suspect?)
  }

  predicate Acceptable(s: Coord, e: Event) {
    e.Commit? && Awaited(s, e.id) && |e.payload| <= COMMIT_ENTRY_MAX && |e.sig| == SIG_SIZE
  }

  lemma AcceptedIff(s: Coord, e: Event)
    requires SignersOk(s) && e.Commit?
    ensures Acceptable(s, e) <==> CommitAccepted(s, e.id, e.payload, e.sig)
  {
    if i :| 0 <= i < |s.signers| && s.signers[i].id == e.id {
      IndexOfIs(s.signers, i);
    }
  }

  /** A stray COMMIT, or one that does not fit, changes nothing at all. */
  lemma StrayCommit(s: Coord, e: Event)
    requires SignersOk(s) && e.Commit? && !Acceptable(s, e)
    ensures Step(s, e) == s
  {
    AcceptedIff(s, e);
  }

  /** The record of one signer after a COMMIT: its own commitment and signature if it sent them, else the old ones. */
  predicate CommitKept(a: Signer, b: Signer, e: Event)
    requires e.Commit?
  {
    && b.id == a.id
    && (if a.id == e.id
        then b.commit == e.payload && b.commitSig == e.sig && (b.phase.Committed? || b.phase.InSession?)
        else b.commit == a.commit && b.commitSig == a.commitSig && (b.phase == a.phase || b.phase.InSession?))
  }

  /** A COMMIT that was asked for is kept as it came, and nobody else's is touched. */
  lemma AskedCommit(s: Coord, e: Event)
    requires SignersOk(s) && Acceptable(s, e)
    ensures var r := Step(s, e);
            && |r.signers| == |s.signers|
            && forall i :: 0 <= i < |s.signers| ==> CommitKept(s.signers[i], r.signers[i], e)
  {
    AcceptedIff(s, e);
  }

  // ---------------------------------------------------------------- SHARE_LOAD_FAIL

  /** The connected signer has no key. */
  predicate Keyless(s: Coord, id: Id) {
    exists i :: 0 <= i < |s.signers| && s.signers[i].id == id && s.signers[i].phase.NoKey?
  }

  /** A SHARE_LOAD_FAIL of a connected signer says that it has no key, and nothing else. */
  lemma LoadFailIs(s: Coord, id: Id)
    requires SignersOk(s) && Connected(s.signers, id)
    ensures var r := Step(s, LoadFail(id));
            && Keyless(r, id) && r == s.(signers := r.signers) && |r.signers| == |s.signers|
            && forall i :: 0 <= i < |s.signers| ==>
                 r.signers[i] == if s.signers[i].id == id then s.signers[i].(phase := NoKey) else s.signers[i]
  {
    var i :| 0 <= i < |s.signers| && s.signers[i].id == id;
    IndexOfIs(s.signers, i);
    assert Step(s, LoadFail(id)).signers[i].id == id;
  }

  /** Out of the game: excluded, or without a key and awaited by no session. */
  ghost predicate Out(s: Coord, id: Id) {
    || id in s.blacklist
    || ((forall i :: 0 <= i < |s.signers| && s.signers[i].id == id ==> s.signers[i].phase.NoKey?) && !InActive(s, id))
  }

  lemma OutIsUnusable(s: Coord, id: Id)
    requires Out(s, id)
    ensures id !in Usable(s)
  {
  }

  lemma OutNotSelected(s: Coord, id: Id)
    requires SignersOk(s) && Out(s, id)
    ensures id !in Select(s)
  {
    SelectIs(s);
    forall x | x in Select(s) ensures x != id {
      assert SelectableId(x, s);
    }
  }

  lemma FormOut(s: Coord, now: int, assembled: bool, id: Id)
    requires SignersOk(s) && Out(s, id)
    ensures Out(MaybeForm(s, now, assembled), id)
  {
    OutNotSelected(s, id);
  }

  lemma CulpritOut(s: Coord, k: nat, c: Id, now: int, assembled: bool, id: Id)
    requires SharesStored(s, k) && 1 <= c <= MAX_SIGNERS && Out(s, id) && !s.done
    ensures Out(FailCulprit(s, k, c, now, assembled), id)
  {
    var m := DropCulprit(s, k, c);
    AddBlacklistIs(s.blacklist, c);
    DropCulpritKeeps(s, k, c);
    assert Out(m, id);
    FormOut(m, now, assembled, id);
  }

  lemma UnknownOut(s: Coord, k: nat, id: Id)
    requires SharesStored(s, k) && Out(s, id)
    ensures Out(FailUnknown(s, k), id)
  {
    assert SessionOk(s.sessions[k], s.n, s.t);
    AddAllBlacklistIs(s.blacklist, s.sessions[k].members);
  }

  lemma ActOut(m: Coord, f: nat, v: Verdict, now: int, assembled: bool, id: Id)
    requires SharesStored(m, f) && Out(m, id)
    ensures Out(Aggregate(m, f, v, now, assembled), id)
  {
    if m.sessions[f].nShares >= m.t && !m.done {
      if v.Culprit? && 0 < v.culprit <= MAX_SIGNERS {
        CulpritOut(m, f, v.culprit, now, assembled, id);
      } else if !v.Good? {
        UnknownOut(m, f, id);
      }
    }
  }

  /** A signer that no session awaits stores no share. */
  lemma StoredOut(s: Coord, from: Id, payload: Bytes, id: Id)
    requires Routable(s, from) && Out(s, id)
    ensures Out(StoreShare(s, from, payload), id)
  {
    var f := FindSession(s.sessions, s.signers[IndexOf(s.signers, from)].sessionId);
    assert s.sessions[f].members[SlotOf(s.sessions[f].members, from)] == from;
    var m := StoreShare(s, from, payload);
    forall k | Active(m, k) && id in m.sessions[k].members ensures InActive(s, id) {
      assert Active(s, k) && id in s.sessions[k].members;
    }
  }

  lemma ShareOut(s: Coord, e: Event, id: Id)
    requires Inv(s) && e.Share? && Out(s, id)
    ensures Out(Step(s, e), id)
  {
    if |e.payload| <= MAX_PAYLOAD && Routable(s, e.id) {
      var f := FindSession(s.sessions, s.signers[IndexOf(s.signers, e.id)].sessionId);
      StoreShareKeeps(s, e.id, e.payload);
      StoredOut(s, e.id, e.payload, id);
      ActOut(StoreShare(s, e.id, e.payload), f, e.verdict, e.now, e.assembled, id);
    }
  }

  lemma ExpireOut(s: Coord, k: nat, id: Id)
    requires Inv(s) && k < |s.sessions| && s.sessions[k].state.Awaiting? && Out(s, id)
    ensures Out(Expire(s, k), id)
  {
    assert SessionOk(s.sessions[k], s.n, s.t);
    BlacklistStruckOutIs(s.blacklist, s.sessions[k].members, s.sessions[k], s.signers, Expire(s, k).strikes);
  }

  lemma SweepOut(s: Coord, k: nat, now: int, after: set<int>, id: Id)
    requires Inv(s) && k <= |s.sessions| && Out(s, id)
    ensures Out(Sweep(s, k, now, after), id)
  {
    var inv := (i: nat, m: Coord) => Inv(m) && Out(m, id);
    forall i: nat, m: Coord | i < k && |m.sessions| == |s.sessions| && inv(i, m)
      ensures inv(i + 1, SweepSlot(m, i, now, i in after))
    {
      SlotKeeps(m, i, now, i in after);
      if Expired(m.sessions[i], now) {
        ExpireOut(m, i, id);
        ExpireKeeps(m, i);
        FormOut(Expire(m, i), now, i in after, id);
      }
    }
    SweepInduct(inv, s, k, now, after);
  }

  lemma CommitOut(s: Coord, e: Event, id: Id)
    requires Inv(s) && e.Commit? && Out(s, id)
    ensures Out(Step(s, e), id)
  {
    if CommitAccepted(s, e.id, e.payload, e.sig) {
      var m := StoreCommit(s, IndexOf(s.signers, e.id), e.payload, e.sig);
      StoreCommitKeeps(s, e.id, e.payload, e.sig);
      assert Out(m, id);
      FormOut(m, e.now, e.assembled, id);
    }
  }

  lemma QuitOut(s: Coord, gone: Id, id: Id)
    requires Out(s, id)
    ensures Out(OnDisconnect(s, gone), id)
  {
    var k, l := IndexOf(s.signers, gone), OnDisconnect(s, gone).signers;
    assert k < |s.signers| ==> forall i :: 0 <= i < |l| ==> l[i] == s.signers[if i < k then i else i + 1];
  }

  lemma HelloOut(s: Coord, e: Event, id: Id)
    requires Out(s, id) && e.Hello? && e.id != id
    ensures Out(Step(s, e), id)
  {
    HelloIff(s, e);
  }

  lemma LoadFailOut(s: Coord, other: Id, id: Id)
    requires Out(s, id)
    ensures Out(OnLoadFail(s, other), id)
  {
  }

  lemma NextOut(s: Coord, newTbs: Bytes, id: Id)
    requires Out(s, id)
    ensures Out(OnNextCert(s, newTbs), id)
  {
  }

  lemma StepOut(s: Coord, e: Event, id: Id)
    requires Inv(s) && Out(s, id) && !(e.Hello? && e.id == id)
    ensures Out(Step(s, e), id)
  {
    match e
    case Hello(_, _, _, _) => HelloOut(s, e, id);
    case Disconnect(gone) => QuitOut(s, gone, id);
    case LoadFail(other) => LoadFailOut(s, other, id);
    case Commit(_, _, _, _, _) => CommitOut(s, e, id);
    case Share(_, _, _, _, _) => ShareOut(s, e, id);
    case Tick(now, after) => if !s.done { SweepOut(s, |s.sessions|, now, after, id); }
    case NextCert(newTbs) => NextOut(s, newTbs, id);
  }

  predicate NoHello(es: seq<Event>, id: Id) {
    forall i :: 0 <= i < |es| ==> !(es[i].Hello? && es[i].id == id)
  }

  lemma {:induction false} RunOut(s: Coord, es: seq<Event>, id: Id)
    requires Inv(s) && Out(s, id) && NoHello(es, id)
    ensures Out(Run(s, es), id)
  {
    if es != [] {
      RunOut(s, es[..|es| - 1], id);
      RunKeeps(s, es[..|es| - 1]);
      StepOut(Run(s, es[..|es| - 1]), es[|es| - 1], id);
    }
  }

  /** In no continuation without a new HELLO is the signer counted or chosen. */
  ghost predicate NeverUsed(s: Coord, id: Id) {
    forall es {:trigger Run(s, es)} :: NoHello(es, id) ==> id !in Usable(Run(s, es)) && id !in Select(Run(s, es))
  }

  /** A signer without a key that still sends a share its session waits for counts again. */
  lemma ShareRedeems(s: Coord, id: Id) returns (es: seq<Event>)
    requires Inv(s) && Coherent(s) && Connected(s.signers, id) && InActive(s, id) && id !in s.blacklist
    ensures NoHello(es, id) && id in Usable(Run(s, es))
  {
    var e := Share(id, [], Good(false), 0, false);
    es := [e];
    var i := IndexOf(s.signers, id);
    RoutableIff(s, i);
    assert Routable(s, id);
    assert es[..0] == [] && Run(s, es) == Step(s, e);
    StoredIsShared(s, id, i);
    SuccessSpares(StoreShare(s, id, []), FindSession(s.sessions, s.signers[i].sessionId), i);
  }

  lemma StoredIsShared(s: Coord, id: Id, i: nat)
    requires Routable(s, id) && i == IndexOf(s.signers, id)
    ensures var m := StoreShare(s, id, []);
            i < |m.signers| && m.signers[i].id == id && m.signers[i].phase == Shared && m.blacklist == s.blacklist
  {
  }

  lemma SuccessSpares(m: Coord, f: nat, i: nat)
    requires f < |m.sessions| && i < |m.signers|
    ensures var r := Aggregate(m, f, Good(false), 0, false); r.signers == m.signers && r.blacklist == m.blacklist
  {
  }

  /** A signer without a key stays out until it registers again if and only if no session waits for its share. */
  lemma KeylessOutIff(s: Coord, id: Id)
    requires Inv(s) && Coherent(s) && Keyless(s, id) && id !in s.blacklist
    ensures NeverUsed(s, id) <==> !InActive(s, id)
  {
    if InActive(s, id) {
      var es := ShareRedeems(s, id);
    } else {
      assert Out(s, id);
      forall es | NoHello(es, id) ensures id !in Usable(Run(s, es)) && id !in Select(Run(s, es)) {
        RunOut(s, es, id);
        RunKeeps(s, es);
        OutIsUnusable(Run(s, es), id);
        OutNotSelected(Run(s, es), id);
      }
    }
  }
}
