/** The coordinator's global state in sign mode and the handlers that update it, against the functions of Roast. */
module RoastCoordinator {
  import opened Octets
  import opened Bundles
  import opened Counting
  import opened Roast
  import opened RoastInvariant
  import opened RoastSelection
  import opened RoastLoops

  lemma ChosenConnected(s: Coord, id: Id)
    requires SignersOk(s) && id in Select(s)
    ensures Connected(s.signers, id)
  {
    SelectIs(s);
    assert SelectableId(id, s);
  }

  lemma ReliableHaveNoStrikes(l: seq<Signer>, bl: seq<Id>, strikes: seq<nat>, limit: nat, id: Id)
    requires UniqueIds(l) && id in Pick(l, bl, strikes, false, limit)
    ensures Strikes(strikes, id) == 0
  {
    PickIs(l, bl, strikes, false, limit);
    assert EligibleId(id, l, bl, strikes, false);
  }

  /** The two passes of the selection: who is chosen, and how many connections pass 1 saw. */
  method ChooseMembers(s: Coord) returns (chosen: seq<Id>, numSigners: nat)
    requires SignersOk(s) && s.t >= 0
    ensures chosen == Select(s) && numSigners == Visited(s.signers, s.blacklist, s.strikes, s.t)
  {
    chosen, numSigners := PickReliable(s.signers, s.blacklist, s.strikes, s.t);
    forall id | id in chosen ensures Strikes(s.strikes, id) == 0 {
      ReliableHaveNoStrikes(s.signers, s.blacklist, s.strikes, s.t, id);
    }
    chosen := PickSuspects(s.signers, s.blacklist, s.strikes, s.t, chosen);
  }

  /** Builds the bundle, has it assembled and packs it; fails exactly when the session cannot start. */
  method PrepareBundle(s: Coord, chosen: seq<Id>, assembled: bool) returns (ok: bool, b: Bundle)
    requires SignersOk(s) && SizesOk(s.n, s.t) && chosen == Select(s)
    ensures ok <==> && WellFormed(BundleFor(s, chosen)) && assembled && PackedLen(BundleFor(s, chosen)) <= MAX_PAYLOAD
    ensures ok ==> b == BundleFor(s, chosen)
  {
    forall id | id in chosen ensures Connected(s.signers, id) {
      ChosenConnected(s, id);
    }
    ok, b := BuildBundle(s, chosen);
    if !ok { return; }
    BundleIsWellFormed(s);
    WireMaxSuffices(b);
    if !assembled { return false, b; }
    var wire := new Byte[BUNDLE_WIRE_MAX](_ => 0);
    var len := PackBundle(wire, b);
    if len < 0 || len > MAX_PAYLOAD { return false, b; }
    return true, b;
  }

  class Coordinator {
    var n: int
    var t: int
    var signers: seq<Signer>
    const sessions: array<Session>
    var nextSid: nat
    var blacklist: seq<Id>
    var strikes: seq<nat>
    var done: bool
    var roastFail: bool
    var tbs: Bytes
    var serial: nat
    var toMint: nat
    var minted: nat
    var certs: seq<nat>

    function State(): Coord
      reads this, sessions
    {
      Coord(n, t, signers, sessions[..], nextSid, blacklist, strikes, done, roastFail, tbs, serial, toMint, minted,
            certs)
    }

    constructor (n: int, t: int, tbs: Bytes, serial: nat, toMint: nat)
      ensures State() == Start(n, t, tbs, serial, toMint) && fresh(sessions)
    {
      this.n, this.t, this.tbs, this.serial, this.toMint := n, t, tbs, serial, toMint;
      sessions := new Session[MAX_SESSIONS](_ => EMPTY_SESSION);
      signers, nextSid, blacklist, strikes := [], 1, [], seq(MAX_SIGNERS, _ => 0);
      done, roastFail, minted, certs := false, false, 0, [];
      new;
      assert sessions[..] == seq(MAX_SESSIONS, _ => EMPTY_SESSION);
    }

    /** `roast_try_form_session`: starts a session or leaves everything as it was. */
    method TryFormSession(now: int, assembled: bool)
      requires Inv(State()) && SizesOk(n, t)
      modifies this, sessions
      ensures State() == TryForm(old(State()), now, assembled)
    {
      ghost var s := State();
      if done { return; }
      var chosen, numSigners := ChooseMembers(State());
      if numSigners < t { return; }
      if |chosen| < t { return; }
      var k := AllocSlot(sessions[..]);
      if k == sessions.Length { return; }
      var ok, b := PrepareBundle(State(), chosen, assembled);
      if !ok { return; }
      SelectIs(s);
      StartSession(k, chosen, b, now);
    }

    /** Fills the session record and marks its members. */
    method StartSession(k: nat, chosen: seq<Id>, b: Bundle, now: int)
      requires k < sessions.Length && UniqueIds(signers) && Distinct(chosen)
      modifies this, sessions
      ensures State() == Form(old(State()), chosen, b, k, now)
    {
      ghost var s := State();
      sessions[k] := Session(nextSid, Awaiting, now + SESSION_TIMEOUT, chosen, b, NoShares(|chosen|), 0);
      signers := MarkChosen(signers, chosen, nextSid, b);
      nextSid := nextSid + 1;
      assert sessions[..] == s.sessions[k := NewSession(s, chosen, b, now)];
    }

    /** The guard around it. */
    method MaybeFormSession(now: int, assembled: bool)
      requires Inv(State()) && SizesOk(n, t)
      modifies this, sessions
      ensures State() == MaybeForm(old(State()), now, assembled)
    {
      var active := CountActive(sessions[..]);
      if !done && active < MAX_SESSIONS {
        TryFormSession(now, assembled);
      }
    }

    // -------------------------------------------------------------- aggregation

    method DropTheCulprit(k: nat, culprit: Id)
      requires SharesStored(State(), k)
      modifies this, sessions
      ensures State() == DropCulprit(old(State()), k, culprit)
    {
      ghost var s := State();
      var members := sessions[k].members;
      assert SessionOk(sessions[k], n, t);
      sessions[k] := sessions[k].(state := Failed);
      blacklist := BlacklistSigner(blacklist, culprit);
      signers := ResetInnocent(signers, members, culprit, tbs);
      assert sessions[..] == s.sessions[k := s.sessions[k].(state := Failed)];
    }

    /** `roast_fail_culprit`. */
    method FailOnCulprit(k: nat, culprit: Id, now: int, assembled: bool)
      requires SharesStored(State(), k) && !done && 0 < culprit <= MAX_SIGNERS
      modifies this, sessions
      ensures State() == FailCulprit(old(State()), k, culprit, now, assembled)
    {
      assert SessionOk(sessions[k], n, t);
      DropCulpritKeeps(State(), k, culprit);
      DropTheCulprit(k, culprit);
      MaybeFormSession(now, assembled);
      var remaining := CountRemaining(signers, blacklist);
      roastFail := remaining < t;
    }

    /** The fallback of `roast_try_aggregate` when nobody is named. */
    method FailOnUnknown(k: nat)
      requires SharesStored(State(), k)
      modifies this, sessions
      ensures State() == FailUnknown(old(State()), k)
    {
      BanishSession(k);
      var remaining := CountRemaining(signers, blacklist);
      if remaining < t {
        done := true;
      }
      signers := BroadcastSignReq(signers, blacklist, tbs);
    }

    method BanishSession(k: nat)
      requires k < sessions.Length && UniqueIds(signers)
      modifies this, sessions
      ensures var s := old(State());
              var members := s.sessions[k].members;
              State() == s.(sessions := s.sessions[k := s.sessions[k].(state := Failed)],
                            signers := BanishAll(s.signers, members),
                            blacklist := AddAllBlacklist(s.blacklist, members))
    {
      ghost var s := State();
      var members := sessions[k].members;
      sessions[k] := sessions[k].(state := Failed);
      signers, blacklist := BanishMembers(signers, blacklist, members);
      assert sessions[..] == s.sessions[k := s.sessions[k].(state := Failed)];
    }

    /** The success branch: `call_mint`, then a notice to everyone. */
    method CompleteSession(k: nat, mintOk: bool)
      requires k < sessions.Length
      modifies this, sessions
      ensures State() == Succeed(old(State()), k, mintOk)
    {
      ghost var s := State();
      sessions[k] := sessions[k].(state := Complete);
      assert sessions[..] == s.sessions[k := s.sessions[k].(state := Complete)];
      done := true;
      if mintOk {
        minted := minted + 1;
        toMint := if toMint == 0 then U64_MAX else toMint - 1;
        certs := certs + [serial];
        signers := NotifySigners(signers);
      }
    }

    /** `roast_try_aggregate`, the subprocess being the verdict. */
    method TryAggregate(k: nat, verdict: Verdict, now: int, assembled: bool)
      requires SharesStored(State(), k)
      modifies this, sessions
      ensures State() == Aggregate(old(State()), k, verdict, now, assembled)
    {
      if sessions[k].nShares < t || done { return; }
      match verdict
      case Good(mintOk) => CompleteSession(k, mintOk);
      case Culprit(c) =>
        if 0 < c <= MAX_SIGNERS {
          FailOnCulprit(k, c, now, assembled);
        } else {
          FailOnUnknown(k);
        }
      case Unknown => FailOnUnknown(k);
    }

    // -------------------------------------------------------------- expiry

    method RetireSession(k: nat)
      requires Inv(State()) && k < sessions.Length && sessions[k].state.Awaiting?
      modifies this, sessions
      ensures State() == Expire(old(State()), k)
    {
      ghost var s := State();
      var sess := sessions[k];
      assert SessionOk(sess, n, t);
      sessions[k] := sess.(state := Failed);
      signers, blacklist, strikes := PenaliseMembers(signers, blacklist, strikes, sess, tbs);
      assert sessions[..] == s.sessions[k := sess.(state := Failed)];
    }

    /** `roast_expire_sessions`. */
    method ExpireSessions(now: int, assembledAfter: set<int>)
      requires Inv(State()) && !done
      modifies this, sessions
      ensures State() == Sweep(old(State()), sessions.Length, now, assembledAfter)
    {
      ghost var s := State();
      for i := 0 to sessions.Length
        invariant State() == Sweep(s, i, now, assembledAfter)
      {
        SweepKeeps(s, i, now, assembledAfter);
        if sessions[i].state.Awaiting? && now >= sessions[i].deadline {
          assert SessionOk(sessions[i], n, t);
          ExpireKeeps(State(), i);
          RetireSession(i);
          MaybeFormSession(now, i in assembledAfter);
        }
      }
    }

    // -------------------------------------------------------------- frames

    method HandleCommit(id: Id, payload: Bytes, sig: Bytes, now: int, assembled: bool)
      requires Inv(State())
      modifies this, sessions
      ensures State() == OnCommit(old(State()), id, payload, sig, now, assembled)
    {
      ghost var s := State();
      var i := FindSigner(signers, id);
      if i == |signers| { return; }
      if !signers[i].phase.Init? && !signers[i].phase.Suspect? { return; }
      if |payload| > MAX_PAYLOAD || |payload| > COMMIT_ENTRY_MAX { return; }
      if |sig| != SIG_SIZE { return; }
      StoreCommitKeeps(s, id, payload, sig);
      signers := signers[i := signers[i].(commit := payload, commitSig := sig, phase := Committed)];
      MaybeFormSession(now, assembled);
    }

    /** Where a share from `id` belongs, if anywhere: its signer, the session slot and the place in it. */
    method RouteShare(id: Id) returns (found: bool, i: nat, k: nat, slot: nat)
      ensures found <==> Routable(State(), id)
      ensures found ==> && i == IndexOf(signers, id) < |signers|
                        && k == FindSession(sessions[..], signers[i].sessionId) < sessions.Length
                        && slot == SlotOf(sessions[k].members, id) < |sessions[k].members|
    {
      k, slot := 0, 0;
      i := FindSigner(signers, id);
      if i == |signers| { return false, i, k, slot; }
      k := FindSlot(sessions[..], signers[i].sessionId);
      if k == sessions.Length || !sessions[k].state.Awaiting? { return false, i, k, slot; }
      slot := SignerSlot(sessions[k].members, id);
      return slot < |sessions[k].members|, i, k, slot;
    }

    method StoreTheShare(id: Id, payload: Bytes, i: nat, k: nat, slot: nat)
      requires Routable(State(), id) && i == IndexOf(signers, id)
      requires k == FindSession(sessions[..], signers[i].sessionId)
      requires slot == SlotOf(sessions[k].members, id) < |sessions[k].shares|
      modifies this, sessions
      ensures State() == StoreShare(old(State()), id, payload)
    {
      ghost var s := State();
      var sess := sessions[k].(shares := sessions[k].shares[slot := payload], nShares := sessions[k].nShares + 1);
      sessions[k] := sess;
      signers := signers[i := signers[i].(phase := Shared)];
      assert sessions[..] == s.sessions[k := sess];
    }

    method HandleShare(id: Id, payload: Bytes, verdict: Verdict, now: int, assembled: bool)
      requires Inv(State())
      modifies this, sessions
      ensures State() == OnShare(old(State()), id, payload, verdict, now, assembled)
    {
      if |payload| > MAX_PAYLOAD { return; }
      var found, i, k, slot := RouteShare(id);
      if !found { return; }
      assert SessionOk(sessions[k], n, t);
      StoreShareKeeps(State(), id, payload);
      StoreTheShare(id, payload, i, k, slot);
      TryAggregate(k, verdict, now, assembled);
    }

    method HandleLoadFail(id: Id)
      modifies this`signers
      ensures State() == OnLoadFail(old(State()), id)
    {
      var i := FindSigner(signers, id);
      if i < |signers| {
        signers := signers[i := signers[i].(phase := NoKey)];
      }
    }

    method HandleHello(id: Id, n1: int, t1: int, authentic: bool)
      modifies this
      ensures State() == OnHello(old(State()), id, n1, t1, authentic)
    {
      if !(1 <= id <= MAX_SIGNERS && 2 <= n1 <= MAX_SIGNERS && 1 <= t1 <= n1 && id <= n1) { return; }
      if n == 0 {
        n, t := n1, t1;
      } else if n1 != n || t1 != t {
        return;
      }
      var i := FindSigner(signers, id);
      if i < |signers| || !authentic { return; }
      signers := [Signer(id, Init, [], [], 0, [HelloAck, SignReq(tbs)])] + signers;
    }

    method HandleDisconnect(id: Id)
      modifies this`signers
      ensures State() == OnDisconnect(old(State()), id)
    {
      var i := FindSigner(signers, id);
      if i < |signers| {
        signers := signers[..i] + signers[i + 1..];
      }
    }

    /** The mass-mint step of the main loop, the new message coming from `prepare_tbs`. */
    method NextCertificate(newTbs: Bytes)
      modifies this, sessions
      ensures State() == OnNextCert(old(State()), newTbs)
    {
      ghost var s := State();
      if !done || toMint == 0 { return; }
      serial := serial + 1;
      tbs := newTbs;
      done := false;
      forall i | 0 <= i < sessions.Length {
        sessions[i] := EMPTY_SESSION;
      }
      assert sessions[..] == seq(|s.sessions|, _ => EMPTY_SESSION);
      signers := BroadcastSignReq(signers, blacklist, newTbs);
    }
  }
}
