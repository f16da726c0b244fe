/**
 What becomes of one signer's record, event by event: who is asked again and as what, who is marked as excluded,
 and who is left alone or joins a new session.
 */
module RoastRecords {
  import opened Octets
  import opened Bundles
  import opened Roast
  import opened RoastInvariant
  import opened RoastExclusion
  import opened RoastCoherence
  import opened RoastHistory
  import opened RoastFate
  import opened RoastQuorum
  import opened RoastLedger
  import opened RoastRounds

  /** Asked again for `tbs`: no commitment, no session, a SIGN_REQ at the end of the queue. */
  predicate AskedAgain(a: Signer, b: Signer, phase: Phase, tbs: Bytes) {
    b == a.(phase := phase, commit := [], sessionId := 0, msgq := a.msgq + [SignReq(tbs)])
  }

  /** Joined a session with an id from `lo` up to `hi`, and was sent its bundle. */
  predicate Joined(a: Signer, b: Signer, lo: nat, hi: nat) {
    && b == a.(phase := InSession, sessionId := b.sessionId, msgq := b.msgq) && lo <= b.sessionId < hi
    && |b.msgq| == |a.msgq| + 1 && b.msgq[..|a.msgq|] == a.msgq && b.msgq[|a.msgq|].RelayCommit?
  }

  predicate LeftOrJoined(s: Coord, r: Coord, a: Signer, b: Signer) {
    b == a || Joined(a, b, s.nextSid, r.nextSid)
  }

  /** A signer that no session can choose: it offers nothing, or is marked. */
  predicate Unfit(sg: Signer) {
    sg.commit == [] || sg.phase.Blacklisted? || sg.phase.InSession?
  }

  lemma UnfitStays(s: Coord, now: int, assembled: bool, p: nat)
    requires SignersOk(s) && p < |s.signers| && Unfit(s.signers[p])
    ensures var r := MaybeForm(s, now, assembled); p < |r.signers| && r.signers[p] == s.signers[p]
  {
    SelectIs(s);
    forall x | x in Select(s) ensures x != s.signers[p].id {
      assert SelectableId(x, s);
    }
  }

  lemma FormJoins(s: Coord, now: int, assembled: bool, p: nat)
    requires p < |s.signers|
    ensures var r := MaybeForm(s, now, assembled);
            p < |r.signers| && s.nextSid <= r.nextSid && LeftOrJoined(s, r, s.signers[p], r.signers[p])
  {
  }

  // ---------------------------------------------------------------- a share that closes a session

  lemma StoredRecord(s: Coord, id: Id, payload: Bytes, p: nat)
    requires SignersOk(s) && Routable(s, id) && p < |s.signers|
    ensures var m := StoreShare(s, id, payload);
            && |m.signers| == |s.signers| && m.nextSid == s.nextSid && m.tbs == s.tbs
            && m.signers[p] == if s.signers[p].id == id then s.signers[p].(phase := Shared) else s.signers[p]
  {
    IndexOfIs(s.signers, p);
  }

  /** The sender belongs to the session that its share closes. */
  lemma SenderIsMember(s: Coord, e: Event, f: nat)
    requires Inv(s) && ClosesSlot(s, e, f)
    ensures e.id in s.sessions[f].members
  {
    var k :| 0 <= k < |s.sessions| && s.sessions[k].state.Awaiting? && s.sessions[k].id == s.sessions[f].id
             && e.id in s.sessions[k].members;
    IdsUnique(s, k, f);
  }

  lemma DroppedRecord(m: Coord, f: nat, c: Id, now: int, assembled: bool, p: nat)
    requires SharesStored(m, f) && 1 <= c <= MAX_SIGNERS && !m.done && p < |m.signers|
    ensures var r, a := FailCulprit(m, f, c, now, assembled), m.signers[p];
            && p < |r.signers| && m.nextSid <= r.nextSid
            && if a.id == c then r.signers[p] == a.(phase := Blacklisted)
               else if a.id in m.sessions[f].members then AskedAgain(a, r.signers[p], Init, m.tbs)
               else LeftOrJoined(m, r, a, r.signers[p])
  {
    var d := DropCulprit(m, f, c);
    DropCulpritKeeps(m, f, c);
    FormJoins(d, now, assembled, p);
    if m.signers[p].id == c || m.signers[p].id in m.sessions[f].members {
      UnfitStays(d, now, assembled, p);
    }
  }

  /** A culprit was named: it is marked, the other members are asked again, and nobody else loses anything. */
  lemma AbortRecord(s: Coord, e: Event, f: nat, p: nat)
    requires Inv(s) && ClosesSlot(s, e, f) && Names(e.verdict) && p < |s.signers|
    ensures var r, a := Step(s, e), s.signers[p];
            && p < |r.signers| && s.nextSid <= r.nextSid
            && if a.id == e.verdict.culprit then r.signers[p] == a.(phase := Blacklisted)
               else if a.id in s.sessions[f].members then AskedAgain(a, r.signers[p], Init, s.tbs)
               else LeftOrJoined(s, r, a, r.signers[p])
  {
    var k := ClosingIs(s, e);
    OneCloses(s, e, k, f);
    SenderIsMember(s, e, f);
    StoredRecord(s, e.id, e.payload, p);
    DroppedRecord(StoreShare(s, e.id, e.payload), f, e.verdict.culprit, e.now, e.assembled, p);
  }

  lemma BanishedRecord(m: Coord, f: nat, p: nat)
    requires SharesStored(m, f) && p < |m.signers|
    ensures var r, a := FailUnknown(m, f), m.signers[p];
            && p < |r.signers|
            && if a.id in m.sessions[f].members then r.signers[p] == a.(phase := Blacklisted)
               else if a.id in m.blacklist || a.phase.NoKey? then r.signers[p] == a
               else AskedAgain(a, r.signers[p], Init, m.tbs)
  {
    assert SessionOk(m.sessions[f], m.n, m.t);
    AddAllBlacklistIs(m.blacklist, m.sessions[f].members);
  }

  /** Nobody was named: all members are marked, and everyone else in reach is asked again. */
  lemma UnnamedRecord(s: Coord, e: Event, f: nat, p: nat)
    requires Inv(s) && ClosesSlot(s, e, f) && !e.verdict.Good? && !Names(e.verdict) && p < |s.signers|
    ensures var r, a := Step(s, e), s.signers[p];
            && p < |r.signers|
            && if a.id in s.sessions[f].members then r.signers[p] == a.(phase := Blacklisted)
               else if a.id in s.blacklist || a.phase.NoKey? then r.signers[p] == a
               else AskedAgain(a, r.signers[p], Init, s.tbs)
  {
    var k := ClosingIs(s, e);
    OneCloses(s, e, k, f);
    SenderIsMember(s, e, f);
    StoredRecord(s, e.id, e.payload, p);
    BanishedRecord(StoreShare(s, e.id, e.payload), f, p);
  }

  /** Signed: the sender's share is noted, and everyone is told if a certificate was written. */
  lemma SignedRecord(s: Coord, e: Event, f: nat, p: nat)
    requires Inv(s) && ClosesSlot(s, e, f) && e.verdict.Good? && p < |s.signers|
    ensures var r, a := Step(s, e), s.signers[p];
            && p < |r.signers|
            && r.signers[p] == a.(phase := if a.id == e.id then Shared else a.phase,
                                  msgq := a.msgq + if e.verdict.mintOk then [CertOutput] else [])
  {
    var k := ClosingIs(s, e);
    StoredRecord(s, e.id, e.payload, p);
    SuccessRecord(StoreShare(s, e.id, e.payload), k, e.verdict, e.now, e.assembled, p);
  }

  lemma SuccessRecord(m: Coord, f: nat, v: Verdict, now: int, assembled: bool, p: nat)
    requires f < |m.sessions| && m.sessions[f].nShares >= m.t && !m.done && v.Good? && p < |m.signers|
    ensures var r, a := Aggregate(m, f, v, now, assembled), m.signers[p];
            && |r.signers| == |m.signers|
            && r.signers[p] == a.(msgq := a.msgq + if v.mintOk then [CertOutput] else [])
  {
  }

  /** A share that closes nothing is noted with its sender, if it was routed at all. */
  lemma NotedRecord(s: Coord, e: Event, p: nat)
    requires Inv(s) && e.Share? && !Closes(s, e) && p < |s.signers|
    ensures var r, a := Step(s, e), s.signers[p];
            && |r.signers| == |s.signers|
            && r.signers[p] ==
               if a.id == e.id && Brings(s, e, a.sessionId, e.id) then a.(phase := Shared) else a
  {
    IndexOfIs(s.signers, p);
    if s.signers[p].id == e.id {
      BringsIsRouted(s, e, s.signers[p].sessionId, e.id);
    }
    if |e.payload| <= MAX_PAYLOAD && Routable(s, e.id) {
      NotClosingShort(s, e);
      StoredRecord(s, e.id, e.payload, p);
    }
  }

  // ---------------------------------------------------------------- the other events

  /** A new message: everyone in reach is asked for it, nobody else is touched. */
  lemma NextRecord(s: Coord, e: Event, p: nat)
    requires StartsRound(s, e) && p < |s.signers|
    ensures var r, a := Step(s, e), s.signers[p];
            && |r.signers| == |s.signers|
            && if a.id in s.blacklist || a.phase.NoKey? then r.signers[p] == a
               else AskedAgain(a, r.signers[p], Init, e.newTbs)
  {
  }

  // ---------------------------------------------------------------- a time-out

  /** The record of a member of a session that timed out; `strikes` counts those it has by then. */
  predicate TimedRecord(a: Signer, b: Signer, missed: bool, strikes: nat, tbs: Bytes) {
    if missed && strikes >= MAX_STRIKES then b == a.(phase := Blacklisted)
    else AskedAgain(a, b, if missed then Suspect else Init, tbs)
  }

  /** What the sweep keeps about the member `p` of the one due session `k` it is in. */
  ghost predicate MemberSwept(s: Coord, m: Coord, i: nat, now: int, p: nat, k: nat) {
    && i <= |s.sessions| && p < |s.signers| && k < |s.sessions|
    && Inv(m) && Coherent(m) && Timed(s, m, i, now) && |m.signers| == |s.signers| && m.tbs == s.tbs
    && if i <= k then m.signers[p] == s.signers[p]
       else TimedRecord(s.signers[p], m.signers[p], Misses(s.sessions[k], now, s.signers[p].id),
                        Strikes(m.strikes, s.signers[p].id), s.tbs)
  }

  /** A session that `p` does not belong to leaves its record alone when it times out. */
  lemma OthersExpiry(m: Coord, i: nat, p: nat)
    requires Inv(m) && i < |m.sessions| && p < |m.signers| && m.signers[p].id !in m.sessions[i].members
    ensures var r := Expire(m, i);
            && |r.signers| == |m.signers| && r.signers[p] == m.signers[p] && r.tbs == m.tbs && r.nextSid == m.nextSid
            && Strikes(r.strikes, m.signers[p].id) == Strikes(m.strikes, m.signers[p].id)
  {
  }

  lemma OwnExpiry(m: Coord, k: nat, now: int, p: nat)
    requires Inv(m) && k < |m.sessions| && Expired(m.sessions[k], now) && p < |m.signers|
    requires m.signers[p].id in m.sessions[k].members
    ensures var r := Expire(m, k);
            && |r.signers| == |m.signers| && r.tbs == m.tbs
            && TimedRecord(m.signers[p], r.signers[p], Misses(m.sessions[k], now, m.signers[p].id),
                           Strikes(r.strikes, m.signers[p].id), m.tbs)
  {
    assert SessionOk(m.sessions[k], m.n, m.t);
    MissesIsSilent(m.sessions[k], now, m.signers[p].id);
  }

  lemma FormSame(s: Coord, now: int, assembled: bool)
    ensures var r := MaybeForm(s, now, assembled);
            |r.signers| == |s.signers| && r.tbs == s.tbs && r.strikes == s.strikes && s.nextSid <= r.nextSid
  {
  }

  /** A member of a waiting session joins no other. */
  lemma AwaitedStays(m: Coord, now: int, assembled: bool, p: nat)
    requires SignersOk(m) && Coherent(m) && p < |m.signers| && InActive(m, m.signers[p].id)
    ensures var r := MaybeForm(m, now, assembled); p < |r.signers| && r.signers[p] == m.signers[p]
  {
    forall x | x in Select(m) ensures x != m.signers[p].id {
      ChosenAreFree(m, x);
    }
  }

  lemma SweptKeeps(m: Coord, i: nat, now: int, assembled: bool)
    requires Inv(m) && Coherent(m) && i < |m.sessions|
    ensures Inv(SweepSlot(m, i, now, assembled)) && Coherent(SweepSlot(m, i, now, assembled))
  {
    SlotKeeps(m, i, now, assembled);
    if Expired(m.sessions[i], now) {
      ExpireCoherent(m, i);
      ExpireKeeps(m, i);
      MaybeFormCoherent(Expire(m, i), now, assembled);
    }
  }

  /** Before its session is due, and after: the member's record does not move. */
  lemma OtherSlotSwept(s: Coord, m: Coord, i: nat, next: nat, now: int, assembled: bool, p: nat, k: nat)
    requires Inv(s) && Coherent(s) && MemberSwept(s, m, i, now, p, k) && i < |s.sessions| && next == i + 1 && i != k
    requires Expired(s.sessions[k], now) && s.signers[p].id in s.sessions[k].members
    ensures MemberSwept(s, SweepSlot(m, i, now, assembled), next, now, p, k)
  {
    SlotTimed(s, m, i, next, now, assembled);
    SweptKeeps(m, i, now, assembled);
    DueIsOld(s, m, i, now);
    if Expired(m.sessions[i], now) {
      var x := Expire(m, i);
      assert Active(s, i) && Active(s, k);
      OthersExpiry(m, i, p);
      ExpireKeeps(m, i);
      ExpireCoherent(m, i);
      FormSame(x, now, assembled);
      if i < k {
        assert TimedSlot(s, m, i, now, k) && Active(x, k);
        AwaitedStays(x, now, assembled, p);
      } else {
        UnfitStays(x, now, assembled, p);
      }
    }
  }

  lemma OwnSlotSwept(s: Coord, m: Coord, k: nat, next: nat, now: int, assembled: bool, p: nat)
    requires MemberSwept(s, m, k, now, p, k) && next == k + 1
    requires Expired(s.sessions[k], now) && s.signers[p].id in s.sessions[k].members
    ensures MemberSwept(s, SweepSlot(m, k, now, assembled), next, now, p, k)
  {
    var x := Expire(m, k);
    SlotTimed(s, m, k, next, now, assembled);
    SweptKeeps(m, k, now, assembled);
    DueIsOld(s, m, k, now);
    OwnExpiry(m, k, now, p);
    ExpireKeeps(m, k);
    FormSame(x, now, assembled);
    UnfitStays(x, now, assembled, p);
  }

  lemma MemberSlot(s: Coord, m: Coord, i: nat, next: nat, now: int, assembled: bool, p: nat, k: nat)
    requires Inv(s) && Coherent(s) && MemberSwept(s, m, i, now, p, k) && i < |s.sessions| && next == i + 1
    requires Expired(s.sessions[k], now) && s.signers[p].id in s.sessions[k].members
    ensures MemberSwept(s, SweepSlot(m, i, now, assembled), next, now, p, k)
  {
    if i == k {
      OwnSlotSwept(s, m, i, next, now, assembled, p);
    } else {
      OtherSlotSwept(s, m, i, next, now, assembled, p, k);
    }
  }

  lemma {:induction false} SweepMember(s: Coord, i: nat, now: int, after: set<int>, p: nat, k: nat)
    requires Inv(s) && Coherent(s) && p < |s.signers| && k < |s.sessions| && i <= |s.sessions|
    requires Expired(s.sessions[k], now) && s.signers[p].id in s.sessions[k].members
    ensures MemberSwept(s, Sweep(s, i, now, after), i, now, p, k)
  {
    if i == 0 {
      TimedSelf(s, now);
    } else {
      SweepMember(s, i - 1, now, after, p, k);
      MemberSlot(s, Sweep(s, i - 1, now, after), i - 1, i, now, i - 1 in after, p, k);
    }
  }

  /**
   A session timed out: its members are asked again, those that sent no share as suspects, and those of them that have
   two strikes by then are marked.
   */
  lemma TimeOutRecord(s: Coord, now: int, after: set<int>, p: nat, k: nat)
    requires Inv(s) && Coherent(s) && !s.done && p < |s.signers| && k < |s.sessions|
    requires s.sessions[k].state.Awaiting? && now >= s.sessions[k].deadline && s.signers[p].id in s.sessions[k].members
    ensures var r, a := Step(s, Tick(now, after)), s.signers[p];
            && p < |r.signers|
            && TimedRecord(a, r.signers[p], Misses(s.sessions[k], now, a.id), Strikes(r.strikes, a.id), s.tbs)
  {
    SweepMember(s, |s.sessions|, now, after, p, k);
  }

  // ---------------------------------------------------------------- and everyone else

  ghost predicate BystanderSwept(s: Coord, m: Coord, i: nat, now: int, p: nat) {
    && i <= |s.sessions| && p < |s.signers| && s.nextSid <= m.nextSid
    && Inv(m) && Coherent(m) && Timed(s, m, i, now) && |m.signers| == |s.signers|
    && LeftOrJoined(s, m, s.signers[p], m.signers[p])
  }

  lemma BystanderSlot(s: Coord, m: Coord, i: nat, next: nat, now: int, assembled: bool, p: nat)
    requires BystanderSwept(s, m, i, now, p) && i < |s.sessions| && next == i + 1
    requires forall k :: 0 <= k < |s.sessions| && Expired(s.sessions[k], now) ==>
      s.signers[p].id !in s.sessions[k].members
    ensures BystanderSwept(s, SweepSlot(m, i, now, assembled), next, now, p)
  {
    SlotTimed(s, m, i, next, now, assembled);
    SweptKeeps(m, i, now, assembled);
    DueIsOld(s, m, i, now);
    if Expired(m.sessions[i], now) {
      var x := Expire(m, i);
      OthersExpiry(m, i, p);
      ExpireKeeps(m, i);
      FormSame(x, now, assembled);
      if m.signers[p] == s.signers[p] {
        FormJoins(x, now, assembled, p);
      } else {
        UnfitStays(x, now, assembled, p);
      }
    }
  }

  lemma {:induction false} SweepBystander(s: Coord, i: nat, now: int, after: set<int>, p: nat)
    requires Inv(s) && Coherent(s) && p < |s.signers| && i <= |s.sessions|
    requires forall k :: 0 <= k < |s.sessions| && Expired(s.sessions[k], now) ==>
      s.signers[p].id !in s.sessions[k].members
    ensures BystanderSwept(s, Sweep(s, i, now, after), i, now, p)
  {
    if i == 0 {
      TimedSelf(s, now);
    } else {
      SweepBystander(s, i - 1, now, after, p);
      BystanderSlot(s, Sweep(s, i - 1, now, after), i - 1, i, now, i - 1 in after, p);
    }
  }

  /** Whoever is in no session that timed out keeps its record, or joins a session formed at the same tick. */
  lemma BystanderRecord(s: Coord, now: int, after: set<int>, p: nat)
    requires Inv(s) && Coherent(s) && !s.done && p < |s.signers|
    requires forall k :: 0 <= k < |s.sessions| && s.sessions[k].state.Awaiting? && now >= s.sessions[k].deadline ==>
      s.signers[p].id !in s.sessions[k].members
    ensures var r := Step(s, Tick(now, after));
            p < |r.signers| && s.nextSid <= r.nextSid && LeftOrJoined(s, r, s.signers[p], r.signers[p])
  {
    SweepBystander(s, |s.sessions|, now, after, p);
  }
}
