/** The coordinator's loops over its lists and tables, each against the function it computes. */
module RoastLoops {
  import opened Octets
  import opened Bundles
  import opened Counting
  import opened Roast
  import opened RoastSelection
  import opened RoastExclusion

  // ---------------------------------------------------------------- lookups

  /** The loop of `is_blacklisted`, and of the check for duplicates. */
  method Listed(ids: seq<Id>, id: Id) returns (r: bool)
    ensures r <==> id in ids
  {
    for i := 0 to |ids|
      invariant id !in ids[..i]
    {
      if ids[i] == id { return true; }
    }
    return false;
  }

  method BlacklistSigner(bl: seq<Id>, id: Id) returns (r: seq<Id>)
    ensures r == AddBlacklist(bl, id)
  {
    r := bl;
    if |bl| >= MAX_SIGNERS { return; }
    var known := Listed(bl, id);
    if known { return; }
    r := bl + [id];
  }

  /** `roast_alloc`. */
  method AllocSlot(ss: seq<Session>) returns (k: nat)
    ensures k == FreeSlot(ss)
  {
    k := 0;
    assert ss[0..] == ss;
    while k < |ss|
      invariant k <= |ss| && FreeSlot(ss) == k + FreeSlot(ss[k..])
    {
      if ss[k].state.Empty? { return; }
      assert ss[k..][1..] == ss[k + 1..];
      k := k + 1;
    }
  }

  /** `roast_find`. */
  method FindSlot(ss: seq<Session>, sid: nat) returns (k: nat)
    ensures k == FindSession(ss, sid)
  {
    k := 0;
    assert ss[0..] == ss;
    while k < |ss|
      invariant k <= |ss| && FindSession(ss, sid) == k + FindSession(ss[k..], sid)
    {
      if ss[k].id == sid { return; }
      assert ss[k..][1..] == ss[k + 1..];
      k := k + 1;
    }
  }

  /** `roast_signer_slot`, with the length for its -1. */
  method SignerSlot(members: seq<Id>, id: Id) returns (k: nat)
    ensures k == SlotOf(members, id)
  {
    k := 0;
    assert members[0..] == members;
    while k < |members|
      invariant k <= |members| && SlotOf(members, id) == k + SlotOf(members[k..], id)
    {
      if members[k] == id { return; }
      assert members[k..][1..] == members[k + 1..];
      k := k + 1;
    }
  }

  /** The search for a signer that every handler does, with the length when it is not connected. */
  method FindSigner(l: seq<Signer>, id: Id) returns (i: nat)
    ensures i == IndexOf(l, id)
  {
    i := 0;
    assert l[0..] == l;
    while i < |l|
      invariant i <= |l| && IndexOf(l, id) == i + IndexOf(l[i..], id)
    {
      if l[i].id == id { return; }
      assert l[i..][1..] == l[i + 1..];
      i := i + 1;
    }
  }

  /** `roast_active_count`. */
  method CountActive(ss: seq<Session>) returns (n: nat)
    ensures n == ActiveCount(ss)
  {
    n := 0;
    for i := 0 to |ss|
      invariant n == ActiveCount(ss[..i])
    {
      assert ss[..i + 1][..i] == ss[..i];
      if ss[i].state.Awaiting? { n := n + 1; }
    }
    assert ss[..|ss|] == ss;
  }

  /** The count of `roast_do_no_eligible_remain`. */
  method CountRemaining(l: seq<Signer>, bl: seq<Id>) returns (n: nat)
    ensures n == Remaining(l, bl)
  {
    n := 0;
    for i := 0 to |l|
      invariant n == Remaining(l[..i], bl)
    {
      assert l[..i + 1][..i] == l[..i];
      var out := Listed(bl, l[i].id);
      if !out && !l[i].phase.NoKey? { n := n + 1; }
    }
    assert l[..|l|] == l;
  }

  // ---------------------------------------------------------------- SIGN_REQ

  /** `broadcast_sign_req`. */
  method BroadcastSignReq(l: seq<Signer>, bl: seq<Id>, tbs: Bytes) returns (r: seq<Signer>)
    ensures r == Broadcast(l, bl, tbs)
  {
    r := l;
    for i := 0 to |l|
      invariant |r| == |l|
      invariant forall j :: 0 <= j < |l| ==> r[j] == if j < i then BroadcastTo(l[j], bl, tbs) else l[j]
    {
      var out := Listed(bl, r[i].id);
      if !out && !r[i].phase.NoKey? {
        r := r[i := Renew(r[i], Init, tbs)];
      }
    }
  }

  /** CERT_OUTPUT to everyone. */
  method NotifySigners(l: seq<Signer>) returns (r: seq<Signer>)
    ensures r == NotifyAll(l)
  {
    r := l;
    for i := 0 to |l|
      invariant |r| == |l|
      invariant forall j :: 0 <= j < |l| ==> r[j] == if j < i then l[j].(msgq := l[j].msgq + [CertOutput]) else l[j]
    {
      r := r[i := r[i].(msgq := r[i].msgq + [CertOutput])];
    }
  }

  // ---------------------------------------------------------------- selection

  /** Pass 1: reliable signers until the session is full; also how many list nodes it touched. */
  method PickReliable(l: seq<Signer>, bl: seq<Id>, strikes: seq<nat>, t: nat) returns (chosen: seq<Id>, visited: nat)
    ensures chosen == Pick(l, bl, strikes, false, t)
    ensures visited == Visited(l, bl, strikes, t)
  {
    chosen, visited := [], 0;
    assert l[0..] == l;
    for i := 0 to |l|
      invariant |chosen| <= t && visited == i
      invariant Pick(l, bl, strikes, false, t) == chosen + Pick(l[i..], bl, strikes, false, t - |chosen|)
      invariant Visited(l, bl, strikes, t) == visited + Visited(l[i..], bl, strikes, t - |chosen|)
    {
      assert l[i..][0] == l[i] && l[i..][1..] == l[i + 1..];
      visited := visited + 1;
      if |chosen| >= t { break; }
      var out := Listed(bl, l[i].id);
      if l[i].phase.Committed? && !out && l[i].commit != [] && Strikes(strikes, l[i].id) == 0 {
        chosen := chosen + [l[i].id];
      }
    }
  }

  /** Pass 2: suspects for the places still free, none twice. */
  method PickSuspects(l: seq<Signer>, bl: seq<Id>, strikes: seq<nat>, t: nat, first: seq<Id>) returns (chosen: seq<Id>)
    requires UniqueIds(l) && |first| <= t
    requires forall id :: id in first ==> Strikes(strikes, id) == 0
    ensures chosen == first + Pick(l, bl, strikes, true, t - |first|)
  {
    chosen := first;
    assert l[0..] == l;
    for i := 0 to |l|
      invariant |first| <= |chosen| <= t
      invariant first + Pick(l, bl, strikes, true, t - |first|) ==
                chosen + Pick(l[i..], bl, strikes, true, t - |chosen|)
      invariant forall id :: id in chosen ==> Strikes(strikes, id) == 0 || SeenBefore(l, i, id)
    {
      assert l[i..][0] == l[i] && l[i..][1..] == l[i + 1..];
      if |chosen| >= t { break; }
      var out := Listed(bl, l[i].id);
      if (l[i].phase.Committed? || l[i].phase.Suspect?) && l[i].commit != [] && !out && Strikes(strikes, l[i].id) > 0 {
        var dup := Listed(chosen, l[i].id);
        assert !SeenBefore(l, i, l[i].id);
        assert SeenBefore(l, i + 1, l[i].id);
        if !dup {
          chosen := chosen + [l[i].id];
        }
      }
      assert forall id :: SeenBefore(l, i, id) ==> SeenBefore(l, i + 1, id);
    }
  }

  predicate SeenBefore(l: seq<Signer>, i: nat, id: Id) {
    exists k :: 0 <= k < i && k < |l| && l[k].id == id
  }

  /** The bundle of the chosen signers, unless a commitment or the message is too long. */
  method BuildBundle(s: Coord, chosen: seq<Id>) returns (ok: bool, b: Bundle)
    requires forall id :: id in chosen ==> Connected(s.signers, id)
    ensures ok <==> |s.tbs| <= MAX_PAYLOAD && CommitsFit(BundleFor(s, chosen).entries)
    ensures ok ==> b == BundleFor(s, chosen)
  {
    var entries: seq<Entry> := [];
    b := NO_BUNDLE;
    ghost var want := BundleFor(s, chosen).entries;
    for ci := 0 to |chosen|
      invariant entries == want[..ci] && CommitsFit(entries)
    {
      var i := FindSigner(s.signers, chosen[ci]);
      assert chosen[ci] in chosen;
      var sg := s.signers[i];
      assert want[ci] == Entry(sg.id, sg.commit, sg.commitSig);
      if |sg.commit| > COMMIT_ENTRY_MAX { return false, b; }
      entries := entries + [Entry(sg.id, sg.commit, sg.commitSig)];
    }
    assert want[..|chosen|] == want;
    if |s.tbs| > MAX_PAYLOAD { return false, b; }
    return true, Bundle(entries, s.tbs);
  }

  // ---------------------------------------------------------------- updates, one member after another

  /** The one position a search for `id` can stop at. */
  lemma FoundAt(l: seq<Signer>, r: seq<Signer>, id: Id)
    requires UniqueIds(l) && SameIds(l, r)
    ensures forall j :: 0 <= j < |l| ==> (l[j].id == id <==> j == IndexOf(r, id))
  {
    var i := IndexOf(r, id);
    forall j | 0 <= j < |l| ensures l[j].id == id <==> j == i {
      if l[j].id == id {
        assert r[j].id == id && Connected(r, id) && l[i].id == id;
      }
    }
  }

  lemma PrefixStep(ids: seq<Id>, k: nat)
    requires k < |ids|
    ensures forall x :: x in ids[..k + 1] <==> x in ids[..k] || x == ids[k]
  {
    assert ids[..k + 1] == ids[..k] + [ids[k]];
  }

  /** Marks the chosen signers and queues the bundle for each. */
  method MarkChosen(l: seq<Signer>, chosen: seq<Id>, sid: nat, b: Bundle) returns (r: seq<Signer>)
    requires UniqueIds(l) && Distinct(chosen)
    ensures r == JoinAll(l, chosen, sid, b)
  {
    r := l;
    for ci := 0 to |chosen|
      invariant SameIds(l, r)
      invariant forall j :: 0 <= j < |l| ==> r[j] == Join(l[j], chosen[..ci], sid, b)
    {
      var i := FindSigner(r, chosen[ci]);
      FoundAt(l, r, chosen[ci]);
      PrefixStep(chosen, ci);
      if i < |r| {
        r := r[i := r[i].(phase := InSession, sessionId := sid, msgq := r[i].msgq + [RelayCommit(b)])];
      }
    }
    assert chosen[..|chosen|] == chosen;
  }

  /** Resets every member but the culprit, whose own phase was set before. */
  method ResetInnocent(l: seq<Signer>, members: seq<Id>, culprit: Id, tbs: Bytes) returns (r: seq<Signer>)
    requires UniqueIds(l) && Distinct(members)
    ensures r == AfterCulpritAll(l, members, culprit, tbs)
  {
    r := l;
    var c := FindSigner(r, culprit);
    FoundAt(l, r, culprit);
    if c < |r| {
      r := r[c := r[c].(phase := Blacklisted)];
    }
    for si := 0 to |members|
      invariant SameIds(l, r)
      invariant forall j :: 0 <= j < |l| ==> r[j] == AfterCulprit(l[j], members[..si], culprit, tbs)
    {
      PrefixStep(members, si);
      if members[si] != culprit {
        var i := FindSigner(r, members[si]);
        FoundAt(l, r, members[si]);
        if i < |r| {
          r := r[i := Renew(r[i], Init, tbs)];
        }
      }
    }
    assert members[..|members|] == members;
  }

  /** The whole session is blacklisted. */
  method BanishMembers(l: seq<Signer>, bl: seq<Id>, members: seq<Id>) returns (r: seq<Signer>, rbl: seq<Id>)
    requires UniqueIds(l)
    ensures r == BanishAll(l, members) && rbl == AddAllBlacklist(bl, members)
  {
    r, rbl := l, bl;
    for si := 0 to |members|
      invariant SameIds(l, r)
      invariant forall j :: 0 <= j < |l| ==> r[j] == Banish(l[j], members[..si])
      invariant rbl == AddAllBlacklist(bl, members[..si])
    {
      PrefixStep(members, si);
      assert members[..si + 1][..si] == members[..si];
      rbl := BlacklistSigner(rbl, members[si]);
      var i := FindSigner(r, members[si]);
      FoundAt(l, r, members[si]);
      if i < |r| {
        r := r[i := r[i].(phase := Blacklisted)];
      }
    }
    assert members[..|members|] == members;
  }

  /** The lines of shares fed to `aggregate`. */
  method ShareLines(members: seq<Id>, shares: seq<Bytes>) returns (lines: seq<(Id, Bytes)>)
    requires |members| == |shares|
    ensures lines == AggregateLines(members, shares)
  {
    lines := [];
    assert members[0..] == members && shares[0..] == shares;
    for i := 0 to |members|
      invariant AggregateLines(members, shares) == lines + AggregateLines(members[i..], shares[i..])
    {
      LinesFrom(members, shares, i, lines);
      if shares[i] != [] {
        lines := lines + [(members[i], shares[i])];
      }
    }
    assert lines + [] == lines;
  }

  lemma LinesFrom(members: seq<Id>, shares: seq<Bytes>, i: nat, lines: seq<(Id, Bytes)>)
    requires i < |members| == |shares|
    ensures lines + AggregateLines(members[i..], shares[i..]) ==
            (if shares[i] != [] then lines + [(members[i], shares[i])] else lines) +
              AggregateLines(members[i + 1..], shares[i + 1..])
  {
    assert members[i..][1..] == members[i + 1..] && shares[i..][1..] == shares[i + 1..];
    var rest := AggregateLines(members[i + 1..], shares[i + 1..]);
    assert lines + ([(members[i], shares[i])] + rest) == (lines + [(members[i], shares[i])]) + rest;
    assert lines + ([] + rest) == lines + rest;
  }

  // ---------------------------------------------------------------- expiry

  /** The strikes after the members of `done` were dealt with. */
  predicate StruckSoFar(strikes: seq<nat>, st: seq<nat>, l: seq<Signer>, sess: Session, done: seq<Id>) {
    && |st| == |strikes|
    && forall x :: 0 <= x < |st| ==>
         st[x] == strikes[x] + if x + 1 in done && Silent(sess, x + 1) && Connected(l, x + 1) then 1 else 0
  }

  /** The signers after the members of `done` were dealt with. */
  predicate DealtWith(l: seq<Signer>, r: seq<Signer>, sess: Session, st: seq<nat>, tbs: Bytes, done: seq<Id>) {
    && SameIds(l, r)
    && forall j :: 0 <= j < |l| ==> r[j] == if l[j].id in done then AfterExpiry(l[j], sess, st, tbs) else l[j]
  }

  /** One more strike, on a silent member that is connected. */
  lemma StrikeStep(strikes: seq<nat>, st: seq<nat>, l: seq<Signer>, sess: Session, si: nat, struck: bool)
    requires si < |sess.members| && Distinct(sess.members) && 1 <= sess.members[si] <= |strikes|
    requires StruckSoFar(strikes, st, l, sess, sess.members[..si])
    requires var id := sess.members[si]; struck <==> Silent(sess, id) && Connected(l, id)
    ensures var id := sess.members[si];
            StruckSoFar(strikes, if struck then st[id - 1 := st[id - 1] + 1] else st, l, sess, sess.members[..si + 1])
  {
    PrefixStep(sess.members, si);
    assert sess.members[si] !in sess.members[..si];
  }

  lemma StrikesFinal(strikes: seq<nat>, st: seq<nat>, l: seq<Signer>, sess: Session, done: seq<Id>)
    requires StruckSoFar(strikes, st, l, sess, done)
    ensures forall id :: id in done ==> Strikes(st, id) == Strikes(StrikeSilent(strikes, l, sess), id)
    ensures done == sess.members ==> st == StrikeSilent(strikes, l, sess)
  {
  }

  function Penalised(sg: Signer, cooperated: bool, strikes: nat, tbs: Bytes): Signer {
    if cooperated then Renew(sg, Init, tbs)
    else if strikes >= MAX_STRIKES then sg.(phase := Blacklisted)
    else Renew(sg, Suspect, tbs)
  }

  predicate OnePenalised(l: seq<Signer>, bl: seq<Id>, strikes: seq<nat>, id: Id, cooperated: bool, tbs: Bytes,
                         r: seq<Signer>, rbl: seq<Id>, st: seq<nat>)
    requires 1 <= id <= |strikes|
  {
    var i := IndexOf(l, id);
    var struck := i < |l| && !cooperated;
    && st == (if struck then strikes[id - 1 := strikes[id - 1] + 1] else strikes)
    && rbl == (if struck && st[id - 1] >= MAX_STRIKES then AddBlacklist(bl, id) else bl)
    && r == (if i < |l| then l[i := Penalised(l[i], cooperated, st[id - 1], tbs)] else l)
  }

  /** The body of the loop over the members of a session that timed out. */
  method PenaliseOne(l: seq<Signer>, bl: seq<Id>, strikes: seq<nat>, id: Id, cooperated: bool, tbs: Bytes)
      returns (r: seq<Signer>, rbl: seq<Id>, st: seq<nat>)
    requires 1 <= id <= |strikes|
    ensures OnePenalised(l, bl, strikes, id, cooperated, tbs, r, rbl, st)
  {
    r, rbl, st := l, bl, strikes;
    var i := FindSigner(l, id);
    if i < |l| {
      if cooperated {
        r := r[i := Renew(r[i], Init, tbs)];
      } else {
        st := st[id - 1 := st[id - 1] + 1];
        if st[id - 1] >= MAX_STRIKES {
          rbl := BlacklistSigner(rbl, id);
          r := r[i := r[i].(phase := Blacklisted)];
        } else {
          r := r[i := Renew(r[i], Suspect, tbs)];
        }
      }
    }
  }

  lemma DealStep(l: seq<Signer>, r: seq<Signer>, sess: Session, final: seq<nat>, tbs: Bytes, si: nat, r2: seq<Signer>)
    requires UniqueIds(l) && Distinct(sess.members) && si < |sess.members| == |sess.shares|
    requires DealtWith(l, r, sess, final, tbs, sess.members[..si])
    requires var id := sess.members[si];
             var i := IndexOf(r, id);
             r2 == if i < |r| then r[i := Penalised(r[i], sess.shares[si] != [], Strikes(final, id), tbs)] else r
    ensures DealtWith(l, r2, sess, final, tbs, sess.members[..si + 1])
  {
    var id := sess.members[si];
    SlotOfIs(sess.members, si);
    PrefixStep(sess.members, si);
    FoundAt(l, r, id);
    assert id !in sess.members[..si];
  }

  /** The state of the loop after `si` members. */
  predicate Expiring(l: seq<Signer>, bl: seq<Id>, strikes: seq<nat>, sess: Session, tbs: Bytes,
                     r: seq<Signer>, rbl: seq<Id>, st: seq<nat>, si: nat)
    requires si <= |sess.members|
  {
    && StruckSoFar(strikes, st, l, sess, sess.members[..si])
    && DealtWith(l, r, sess, StrikeSilent(strikes, l, sess), tbs, sess.members[..si])
    && rbl == BlacklistStruckOut(bl, sess.members[..si], sess, l, StrikeSilent(strikes, l, sess))
  }

  predicate Expirable(l: seq<Signer>, strikes: seq<nat>, sess: Session) {
    && UniqueIds(l) && Distinct(sess.members) && |sess.shares| == |sess.members|
    && forall i :: 0 <= i < |sess.members| ==> 1 <= sess.members[i] <= |strikes|
  }

  /** What one turn knows about its member: it is struck exactly when silent and connected, and then for good. */
  lemma MemberStep(l: seq<Signer>, strikes: seq<nat>, sess: Session, r: seq<Signer>, st: seq<nat>, si: nat,
                   st2: seq<nat>)
    requires Expirable(l, strikes, sess) && si < |sess.members| && SameIds(l, r)
    requires StruckSoFar(strikes, st, l, sess, sess.members[..si])
    requires var id := sess.members[si];
             st2 == if IndexOf(r, id) < |r| && sess.shares[si] == [] then st[id - 1 := st[id - 1] + 1] else st
    ensures var id := sess.members[si];
            && (IndexOf(r, id) < |r| && sess.shares[si] == [] <==> Silent(sess, id) && Connected(l, id))
            && StruckSoFar(strikes, st2, l, sess, sess.members[..si + 1])
            && Strikes(st2, id) == Strikes(StrikeSilent(strikes, l, sess), id)
  {
    var id := sess.members[si];
    SlotOfIs(sess.members, si);
    SameConnected(l, r, id);
    StrikeStep(strikes, st, l, sess, si, IndexOf(r, id) < |r| && sess.shares[si] == []);
    assert id == sess.members[..si + 1][si];
    StrikesFinal(strikes, st2, l, sess, sess.members[..si + 1]);
  }

  lemma BlacklistStep(l: seq<Signer>, bl: seq<Id>, sess: Session, final: seq<nat>, si: nat, rbl: seq<Id>, rbl2: seq<Id>)
    requires si < |sess.members| && rbl == BlacklistStruckOut(bl, sess.members[..si], sess, l, final)
    requires rbl2 == if StruckOut(sess, l, final, sess.members[si]) then AddBlacklist(rbl, sess.members[si]) else rbl
    ensures rbl2 == BlacklistStruckOut(bl, sess.members[..si + 1], sess, l, final)
  {
    assert sess.members[..si + 1][..si] == sess.members[..si];
  }

  lemma ExpiringStep(l: seq<Signer>, bl: seq<Id>, strikes: seq<nat>, sess: Session, tbs: Bytes,
                     r: seq<Signer>, rbl: seq<Id>, st: seq<nat>, si: nat, r2: seq<Signer>, rbl2: seq<Id>, st2: seq<nat>)
    requires Expirable(l, strikes, sess) && si < |sess.members|
    requires Expiring(l, bl, strikes, sess, tbs, r, rbl, st, si)
    requires OnePenalised(r, rbl, st, sess.members[si], sess.shares[si] != [], tbs, r2, rbl2, st2)
    ensures Expiring(l, bl, strikes, sess, tbs, r2, rbl2, st2, si + 1)
  {
    var final := StrikeSilent(strikes, l, sess);
    MemberStep(l, strikes, sess, r, st, si, st2);
    BlacklistStep(l, bl, sess, final, si, rbl, rbl2);
    DealStep(l, r, sess, final, tbs, si, r2);
  }

  lemma ExpiringDone(l: seq<Signer>, bl: seq<Id>, strikes: seq<nat>, sess: Session, tbs: Bytes,
                     r: seq<Signer>, rbl: seq<Id>, st: seq<nat>)
    requires Expirable(l, strikes, sess) && Expiring(l, bl, strikes, sess, tbs, r, rbl, st, |sess.members|)
    ensures st == StrikeSilent(strikes, l, sess)
    ensures rbl == BlacklistStruckOut(bl, sess.members, sess, l, st)
    ensures r == AfterExpiryAll(l, sess, st, tbs)
  {
    assert sess.members[..|sess.members|] == sess.members;
    StrikesFinal(strikes, st, l, sess, sess.members);
  }

  /** The loop over the members of a session that timed out. */
  method PenaliseMembers(l: seq<Signer>, bl: seq<Id>, strikes: seq<nat>, sess: Session, tbs: Bytes)
      returns (r: seq<Signer>, rbl: seq<Id>, st: seq<nat>)
    requires Expirable(l, strikes, sess)
    ensures st == StrikeSilent(strikes, l, sess)
    ensures rbl == BlacklistStruckOut(bl, sess.members, sess, l, st)
    ensures r == AfterExpiryAll(l, sess, st, tbs)
  {
    r, rbl, st := l, bl, strikes;
    for si := 0 to |sess.members|
      invariant Expiring(l, bl, strikes, sess, tbs, r, rbl, st, si)
    {
      ghost var r0, rbl0, st0 := r, rbl, st;
      r, rbl, st := PenaliseOne(r, rbl, st, sess.members[si], sess.shares[si] != [], tbs);
      ExpiringStep(l, bl, strikes, sess, tbs, r0, rbl0, st0, si, r, rbl, st);
    }
    ExpiringDone(l, bl, strikes, sess, tbs, r, rbl, st);
  }

  lemma SameConnected(l: seq<Signer>, r: seq<Signer>, id: Id)
    requires SameIds(l, r)
    ensures Connected(l, id) <==> IndexOf(r, id) < |r|
  {
    if i :| 0 <= i < |l| && l[i].id == id {
      assert r[i].id == id;
    }
  }
}
