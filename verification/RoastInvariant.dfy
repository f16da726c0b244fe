/**
 What holds of the coordinator in every run, whatever the signers, the clock and the
 subprocess verdicts do, reconnects and broadcasts included.
 */
module RoastInvariant {
  import opened Octets
  import opened Bundles
  import opened Counting
  import opened Roast

  predicate SizesOk(n: int, t: int) {
    1 <= t <= n <= MAX_SIGNERS
  }

  predicate SignerOk(sg: Signer, n: int, nextSid: nat) {
    && 1 <= sg.id <= n
    && |sg.commit| <= COMMIT_ENTRY_MAX
    && (sg.commit != [] ==> |sg.commitSig| == SIG_SIZE)
    && sg.sessionId < nextSid
  }

  predicate SignersOk(s: Coord) {
    && (forall i, j :: 0 <= i < j < |s.signers| ==> s.signers[i].id != s.signers[j].id)
    && (forall i :: 0 <= i < |s.signers| ==> SignerOk(s.signers[i], s.n, s.nextSid))
    && (s.signers != [] ==> SizesOk(s.n, s.t))
  }

  /** Number of shares that have arrived. */
  function Filled(shares: seq<Bytes>): (r: nat)
    ensures r <= |shares|
  {
    if shares == [] then 0
    else Filled(shares[..|shares| - 1]) + if shares[|shares| - 1] != [] then 1 else 0
  }

  predicate SessionOk(sess: Session, n: int, t: int) {
    && SizesOk(n, t)
    && |sess.members| == t && |sess.shares| == t
    && Distinct(sess.members)
    && (forall i :: 0 <= i < |sess.members| ==> 1 <= sess.members[i] <= n)
    && Filled(sess.shares) <= sess.nShares
  }

  /** The used slots are a prefix of the table, and their ids are consecutive and end just below `nextSid`. */
  predicate SlotsInOrder(ss: seq<Session>, nextSid: nat) {
    var used := FreeSlot(ss);
    && used < nextSid
    && (forall i :: 0 <= i < used ==> ss[i].id + (used - i) == nextSid)
    && (forall i :: used <= i < |ss| ==> ss[i] == EMPTY_SESSION)
  }

  predicate SessionsOk(s: Coord) {
    && |s.sessions| == MAX_SESSIONS
    && SlotsInOrder(s.sessions, s.nextSid)
    && forall i :: 0 <= i < |s.sessions| && !s.sessions[i].state.Empty? ==> SessionOk(s.sessions[i], s.n, s.t)
  }

  predicate InRange(ids: seq<Id>) {
    forall i :: 0 <= i < |ids| ==> 1 <= ids[i] <= MAX_SIGNERS
  }

  predicate LedgerOk(s: Coord) {
    && |s.strikes| == MAX_SIGNERS
    && Distinct(s.blacklist) && InRange(s.blacklist)
    && forall i :: 0 <= i < |s.strikes| && s.strikes[i] >= MAX_STRIKES ==> i + 1 in s.blacklist
  }

  /** While a message is being signed, a session that still waits is short of shares. */
  predicate WaitOk(s: Coord) {
    !s.done ==> forall i :: 0 <= i < |s.sessions| && s.sessions[i].state.Awaiting? ==> s.sessions[i].nShares < s.t
  }

  predicate Inv(s: Coord) {
    SignersOk(s) && SessionsOk(s) && LedgerOk(s) && WaitOk(s)
  }

  // ---------------------------------------------------------------- lists of signers

  lemma IndexOfIs(l: seq<Signer>, i: nat)
    requires i < |l|
    requires forall a, b :: 0 <= a < b < |l| ==> l[a].id != l[b].id
    ensures IndexOf(l, l[i].id) == i
  {
    var k := IndexOf(l, l[i].id);
    assert Connected(l, l[i].id);
  }

  lemma SameIdsConnected(l: seq<Signer>, r: seq<Signer>, id: Id)
    requires SameIds(l, r) && Connected(l, id)
    ensures Connected(r, id)
  {
    var i :| 0 <= i < |l| && l[i].id == id;
    assert r[i].id == id;
  }

  predicate EligibleId(id: Id, l: seq<Signer>, bl: seq<Id>, strikes: seq<nat>, suspect: bool) {
    exists i :: 0 <= i < |l| && l[i].id == id && Eligible(l[i], bl, strikes, suspect)
  }

  lemma EligibleInTail(id: Id, l: seq<Signer>, bl: seq<Id>, strikes: seq<nat>, suspect: bool)
    requires l != [] && EligibleId(id, l[1..], bl, strikes, suspect)
    ensures EligibleId(id, l, bl, strikes, suspect)
    ensures exists i :: 1 <= i < |l| && l[i].id == id
  {
    var i :| 0 <= i < |l| - 1 && l[1..][i].id == id && Eligible(l[1..][i], bl, strikes, suspect);
    assert l[i + 1].id == id && Eligible(l[i + 1], bl, strikes, suspect);
  }

  /** What a pick consists of: eligible connected signers, each once. */
  lemma {:induction false} PickIs(l: seq<Signer>, bl: seq<Id>, strikes: seq<nat>, suspect: bool, limit: nat)
    requires forall i, j :: 0 <= i < j < |l| ==> l[i].id != l[j].id
    ensures var r := Pick(l, bl, strikes, suspect, limit);
            Distinct(r) && forall id :: id in r ==> EligibleId(id, l, bl, strikes, suspect)
  {
    if l != [] && limit != 0 {
      var first := Eligible(l[0], bl, strikes, suspect);
      var rest := Pick(l[1..], bl, strikes, suspect, if first then limit - 1 else limit);
      PickIs(l[1..], bl, strikes, suspect, if first then limit - 1 else limit);
      forall id | id in rest ensures EligibleId(id, l, bl, strikes, suspect) && id != l[0].id {
        EligibleInTail(id, l, bl, strikes, suspect);
      }
      if first {
        assert EligibleId(l[0].id, l, bl, strikes, suspect);
        assert Pick(l, bl, strikes, suspect, limit) == [l[0].id] + rest;
      }
    }
  }

  /** A connected signer of either kind that could be chosen. */
  predicate SelectableId(id: Id, s: Coord) {
    || EligibleId(id, s.signers, s.blacklist, s.strikes, false)
    || EligibleId(id, s.signers, s.blacklist, s.strikes, true)
  }

  /** No signer is eligible for both passes. */
  lemma OnePass(id: Id, l: seq<Signer>, bl: seq<Id>, strikes: seq<nat>)
    requires forall i, j :: 0 <= i < j < |l| ==> l[i].id != l[j].id
    ensures !(EligibleId(id, l, bl, strikes, false) && EligibleId(id, l, bl, strikes, true))
  {
  }

  lemma SelectIs(s: Coord)
    requires SignersOk(s)
    ensures Distinct(Select(s))
    ensures forall id :: id in Select(s) ==> SelectableId(id, s)
    ensures s.t >= 0 ==> |Select(s)| <= s.t
  {
    PicksAre(s.signers, s.blacklist, s.strikes, if s.t < 0 then 0 else s.t);
  }

  /** The two passes together. */
  lemma PicksAre(l: seq<Signer>, bl: seq<Id>, strikes: seq<nat>, limit: nat)
    requires forall i, j :: 0 <= i < j < |l| ==> l[i].id != l[j].id
    ensures var p1 := Pick(l, bl, strikes, false, limit);
            var r := p1 + Pick(l, bl, strikes, true, limit - |p1|);
            && Distinct(r)
            && forall id :: id in r ==> EligibleId(id, l, bl, strikes, false) || EligibleId(id, l, bl, strikes, true)
  {
    var p1 := Pick(l, bl, strikes, false, limit);
    var p2 := Pick(l, bl, strikes, true, limit - |p1|);
    PickIs(l, bl, strikes, false, limit);
    PickIs(l, bl, strikes, true, limit - |p1|);
    forall id | id in p1 ensures id !in p2 {
      OnePass(id, l, bl, strikes);
    }
    DistinctConcat(p1, p2);
  }

  // ---------------------------------------------------------------- blacklist

  predicate GoodBlacklist(bl: seq<Id>) {
    Distinct(bl) && InRange(bl)
  }

  /** A valid id is never dropped for lack of room. */
  lemma AddBlacklistIs(bl: seq<Id>, id: Id)
    requires GoodBlacklist(bl) && 1 <= id <= MAX_SIGNERS
    ensures GoodBlacklist(AddBlacklist(bl, id)) && bl <= AddBlacklist(bl, id)
    ensures forall x :: x in AddBlacklist(bl, id) <==> x in bl || x == id
  {
    if |bl| >= MAX_SIGNERS {
      FullMeansEveryone(bl, MAX_SIGNERS, id);
    }
  }

  lemma {:induction false} AddAllBlacklistIs(bl: seq<Id>, ids: seq<Id>)
    requires GoodBlacklist(bl) && InRange(ids)
    ensures GoodBlacklist(AddAllBlacklist(bl, ids)) && bl <= AddAllBlacklist(bl, ids)
    ensures forall x :: x in AddAllBlacklist(bl, ids) <==> x in bl || x in ids
  {
    if ids != [] {
      var init, last := ids[..|ids| - 1], ids[|ids| - 1];
      AddAllBlacklistIs(bl, init);
      AddBlacklistIs(AddAllBlacklist(bl, init), last);
      assert ids == init + [last];
    }
  }

  lemma {:induction false} BlacklistStruckOutIs(bl: seq<Id>, ids: seq<Id>, sess: Session, l: seq<Signer>,
                                                strikes: seq<nat>)
    requires GoodBlacklist(bl) && InRange(ids)
    ensures var r := BlacklistStruckOut(bl, ids, sess, l, strikes);
            && GoodBlacklist(r) && bl <= r
            && forall x :: x in r <==> x in bl || (x in ids && StruckOut(sess, l, strikes, x))
  {
    if ids != [] {
      var init, last := ids[..|ids| - 1], ids[|ids| - 1];
      BlacklistStruckOutIs(bl, init, sess, l, strikes);
      if StruckOut(sess, l, strikes, last) {
        AddBlacklistIs(BlacklistStruckOut(bl, init, sess, l, strikes), last);
      }
      assert ids == init + [last];
    }
  }

  // ---------------------------------------------------------------- shares

  lemma {:induction false} NoneFilled(shares: seq<Bytes>)
    requires forall i :: 0 <= i < |shares| ==> shares[i] == []
    ensures Filled(shares) == 0
  {
    if shares != [] {
      NoneFilled(shares[..|shares| - 1]);
    }
  }

  lemma {:induction false} FilledUpdate(shares: seq<Bytes>, k: nat, v: Bytes)
    requires k < |shares|
    ensures Filled(shares[k := v]) ==
            Filled(shares) + (if v != [] then 1 else 0) - (if shares[k] != [] then 1 else 0)
  {
    var init := shares[..|shares| - 1];
    if k == |shares| - 1 {
      assert shares[k := v][..|shares| - 1] == init;
    } else {
      assert shares[k := v][..|shares| - 1] == init[k := v];
      FilledUpdate(init, k, v);
    }
  }

  /** Short of shares means that somebody is silent. */
  lemma {:induction false} SomeUnfilled(shares: seq<Bytes>)
    requires Filled(shares) < |shares|
    ensures exists i :: 0 <= i < |shares| && shares[i] == []
  {
    var last := |shares| - 1;
    if shares[last] != [] {
      SomeUnfilled(shares[..last]);
      var i :| 0 <= i < last && shares[..last][i] == [];
      assert shares[i] == [];
    }
  }

  // ---------------------------------------------------------------- every step keeps Inv

  lemma FormKeepsSlots(ss: seq<Session>, newSess: Session, nextSid: nat)
    requires SlotsInOrder(ss, nextSid) && FreeSlot(ss) < |ss| && !newSess.state.Empty? && newSess.id == nextSid
    ensures SlotsInOrder(ss[FreeSlot(ss) := newSess], nextSid + 1)
  {
    var k, r := FreeSlot(ss), ss[FreeSlot(ss) := newSess];
    assert FreeSlot(r) == k + 1 by {
      assert k + 1 < |ss| ==> r[k + 1].state.Empty?;
    }
  }

  /** Joining a session only touches the phase, the session id and the queue. */
  lemma FormKeepsSigners(s: Coord, chosen: seq<Id>, b: Bundle, k: nat, now: int)
    requires SignersOk(s) && k < |s.sessions|
    ensures SignersOk(Form(s, chosen, b, k, now))
  {
  }

  lemma NewSessionOk(s: Coord, chosen: seq<Id>, b: Bundle, now: int)
    requires SignersOk(s) && SizesOk(s.n, s.t) && |chosen| == s.t && Distinct(chosen)
    requires forall id :: id in chosen ==> SelectableId(id, s)
    ensures SessionOk(NewSession(s, chosen, b, now), s.n, s.t)
  {
    NoneFilled(NoShares(|chosen|));
    forall i | 0 <= i < |chosen| ensures 1 <= chosen[i] <= s.n {
      assert SelectableId(chosen[i], s);
    }
  }

  lemma FormKeeps(s: Coord, now: int, assembled: bool)
    requires Inv(s) && Formable(s, assembled) && SizesOk(s.n, s.t)
    ensures Inv(TryForm(s, now, assembled))
  {
    SelectIs(s);
    var k, chosen := FreeSlot(s.sessions), Select(s);
    var b := BundleFor(s, chosen);
    var newSess := NewSession(s, chosen, b, now);
    NewSessionOk(s, chosen, b, now);
    FormKeepsSlots(s.sessions, newSess, s.nextSid);
    FormKeepsSigners(s, chosen, b, k, now);
  }

  lemma MaybeFormKeeps(s: Coord, now: int, assembled: bool)
    requires Inv(s) && SizesOk(s.n, s.t)
    ensures Inv(MaybeForm(s, now, assembled))
  {
    if Formable(s, assembled) {
      FormKeeps(s, now, assembled);
    }
  }

  lemma HelloKeeps(s: Coord, id: Id, n: int, t: int, authentic: bool)
    requires Inv(s)
    ensures Inv(OnHello(s, id, n, t, authentic))
  {
    if s.n == 0 && HelloWellFormed(id, n, t) {
      FirstHelloKeeps(s, n, t);
    }
  }

  /** Before the first HELLO nothing is in the list or in the table. */
  lemma FirstHelloKeeps(s: Coord, n: int, t: int)
    requires Inv(s) && s.n == 0
    ensures Inv(s.(n := n, t := t))
  {
  }

  lemma DisconnectKeeps(s: Coord, id: Id)
    requires Inv(s)
    ensures Inv(OnDisconnect(s, id))
  {
    var i := IndexOf(s.signers, id);
    if i < |s.signers| {
      var l := OnDisconnect(s, id).signers;
      forall a | 0 <= a < |l| ensures l[a] == s.signers[if a < i then a else a + 1] {
      }
    }
  }

  lemma LoadFailKeeps(s: Coord, id: Id)
    requires Inv(s)
    ensures Inv(OnLoadFail(s, id))
  {
  }

  lemma StoreCommitKeeps(s: Coord, id: Id, payload: Bytes, sig: Bytes)
    requires Inv(s) && CommitAccepted(s, id, payload, sig)
    ensures Inv(StoreCommit(s, IndexOf(s.signers, id), payload, sig)) && SizesOk(s.n, s.t)
  {
  }

  lemma CommitKeeps(s: Coord, id: Id, payload: Bytes, sig: Bytes, now: int, assembled: bool)
    requires Inv(s)
    ensures Inv(OnCommit(s, id, payload, sig, now, assembled))
  {
    if CommitAccepted(s, id, payload, sig) {
      StoreCommitKeeps(s, id, payload, sig);
      MaybeFormKeeps(StoreCommit(s, IndexOf(s.signers, id), payload, sig), now, assembled);
    }
  }

  /** Only ids and emptiness matter to the order of the slots. */
  lemma SameSlots(ss: seq<Session>, r: seq<Session>, nextSid: nat)
    requires SlotsInOrder(ss, nextSid) && |r| == |ss|
    requires forall i :: 0 <= i < |ss| ==>
      r[i].id == ss[i].id && (r[i].state.Empty? <==> ss[i].state.Empty?) && (ss[i].state.Empty? ==> r[i] == ss[i])
    ensures FreeSlot(r) == FreeSlot(ss) && SlotsInOrder(r, nextSid)
  {
  }

  /** What a step keeps of the table when it changes one used slot. */
  lemma OneSlotOk(s: Coord, r: Coord, k: nat)
    requires SessionsOk(s) && k < |s.sessions| && |r.sessions| == |s.sessions|
    requires r.n == s.n && r.t == s.t && r.nextSid == s.nextSid
    requires r.sessions == s.sessions[k := r.sessions[k]] && r.sessions[k].id == s.sessions[k].id
    requires !s.sessions[k].state.Empty? && !r.sessions[k].state.Empty? && SessionOk(r.sessions[k], s.n, s.t)
    ensures SessionsOk(r)
  {
    SameSlots(s.sessions, r.sessions, s.nextSid);
  }

  /** The special case of a session that only changes its state. */
  lemma RetiredSlotOk(s: Coord, r: Coord, k: nat, state: SessionState)
    requires SessionsOk(s) && k < |s.sessions| && !s.sessions[k].state.Empty? && !state.Empty?
    requires r.n == s.n && r.t == s.t && r.nextSid == s.nextSid
    requires r.sessions == s.sessions[k := s.sessions[k].(state := state)]
    ensures SessionsOk(r)
  {
    assert SessionOk(s.sessions[k], s.n, s.t);
    OneSlotOk(s, r, k);
  }

  /** What a step keeps of the list when every signer stays in its place. */
  lemma SignersKept(s: Coord, r: Coord)
    requires SignersOk(s) && |r.signers| == |s.signers|
    requires r.n == s.n && r.t == s.t && r.nextSid == s.nextSid
    requires forall i :: 0 <= i < |r.signers| ==>
      r.signers[i].id == s.signers[i].id && SignerOk(r.signers[i], s.n, s.nextSid)
    ensures SignersOk(r)
  {
  }

  lemma DropCulpritSigners(s: Coord, k: nat, culprit: Id)
    requires SignersOk(s) && k < |s.sessions|
    ensures SignersOk(DropCulprit(s, k, culprit))
  {
    SignersKept(s, DropCulprit(s, k, culprit));
  }

  lemma DropCulpritKeeps(s: Coord, k: nat, culprit: Id)
    requires SignersOk(s) && SessionsOk(s) && LedgerOk(s)
    requires k < |s.sessions| && !s.sessions[k].state.Empty? && 1 <= culprit <= MAX_SIGNERS
    requires forall i :: 0 <= i < |s.sessions| && i != k && s.sessions[i].state.Awaiting? ==>
      s.sessions[i].nShares < s.t
    ensures Inv(DropCulprit(s, k, culprit))
  {
    AddBlacklistIs(s.blacklist, culprit);
    RetiredSlotOk(s, DropCulprit(s, k, culprit), k, Failed);
    DropCulpritSigners(s, k, culprit);
  }

  lemma FailUnknownSigners(s: Coord, k: nat)
    requires SignersOk(s) && k < |s.sessions|
    ensures SignersOk(FailUnknown(s, k))
  {
    SignersKept(s, FailUnknown(s, k));
  }

  lemma FailUnknownLedger(s: Coord, k: nat)
    requires LedgerOk(s) && k < |s.sessions| && SessionOk(s.sessions[k], s.n, s.t)
    ensures LedgerOk(FailUnknown(s, k))
  {
    AddAllBlacklistIs(s.blacklist, s.sessions[k].members);
  }

  lemma FailUnknownKeeps(s: Coord, k: nat)
    requires SignersOk(s) && SessionsOk(s) && LedgerOk(s)
    requires k < |s.sessions| && !s.sessions[k].state.Empty?
    requires forall i :: 0 <= i < |s.sessions| && i != k && s.sessions[i].state.Awaiting? ==>
      s.sessions[i].nShares < s.t
    ensures Inv(FailUnknown(s, k))
  {
    FailUnknownLedger(s, k);
    FailUnknownSigners(s, k);
    RetiredSlotOk(s, FailUnknown(s, k), k, Failed);
  }

  lemma SucceedSigners(s: Coord, k: nat, mintOk: bool)
    requires SignersOk(s) && k < |s.sessions|
    ensures SignersOk(Succeed(s, k, mintOk))
  {
    var r := Succeed(s, k, mintOk);
    assert forall i :: 0 <= i < |s.signers| ==> SignerOk(s.signers[i], s.n, s.nextSid);
    SignersKept(s, r);
  }

  lemma SucceedKeeps(s: Coord, k: nat, mintOk: bool)
    requires SignersOk(s) && SessionsOk(s) && LedgerOk(s)
    requires k < |s.sessions| && !s.sessions[k].state.Empty?
    ensures Inv(Succeed(s, k, mintOk))
  {
    SucceedSigners(s, k, mintOk);
    RetiredSlotOk(s, Succeed(s, k, mintOk), k, Complete);
  }

  lemma StoreShareSigners(s: Coord, id: Id, payload: Bytes)
    requires SignersOk(s) && Routable(s, id)
    ensures SignersOk(StoreShare(s, id, payload))
  {
    SignersKept(s, StoreShare(s, id, payload));
  }

  lemma StoreShareSlot(s: Coord, id: Id, payload: Bytes)
    requires SessionsOk(s) && Routable(s, id)
    ensures SessionsOk(StoreShare(s, id, payload))
  {
    var k := FindSession(s.sessions, s.signers[IndexOf(s.signers, id)].sessionId);
    SharePut(s.sessions[k], SlotOf(s.sessions[k].members, id), payload, s.n, s.t);
    OneSlotOk(s, StoreShare(s, id, payload), k);
  }

  lemma StoreShareKeeps(s: Coord, id: Id, payload: Bytes)
    requires Inv(s) && Routable(s, id)
    ensures SharesStored(StoreShare(s, id, payload),
                         FindSession(s.sessions, s.signers[IndexOf(s.signers, id)].sessionId))
  {
    StoreShareSigners(s, id, payload);
    StoreShareSlot(s, id, payload);
  }

  lemma SharePut(sess: Session, slot: nat, payload: Bytes, n: int, t: int)
    requires SessionOk(sess, n, t) && slot < |sess.shares|
    ensures SessionOk(sess.(shares := sess.shares[slot := payload], nShares := sess.nShares + 1), n, t)
  {
    FilledUpdate(sess.shares, slot, payload);
  }

  /** The state between storing a share in slot `k` and acting on it. */
  predicate SharesStored(s: Coord, k: nat) {
    && SignersOk(s) && SessionsOk(s) && LedgerOk(s)
    && k < |s.sessions| && s.sessions[k].state.Awaiting?
    && (!s.done ==> forall i :: 0 <= i < |s.sessions| && i != k && s.sessions[i].state.Awaiting? ==>
          s.sessions[i].nShares < s.t)
  }

  lemma AggregateKeeps(s: Coord, k: nat, verdict: Verdict, now: int, assembled: bool)
    requires SharesStored(s, k)
    ensures Inv(Aggregate(s, k, verdict, now, assembled))
  {
    if s.sessions[k].nShares >= s.t && !s.done {
      if verdict.Good? {
        SucceedKeeps(s, k, verdict.mintOk);
      } else if verdict.Culprit? && 0 < verdict.culprit <= MAX_SIGNERS {
        DropCulpritKeeps(s, k, verdict.culprit);
        MaybeFormKeeps(DropCulprit(s, k, verdict.culprit), now, assembled);
      } else {
        FailUnknownKeeps(s, k);
      }
    }
  }

  lemma ShareKeeps(s: Coord, id: Id, payload: Bytes, verdict: Verdict, now: int, assembled: bool)
    requires Inv(s)
    ensures Inv(OnShare(s, id, payload, verdict, now, assembled))
  {
    if |payload| <= MAX_PAYLOAD && Routable(s, id) {
      StoreShareKeeps(s, id, payload);
      AggregateKeeps(StoreShare(s, id, payload),
                     FindSession(s.sessions, s.signers[IndexOf(s.signers, id)].sessionId), verdict, now, assembled);
    }
  }

  lemma ExpireLedger(s: Coord, k: nat)
    requires LedgerOk(s) && k < |s.sessions| && SessionOk(s.sessions[k], s.n, s.t)
    ensures LedgerOk(Expire(s, k))
  {
    var sess, r := s.sessions[k], Expire(s, k);
    BlacklistStruckOutIs(s.blacklist, sess.members, sess, s.signers, r.strikes);
    forall i | 0 <= i < |r.strikes| && r.strikes[i] >= MAX_STRIKES ensures i + 1 in r.blacklist {
      if s.strikes[i] < MAX_STRIKES {
        assert StruckOut(sess, s.signers, r.strikes, i + 1);
      }
    }
  }

  lemma ExpireSigners(s: Coord, k: nat)
    requires SignersOk(s) && k < |s.sessions|
    ensures SignersOk(Expire(s, k))
  {
    var r := Expire(s, k);
    forall i | 0 <= i < |r.signers|
      ensures SignerOk(r.signers[i], r.n, r.nextSid) && r.signers[i].id == s.signers[i].id {
      assert SignerOk(s.signers[i], s.n, s.nextSid);
    }
  }

  lemma ExpireKeeps(s: Coord, k: nat)
    requires Inv(s) && k < |s.sessions| && s.sessions[k].state.Awaiting?
    ensures Inv(Expire(s, k))
  {
    assert SessionOk(s.sessions[k], s.n, s.t);
    ExpireLedger(s, k);
    ExpireSigners(s, k);
    RetiredSlotOk(s, Expire(s, k), k, Failed);
  }

  /** The sweep, slot by slot: what each slot keeps, the sweep keeps. */
  lemma {:induction false} SweepInduct(inv: (nat, Coord) -> bool, s: Coord, k: nat, now: int, after: set<int>)
    requires k <= |s.sessions| && inv(0, s)
    requires forall j: nat, m: Coord :: j < k && |m.sessions| == |s.sessions| && inv(j, m) ==>
      inv(j + 1, SweepSlot(m, j, now, j in after))
    ensures inv(k, Sweep(s, k, now, after))
  {
    if k != 0 {
      SweepInduct(inv, s, k - 1, now, after);
    }
  }

  lemma SlotKeeps(s: Coord, k: nat, now: int, assembled: bool)
    requires Inv(s) && k < |s.sessions|
    ensures Inv(SweepSlot(s, k, now, assembled))
  {
    if Expired(s.sessions[k], now) {
      ExpireKeeps(s, k);
      MaybeFormKeeps(Expire(s, k), now, assembled);
    }
  }

  lemma {:induction false} SweepKeeps(s: Coord, k: nat, now: int, after: set<int>)
    requires Inv(s) && !s.done && k <= |s.sessions|
    ensures Inv(Sweep(s, k, now, after))
  {
    if k != 0 {
      SweepKeeps(s, k - 1, now, after);
      SlotKeeps(Sweep(s, k - 1, now, after), k - 1, now, k - 1 in after);
    }
  }

  lemma NextCertKeeps(s: Coord, newTbs: Bytes)
    requires Inv(s)
    ensures Inv(OnNextCert(s, newTbs))
  {
  }

  lemma StepKeeps(s: Coord, e: Event)
    requires Inv(s)
    ensures Inv(Step(s, e))
  {
    match e
    case Hello(id, n, t, authentic) => HelloKeeps(s, id, n, t, authentic);
    case Disconnect(id) => DisconnectKeeps(s, id);
    case LoadFail(id) => LoadFailKeeps(s, id);
    case Commit(id, payload, sig, now, assembled) => CommitKeeps(s, id, payload, sig, now, assembled);
    case Share(id, payload, verdict, now, assembled) => ShareKeeps(s, id, payload, verdict, now, assembled);
    case Tick(now, after) => if !s.done { SweepKeeps(s, |s.sessions|, now, after); }
    case NextCert(newTbs) => NextCertKeeps(s, newTbs);
  }

  lemma StartIsFine(n: int, t: int, tbs: Bytes, serial: nat, toMint: nat)
    ensures Inv(Start(n, t, tbs, serial, toMint))
  {
  }

  /** Every reachable state satisfies the invariant. */
  lemma {:induction false} RunKeeps(s: Coord, es: seq<Event>)
    requires Inv(s)
    ensures Inv(Run(s, es))
  {
    if es != [] {
      RunKeeps(s, es[..|es| - 1]);
      StepKeeps(Run(s, es[..|es| - 1]), es[|es| - 1]);
    }
  }
}
