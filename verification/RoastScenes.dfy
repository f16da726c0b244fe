/**
 Building blocks for concrete runs: commitments that gather, the session they open, the shares
 its members send. All of them stay within the model of prompt honest signers.
 */
module RoastScenes {
  import opened Octets
  import opened Bundles
  import opened Counting
  import opened Roast
  import opened RoastInvariant
  import opened RoastExclusion
  import opened RoastMinting
  import opened RoastCoherence
  import opened RoastTermination
  import opened RoastPrompt
  import opened RoastPaths

  // ---------------------------------------------------------------- runs as a relation

  ghost function PromptModel(faulty: set<Id>): Model {
    (s, e) => PromptStep(s, e, faulty)
  }

  /** Some run with prompt honest signers leads from `s` to `r`. */
  ghost predicate Leads(s: Coord, r: Coord, faulty: set<Id>) {
    LeadsIn(s, r, PromptModel(faulty))
  }

  lemma LeadsSelf(s: Coord, faulty: set<Id>)
    ensures Leads(s, s, faulty)
  {
    SelfIn(s, PromptModel(faulty));
  }

  lemma LeadsOne(s: Coord, e: Event, faulty: set<Id>)
    requires PromptStep(s, e, faulty)
    ensures Leads(s, Step(s, e), faulty)
  {
    OneIn(s, e, PromptModel(faulty));
  }

  lemma LeadsOn(s: Coord, m: Coord, r: Coord, faulty: set<Id>)
    requires Leads(s, m, faulty) && Leads(m, r, faulty)
    ensures Leads(s, r, faulty)
  {
    OnIn(s, m, r, PromptModel(faulty));
  }

  lemma LeadsIsRun(s: Coord, r: Coord, faulty: set<Id>) returns (es: seq<Event>)
    requires Leads(s, r, faulty)
    ensures Run(s, es) == r && PromptRun(s, es, faulty)
  {
    es := IsRunIn(s, r, PromptModel(faulty));
    forall i | 0 <= i < |es| ensures PromptStep(Run(s, es[..i]), es[i], faulty) {
      assert PromptModel(faulty)(Run(s, es[..i]), es[i]);
    }
  }

  // ---------------------------------------------------------------- the setting

  /** What a run starts from: n, t, the message, the counters, and who is faulty. */
  datatype Setting = Setting(n: nat, t: int, tbs: Bytes, serial: nat, toMint: nat, faulty: set<Id>)

  function Origin(p: Setting): Coord {
    Start(p.n, p.t, p.tbs, p.serial, p.toMint)
  }

  predicate SettingOk(p: Setting) {
    2 <= p.n && SizesOk(p.n, p.t) && Fits(p.t, 1, |p.tbs|)
  }

  predicate Base(s: Coord, p: Setting) {
    SettingOk(p) && Inv(s) && s.n == p.n && s.t == p.t && s.tbs == p.tbs && !s.done
  }

  predicate WaitsForCommit(sg: Signer) {
    (sg.phase.Init? || sg.phase.Suspect?) && sg.commit == []
  }

  /** Connected, trusted, and asked for a commitment. */
  predicate Asked(s: Coord, id: Id) {
    id !in s.blacklist && exists i :: 0 <= i < |s.signers| && s.signers[i].id == id && WaitsForCommit(s.signers[i])
  }

  ghost predicate AllAsked(s: Coord, ids: set<Id>) {
    forall x :: x in ids ==> Asked(s, x)
  }

  /** Exactly the signers of `done` can be chosen, and their commitments are one byte long. */
  ghost predicate Gathered(s: Coord, done: set<Id>) {
    && (forall id :: SelectableId(id, s) <==> id in done)
    && (forall i :: 0 <= i < |s.signers| && s.signers[i].id in done ==> |s.signers[i].commit| == 1)
  }

  /** Only signers of `touched` changed, and nobody's standing. */
  predicate SameBut(s: Coord, m: Coord, touched: set<Id>) {
    && SameIds(s.signers, m.signers) && m.blacklist == s.blacklist && m.strikes == s.strikes
    && forall i :: 0 <= i < |s.signers| && s.signers[i].id !in touched ==> m.signers[i] == s.signers[i]
  }

  lemma SameButTrans(s: Coord, m: Coord, r: Coord, a: set<Id>, b: set<Id>)
    requires SameBut(s, m, a) && SameBut(m, r, b)
    ensures SameBut(s, r, a + b)
  {
  }

  lemma StillAsked(s: Coord, m: Coord, touched: set<Id>, ids: set<Id>)
    requires SameBut(s, m, touched) && AllAsked(s, ids)
    ensures AllAsked(m, ids - touched)
  {
    forall x | x in ids - touched ensures Asked(m, x) {
      var i :| 0 <= i < |s.signers| && s.signers[i].id == x && WaitsForCommit(s.signers[i]);
      assert m.signers[i] == s.signers[i];
    }
  }

  lemma GatheredCandidates(s: Coord, done: set<Id>)
    requires Gathered(s, done)
    ensures Candidates(s) == done
  {
    forall id ensures id in Candidates(s) <==> id in done {
      CandidateOffers(s, id);
    }
  }

  lemma GatheredFit(s: Coord, p: Setting, done: set<Id>)
    requires Base(s, p) && Gathered(s, done)
    ensures OffersFit(s)
  {
    forall id, c | Offers(s, id, c) ensures Fits(s.t, |c|, |s.tbs|) {
      CandidateOffers(s, id);
      GatheredCandidates(s, done);
    }
  }

  // ---------------------------------------------------------------- commitments

  function Commitment(id: Id, now: int): Event {
    Commit(id, [7], Zeros(SIG_SIZE), now, true)
  }

  function Stored(s: Coord, id: Id): Coord
    requires Connected(s.signers, id)
  {
    StoreCommit(s, IndexOf(s.signers, id), [7], Zeros(SIG_SIZE))
  }

  lemma AskedAt(s: Coord, id: Id) returns (k: nat)
    requires SignersOk(s) && Asked(s, id)
    ensures Connected(s.signers, id) && k == IndexOf(s.signers, id) < |s.signers| && WaitsForCommit(s.signers[k]) &&
            s.signers[k].id == id
    ensures CommitAccepted(s, id, [7], Zeros(SIG_SIZE))
  {
    k :| 0 <= k < |s.signers| && s.signers[k].id == id && WaitsForCommit(s.signers[k]);
    IndexOfIs(s.signers, k);
  }

  lemma StoredSelectable(s: Coord, m: Coord, k: nat, x: Id)
    requires SignersOk(s) && LedgerOk(s) && k < |s.signers| && s.signers[k].id !in s.blacklist
    requires m == StoreCommit(s, k, [7], Zeros(SIG_SIZE))
    ensures SelectableId(x, m) <==> x == s.signers[k].id || SelectableId(x, s)
  {
    var sg := m.signers[k];
    assert Eligible(sg, m.blacklist, m.strikes, false) || Eligible(sg, m.blacklist, m.strikes, true);
    if x == s.signers[k].id {
      assert EligibleId(x, m.signers, m.blacklist, m.strikes, false) ||
             EligibleId(x, m.signers, m.blacklist, m.strikes, true);
    } else {
      OtherEligible(s, m, k, x, false);
      OtherEligible(s, m, k, x, true);
    }
  }

  lemma OtherEligible(s: Coord, m: Coord, k: nat, x: Id, suspect: bool)
    requires k < |s.signers| == |m.signers| && x != s.signers[k].id && m.signers == s.signers[k := m.signers[k]]
    requires m.signers[k].id == s.signers[k].id && m.blacklist == s.blacklist && m.strikes == s.strikes
    ensures EligibleId(x, m.signers, m.blacklist, m.strikes, suspect) <==>
            EligibleId(x, s.signers, s.blacklist, s.strikes, suspect)
  {
    if i :| 0 <= i < |s.signers| && s.signers[i].id == x && Eligible(s.signers[i], s.blacklist, s.strikes, suspect) {
      assert m.signers[i] == s.signers[i];
    }
    if i :| 0 <= i < |m.signers| && m.signers[i].id == x && Eligible(m.signers[i], m.blacklist, m.strikes, suspect) {
      assert m.signers[i] == s.signers[i];
    }
  }

  /** A commitment of one byte makes its signer selectable and changes nothing for the others. */
  lemma StoredGathers(s: Coord, p: Setting, id: Id, done: set<Id>)
    requires Base(s, p) && Gathered(s, done) && Asked(s, id)
    ensures Connected(s.signers, id) && CommitAccepted(s, id, [7], Zeros(SIG_SIZE))
    ensures var m := Stored(s, id);
            Base(m, p) && Gathered(m, done + {id}) && SameBut(s, m, {id}) && m.sessions == s.sessions
  {
    var k := AskedAt(s, id);
    var m := Stored(s, id);
    StoreCommitKeeps(s, id, [7], Zeros(SIG_SIZE));
    forall x ensures SelectableId(x, m) <==> x in done + {id} {
      StoredSelectable(s, m, k, x);
    }
  }

  lemma CommitIs(s: Coord, p: Setting, id: Id, now: int)
    requires Base(s, p) && Connected(s.signers, id) && CommitAccepted(s, id, [7], Zeros(SIG_SIZE))
    ensures Leads(s, MaybeForm(Stored(s, id), now, true), p.faulty)
  {
    LeadsOne(s, Commitment(id, now), p.faulty);
  }

  /** Too few commitments: nothing forms. */
  lemma CommitOne(s: Coord, p: Setting, done: set<Id>, id: Id, now: int) returns (m: Coord)
    requires Base(s, p) && Gathered(s, done) && Asked(s, id) && |done + {id}| < p.t
    ensures Leads(s, m, p.faulty)
    ensures Base(m, p) && Gathered(m, done + {id}) && SameBut(s, m, {id}) && m.sessions == s.sessions
  {
    StoredGathers(s, p, id, done);
    m := Stored(s, id);
    GatheredCandidates(m, done + {id});
    TooFewToForm(m, now, true);
    CommitIs(s, p, id, now);
  }

  lemma Another(pool: set<Id>, done: set<Id>) returns (x: Id)
    requires done <= pool && |done| < |pool|
    ensures x in pool && x !in done && pool - (done + {x}) == (pool - done) - {x}
  {
    if forall y :: y in pool ==> y in done {
      CardMonotone(pool, done);
    }
    x :| x in pool && x !in done;
  }

  /** The commitments of further signers of `pool`, until `k` have committed. */
  lemma {:induction false} FillUp(s: Coord, p: Setting, pool: set<Id>, done: set<Id>, k: nat, now: int)
      returns (m: Coord, full: set<Id>)
    requires Base(s, p) && Gathered(s, done) && done <= pool && AllAsked(s, pool - done)
    requires |done| <= k <= |pool| && k < p.t
    ensures Leads(s, m, p.faulty) && Base(m, p) && Gathered(m, full) && done <= full <= pool && |full| == k
    ensures SameBut(s, m, full - done) && m.sessions == s.sessions
    decreases k - |done|
  {
    if |done| == k {
      LeadsSelf(s, p.faulty);
      return s, done;
    }
    var x := Another(pool, done);
    var s1 := CommitOne(s, p, done, x, now);
    StillAsked(s, s1, {x}, pool - done);
    m, full := FillUp(s1, p, pool, done + {x}, k, now);
    LeadsOn(s, s1, m, p.faulty);
    SameButTrans(s, s1, m, {x}, full - (done + {x}));
    assert {x} + (full - (done + {x})) == full - done;
  }

  // ---------------------------------------------------------------- a session opens

  function MembersOf(s: Coord, k: nat): set<Id>
    requires k < |s.sessions|
  {
    set x | x in s.sessions[k].members
  }

  /** Slot `k` waits for `members`; those of `shared` have sent their shares, and theirs go to slot `k`. */
  ghost predicate Open(s: Coord, k: nat, members: set<Id>, shared: set<Id>, deadline: int) {
    && Active(s, k) && s.sessions[k].deadline == deadline && MembersOf(s, k) == members
    && shared <= members && s.sessions[k].nShares == |shared|
    && (forall x :: x in members ==> (Cooperated(s.sessions[k], x) <==> x in shared) && Connected(s.signers, x))
    && (forall i :: 0 <= i < |s.signers| && s.signers[i].id in members ==>
          s.signers[i].sessionId == s.sessions[k].id && !s.signers[i].phase.NoKey?)
  }

  lemma ChosenAreGathered(m: Coord, done: set<Id>)
    requires SignersOk(m) && Gathered(m, done) && |Select(m)| == |done|
    ensures Distinct(Select(m)) && (set x | x in Select(m)) == done
  {
    SelectIs(m);
    DistinctCard(Select(m));
    SubsetAll((set x | x in Select(m)), done);
  }

  lemma FormedOpens(m: Coord, chosen: seq<Id>, b: Bundle, k: nat, now: int)
    requires SignersOk(m) && k < |m.sessions| && (forall x :: x in chosen ==> SelectableId(x, m))
    ensures var f := Form(m, chosen, b, k, now);
            Open(f, k, (set x | x in chosen), {}, now + SESSION_TIMEOUT) && SameBut(m, f, (set x | x in chosen))
  {
    var f := Form(m, chosen, b, k, now);
    forall x | x in chosen ensures Connected(f.signers, x) {
      assert SelectableId(x, m);
      var i :| 0 <= i < |m.signers| && m.signers[i].id == x;
      assert f.signers[i].id == x;
    }
  }

  lemma FormedGathers(m: Coord, chosen: seq<Id>, b: Bundle, k: nat, now: int, done: set<Id>)
    requires k < |m.sessions| && Gathered(m, done) && done == set x | x in chosen
    ensures Gathered(Form(m, chosen, b, k, now), {})
  {
    var f := Form(m, chosen, b, k, now);
    FormedCandidates(m, chosen, b, k, now);
    GatheredCandidates(m, done);
    forall x ensures !SelectableId(x, f) {
      CandidateOffers(f, x);
      assert x in chosen <==> x in done;
    }
  }

  lemma SlotTaken(s: Coord, k: nat, x: Session)
    requires SessionsOk(s) && FreeSlot(s.sessions) == k < |s.sessions| && !x.state.Empty?
    ensures FreeSlot(s.sessions[k := x]) == k + 1
  {
    var r := s.sessions[k := x];
    assert k + 1 < |r| ==> r[k + 1].state.Empty?;
  }

  /** A new session of `members` waits in the first free slot; nothing else changed but its members. */
  ghost predicate Opened(s: Coord, m: Coord, members: set<Id>, shared: set<Id>, deadline: int) {
    var k := FreeSlot(s.sessions);
    && FreeSlot(m.sessions) == k + 1 && k < |s.sessions| == |m.sessions|
    && (forall j :: 0 <= j < |s.sessions| && j != k ==> m.sessions[j] == s.sessions[j])
    && Open(m, k, members, shared, deadline) && SameBut(s, m, members)
  }

  /** With t commitments gathered a session forms, of exactly those that committed. */
  lemma Forms(m: Coord, p: Setting, done: set<Id>, now: int) returns (f: Coord)
    requires Base(m, p) && Gathered(m, done) && |done| == p.t && FreeSlot(m.sessions) < MAX_SESSIONS
    ensures f == MaybeForm(m, now, true) && Base(f, p) && Gathered(f, {}) &&
            Opened(m, f, done, {}, now + SESSION_TIMEOUT)
  {
    var chosen, k := Select(m), FreeSlot(m.sessions);
    var b := BundleFor(m, chosen);
    GatheredCandidates(m, done);
    GatheredFit(m, p, done);
    EnoughToForm(m, now);
    ChosenAreGathered(m, done);
    SelectIs(m);
    MaybeFormKeeps(m, now, true);
    FormedOpens(m, chosen, b, k, now);
    FormedGathers(m, chosen, b, k, now, done);
    SlotTaken(m, k, NewSession(m, chosen, b, now));
    f := MaybeForm(m, now, true);
  }

  /** The last commitment opens a session. */
  lemma CommitOpens(s: Coord, p: Setting, done: set<Id>, id: Id, now: int) returns (m: Coord)
    requires Base(s, p) && Gathered(s, done) && Asked(s, id) && |done + {id}| == p.t &&
             FreeSlot(s.sessions) < MAX_SESSIONS
    ensures Leads(s, m, p.faulty) && Base(m, p) && Gathered(m, {}) &&
            Opened(s, m, done + {id}, {}, now + SESSION_TIMEOUT)
  {
    StoredGathers(s, p, id, done);
    var c := Stored(s, id);
    m := Forms(c, p, done + {id}, now);
    CommitIs(s, p, id, now);
    OpenedAfter(s, c, m, {id}, done + {id}, {}, now + SESSION_TIMEOUT);
  }

  /** Changes to the members before the session opened count as changes to the members. */
  lemma OpenedAfter(s: Coord, c: Coord, m: Coord, before: set<Id>, members: set<Id>, shared: set<Id>, deadline: int)
    requires SameBut(s, c, before) && before <= members && c.sessions == s.sessions &&
             Opened(c, m, members, shared, deadline)
    ensures Opened(s, m, members, shared, deadline)
  {
    SameButTrans(s, c, m, before, members);
    assert before + members == members;
  }

  // ---------------------------------------------------------------- shares

  function ShareOf(id: Id, now: int, verdict: Verdict): Event {
    Share(id, [9], verdict, now, true)
  }

  lemma ShareRoutes(s: Coord, p: Setting, k: nat, members: set<Id>, shared: set<Id>, deadline: int, id: Id)
    requires Base(s, p) && Open(s, k, members, shared, deadline) && id in members
    ensures Routable(s, id) && FindSession(s.sessions, s.signers[IndexOf(s.signers, id)].sessionId) == k
  {
    var i := IndexOf(s.signers, id);
    assert id in s.sessions[k].members && Connected(s.signers, id) && s.signers[i].id == id;
    RoutableIff(s, i);
    IdsUnique(s, k, FindSession(s.sessions, s.signers[i].sessionId));
  }

  /** Storing one more share. */
  lemma SharePlaced(sess: Session, n: int, t: int, id: Id, members: set<Id>, shared: set<Id>)
    requires SessionOk(sess, n, t) && members == (set x | x in sess.members) && id in members
    requires forall x :: x in members ==> (Cooperated(sess, x) <==> x in shared)
    ensures var slot := SlotOf(sess.members, id);
            && slot < |sess.shares|
            && var two := sess.(shares := sess.shares[slot := [9]], nShares := sess.nShares + 1);
               forall x :: x in members ==> (Cooperated(two, x) <==> x in shared + {id})
  {
    var slot := SlotOf(sess.members, id);
    var two := sess.(shares := sess.shares[slot := [9]], nShares := sess.nShares + 1);
    assert id in sess.members;
    forall x | x in members ensures Cooperated(two, x) <==> x in shared + {id} {
      assert x in sess.members;
      assert SlotOf(sess.members, x) == slot ==> x == id;
    }
  }

  /** Slot `k` and the signer `id` changed, nothing else. */
  predicate OnlySlot(s: Coord, m: Coord, k: nat, touched: set<Id>) {
    && k < |s.sessions| == |m.sessions| && FreeSlot(m.sessions) == FreeSlot(s.sessions) && SameBut(s, m, touched)
    && forall j :: 0 <= j < |s.sessions| && j != k ==> m.sessions[j] == s.sessions[j]
  }

  lemma StoredShareSlot(s: Coord, p: Setting, k: nat, members: set<Id>, shared: set<Id>, deadline: int, id: Id)
    requires Base(s, p) && Open(s, k, members, shared, deadline) && id in members && id !in shared
    ensures Routable(s, id) && FindSession(s.sessions, s.signers[IndexOf(s.signers, id)].sessionId) == k
    ensures OnlySlot(s, StoreShare(s, id, [9]), k, {id})
  {
    ShareRoutes(s, p, k, members, shared, deadline, id);
    var f := StoreShare(s, id, [9]);
    CloseSlot(s.sessions, k, f.sessions[k]);
  }

  lemma StoredShareOpen(s: Coord, p: Setting, k: nat, members: set<Id>, shared: set<Id>, deadline: int, id: Id)
    requires Base(s, p) && Open(s, k, members, shared, deadline) && id in members && id !in shared
    requires Routable(s, id) && FindSession(s.sessions, s.signers[IndexOf(s.signers, id)].sessionId) == k
    ensures Open(StoreShare(s, id, [9]), k, members, shared + {id}, deadline)
  {
    var sess := s.sessions[k];
    assert SessionOk(sess, s.n, s.t);
    SharePlaced(sess, p.n, p.t, id, members, shared);
    var f := StoreShare(s, id, [9]);
    assert f.sessions[k] == sess.(shares := sess.shares[SlotOf(sess.members, id) := [9]], nShares := sess.nShares + 1);
    StoredShareSigners(s, id);
    OpenAfter(s, f, k, members, shared, deadline, id);
  }

  /** A stored share moves its sender to the next phase and touches no other signer. */
  lemma StoredShareSigners(s: Coord, id: Id)
    requires Routable(s, id)
    ensures var f := StoreShare(s, id, [9]);
            && SameIds(s.signers, f.signers)
            && forall i :: 0 <= i < |s.signers| ==>
                 f.signers[i] == s.signers[i] || f.signers[i] == s.signers[i].(phase := Shared)
  {
  }

  lemma OpenAfter(s: Coord, f: Coord, k: nat, members: set<Id>, shared: set<Id>, deadline: int, id: Id)
    requires Open(s, k, members, shared, deadline) && id in members && id !in shared && SameIds(s.signers, f.signers)
    requires forall i :: 0 <= i < |s.signers| ==>
      f.signers[i] == s.signers[i] || f.signers[i] == s.signers[i].(phase := Shared)
    requires Active(f, k) && f.sessions[k] == s.sessions[k].(shares := f.sessions[k].shares, nShares := |shared| + 1)
    requires forall x :: x in members ==> (Cooperated(f.sessions[k], x) <==> x in shared + {id})
    ensures Open(f, k, members, shared + {id}, deadline)
  {
    forall x | x in members ensures Connected(f.signers, x) {
      SameIdsConnected(s.signers, f.signers, x);
    }
  }

  /** A member's share changes nothing about who can be chosen. */
  lemma ShareGathers(s: Coord, id: Id, done: set<Id>)
    requires SignersOk(s) && Routable(s, id) && Gathered(s, done) && id !in done
    ensures Gathered(StoreShare(s, id, [9]), done)
  {
    var f, k := StoreShare(s, id, [9]), IndexOf(s.signers, id);
    forall x ensures SelectableId(x, f) <==> x in done {
      if x == id {
        assert forall i :: 0 <= i < |f.signers| && f.signers[i].id == id ==> i == k;
      } else {
        OtherEligible(s, f, k, x, false);
        OtherEligible(s, f, k, x, true);
      }
    }
  }

  lemma ShareIs(s: Coord, p: Setting, k: nat, id: Id, now: int)
    requires Base(s, p) && Active(s, k) && s.sessions[k].nShares + 1 < p.t
    requires Routable(s, id) && FindSession(s.sessions, s.signers[IndexOf(s.signers, id)].sessionId) == k
    ensures var f := StoreShare(s, id, [9]);
            Step(s, ShareOf(id, now, Good(true))) == f && PromptStep(s, ShareOf(id, now, Good(true)), p.faulty) &&
              Base(f, p)
  {
    StoreShareKeeps(s, id, [9]);
    assert Inv(StoreShare(s, id, [9]));
  }

  /** A share that does not complete the session is stored, and that is all. */
  lemma ShareOne(s: Coord, p: Setting, k: nat, members: set<Id>, shared: set<Id>, deadline: int, id: Id, now: int)
      returns (f: Coord)
    requires Base(s, p) && Open(s, k, members, shared, deadline) && Gathered(s, {})
    requires id in members && id !in shared && |shared| + 1 < p.t
    ensures Leads(s, f, p.faulty) && Base(f, p) && Gathered(f, {})
    ensures Open(f, k, members, shared + {id}, deadline) && OnlySlot(s, f, k, {id})
  {
    StoredShareSlot(s, p, k, members, shared, deadline, id);
    StoredShareOpen(s, p, k, members, shared, deadline, id);
    ShareGathers(s, id, {});
    ShareIs(s, p, k, id, now);
    LeadsOne(s, ShareOf(id, now, Good(true)), p.faulty);
    f := StoreShare(s, id, [9]);
  }

  lemma OnlySlotTrans(s: Coord, m: Coord, r: Coord, k: nat, x: Id, todo: set<Id>)
    requires OnlySlot(s, m, k, {x}) && OnlySlot(m, r, k, todo - {x}) && x in todo
    ensures OnlySlot(s, r, k, todo)
  {
    SameButTrans(s, m, r, {x}, todo - {x});
    assert {x} + (todo - {x}) == todo;
  }

  lemma TakeOne(members: set<Id>, shared: set<Id>, todo: set<Id>, x: Id) returns (rest: set<Id>, more: set<Id>)
    requires x in todo && todo <= members && todo !! shared
    ensures rest == todo - {x} && more == shared + {x} && |rest| + 1 == |todo| && |more| == |shared| + 1
    ensures rest <= members && rest !! more && more + rest == shared + todo
  {
    rest, more := todo - {x}, shared + {x};
  }

  /** The shares of `todo`, one after another. */
  lemma {:induction false} ShareAll(s: Coord, p: Setting, k: nat, members: set<Id>, shared: set<Id>, deadline: int,
                                    todo: set<Id>, now: int)
      returns (m: Coord)
    requires Base(s, p) && Open(s, k, members, shared, deadline) && Gathered(s, {})
    requires todo <= members && todo !! shared && |shared| + |todo| < p.t
    ensures Leads(s, m, p.faulty) && Base(m, p) && Gathered(m, {})
    ensures Open(m, k, members, shared + todo, deadline) && OnlySlot(s, m, k, todo)
    decreases |todo|
  {
    if todo == {} {
      LeadsSelf(s, p.faulty);
      assert shared + todo == shared;
      return s;
    }
    var x :| x in todo;
    var rest, more := TakeOne(members, shared, todo, x);
    var s1 := ShareOne(s, p, k, members, shared, deadline, x, now);
    m := ShareAll(s1, p, k, members, more, deadline, rest, now);
    LeadsOn(s, s1, m, p.faulty);
    OnlySlotTrans(s, s1, m, k, x, todo);
  }

  // ---------------------------------------------------------------- one session

  /** Who may take part in the next session: t - 1 of `pool`, of whom `done` have committed, and `cur`. */
  ghost predicate Ready(s: Coord, p: Setting, pool: set<Id>, done: set<Id>, cur: Id) {
    && Base(s, p) && Gathered(s, done) && done <= pool && AllAsked(s, pool - done) && Asked(s, cur) && cur !in pool
    && |done| < p.t && p.t - 1 <= |pool| && FreeSlot(s.sessions) < MAX_SESSIONS
  }

  /** t - 1 signers of `pool` and `cur` commit; a session of them forms. */
  lemma OpenWith(s: Coord, p: Setting, pool: set<Id>, done: set<Id>, cur: Id, now: int)
      returns (m: Coord, helpers: set<Id>)
    requires Ready(s, p, pool, done, cur)
    ensures Leads(s, m, p.faulty) && Base(m, p) && Gathered(m, {}) && done <= helpers <= pool && |helpers| == p.t - 1
    ensures Opened(s, m, helpers + {cur}, {}, now + SESSION_TIMEOUT)
  {
    var s1;
    s1, helpers := FillUp(s, p, pool, done, p.t - 1, now);
    OneStillAsked(s, s1, helpers - done, cur);
    m := CommitOpens(s1, p, helpers, cur, now);
    LeadsOn(s, s1, m, p.faulty);
    OpenedAfter(s, s1, m, helpers - done, helpers + {cur}, {}, now + SESSION_TIMEOUT);
  }

  lemma OneStillAsked(s: Coord, m: Coord, touched: set<Id>, x: Id)
    requires SameBut(s, m, touched) && Asked(s, x) && x !in touched
    ensures Asked(m, x)
  {
    StillAsked(s, m, touched, {x});
    assert x in {x} - touched;
  }

  lemma OpenedThenShared(s: Coord, c: Coord, m: Coord, members: set<Id>, shared: set<Id>, deadline: int)
    requires Opened(s, c, members, {}, deadline) && OnlySlot(c, m, FreeSlot(s.sessions), shared) && shared <= members
    requires Open(m, FreeSlot(s.sessions), members, shared, deadline)
    ensures Opened(s, m, members, shared, deadline)
  {
    SameButTrans(s, c, m, members, shared);
    assert members + shared == members;
  }

  lemma HelpersShare(s: Coord, c: Coord, p: Setting, members: set<Id>, helpers: set<Id>, deadline: int, now: int)
      returns (m: Coord)
    requires Base(c, p) && Gathered(c, {}) && helpers <= members && |helpers| == p.t - 1
    requires Opened(s, c, members, {}, deadline)
    ensures Leads(c, m, p.faulty) && Base(m, p) && Gathered(m, {}) && Opened(s, m, members, helpers, deadline)
  {
    m := ShareAll(c, p, FreeSlot(s.sessions), members, {}, deadline, helpers, now);
    assert {} + helpers == helpers;
    OpenedThenShared(s, c, m, members, helpers, deadline);
  }

  /** The same, and then everyone but `cur` sends its share. */
  lemma OpenAndShare(s: Coord, p: Setting, pool: set<Id>, done: set<Id>, cur: Id, now: int)
      returns (m: Coord, helpers: set<Id>)
    requires Ready(s, p, pool, done, cur)
    ensures Leads(s, m, p.faulty) && Base(m, p) && Gathered(m, {}) && done <= helpers <= pool && |helpers| == p.t - 1
    ensures Opened(s, m, helpers + {cur}, helpers, now + SESSION_TIMEOUT)
  {
    var s1;
    s1, helpers := OpenWith(s, p, pool, done, cur, now);
    m := HelpersShare(s, s1, p, helpers + {cur}, helpers, now + SESSION_TIMEOUT, now);
    LeadsOn(s, s1, m, p.faulty);
  }

  // ---------------------------------------------------------------- registration

  /** The signers 1..k have registered and are asked for commitments. */
  ghost predicate Registered(s: Coord, p: Setting, k: nat) {
    Base(s, p) && Gathered(s, {}) && AllAsked(s, Upto(k)) && Fresh(s, k)
  }

  /** No session yet, nobody struck or blacklisted, no id above `k`. */
  predicate Fresh(s: Coord, k: nat) {
    && FreeSlot(s.sessions) == 0 && s.blacklist == [] && (forall i :: 0 <= i < |s.strikes| ==> s.strikes[i] == 0)
    && forall i :: 0 <= i < |s.signers| ==> s.signers[i].id <= k
  }

  lemma NewcomerGathers(s: Coord, id: Id, done: set<Id>)
    requires Gathered(s, done) && !Connected(s.signers, id) && id !in done
    ensures Gathered(Register(s, id), done)
  {
    var r := Register(s, id);
    assert forall i :: 0 < i < |r.signers| ==> r.signers[i] == s.signers[i - 1];
    forall x ensures SelectableId(x, r) <==> x in done {
      NewcomerEligible(s, r, x, false);
      NewcomerEligible(s, r, x, true);
    }
    forall i | 0 <= i < |r.signers| && r.signers[i].id in done ensures |r.signers[i].commit| == 1 {
      assert i > 0;
    }
  }

  lemma NewcomerEligible(s: Coord, r: Coord, x: Id, suspect: bool)
    requires r.blacklist == s.blacklist && r.strikes == s.strikes
    requires |r.signers| == |s.signers| + 1 && r.signers[0].commit == [] && forall i :: 0 < i < |r.signers| ==>
      r.signers[i] == s.signers[i - 1]
    ensures EligibleId(x, r.signers, r.blacklist, r.strikes, suspect) <==>
            EligibleId(x, s.signers, s.blacklist, s.strikes, suspect)
  {
    if i :| 0 <= i < |s.signers| && s.signers[i].id == x && Eligible(s.signers[i], s.blacklist, s.strikes, suspect) {
      assert r.signers[i + 1] == s.signers[i];
    }
    if i :| 0 <= i < |r.signers| && r.signers[i].id == x && Eligible(r.signers[i], r.blacklist, r.strikes, suspect) {
      assert s.signers[i - 1] == r.signers[i];
    }
  }

  /** A newcomer is asked, and so is everyone asked before. */
  lemma NewcomerAsked(s: Coord, id: Id, ids: set<Id>)
    requires id !in s.blacklist && AllAsked(s, ids)
    ensures AllAsked(Register(s, id), ids + {id})
  {
    var r := Register(s, id);
    forall x | x in ids + {id} ensures Asked(r, x) {
      if x == id {
        assert r.signers[0].id == x && WaitsForCommit(r.signers[0]);
      } else {
        var i :| 0 <= i < |s.signers| && s.signers[i].id == x && WaitsForCommit(s.signers[i]);
        assert r.signers[i + 1] == s.signers[i];
      }
    }
  }

  lemma HelloIs(s: Coord, p: Setting, id: Id)
    requires Base(s, p) && 1 <= id <= p.n && !Connected(s.signers, id)
    ensures var e := Hello(id, p.n, p.t, true);
            Step(s, e) == Register(s, id) && PromptStep(s, e, p.faulty) && Base(Register(s, id), p)
  {
    HelloKeeps(s, id, p.n, p.t, true);
  }

  /** A signer that is not connected joins. */
  lemma Joins(s: Coord, p: Setting, id: Id, done: set<Id>, ids: set<Id>) returns (r: Coord)
    requires Base(s, p) && 1 <= id <= p.n && !Connected(s.signers, id) && id !in s.blacklist && id !in done
    requires Gathered(s, done) && AllAsked(s, ids)
    ensures r == Register(s, id) && Leads(s, r, p.faulty) && Base(r, p) && Gathered(r, done) && AllAsked(r, ids + {id})
  {
    HelloIs(s, p, id);
    LeadsOne(s, Hello(id, p.n, p.t, true), p.faulty);
    NewcomerGathers(s, id, done);
    NewcomerAsked(s, id, ids);
    r := Register(s, id);
  }

  lemma NextId(k: nat)
    ensures Upto(k + 1) == Upto(k) + {k + 1}
  {
  }

  lemma NotYet(s: Coord, k: nat)
    requires Fresh(s, k)
    ensures !Connected(s.signers, k + 1) && k + 1 !in s.blacklist
  {
  }

  lemma FreshJoins(s: Coord, k: nat)
    requires Fresh(s, k)
    ensures Fresh(Register(s, k + 1), k + 1)
  {
  }

  lemma RegisterOne(s: Coord, p: Setting, k: nat) returns (r: Coord)
    requires Registered(s, p, k) && k < p.n
    ensures Leads(s, r, p.faulty) && Registered(r, p, k + 1)
  {
    NotYet(s, k);
    r := Joins(s, p, k + 1, {}, Upto(k));
    NextId(k);
    FreshJoins(s, k);
  }

  lemma {:induction false} RegisterAll(p: Setting, k: nat) returns (s: Coord)
    requires SettingOk(p) && k <= p.n
    ensures Leads(Origin(p), s, p.faulty) && Registered(s, p, k)
  {
    var s0 := Origin(p);
    if k == 0 {
      StartIsFine(p.n, p.t, p.tbs, p.serial, p.toMint);
      LeadsSelf(s0, p.faulty);
      assert s0.sessions[0].state.Empty?;
      s := s0;
    } else {
      var s1 := RegisterAll(p, k - 1);
      s := RegisterOne(s1, p, k - 1);
      LeadsOn(s0, s1, s, p.faulty);
    }
  }

  // ---------------------------------------------------------------- reachable states

  /** Reached from the start, with the message still open. */
  ghost predicate Reached(s: Coord, p: Setting) {
    SettingOk(p) && Leads(Origin(p), s, p.faulty) && s.n == p.n && s.t == p.t && s.tbs == p.tbs && !s.done
  }

  lemma ReachedBase(s: Coord, p: Setting)
    requires Reached(s, p)
    ensures Base(s, p) && FaultInv(s, p.faulty)
  {
    var es := LeadsIsRun(Origin(p), s, p.faulty);
    RunPrompt(p.n, p.t, p.tbs, p.serial, p.toMint, es, p.faulty);
  }

  lemma ReachedOn(s: Coord, m: Coord, p: Setting)
    requires Reached(s, p) && Leads(s, m, p.faulty) && Base(m, p)
    ensures Reached(m, p)
  {
    LeadsOn(Origin(p), s, m, p.faulty);
  }
}
