/**
 The fault model with honest signers that answer in time: when a session times out, every honest
 signer has a commitment or a share stored for the last request it was sent. Under it no t
 commitments ever lie idle, so the coordinator always has a session to wait for, and with
 (f + 1) t <= n no session ever times out.
 */
module RoastPrompt {
  import opened Octets
  import opened Bundles
  import opened Counting
  import opened Roast
  import opened RoastInvariant
  import opened RoastSelection
  import opened RoastMinting
  import opened RoastCoherence
  import opened RoastTermination

  // ---------------------------------------------------------------- the model

  /** A bundle of t commitments of `c` bytes and a message of `m` bytes fits one frame. */
  predicate Fits(t: int, c: int, m: int) {
    4 + m + t * (4 + c + SIG_SIZE) <= MAX_PAYLOAD
  }

  predicate CommitStored(sg: Signer, id: Id) {
    sg.id == id && sg.phase.Committed? && sg.commit != []
  }

  predicate ShareStored(s: Coord, k: int, id: Id) {
    Active(s, k) && Cooperated(s.sessions[k], id)
  }

  /** The last request to this signer is answered: its commitment is stored, or its share. */
  ghost predicate Answered(s: Coord, id: Id) {
    || (exists i :: 0 <= i < |s.signers| && CommitStored(s.signers[i], id))
    || (exists k :: ShareStored(s, k, id))
  }

  ghost predicate HonestAnswered(s: Coord, faulty: set<Id>) {
    forall id {:trigger Answered(s, id)} :: 1 <= id <= s.n && id !in faulty ==> Answered(s, id)
  }

  predicate Due(s: Coord, now: int) {
    exists k :: 0 <= k < |s.sessions| && Expired(s.sessions[k], now)
  }

  /** `assemble` works and bundles fit; no session times out before the honest signers have answered. */
  ghost predicate PromptStep(s: Coord, e: Event, faulty: set<Id>) {
    && FaultStep(s, e, faulty)
    && (e.Commit? ==> e.assembled && Fits(s.t, |e.payload|, |s.tbs|))
    && (e.Share? ==> e.assembled)
    && (e.Tick? ==> forall k :: 0 <= k < MAX_SESSIONS ==> k in e.assembledAfter)
    && (e.Tick? && !s.done && Due(s, e.now) ==> HonestAnswered(s, faulty))
  }

  ghost predicate PromptRun(s: Coord, es: seq<Event>, faulty: set<Id>) {
    forall i :: 0 <= i < |es| ==> PromptStep(Run(s, es[..i]), es[i], faulty)
  }

  lemma PromptRunPrefix(s: Coord, es: seq<Event>, faulty: set<Id>)
    requires es != [] && PromptRun(s, es, faulty)
    ensures PromptRun(s, es[..|es| - 1], faulty) && PromptStep(Run(s, es[..|es| - 1]), es[|es| - 1], faulty)
  {
    var init := es[..|es| - 1];
    forall i | 0 <= i < |init| ensures PromptStep(Run(s, init[..i]), init[i], faulty) {
      assert init[..i] == es[..i];
    }
  }

  lemma PromptIsFault(s: Coord, es: seq<Event>, faulty: set<Id>)
    requires PromptRun(s, es, faulty)
    ensures FaultRun(s, es, faulty)
  {
  }

  // ---------------------------------------------------------------- nobody is left waiting

  /** The signers that could be chosen now. */
  function Candidates(s: Coord): set<Id> {
    Reliables(s) + Suspects(s)
  }

  predicate EligibleEither(sg: Signer, bl: seq<Id>, strikes: seq<nat>) {
    Eligible(sg, bl, strikes, false) || Eligible(sg, bl, strikes, true)
  }

  predicate Offers(s: Coord, id: Id, c: Bytes) {
    exists i :: 0 <= i < |s.signers| && s.signers[i].id == id && s.signers[i].commit == c
             && EligibleEither(s.signers[i], s.blacklist, s.strikes)
  }

  lemma CandidateOffers(s: Coord, id: Id)
    ensures id in Candidates(s) <==> exists c :: Offers(s, id, c)
    ensures id in Candidates(s) <==> SelectableId(id, s)
  {
    EligibleIdsIs(s.signers, s.blacklist, s.strikes, false, id);
    EligibleIdsIs(s.signers, s.blacklist, s.strikes, true, id);
    if i :| 0 <= i < |s.signers| && s.signers[i].id == id && EligibleEither(s.signers[i], s.blacklist, s.strikes) {
      assert Offers(s, id, s.signers[i].commit);
    }
  }

  ghost predicate OffersFit(s: Coord) {
    forall id, c :: Offers(s, id, c) ==> Fits(s.t, |c|, |s.tbs|)
  }

  /** While a slot is free, fewer than t commitments lie idle. */
  ghost predicate Greedy(s: Coord) {
    !s.done ==>
      && NoneComplete(s.sessions) && OffersFit(s)
      && (FreeSlot(s.sessions) < MAX_SESSIONS ==> |Candidates(s)| < s.t)
  }

  /** Nobody new can be chosen. */
  ghost predicate Shrinks(s: Coord, r: Coord) {
    forall id, c :: Offers(r, id, c) ==> Offers(s, id, c)
  }

  lemma ShrinkSubset(s: Coord, r: Coord)
    requires Shrinks(s, r)
    ensures Candidates(r) <= Candidates(s) && |Candidates(r)| <= |Candidates(s)|
  {
    forall id | id in Candidates(r) ensures id in Candidates(s) {
      CandidateOffers(r, id);
      CandidateOffers(s, id);
    }
    CardMonotone(Candidates(r), Candidates(s));
  }

  lemma ShrinkGreedy(s: Coord, r: Coord)
    requires Greedy(s) && Shrinks(s, r) && r.t == s.t && r.tbs == s.tbs && (s.done ==> r.done)
    requires r.done || (NoneComplete(r.sessions) && FreeSlot(s.sessions) <= FreeSlot(r.sessions))
    ensures Greedy(r)
  {
    ShrinkSubset(s, r);
  }

  /** The signer at each place of `r` stands in `s` too, or cannot be chosen. */
  lemma PlaceShrinks(s: Coord, r: Coord)
    requires r.blacklist == s.blacklist && r.strikes == s.strikes
    requires forall i :: 0 <= i < |r.signers| ==>
      !EligibleEither(r.signers[i], r.blacklist, r.strikes) || exists j ::
        0 <= j < |s.signers| && s.signers[j] == r.signers[i]
    ensures Shrinks(s, r)
  {
    forall id, c | Offers(r, id, c) ensures Offers(s, id, c) {
      var i :| 0 <= i < |r.signers| && r.signers[i].id == id && r.signers[i].commit == c
            && EligibleEither(r.signers[i], r.blacklist, r.strikes);
      var j :| 0 <= j < |s.signers| && s.signers[j] == r.signers[i];
    }
  }

  // ---------------------------------------------------------------- forming

  lemma TooFewToForm(s: Coord, now: int, assembled: bool)
    requires SignersOk(s) && s.t >= 0 && |Candidates(s)| < s.t
    ensures MaybeForm(s, now, assembled) == s
  {
    SelectsWheneverPossible(s);
    SelectIs(s);
  }

  lemma Spread(t: int, a: int, b: int)
    ensures t * (a + b) == t * a + t * b
  {
  }

  /** Entries of which t times each fits the room take, together, at most their share of it. */
  lemma {:induction false} EntriesFit(es: seq<Entry>, t: nat, room: int)
    requires forall i :: 0 <= i < |es| ==> t * (4 + |es[i].commit| + SIG_SIZE) <= room
    ensures t * EntriesLen(es) <= |es| * room
  {
    if es != [] {
      var first, rest := 4 + |es[0].commit| + SIG_SIZE, es[1..];
      EntriesFit(rest, t, room);
      Spread(t, first, EntriesLen(rest));
      Spread(room, 1, |rest|);
    }
  }

  lemma Cancel(t: int, a: int, b: int)
    requires t >= 1 && t * a <= t * b
    ensures a <= b
  {
  }

  lemma ChosenOffers(s: Coord, c: nat)
    requires SignersOk(s) && c < |Select(s)|
    ensures Offers(s, Select(s)[c], EntryFor(s.signers, Select(s)[c]).commit)
  {
    SelectIs(s);
    assert SelectableId(Select(s)[c], s);
    var i :| 0 <= i < |s.signers| && s.signers[i].id == Select(s)[c] &&
      EligibleEither(s.signers[i], s.blacklist, s.strikes);
    IndexOfIs(s.signers, i);
  }

  lemma ChosenFit(s: Coord)
    requires SignersOk(s) && SizesOk(s.n, s.t) && OffersFit(s) && |Select(s)| == s.t
    ensures PackedLen(BundleFor(s, Select(s))) <= MAX_PAYLOAD
  {
    var b, room := BundleFor(s, Select(s)), MAX_PAYLOAD - 4 - |s.tbs|;
    forall c | 0 <= c < |b.entries| ensures s.t * (4 + |b.entries[c].commit| + SIG_SIZE) <= room {
      ChosenOffers(s, c);
    }
    EntriesFit(b.entries, s.t, room);
    Cancel(s.t, EntriesLen(b.entries), room);
  }

  lemma MessageFits(s: Coord)
    requires SignersOk(s) && SizesOk(s.n, s.t) && OffersFit(s) && |Select(s)| == s.t
    ensures |s.tbs| <= MAX_PAYLOAD
  {
    ChosenFit(s);
  }

  lemma {:induction false} ActiveAtMost(ss: seq<Session>)
    ensures ActiveCount(ss) <= |ss|
    ensures FreeSlot(ss) < |ss| ==> ActiveCount(ss) < |ss|
  {
    if ss != [] {
      var init := ss[..|ss| - 1];
      ActiveAtMost(init);
      if FreeSlot(ss) < |ss| - 1 {
        assert init[FreeSlot(ss)].state.Empty?;
      }
    }
  }

  /** With a free slot and t candidates a session forms, of the candidates alone. */
  lemma EnoughToForm(s: Coord, now: int)
    requires Inv(s) && SizesOk(s.n, s.t) && OffersFit(s) && !s.done && |Candidates(s)| >= s.t &&
             FreeSlot(s.sessions) < MAX_SESSIONS
    ensures MaybeForm(s, now, true) == Form(s, Select(s), BundleFor(s, Select(s)), FreeSlot(s.sessions), now)
    ensures |Select(s)| == s.t && (set id | id in Select(s)) <= Candidates(s)
  {
    SelectsWheneverPossible(s);
    ChosenFit(s);
    MessageFits(s);
    BundleIsWellFormed(s);
    DeferralNeverBlocks(s);
    ActiveAtMost(s.sessions);
  }

  /** The chosen can no longer be chosen. */
  lemma FormedCandidates(s: Coord, chosen: seq<Id>, b: Bundle, k: nat, now: int)
    requires k < |s.sessions|
    ensures Shrinks(s, Form(s, chosen, b, k, now))
    ensures forall id :: id in Candidates(Form(s, chosen, b, k, now)) ==> id in Candidates(s) && id !in chosen
  {
    var r := Form(s, chosen, b, k, now);
    PlaceShrinks(s, r);
    ShrinkSubset(s, r);
    forall id | id in Candidates(r) ensures id !in chosen {
      CandidateOffers(r, id);
    }
  }

  lemma NobodyLeft(s: Coord, r: Coord, chosen: seq<Id>)
    requires (set id | id in chosen) == Candidates(s) && forall id :: id in Candidates(r) ==>
      id in Candidates(s) && id !in chosen
    ensures Candidates(r) == {}
  {
    forall id ensures id !in Candidates(r) {
      assert id in Candidates(s) <==> id in (set x | x in chosen);
    }
  }

  lemma FormedGreedy(s: Coord, chosen: seq<Id>, b: Bundle, k: nat, now: int)
    requires k < |s.sessions| && OffersFit(s) && s.t >= 1 && NoneComplete(s.sessions) &&
             (set id | id in chosen) == Candidates(s)
    ensures Greedy(Form(s, chosen, b, k, now))
  {
    var r := Form(s, chosen, b, k, now);
    FormedCandidates(s, chosen, b, k, now);
    NobodyLeft(s, r, chosen);
  }

  /** Exactly t candidates: they form a session, and none is left. */
  lemma AllForm(s: Coord, now: int)
    requires Inv(s) && SizesOk(s.n, s.t) && OffersFit(s) && !s.done && |Candidates(s)| == s.t &&
             FreeSlot(s.sessions) < MAX_SESSIONS
    requires NoneComplete(s.sessions)
    ensures Greedy(MaybeForm(s, now, true))
  {
    var chosen := Select(s);
    EnoughToForm(s, now);
    SelectIs(s);
    DistinctCard(chosen);
    SubsetAll((set id | id in chosen), Candidates(s));
    FormedGreedy(s, chosen, BundleFor(s, chosen), FreeSlot(s.sessions), now);
  }

  /** After one more commitment: either still too few, or exactly t, and then they form a session. */
  lemma MaybeFormGreedy(s: Coord, now: int)
    requires Inv(s) && SizesOk(s.n, s.t)
    requires !s.done ==>
      NoneComplete(s.sessions) && OffersFit(s) && (FreeSlot(s.sessions) < MAX_SESSIONS ==> |Candidates(s)| <= s.t)
    ensures Greedy(MaybeForm(s, now, true))
  {
    if !s.done {
      if FreeSlot(s.sessions) == MAX_SESSIONS {
        assert !Formable(s, true);
      } else if |Candidates(s)| < s.t {
        TooFewToForm(s, now, true);
      } else {
        AllForm(s, now);
      }
    }
  }

  // ---------------------------------------------------------------- every step

  ghost predicate PromptInv(s: Coord, n: int, t: int, faulty: set<Id>) {
    FaultInv(s, faulty) && s.n == n && s.t == t && SizesOk(n, t) && Greedy(s)
  }

  /** One more commitment adds its signer to those that can be chosen, and nobody else. */
  lemma StoreCommitOffers(s: Coord, k: nat, payload: Bytes, sig: Bytes, id: Id, c: Bytes)
    requires k < |s.signers| && Offers(StoreCommit(s, k, payload, sig), id, c)
    ensures Offers(s, id, c) || (id == s.signers[k].id && c == payload)
  {
    var m := StoreCommit(s, k, payload, sig);
    var i :| 0 <= i < |m.signers| && m.signers[i].id == id && m.signers[i].commit == c
          && EligibleEither(m.signers[i], m.blacklist, m.strikes);
    assert i != k ==> m.signers[i] == s.signers[i];
  }

  lemma StoreCommitCandidates(s: Coord, k: nat, payload: Bytes, sig: Bytes)
    requires k < |s.signers|
    ensures |Candidates(StoreCommit(s, k, payload, sig))| <= |Candidates(s)| + 1
  {
    var m := StoreCommit(s, k, payload, sig);
    forall id | id in Candidates(m) ensures id in Candidates(s) + {s.signers[k].id} {
      CandidateOffers(m, id);
      var c :| Offers(m, id, c);
      StoreCommitOffers(s, k, payload, sig, id, c);
      CandidateOffers(s, id);
    }
    CardMonotone(Candidates(m), Candidates(s) + {s.signers[k].id});
  }

  lemma StoreCommitFits(s: Coord, k: nat, payload: Bytes, sig: Bytes)
    requires k < |s.signers| && OffersFit(s) && Fits(s.t, |payload|, |s.tbs|)
    ensures OffersFit(StoreCommit(s, k, payload, sig))
  {
    var m := StoreCommit(s, k, payload, sig);
    forall id, c | Offers(m, id, c) ensures Fits(m.t, |c|, |m.tbs|) {
      StoreCommitOffers(s, k, payload, sig, id, c);
    }
  }

  lemma CommitGreedy(s: Coord, e: Event)
    requires Inv(s) && SizesOk(s.n, s.t) && Greedy(s) && e.Commit? && e.assembled && Fits(s.t, |e.payload|, |s.tbs|)
    ensures Greedy(Step(s, e))
  {
    if CommitAccepted(s, e.id, e.payload, e.sig) {
      var k := IndexOf(s.signers, e.id);
      StoreCommitKeeps(s, e.id, e.payload, e.sig);
      StoreCommitCandidates(s, k, e.payload, e.sig);
      if !s.done {
        StoreCommitFits(s, k, e.payload, e.sig);
      }
      MaybeFormGreedy(StoreCommit(s, k, e.payload, e.sig), e.now);
    }
  }

  lemma StoreShareShrinks(s: Coord, id: Id, payload: Bytes)
    requires Routable(s, id)
    ensures Shrinks(s, StoreShare(s, id, payload))
  {
    var r, k := StoreShare(s, id, payload), IndexOf(s.signers, id);
    forall i | 0 <= i < |r.signers|
      ensures !EligibleEither(r.signers[i], r.blacklist, r.strikes) || exists j ::
        0 <= j < |s.signers| && s.signers[j] == r.signers[i]
    {
      assert i != k ==> s.signers[i] == r.signers[i];
    }
    PlaceShrinks(s, r);
  }

  lemma DropCulpritShrinks(s: Coord, k: nat, c: Id)
    requires k < |s.sessions| && GoodBlacklist(s.blacklist) && 1 <= c <= MAX_SIGNERS
    ensures Shrinks(s, DropCulprit(s, k, c))
  {
    var r := DropCulprit(s, k, c);
    AddBlacklistIs(s.blacklist, c);
    forall id, x | Offers(r, id, x) ensures Offers(s, id, x) {
      var i :| 0 <= i < |r.signers| && r.signers[i].id == id && r.signers[i].commit == x
            && EligibleEither(r.signers[i], r.blacklist, r.strikes);
      assert r.signers[i] == s.signers[i];
    }
  }

  lemma ExpirePlace(s: Coord, k: nat, i: nat)
    requires Inv(s) && k < |s.sessions| && s.sessions[k].state.Awaiting? && i < |s.signers|
    requires var r := Expire(s, k); EligibleEither(r.signers[i], r.blacklist, r.strikes)
    ensures var r := Expire(s, k); r.signers[i] == s.signers[i] && EligibleEither(s.signers[i], s.blacklist, s.strikes)
  {
    var r, sess := Expire(s, k), s.sessions[k];
    assert SessionOk(sess, s.n, s.t);
    BlacklistStruckOutIs(s.blacklist, sess.members, sess, s.signers, r.strikes);
    assert r.signers[i] == AfterExpiry(s.signers[i], sess, r.strikes, s.tbs);
    assert Strikes(r.strikes, s.signers[i].id) == Strikes(s.strikes, s.signers[i].id);
  }

  lemma ExpireShrinks(s: Coord, k: nat)
    requires Inv(s) && k < |s.sessions| && s.sessions[k].state.Awaiting?
    ensures Shrinks(s, Expire(s, k))
  {
    var r := Expire(s, k);
    forall id, x | Offers(r, id, x) ensures Offers(s, id, x) {
      var i :| 0 <= i < |r.signers| && r.signers[i].id == id && r.signers[i].commit == x
            && EligibleEither(r.signers[i], r.blacklist, r.strikes);
      ExpirePlace(s, k, i);
    }
  }

  lemma CloseSlot(ss: seq<Session>, k: nat, x: Session)
    requires k < |ss| && !ss[k].state.Empty? && !x.state.Empty?
    ensures FreeSlot(ss[k := x]) == FreeSlot(ss)
  {
    var f, r := FreeSlot(ss), ss[k := x];
    assert f < |ss| ==> r[f].state.Empty?;
  }

  lemma AggregateGreedy(s: Coord, k: nat, v: Verdict, now: int, faulty: set<Id>)
    requires StoredFair(s, k, faulty) && SizesOk(s.n, s.t) && Greedy(s)
    requires v.Good? || (v.Culprit? && v.culprit in faulty && v.culprit in s.sessions[k].members)
    ensures Greedy(Aggregate(s, k, v, now, true))
  {
    if s.sessions[k].nShares >= s.t && !s.done && v.Culprit? {
      assert SessionOk(s.sessions[k], s.n, s.t);
      var m := DropCulprit(s, k, v.culprit);
      CulpritFault(s, k, v.culprit, faulty);
      CulpritGreedy(s, k, v.culprit);
      NothingToForm(m, now);
      FlagGreedy(m, FailCulprit(s, k, v.culprit, now, true));
    }
  }

  lemma CulpritGreedy(s: Coord, k: nat, c: Id)
    requires GoodBlacklist(s.blacklist) && k < |s.sessions| && s.sessions[k].state.Awaiting? && 1 <= c <= MAX_SIGNERS &&
             Greedy(s)
    ensures Greedy(DropCulprit(s, k, c))
  {
    var m := DropCulprit(s, k, c);
    DropCulpritShrinks(s, k, c);
    CloseSlot(s.sessions, k, m.sessions[k]);
    ShrinkGreedy(s, m);
  }

  /** Whoever is left cannot form a session. */
  lemma NothingToForm(m: Coord, now: int)
    requires SignersOk(m) && m.t >= 0 && Greedy(m) && |m.sessions| == MAX_SESSIONS
    ensures MaybeForm(m, now, true) == m
  {
    if !m.done {
      if FreeSlot(m.sessions) < MAX_SESSIONS {
        TooFewToForm(m, now, true);
      } else {
        assert !Formable(m, true);
      }
    }
  }

  lemma FlagGreedy(s: Coord, r: Coord)
    requires Greedy(s) && r == s.(roastFail := r.roastFail)
    ensures Greedy(r)
  {
    PlaceShrinks(s, r);
    ShrinkGreedy(s, r);
  }

  lemma ShareGreedy(s: Coord, e: Event, faulty: set<Id>)
    requires e.Share? && FaultInv(s, faulty) && SizesOk(s.n, s.t) && Greedy(s) && FairVerdict(s, e, faulty) &&
             e.assembled
    ensures Greedy(Step(s, e))
  {
    if |e.payload| <= MAX_PAYLOAD && Routable(s, e.id) {
      var m := StoreShare(s, e.id, e.payload);
      var k := FindSession(s.sessions, s.signers[IndexOf(s.signers, e.id)].sessionId);
      ShareFair(s, e.id, e.payload, faulty);
      StoreShareGreedy(s, e.id, e.payload);
      AggregateGreedy(m, k, e.verdict, e.now, faulty);
    }
  }

  lemma StoreShareGreedy(s: Coord, id: Id, payload: Bytes)
    requires Routable(s, id) && Greedy(s)
    ensures Greedy(StoreShare(s, id, payload))
  {
    var m, k := StoreShare(s, id, payload), FindSession(s.sessions, s.signers[IndexOf(s.signers, id)].sessionId);
    StoreShareShrinks(s, id, payload);
    CloseSlot(s.sessions, k, m.sessions[k]);
    ShrinkGreedy(s, m);
  }

  lemma SlotGreedy(s: Coord, k: nat, now: int)
    requires Inv(s) && !s.done && Greedy(s) && SizesOk(s.n, s.t) && k < |s.sessions|
    ensures Greedy(SweepSlot(s, k, now, true))
  {
    if Expired(s.sessions[k], now) {
      var m := Expire(s, k);
      ExpireKeeps(s, k);
      ExpireShrinks(s, k);
      CloseSlot(s.sessions, k, m.sessions[k]);
      ShrinkGreedy(s, m);
      NothingToForm(m, now);
    }
  }

  /** What the sweep keeps. */
  ghost predicate GreedyOn(m: Coord) {
    Inv(m) && !m.done && Greedy(m) && SizesOk(m.n, m.t)
  }

  lemma SlotGreedyOn(m: Coord, k: nat, now: int)
    requires GreedyOn(m) && k < |m.sessions|
    ensures GreedyOn(SweepSlot(m, k, now, true))
  {
    SlotKeeps(m, k, now, true);
    SlotGreedy(m, k, now);
  }

  lemma SweepGreedy(s: Coord, k: nat, now: int, after: set<int>)
    requires GreedyOn(s) && k <= |s.sessions| && forall j :: 0 <= j < k ==> j in after
    ensures GreedyOn(Sweep(s, k, now, after))
  {
    var inv := (i: nat, m: Coord) => GreedyOn(m);
    forall i: nat, m: Coord | i < k && |m.sessions| == |s.sessions| && inv(i, m)
      ensures inv(i + 1, SweepSlot(m, i, now, i in after))
    {
      SlotGreedyOn(m, i, now);
    }
    SweepInduct(inv, s, k, now, after);
  }

  lemma NextCertGreedy(s: Coord, newTbs: Bytes)
    requires Inv(s) && SizesOk(s.n, s.t) && Greedy(s)
    ensures Greedy(OnNextCert(s, newTbs))
  {
    var r := OnNextCert(s, newTbs);
    if s.done && s.toMint > 0 {
      forall id, c ensures !Offers(r, id, c) {
      }
      forall id ensures id !in Candidates(r) {
        CandidateOffers(r, id);
      }
      assert Candidates(r) == {};
    }
  }

  lemma HelloShrinks(s: Coord, e: Event)
    requires e.Hello?
    ensures var r := Step(s, e); Shrinks(s, r) && r.sessions == s.sessions && r.done == s.done && r.tbs == s.tbs
  {
    var r := Step(s, e);
    forall i | 0 <= i < |r.signers|
      ensures !EligibleEither(r.signers[i], r.blacklist, r.strikes) || exists j ::
        0 <= j < |s.signers| && s.signers[j] == r.signers[i]
    {
      if |r.signers| == |s.signers| {
        assert s.signers[i] == r.signers[i];
      } else if i > 0 {
        assert s.signers[i - 1] == r.signers[i];
      }
    }
    PlaceShrinks(s, r);
  }

  lemma QuitShrinks(s: Coord, e: Event)
    requires e.Disconnect? || e.LoadFail?
    ensures var r := Step(s, e); Shrinks(s, r) && r.sessions == s.sessions && r.done == s.done && r.tbs == s.tbs
  {
    var r, k := Step(s, e), IndexOf(s.signers, e.id);
    forall i | 0 <= i < |r.signers|
      ensures !EligibleEither(r.signers[i], r.blacklist, r.strikes) || exists j ::
        0 <= j < |s.signers| && s.signers[j] == r.signers[i]
    {
      var j := if e.Disconnect? && k <= i then i + 1 else i;
      assert k < |s.signers| && !(e.LoadFail? && i == k) ==> s.signers[j] == r.signers[i];
      assert k >= |s.signers| ==> s.signers[i] == r.signers[i];
    }
    PlaceShrinks(s, r);
  }

  lemma StepGreedy(s: Coord, e: Event, faulty: set<Id>)
    requires FaultInv(s, faulty) && SizesOk(s.n, s.t) && Greedy(s) && PromptStep(s, e, faulty)
    ensures Greedy(Step(s, e))
  {
    if e.Hello? {
      HelloShrinks(s, e);
      ShrinkGreedy(s, Step(s, e));
    } else if e.Disconnect? || e.LoadFail? {
      QuitShrinks(s, e);
      ShrinkGreedy(s, Step(s, e));
    } else if e.Commit? {
      CommitGreedy(s, e);
    } else if e.Share? {
      ShareGreedy(s, e, faulty);
    } else if e.Tick? {
      TickGreedy(s, e);
    } else {
      NextCertGreedy(s, e.newTbs);
    }
  }

  lemma TickGreedy(s: Coord, e: Event)
    requires Inv(s) && SizesOk(s.n, s.t) && Greedy(s) && e.Tick? && forall k :: 0 <= k < MAX_SESSIONS ==>
      k in e.assembledAfter
    ensures Greedy(Step(s, e))
  {
    if !s.done {
      SweepGreedy(s, |s.sessions|, e.now, e.assembledAfter);
    }
  }

  lemma {:induction false} SweepSizes(s: Coord, k: nat, now: int, after: set<int>)
    requires k <= |s.sessions|
    ensures var r := Sweep(s, k, now, after); r.n == s.n && r.t == s.t
  {
    if k != 0 {
      SweepSizes(s, k - 1, now, after);
    }
  }

  lemma StepSizes(s: Coord, e: Event)
    requires s.n != 0
    ensures Step(s, e).n == s.n && Step(s, e).t == s.t
  {
    match e
    case Tick(now, after) => SweepSizes(s, |s.sessions|, now, after);
    case Share(id, payload, verdict, now, assembled) => ShareSizes(s, id, payload, verdict, now, assembled);
    case _ =>
  }

  lemma ShareSizes(s: Coord, id: Id, payload: Bytes, verdict: Verdict, now: int, assembled: bool)
    ensures var r := OnShare(s, id, payload, verdict, now, assembled); r.n == s.n && r.t == s.t
  {
  }

  lemma StartPrompt(n: int, t: int, tbs: Bytes, serial: nat, toMint: nat, faulty: set<Id>)
    requires SizesOk(n, t)
    ensures PromptInv(Start(n, t, tbs, serial, toMint), n, t, faulty)
  {
    var s := Start(n, t, tbs, serial, toMint);
    StartIsFine(n, t, tbs, serial, toMint);
    assert forall k :: !Active(s, k);
    forall id ensures id !in Candidates(s) {
      CandidateOffers(s, id);
    }
    assert Candidates(s) == {};
  }

  lemma {:induction false} RunPrompt(n: int, t: int, tbs: Bytes, serial: nat, toMint: nat, es: seq<Event>,
                                     faulty: set<Id>)
    requires SizesOk(n, t) && PromptRun(Start(n, t, tbs, serial, toMint), es, faulty)
    ensures PromptInv(Run(Start(n, t, tbs, serial, toMint), es), n, t, faulty)
  {
    var s := Start(n, t, tbs, serial, toMint);
    if es == [] {
      StartPrompt(n, t, tbs, serial, toMint, faulty);
    } else {
      PromptRunPrefix(s, es, faulty);
      RunPrompt(n, t, tbs, serial, toMint, es[..|es| - 1], faulty);
      var m, e := Run(s, es[..|es| - 1]), es[|es| - 1];
      EveryFailureIsPaid(m, e, faulty);
      StepGreedy(m, e, faulty);
      StepSizes(m, e);
    }
  }
}
