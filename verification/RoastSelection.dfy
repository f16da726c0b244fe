/** The two-pass choice of session members: complete, optimal, never blocked by the deferral test. */
module RoastSelection {
  import opened Bundles
  import opened Counting
  import opened Roast
  import opened RoastInvariant

  predicate UniqueIds(l: seq<Signer>) {
    forall i, j :: 0 <= i < j < |l| ==> l[i].id != l[j].id
  }

  function EligibleIds(l: seq<Signer>, bl: seq<Id>, strikes: seq<nat>, suspect: bool): set<Id> {
    if l == [] then {}
    else EligibleIds(l[1..], bl, strikes, suspect) + if Eligible(l[0], bl, strikes, suspect) then {l[0].id} else {}
  }

  function Reliables(s: Coord): set<Id> {
    EligibleIds(s.signers, s.blacklist, s.strikes, false)
  }

  function Suspects(s: Coord): set<Id> {
    EligibleIds(s.signers, s.blacklist, s.strikes, true)
  }

  lemma {:induction false} EligibleIdsIs(l: seq<Signer>, bl: seq<Id>, strikes: seq<nat>, suspect: bool, id: Id)
    ensures id in EligibleIds(l, bl, strikes, suspect) <==> EligibleId(id, l, bl, strikes, suspect)
  {
    if l != [] {
      EligibleIdsIs(l[1..], bl, strikes, suspect, id);
      if EligibleId(id, l[1..], bl, strikes, suspect) {
        EligibleInTail(id, l, bl, strikes, suspect);
      }
      if i :| 0 <= i < |l| && l[i].id == id && Eligible(l[i], bl, strikes, suspect) {
        assert i > 0 ==> l[1..][i - 1] == l[i];
      }
    }
  }

  lemma {:induction false} PickCount(l: seq<Signer>, bl: seq<Id>, strikes: seq<nat>, suspect: bool, limit: nat)
    requires UniqueIds(l)
    ensures var all := |EligibleIds(l, bl, strikes, suspect)|;
            |Pick(l, bl, strikes, suspect, limit)| == if all < limit then all else limit
  {
    if l != [] {
      var first := Eligible(l[0], bl, strikes, suspect);
      EligibleIdsIs(l[1..], bl, strikes, suspect, l[0].id);
      PickCount(l[1..], bl, strikes, suspect, if first && limit > 0 then limit - 1 else limit);
    }
  }

  lemma KindsDisjoint(s: Coord)
    requires UniqueIds(s.signers)
    ensures Reliables(s) !! Suspects(s)
  {
    forall id | id in Reliables(s) ensures id !in Suspects(s) {
      EligibleIdsIs(s.signers, s.blacklist, s.strikes, false, id);
      EligibleIdsIs(s.signers, s.blacklist, s.strikes, true, id);
    }
  }

  /** t members are found exactly when t signers are eligible. */
  lemma SelectsWheneverPossible(s: Coord)
    requires SignersOk(s) && s.t >= 0
    ensures |Select(s)| == s.t <==> |Reliables(s) + Suspects(s)| >= s.t
    ensures forall id :: id in Select(s) ==> id in Reliables(s) + Suspects(s)
  {
    var p1 := Pick(s.signers, s.blacklist, s.strikes, false, s.t);
    PickCount(s.signers, s.blacklist, s.strikes, false, s.t);
    PickCount(s.signers, s.blacklist, s.strikes, true, s.t - |p1|);
    KindsDisjoint(s);
    assert |Reliables(s) + Suspects(s)| == |Reliables(s)| + |Suspects(s)|;
    SelectIs(s);
    forall id | id in Select(s) ensures id in Reliables(s) + Suspects(s) {
      EligibleIdsIs(s.signers, s.blacklist, s.strikes, false, id);
      EligibleIdsIs(s.signers, s.blacklist, s.strikes, true, id);
    }
  }

  /** No eligible set of t signers contains fewer suspects than the chosen one. */
  lemma ChoosesFewestSuspects(s: Coord, other: set<Id>)
    requires SignersOk(s) && s.t >= 0 && |Select(s)| == s.t
    requires other <= Reliables(s) + Suspects(s) && |other| == s.t
    ensures |(set id | id in Select(s)) * Suspects(s)| <= |other * Suspects(s)|
  {
    var p1 := Pick(s.signers, s.blacklist, s.strikes, false, s.t);
    var p2 := Pick(s.signers, s.blacklist, s.strikes, true, s.t - |p1|);
    PickCount(s.signers, s.blacklist, s.strikes, false, s.t);
    KindsDisjoint(s);
    PickIs(s.signers, s.blacklist, s.strikes, false, s.t);
    PickIs(s.signers, s.blacklist, s.strikes, true, s.t - |p1|);
    var chosen := (set id | id in Select(s)) * Suspects(s);
    forall id | id in chosen ensures id in (set x | x in p2) {
      if id in p1 {
        EligibleIdsIs(s.signers, s.blacklist, s.strikes, false, id);
      }
    }
    DistinctCard(p2);
    CardMonotone(chosen, (set x | x in p2));
    assert other == other * Reliables(s) + other * Suspects(s);
    CardMonotone(other * Reliables(s), Reliables(s));
  }

  lemma {:induction false} VisitedIs(l: seq<Signer>, bl: seq<Id>, strikes: seq<nat>, limit: nat)
    ensures Visited(l, bl, strikes, limit) <= |l|
    ensures |Pick(l, bl, strikes, false, limit)| < limit ==> Visited(l, bl, strikes, limit) == |l|
    ensures |Pick(l, bl, strikes, false, limit)| <= Visited(l, bl, strikes, limit)
  {
    if l != [] && limit != 0 {
      VisitedIs(l[1..], bl, strikes, if Eligible(l[0], bl, strikes, false) then limit - 1 else limit);
    }
  }

  lemma ChosenFitList(s: Coord)
    requires SignersOk(s) && s.t >= 0
    ensures |Select(s)| <= |s.signers|
  {
    SelectIs(s);
    var ids := seq(|s.signers|, i requires 0 <= i < |s.signers| => s.signers[i].id);
    DistinctCard(ids);
    DistinctCard(Select(s));
    forall id | id in Select(s) ensures id in ids {
      assert SelectableId(id, s);
      var i :| 0 <= i < |s.signers| && s.signers[i].id == id;
      assert ids[i] == id;
    }
    CardMonotone((set id | id in Select(s)), (set id | id in ids));
  }

  /** The `num_signers` test never defers a session that could be formed. */
  lemma DeferralNeverBlocks(s: Coord)
    requires SignersOk(s) && s.t >= 0 && |Select(s)| >= s.t
    ensures Visited(s.signers, s.blacklist, s.strikes, s.t) >= s.t
  {
    VisitedIs(s.signers, s.blacklist, s.strikes, s.t);
    ChosenFitList(s);
  }

  lemma BundleIsWellFormed(s: Coord)
    requires SignersOk(s) && |s.tbs| <= MAX_PAYLOAD && SizesOk(s.n, s.t)
    ensures WellFormed(BundleFor(s, Select(s)))
  {
    SelectIs(s);
    var b := BundleFor(s, Select(s));
    forall c | 0 <= c < |b.entries| ensures EntryShape(b.entries[c]) && |b.entries[c].commit| <= COMMIT_ENTRY_MAX {
      var id := Select(s)[c];
      assert SelectableId(id, s);
      var i :| 0 <= i < |s.signers| && s.signers[i].id == id && s.signers[i].commit != [];
      IndexOfIs(s.signers, i);
    }
  }

  /**
   A session starts exactly when a message is open, enough signers are eligible, a slot is
   free, the package was assembled and the bundle fits in one frame; otherwise nothing changes.
   */
  lemma FormsExactlyWhen(s: Coord, now: int, assembled: bool)
    requires Inv(s) && SizesOk(s.n, s.t) && |s.tbs| <= MAX_PAYLOAD
    ensures var formed := !s.done && |Reliables(s) + Suspects(s)| >= s.t && FreeSlot(s.sessions) < MAX_SESSIONS
                          && assembled && PackedLen(BundleFor(s, Select(s))) <= MAX_PAYLOAD;
            var r := TryForm(s, now, assembled);
            && (formed ==> r.nextSid == s.nextSid + 1)
            && (!formed ==> r == s)
  {
    SelectsWheneverPossible(s);
    SelectIs(s);
    BundleIsWellFormed(s);
    if |Select(s)| >= s.t {
      DeferralNeverBlocks(s);
    }
  }
}
