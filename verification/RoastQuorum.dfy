/**
 When the coordinator gives up: a failed session leaves fewer than t signers that are connected, trusted and have
 a key. Exactly then the flag is raised (a culprit was named) or the message is done (nobody was named).
 */
module RoastQuorum {
  import opened Octets
  import opened Bundles
  import opened Roast
  import opened RoastInvariant
  import opened RoastExclusion
  import opened RoastHistory
  import opened RoastFate

  /** The connected signers that are not blacklisted and have a key. */
  function Usable(s: Coord): set<Id> {
    set i | 0 <= i < |s.signers| && s.signers[i].id !in s.blacklist && !s.signers[i].phase.NoKey? :: s.signers[i].id
  }

  predicate Counts(sg: Signer, bl: seq<Id>) {
    sg.id !in bl && !sg.phase.NoKey?
  }

  function UsableIn(l: seq<Signer>, bl: seq<Id>): set<Id> {
    set i | 0 <= i < |l| && Counts(l[i], bl) :: l[i].id
  }

  lemma LastUsable(l: seq<Signer>, bl: seq<Id>)
    requires l != [] && forall i, j :: 0 <= i < j < |l| ==> l[i].id != l[j].id
    ensures var v, last := UsableIn(l[..|l| - 1], bl), l[|l| - 1];
            last.id !in v && UsableIn(l, bl) == if Counts(last, bl) then v + {last.id} else v
  {
    var init, last := l[..|l| - 1], l[|l| - 1];
    assert l == init + [last];
    forall x ensures x in UsableIn(l, bl) <==> x in UsableIn(init, bl) || (Counts(last, bl) && x == last.id) {
      if x in UsableIn(init, bl) {
        var i :| 0 <= i < |init| && Counts(init[i], bl) && init[i].id == x;
        assert l[i] == init[i];
      }
      if x in UsableIn(l, bl) {
        var i :| 0 <= i < |l| && Counts(l[i], bl) && l[i].id == x;
        assert i < |init| ==> init[i] == l[i];
      }
    }
  }

  /** The counting loop counts these signers. */
  lemma {:induction false} RemainingCounts(l: seq<Signer>, bl: seq<Id>)
    requires forall i, j :: 0 <= i < j < |l| ==> l[i].id != l[j].id
    ensures Remaining(l, bl) == |UsableIn(l, bl)|
  {
    if l != [] {
      var init, last := l[..|l| - 1], l[|l| - 1];
      RemainingCounts(init, bl);
      LastUsable(l, bl);
    }
  }

  lemma RemainingIsUsable(s: Coord)
    requires SignersOk(s)
    ensures Remaining(s.signers, s.blacklist) == |Usable(s)|
  {
    RemainingCounts(s.signers, s.blacklist);
    assert Usable(s) == UsableIn(s.signers, s.blacklist);
  }

  /** The event closes some session. */
  ghost predicate Closes(s: Coord, e: Event) {
    exists k :: ClosesSlot(s, e, k)
  }

  predicate Names(v: Verdict) {
    v.Culprit? && 1 <= v.culprit <= MAX_SIGNERS
  }

  /** Where a share goes that closes a session. */
  lemma ClosingPlace(s: Coord, e: Event) returns (f: nat)
    requires Inv(s) && Closes(s, e)
    ensures e.Share? && Routable(s, e.id) && |e.payload| <= MAX_PAYLOAD && ClosesSlot(s, e, f)
    ensures f == FindSession(s.sessions, s.signers[IndexOf(s.signers, e.id)].sessionId)
  {
    var k :| ClosesSlot(s, e, k);
    BringsIsRouted(s, e, s.sessions[k].id, e.id);
    f := FindSession(s.sessions, s.signers[IndexOf(s.signers, e.id)].sessionId);
    IdsUnique(s, k, f);
  }

  /** What is stored before the coordinator acts on the share. */
  lemma ClosingStored(s: Coord, id: Id, payload: Bytes, f: nat)
    requires Routable(s, id) && f == FindSession(s.sessions, s.signers[IndexOf(s.signers, id)].sessionId)
    ensures var m := StoreShare(s, id, payload);
            && |m.sessions| == |s.sessions| && m.sessions[f].nShares == s.sessions[f].nShares + 1
            && m.sessions[f].members == s.sessions[f].members
            && m == s.(sessions := m.sessions, signers := m.signers)
  {
  }

  /** Where a share goes that closes a session, and what it leads to. */
  lemma ClosingIs(s: Coord, e: Event) returns (f: nat)
    requires Inv(s) && Closes(s, e)
    ensures e.Share? && Routable(s, e.id) && |e.payload| <= MAX_PAYLOAD && ClosesSlot(s, e, f)
    ensures var m := StoreShare(s, e.id, e.payload);
            && SharesStored(m, f) && m.sessions[f].nShares >= m.t && !m.done
            && Step(s, e) == Aggregate(m, f, e.verdict, e.now, e.assembled)
            && m == s.(sessions := m.sessions, signers := m.signers)
            && m.sessions[f].members == s.sessions[f].members
  {
    f := ClosingPlace(s, e);
    StoreShareKeeps(s, e.id, e.payload);
    ClosingStored(s, e.id, e.payload, f);
  }

  lemma NotClosingShort(s: Coord, e: Event)
    requires Inv(s) && e.Share? && |e.payload| <= MAX_PAYLOAD && Routable(s, e.id) && !Closes(s, e)
    ensures Step(s, e) == StoreShare(s, e.id, e.payload)
  {
    var f := FindSession(s.sessions, s.signers[IndexOf(s.signers, e.id)].sessionId);
    BringsIsRouted(s, e, s.sessions[f].id, e.id);
    assert !ClosesSlot(s, e, f);
    ClosingStored(s, e.id, e.payload, f);
  }

  /** A share that closes nothing is stored at most. */
  lemma NotClosing(s: Coord, e: Event)
    requires Inv(s) && e.Share? && !Closes(s, e)
    ensures var r := Step(s, e); r.roastFail == s.roastFail && r.done == s.done && r.blacklist == s.blacklist
  {
    if |e.payload| <= MAX_PAYLOAD && Routable(s, e.id) {
      NotClosingShort(s, e);
    }
  }

  lemma NamedFlag(m: Coord, f: nat, v: Verdict, now: int, assembled: bool)
    requires SharesStored(m, f) && m.sessions[f].nShares >= m.t && !m.done && Names(v)
    ensures var r := Aggregate(m, f, v, now, assembled);
            (r.roastFail <==> |Usable(r)| < r.t) && !r.done
  {
    var d := DropCulprit(m, f, v.culprit);
    var r := FailCulprit(m, f, v.culprit, now, assembled);
    AggregateKeeps(m, f, v, now, assembled);
    RemainingIsUsable(r);
    assert Remaining(r.signers, r.blacklist) < r.t <==> r.roastFail;
  }

  lemma {:induction false} RemainingSame(l: seq<Signer>, r: seq<Signer>, bl: seq<Id>)
    requires |l| == |r| && forall i :: 0 <= i < |l| ==> (Counts(l[i], bl) <==> Counts(r[i], bl))
    ensures Remaining(l, bl) == Remaining(r, bl)
  {
    if l != [] {
      RemainingSame(l[..|l| - 1], r[..|r| - 1], bl);
    }
  }

  lemma UnnamedDone(m: Coord, f: nat, v: Verdict, now: int, assembled: bool)
    requires SharesStored(m, f) && m.sessions[f].nShares >= m.t && !m.done && !v.Good? && !Names(v)
    ensures var r := Aggregate(m, f, v, now, assembled);
            (r.done <==> |Usable(r)| < r.t) && r.roastFail == m.roastFail
  {
    var r := FailUnknown(m, f);
    assert Aggregate(m, f, v, now, assembled) == r;
    var l := BanishAll(m.signers, m.sessions[f].members);
    AggregateKeeps(m, f, v, now, assembled);
    RemainingIsUsable(r);
    RemainingSame(l, r.signers, r.blacklist);
  }

  lemma ClosingEnds(s: Coord, e: Event)
    requires Inv(s) && e.Share? && Closes(s, e)
    ensures var r := Step(s, e);
            && (r.roastFail <==> if Names(e.verdict) then |Usable(r)| < r.t else s.roastFail)
            && (r.done <==> e.verdict.Good? || (!Names(e.verdict) && |Usable(r)| < r.t))
  {
    var f := ClosingIs(s, e);
    var m := StoreShare(s, e.id, e.payload);
    if Names(e.verdict) {
      NamedFlag(m, f, e.verdict, e.now, e.assembled);
    } else if !e.verdict.Good? {
      UnnamedDone(m, f, e.verdict, e.now, e.assembled);
    }
  }

  lemma SweepFlags(s: Coord, k: nat, now: int, after: set<int>)
    requires k <= |s.sessions|
    ensures var r := Sweep(s, k, now, after); r.roastFail == s.roastFail && r.done == s.done
  {
    var inv := (i: nat, m: Coord) => m.roastFail == s.roastFail && m.done == s.done;
    forall i: nat, m: Coord | i < k && |m.sessions| == |s.sessions| && inv(i, m)
      ensures inv(i + 1, SweepSlot(m, i, now, i in after))
    {
    }
    SweepInduct(inv, s, k, now, after);
  }

  lemma QuietFlag(s: Coord, e: Event)
    requires !e.Share?
    ensures var r := Step(s, e);
            r.roastFail == s.roastFail && r.done == (s.done && !(e.NextCert? && s.toMint > 0))
  {
    if e.Tick? && !s.done {
      SweepFlags(s, |s.sessions|, e.now, e.assembledAfter);
    }
  }

  /** The failure flag after any event, exactly. */
  lemma FlagIff(s: Coord, e: Event)
    requires Inv(s)
    ensures var r := Step(s, e);
            r.roastFail <==> if e.Share? && Closes(s, e) && Names(e.verdict) then |Usable(r)| < r.t else s.roastFail
  {
    if e.Share? {
      if Closes(s, e) {
        ClosingEnds(s, e);
      } else {
        NotClosing(s, e);
      }
    } else {
      QuietFlag(s, e);
    }
  }

  /** Whether the message is done after any event, exactly. */
  lemma DoneIff(s: Coord, e: Event)
    requires Inv(s)
    ensures var r := Step(s, e);
            r.done <==>
            if e.Share? && Closes(s, e)
            then e.verdict.Good? || (!Names(e.verdict) && |Usable(r)| < r.t)
            else s.done && !(e.NextCert? && s.toMint > 0)
  {
    if e.Share? {
      if Closes(s, e) {
        ClosingEnds(s, e);
      } else {
        NotClosing(s, e);
      }
    } else {
      QuietFlag(s, e);
    }
  }
}
