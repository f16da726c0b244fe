/** Minting: what is conserved across certificates, and when. */
module RoastMinting {
  import opened Octets
  import opened Bundles
  import opened Roast
  import opened RoastInvariant

  predicate Increasing(xs: seq<nat>) {
    forall i, j :: 0 <= i < j < |xs| ==> xs[i] < xs[j]
  }

  predicate OneComplete(ss: seq<Session>) {
    forall i, j :: 0 <= i < j < |ss| ==> !(ss[i].state.Complete? && ss[j].state.Complete?)
  }

  predicate NoneComplete(ss: seq<Session>) {
    forall i :: 0 <= i < |ss| ==> !ss[i].state.Complete?
  }

  /** `m` certificates were asked for. */
  predicate MintInv(s: Coord, m: nat) {
    && s.minted + s.toMint == m
    && |s.certs| == s.minted
    && Increasing(s.certs)
    && (forall i :: 0 <= i < |s.certs| ==> s.certs[i] <= s.serial)
    && OneComplete(s.sessions)
    && (!s.done ==> s.toMint > 0 && NoneComplete(s.sessions) && forall i :: 0 <= i < |s.certs| ==>
          s.certs[i] < s.serial)
  }

  /** Steps that neither mint nor complete a session leave the minting state as it is. */
  predicate MintFrame(s: Coord, r: Coord) {
    && r.minted == s.minted && r.toMint == s.toMint && r.certs == s.certs && r.serial == s.serial
    && (s.done ==> r.done)
    && |r.sessions| == |s.sessions|
    && forall i :: 0 <= i < |r.sessions| && r.sessions[i].state.Complete? ==> s.sessions[i].state.Complete?
  }

  lemma MintFrameKeeps(s: Coord, r: Coord, m: nat)
    requires MintInv(s, m) && MintFrame(s, r)
    ensures MintInv(r, m)
  {
  }

  lemma SlotFrame(s: Coord, k: nat, now: int, assembled: bool)
    requires k < |s.sessions|
    ensures MintFrame(s, SweepSlot(s, k, now, assembled))
  {
  }

  lemma MintFrameTrans(s: Coord, m: Coord, r: Coord)
    requires MintFrame(s, m) && MintFrame(m, r)
    ensures MintFrame(s, r)
  {
  }

  lemma SweepFrame(s: Coord, k: nat, now: int, after: set<int>)
    requires k <= |s.sessions|
    ensures MintFrame(s, Sweep(s, k, now, after))
  {
    var inv := (i: nat, m: Coord) => MintFrame(s, m);
    forall i: nat, m: Coord | i < k && |m.sessions| == |s.sessions| && inv(i, m)
      ensures inv(i + 1, SweepSlot(m, i, now, i in after))
    {
      SlotFrame(m, i, now, i in after);
      MintFrameTrans(s, m, SweepSlot(m, i, now, i in after));
    }
    SweepInduct(inv, s, k, now, after);
  }

  lemma CulpritFrame(s: Coord, k: nat, c: Id, now: int, assembled: bool)
    requires k < |s.sessions|
    ensures MintFrame(s, FailCulprit(s, k, c, now, assembled))
  {
    assert MintFrame(s, DropCulprit(s, k, c));
  }

  lemma UnknownFrame(s: Coord, k: nat)
    requires k < |s.sessions|
    ensures MintFrame(s, FailUnknown(s, k))
  {
  }

  lemma SucceedMints(s: Coord, k: nat, mintOk: bool, m: nat)
    requires MintInv(s, m) && k < |s.sessions| && !s.done
    ensures MintInv(Succeed(s, k, mintOk), m)
  {
    assert OneComplete(Succeed(s, k, mintOk).sessions);
  }

  lemma AggregateMints(s: Coord, k: nat, verdict: Verdict, now: int, assembled: bool, m: nat)
    requires MintInv(s, m) && k < |s.sessions|
    ensures MintInv(Aggregate(s, k, verdict, now, assembled), m)
  {
    if s.sessions[k].nShares >= s.t && !s.done {
      if verdict.Good? {
        SucceedMints(s, k, verdict.mintOk, m);
      } else if verdict.Culprit? && 0 < verdict.culprit <= MAX_SIGNERS {
        CulpritFrame(s, k, verdict.culprit, now, assembled);
        MintFrameKeeps(s, FailCulprit(s, k, verdict.culprit, now, assembled), m);
      } else {
        UnknownFrame(s, k);
        MintFrameKeeps(s, FailUnknown(s, k), m);
      }
    }
  }

  lemma ShareMints(s: Coord, id: Id, payload: Bytes, verdict: Verdict, now: int, assembled: bool, m: nat)
    requires MintInv(s, m)
    ensures MintInv(OnShare(s, id, payload, verdict, now, assembled), m)
  {
    if |payload| <= MAX_PAYLOAD && Routable(s, id) {
      var k := FindSession(s.sessions, s.signers[IndexOf(s.signers, id)].sessionId);
      MintFrameKeeps(s, StoreShare(s, id, payload), m);
      AggregateMints(StoreShare(s, id, payload), k, verdict, now, assembled, m);
    }
  }

  lemma NextCertMints(s: Coord, newTbs: Bytes, m: nat)
    requires MintInv(s, m)
    ensures MintInv(OnNextCert(s, newTbs), m)
  {
  }

  lemma TickFrame(s: Coord, now: int, after: set<int>)
    ensures MintFrame(s, Step(s, Tick(now, after)))
  {
    if !s.done {
      SweepFrame(s, |s.sessions|, now, after);
    }
  }

  lemma QuietFrame(s: Coord, e: Event)
    requires e.Hello? || e.Disconnect? || e.LoadFail? || e.Commit?
    ensures MintFrame(s, Step(s, e))
  {
  }

  lemma StepMints(s: Coord, e: Event, m: nat)
    requires MintInv(s, m)
    ensures MintInv(Step(s, e), m)
  {
    match e
    case Share(id, payload, verdict, now, assembled) => ShareMints(s, id, payload, verdict, now, assembled, m);
    case Tick(now, after) =>
      TickFrame(s, now, after);
      MintFrameKeeps(s, Step(s, e), m);
    case NextCert(newTbs) => NextCertMints(s, newTbs, m);
    case _ =>
      QuietFrame(s, e);
      MintFrameKeeps(s, Step(s, e), m);
  }

  /**
   Starting from m >= 1: minted plus remaining stays m, the counter never wraps, at most one
   session completes per message, and the serials written strictly increase.
   */
  lemma {:induction false} MintingConserves(n: int, t: int, tbs: Bytes, serial: nat, m: nat, es: seq<Event>)
    requires m >= 1
    ensures MintInv(Run(Start(n, t, tbs, serial, m), es), m)
  {
    if es != [] {
      MintingConserves(n, t, tbs, serial, m, es[..|es| - 1]);
      StepMints(Run(Start(n, t, tbs, serial, m), es[..|es| - 1]), es[|es| - 1], m);
    }
  }

  // ---------------------------------------------------------------- the case m = 0

  function Zeros(n: nat): (r: Bytes)
    ensures |r| == n
  {
    seq(n, _ => 0)
  }

  /** One signer registers, commits and shares. */
  function ShortestSigning(): seq<Event> {
    [Hello(1, 2, 1, true), Commit(1, [7], Zeros(SIG_SIZE), 0, true), Share(1, [9], Good(true), 0, true)]
  }

  lemma RunOne(s: Coord, e: Event)
    ensures Run(s, [e]) == Step(s, e)
  {
    assert [e][..0] == [];
  }

  lemma RunSnoc(s: Coord, es: seq<Event>, e: Event)
    ensures Run(s, es + [e]) == Step(Run(s, es), e)
  {
    assert (es + [e])[..|es + [e]| - 1] == es;
  }

  /** With nothing to mint the first signature still mints, and the unsigned counter wraps. */
  lemma ZeroToMintWraps(tbs: Bytes, serial: nat)
    requires |tbs| <= MAX_PAYLOAD - 1000
    ensures var r := Run(Start(0, 0, tbs, serial, 0), ShortestSigning());
            r.minted == 1 && r.toMint == U64_MAX
  {
    var s0 := Start(0, 0, tbs, serial, 0);
    var es := ShortestSigning();
    var s1 := Step(s0, es[0]);
    RunOne(s0, es[0]);
    var sg := Signer(1, Init, [], [], 0, [HelloAck, SignReq(tbs)]);
    assert s1.signers == [sg];
    var c := StoreCommit(s1, 0, [7], Zeros(SIG_SIZE));
    assert IndexOf(s1.signers, 1) == 0;
    assert c.signers == [sg.(commit := [7], commitSig := Zeros(SIG_SIZE), phase := Committed)];
    SelectOne(c);
    assert FreeSlot(c.sessions) == 0 by { assert c.sessions[0].state.Empty?; }
    var b := BundleFor(c, [1]);
    assert b.entries == [Entry(1, [7], Zeros(SIG_SIZE))];
    assert EntriesLen(b.entries) == 4 + 1 + SIG_SIZE;
    NoActive(c.sessions);
    var s2 := Step(s1, es[1]);
    assert s2 == Form(c, [1], b, 0, 0);
    RunSnoc(s0, [es[0]], es[1]);
    assert IndexOf(s2.signers, 1) == 0 && FindSession(s2.sessions, 1) == 0;
    assert SlotOf(s2.sessions[0].members, 1) == 0;
    var s3 := Step(s2, es[2]);
    assert es == [es[0]] + [es[1]] + [es[2]];
    RunSnoc(s0, [es[0]] + [es[1]], es[2]);
  }

  lemma SelectOne(c: Coord)
    requires |c.signers| == 1 && c.t == 1
    requires Eligible(c.signers[0], c.blacklist, c.strikes, false)
    ensures Select(c) == [c.signers[0].id] && Visited(c.signers, c.blacklist, c.strikes, 1) == 1
  {
  }

  lemma {:induction false} NoActive(ss: seq<Session>)
    requires forall i :: 0 <= i < |ss| ==> !ss[i].state.Awaiting?
    ensures ActiveCount(ss) == 0
  {
    if ss != [] {
      NoActive(ss[..|ss| - 1]);
    }
  }

  /** Conservation over all runs holds exactly for the counts `--mass-mint` should be given. */
  lemma ConservedIffPositive(tbs: Bytes, serial: nat, m: nat)
    requires |tbs| <= MAX_PAYLOAD - 1000
    ensures (forall es: seq<Event> :: var r := Run(Start(0, 0, tbs, serial, m), es); r.minted + r.toMint == m) <==>
            m >= 1
  {
    if m >= 1 {
      forall es: seq<Event> ensures var r := Run(Start(0, 0, tbs, serial, m), es); r.minted + r.toMint == m {
        MintingConserves(0, 0, tbs, serial, m, es);
      }
    } else {
      ZeroToMintWraps(tbs, serial);
      var r := Run(Start(0, 0, tbs, serial, m), ShortestSigning());
      assert r.minted + r.toMint != m;
    }
  }
}
