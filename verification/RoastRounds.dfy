/**
 Certificates round by round: a certificate is written exactly when a session closes with a signature and `mint`
 works, serials count the rounds, and a connected signer is told of each certificate once.
 */
module RoastRounds {
  import opened Octets
  import opened Bundles
  import opened Roast
  import opened RoastInvariant
  import opened RoastQuorum
  import opened RoastIdentity

  // ---------------------------------------------------------------- what is written

  /** The event ends the message with a certificate. */
  ghost predicate Writes(s: Coord, e: Event) {
    e.Share? && Closes(s, e) && e.verdict == Good(true)
  }

  /** The event starts the next message. */
  predicate StartsRound(s: Coord, e: Event) {
    e.NextCert? && s.done && s.toMint > 0
  }

  /** The parts of the state that minting is about. */
  predicate SameBooks(s: Coord, r: Coord) {
    r.certs == s.certs && r.serial == s.serial && r.toMint == s.toMint && r.minted == s.minted && r.tbs == s.tbs
  }

  lemma FormBooks(s: Coord, now: int, assembled: bool)
    ensures SameBooks(s, MaybeForm(s, now, assembled))
  {
  }

  lemma ActBooks(m: Coord, f: nat, v: Verdict, now: int, assembled: bool)
    requires f < |m.sessions| && m.sessions[f].nShares >= m.t && !m.done
    ensures var r := Aggregate(m, f, v, now, assembled);
            if v == Good(true)
            then r.certs == m.certs + [m.serial] && r.minted == m.minted + 1 && r.serial == m.serial && r.tbs == m.tbs
                 && (m.toMint > 0 ==> r.toMint == m.toMint - 1)
            else SameBooks(m, r)
  {
    if v.Culprit? {
      FormBooks(DropCulprit(m, f, v.culprit), now, assembled);
    }
  }

  lemma SweepBooks(s: Coord, k: nat, now: int, after: set<int>)
    requires k <= |s.sessions|
    ensures SameBooks(s, Sweep(s, k, now, after))
  {
    var inv := (i: nat, m: Coord) => SameBooks(s, m);
    forall i: nat, m: Coord | i < k && |m.sessions| == |s.sessions| && inv(i, m)
      ensures inv(i + 1, SweepSlot(m, i, now, i in after))
    {
      if Expired(m.sessions[i], now) {
        FormBooks(Expire(m, i), now, i in after);
      }
    }
    SweepInduct(inv, s, k, now, after);
  }

  lemma NotClosingBooks(s: Coord, e: Event)
    requires Inv(s) && e.Share? && !Closes(s, e)
    ensures SameBooks(s, Step(s, e))
  {
    if |e.payload| <= MAX_PAYLOAD && Routable(s, e.id) {
      NotClosingShort(s, e);
    }
  }

  lemma QuietBooks(s: Coord, e: Event)
    requires !e.Share? && !StartsRound(s, e)
    ensures SameBooks(s, Step(s, e))
  {
    match e
    case Commit(id, payload, sig, now, assembled) =>
      if CommitAccepted(s, id, payload, sig) {
        FormBooks(StoreCommit(s, IndexOf(s.signers, id), payload, sig), now, assembled);
      }
    case Tick(now, after) => if !s.done { SweepBooks(s, |s.sessions|, now, after); }
    case _ =>
  }

  /** What any event does to certificates, counters, serial and message, exactly. */
  lemma BooksExactly(s: Coord, e: Event)
    requires Inv(s)
    ensures var r := Step(s, e);
            if Writes(s, e)
            then r.certs == s.certs + [s.serial] && r.minted == s.minted + 1 && r.serial == s.serial && r.tbs == s.tbs
                 && (s.toMint > 0 ==> r.toMint == s.toMint - 1)
            else if StartsRound(s, e)
            then r.certs == s.certs && r.minted == s.minted && r.toMint == s.toMint
                 && r.serial == s.serial + 1 && r.tbs == e.newTbs
            else SameBooks(s, r)
  {
    if e.Share? {
      if Closes(s, e) {
        var f := ClosingIs(s, e);
        ActBooks(StoreShare(s, e.id, e.payload), f, e.verdict, e.now, e.assembled);
      } else {
        NotClosingBooks(s, e);
      }
    } else if !StartsRound(s, e) {
      QuietBooks(s, e);
    }
  }

  /** Rounds started so far. */
  function Rounds(s: Coord, es: seq<Event>): nat {
    if es == [] then 0 else
    var init := es[..|es| - 1];
    Rounds(s, init) + if StartsRound(Run(s, init), es[|es| - 1]) then 1 else 0
  }

  /** Over every run the serial counts the rounds: consecutive, one for each message. */
  lemma {:induction false} SerialCountsRounds(s: Coord, es: seq<Event>)
    requires Inv(s)
    ensures Run(s, es).serial == s.serial + Rounds(s, es)
  {
    if es != [] {
      SerialCountsRounds(s, es[..|es| - 1]);
      RunKeeps(s, es[..|es| - 1]);
      BooksExactly(Run(s, es[..|es| - 1]), es[|es| - 1]);
    }
  }

  // ---------------------------------------------------------------- who is told

  function Notices(q: seq<Msg>): nat {
    if q == [] then 0 else Notices(q[..|q| - 1]) + if q[|q| - 1].CertOutput? then 1 else 0
  }

  /** The notices queued for `id` since it registered. */
  function NoticesFor(s: Coord, id: Id): nat {
    var i := IndexOf(s.signers, id);
    if i < |s.signers| then Notices(s.signers[i].msgq) else 0
  }

  /** Every signer is in its place and got `more` notices. */
  predicate Told(s: Coord, r: Coord, more: nat) {
    && SameIds(s.signers, r.signers)
    && forall i :: 0 <= i < |s.signers| ==> Notices(r.signers[i].msgq) == Notices(s.signers[i].msgq) + more
  }

  lemma ToldTrans(s: Coord, m: Coord, r: Coord, a: nat, b: nat)
    requires Told(s, m, a) && Told(m, r, b)
    ensures Told(s, r, a + b)
  {
  }

  /** The same queue, or one frame more, which is no notice. */
  predicate QuietQueue(q: seq<Msg>, r: seq<Msg>) {
    r == q || (|r| == |q| + 1 && r[..|q|] == q && !r[|q|].CertOutput?)
  }

  predicate QuietQueues(s: Coord, r: Coord) {
    SameIds(s.signers, r.signers) && forall i :: 0 <= i < |s.signers| ==>
      QuietQueue(s.signers[i].msgq, r.signers[i].msgq)
  }

  lemma QuietTold(s: Coord, r: Coord)
    requires QuietQueues(s, r)
    ensures Told(s, r, 0)
  {
  }

  lemma FormTold(s: Coord, now: int, assembled: bool)
    ensures Told(s, MaybeForm(s, now, assembled), 0)
  {
    QuietTold(s, MaybeForm(s, now, assembled));
  }

  lemma ExpireTold(s: Coord, k: nat)
    requires k < |s.sessions|
    ensures Told(s, Expire(s, k), 0)
  {
    QuietTold(s, Expire(s, k));
  }

  lemma CulpritTold(s: Coord, k: nat, c: Id, now: int, assembled: bool)
    requires k < |s.sessions|
    ensures Told(s, FailCulprit(s, k, c, now, assembled), 0)
  {
    var m := DropCulprit(s, k, c);
    QuietTold(s, m);
    FormTold(m, now, assembled);
    ToldTrans(s, m, MaybeForm(m, now, assembled), 0, 0);
  }

  lemma UnknownTold(s: Coord, k: nat)
    requires k < |s.sessions|
    ensures Told(s, FailUnknown(s, k), 0)
  {
    QuietTold(s, FailUnknown(s, k));
  }

  lemma SuccessTold(s: Coord, k: nat, mintOk: bool)
    requires k < |s.sessions|
    ensures Told(s, Succeed(s, k, mintOk), if mintOk then 1 else 0)
  {
    var r := Succeed(s, k, mintOk);
    if mintOk {
      forall i | 0 <= i < |s.signers| ensures Notices(r.signers[i].msgq) == Notices(s.signers[i].msgq) + 1 {
        assert r.signers[i].msgq[..|s.signers[i].msgq|] == s.signers[i].msgq;
      }
    }
  }

  lemma ActTold(m: Coord, f: nat, v: Verdict, now: int, assembled: bool)
    requires f < |m.sessions| && m.sessions[f].nShares >= m.t && !m.done
    ensures Told(m, Aggregate(m, f, v, now, assembled), if v == Good(true) then 1 else 0)
  {
    if v.Good? {
      SuccessTold(m, f, v.mintOk);
    } else if Names(v) {
      CulpritTold(m, f, v.culprit, now, assembled);
    } else {
      UnknownTold(m, f);
    }
  }

  lemma ShareTold(s: Coord, e: Event)
    requires Inv(s) && e.Share?
    ensures Told(s, Step(s, e), if Writes(s, e) then 1 else 0)
  {
    if Closes(s, e) {
      var f := ClosingIs(s, e);
      var m := StoreShare(s, e.id, e.payload);
      QuietTold(s, m);
      ActTold(m, f, e.verdict, e.now, e.assembled);
      ToldTrans(s, m, Step(s, e), 0, if Writes(s, e) then 1 else 0);
    } else {
      NotClosingTold(s, e);
    }
  }

  lemma NotClosingTold(s: Coord, e: Event)
    requires Inv(s) && e.Share? && !Closes(s, e)
    ensures Told(s, Step(s, e), 0)
  {
    if |e.payload| <= MAX_PAYLOAD && Routable(s, e.id) {
      NotClosingShort(s, e);
      QuietTold(s, StoreShare(s, e.id, e.payload));
    }
  }

  lemma CommitTold(s: Coord, e: Event)
    requires e.Commit?
    ensures Told(s, Step(s, e), 0)
  {
    if CommitAccepted(s, e.id, e.payload, e.sig) {
      var m := StoreCommit(s, IndexOf(s.signers, e.id), e.payload, e.sig);
      QuietTold(s, m);
      FormTold(m, e.now, e.assembled);
      ToldTrans(s, m, Step(s, e), 0, 0);
    }
  }

  lemma SweepTold(s: Coord, k: nat, now: int, after: set<int>)
    requires k <= |s.sessions|
    ensures Told(s, Sweep(s, k, now, after), 0)
  {
    var inv := (i: nat, m: Coord) => Told(s, m, 0);
    forall i: nat, m: Coord | i < k && |m.sessions| == |s.sessions| && inv(i, m)
      ensures inv(i + 1, SweepSlot(m, i, now, i in after))
    {
      if Expired(m.sessions[i], now) {
        ExpireTold(m, i);
        FormTold(Expire(m, i), now, i in after);
        ToldTrans(s, m, Expire(m, i), 0, 0);
        ToldTrans(s, Expire(m, i), SweepSlot(m, i, now, i in after), 0, 0);
      }
    }
    SweepInduct(inv, s, k, now, after);
  }

  lemma NextTold(s: Coord, newTbs: Bytes)
    ensures Told(s, OnNextCert(s, newTbs), 0)
  {
    QuietTold(s, OnNextCert(s, newTbs));
  }

  /** Everyone who stays in the list is told of a certificate exactly when one is written. */
  lemma StayersTold(s: Coord, e: Event)
    requires Inv(s) && !e.Hello? && !e.Disconnect?
    ensures Told(s, Step(s, e), if Writes(s, e) then 1 else 0)
  {
    match e
    case Share(_, _, _, _, _) => ShareTold(s, e);
    case Commit(_, _, _, _, _) => CommitTold(s, e);
    case Tick(now, after) => if !s.done { SweepTold(s, |s.sessions|, now, after); }
    case NextCert(newTbs) => NextTold(s, newTbs);
    case _ =>
  }

  lemma NoticesAt(s: Coord, i: nat)
    requires SignersOk(s) && i < |s.signers|
    ensures NoticesFor(s, s.signers[i].id) == Notices(s.signers[i].msgq)
  {
    IndexOfIs(s.signers, i);
  }

  lemma NewcomerNotices(tbs: Bytes)
    ensures Notices([HelloAck, SignReq(tbs)]) == 0
  {
    assert [HelloAck, SignReq(tbs)][..1] == [HelloAck] && [HelloAck][..0] == [];
  }

  lemma HelloNotices(s: Coord, e: Event, j: nat)
    requires Inv(s) && e.Hello? && j < |Step(s, e).signers|
    ensures var id := Step(s, e).signers[j].id;
            NoticesFor(Step(s, e), id) == if Admitted(s, e) && e.id == id then 0 else NoticesFor(s, id)
  {
    StepKeeps(s, e);
    HelloIff(s, e);
    NoticesAt(Step(s, e), j);
    if Admitted(s, e) {
      if j == 0 {
        NewcomerNotices(s.tbs);
      } else {
        NoticesAt(s, j - 1);
      }
    } else {
      NoticesAt(s, j);
    }
  }

  /** Where a signer that stays was before another one left. */
  function QuitPlace(l: seq<Signer>, gone: Id, j: nat): nat {
    if IndexOf(l, gone) < |l| && IndexOf(l, gone) <= j then j + 1 else j
  }

  lemma QuitNotices(s: Coord, gone: Id, j: nat)
    requires Inv(s) && j < |OnDisconnect(s, gone).signers|
    ensures var id := OnDisconnect(s, gone).signers[j].id; NoticesFor(OnDisconnect(s, gone), id) == NoticesFor(s, id)
  {
    DisconnectKeeps(s, gone);
    NoticesAt(OnDisconnect(s, gone), j);
    NoticesAt(s, QuitPlace(s.signers, gone, j));
  }

  lemma StayerNotices(s: Coord, e: Event, j: nat)
    requires Inv(s) && !e.Hello? && !e.Disconnect? && j < |Step(s, e).signers|
    ensures var id := Step(s, e).signers[j].id;
            NoticesFor(Step(s, e), id) == NoticesFor(s, id) + if Writes(s, e) then 1 else 0
  {
    StepKeeps(s, e);
    StayersTold(s, e);
    NoticesAt(Step(s, e), j);
    NoticesAt(s, j);
  }

  /** The notices of one signer after any event, exactly. */
  lemma NoticesExactly(s: Coord, e: Event, id: Id)
    requires Inv(s) && Connected(Step(s, e).signers, id)
    ensures NoticesFor(Step(s, e), id) ==
            if Admitted(s, e) && e.id == id then 0 else NoticesFor(s, id) + if Writes(s, e) then 1 else 0
  {
    var j :| 0 <= j < |Step(s, e).signers| && Step(s, e).signers[j].id == id;
    match e
    case Hello(_, _, _, _) => HelloNotices(s, e, j);
    case Disconnect(gone) => QuitNotices(s, gone, j);
    case _ => StayerNotices(s, e, j);
  }

  /** Over every run: while a signer is connected it is told of each certificate written, once, and of nothing else. */
  lemma {:induction false} NoticesMatchCertificates(s: Coord, es: seq<Event>, id: Id)
    requires Inv(s) && forall j :: 0 <= j <= |es| ==> Connected(Run(s, es[..j]).signers, id)
    ensures NoticesFor(Run(s, es), id) + |s.certs| == NoticesFor(s, id) + |Run(s, es).certs|
  {
    if es != [] {
      var init, e := es[..|es| - 1], es[|es| - 1];
      forall j | 0 <= j <= |init| ensures Connected(Run(s, init[..j]).signers, id) {
        assert init[..j] == es[..j];
      }
      NoticesMatchCertificates(s, init, id);
      RunKeeps(s, init);
      assert es[..|init|] == init && es[..|es|] == es;
      NoticesExactly(Run(s, init), e, id);
      BooksExactly(Run(s, init), e);
    }
  }
}
