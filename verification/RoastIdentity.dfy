/**
 Who is in the list: over every run a connected id said HELLO under its own certificate, with the coordinator's n
 and t, at a time when nobody held that id, and has been connected ever since.
 */
module RoastIdentity {
  import opened Octets
  import opened Bundles
  import opened Roast
  import opened RoastInvariant
  import opened RoastPrompt

  // ---------------------------------------------------------------- one HELLO

  /** The sizes and the id a HELLO claims are possible at all. */
  predicate Claims(id: Id, n: int, t: int) {
    2 <= n <= MAX_SIGNERS && 1 <= t <= n && 1 <= id <= n
  }

  /** A HELLO is admitted: under its own certificate, with the sizes in force if there are any, for a free id. */
  predicate Admitted(s: Coord, e: Event) {
    && e.Hello? && e.authentic && Claims(e.id, e.n, e.t)
    && (s.n == 0 || (e.n == s.n && e.t == s.t)) && !Connected(s.signers, e.id)
  }

  /** What a HELLO does to the list of signers, exactly. */
  lemma HelloIff(s: Coord, e: Event)
    requires e.Hello?
    ensures var r := Step(s, e);
            if Admitted(s, e)
            then r.signers == [Signer(e.id, Init, [], [], 0, [HelloAck, SignReq(s.tbs)])] + s.signers
                 && r.n == e.n && r.t == e.t
            else r.signers == s.signers
  {
  }

  /** In particular a HELLO under another certificate, with other sizes or for an id that is taken is refused. */
  lemma HelloRefused(s: Coord, e: Event)
    requires e.Hello?
    requires !e.authentic || !Claims(e.id, e.n, e.t) || (s.n != 0 && (e.n != s.n || e.t != s.t)) ||
             Connected(s.signers, e.id)
    ensures Step(s, e).signers == s.signers
  {
    HelloIff(s, e);
  }

  /** The sizes are those of the first possible HELLO, whoever sent it, and never change again. */
  lemma SizesFixed(s: Coord, e: Event)
    ensures var r := Step(s, e);
            if s.n == 0 && e.Hello? && Claims(e.id, e.n, e.t) then r.n == e.n && r.t == e.t
            else r.n == s.n && r.t == s.t
  {
    match e
    case Tick(now, after) => SweepSizes(s, |s.sessions|, now, after);
    case Share(id, payload, verdict, now, assembled) => ShareSizes(s, id, payload, verdict, now, assembled);
    case _ =>
  }

  // ---------------------------------------------------------------- every event

  lemma FormIds(s: Coord, now: int, assembled: bool)
    ensures SameIds(s.signers, MaybeForm(s, now, assembled).signers)
  {
  }

  lemma SweepIds(s: Coord, k: nat, now: int, after: set<int>)
    requires k <= |s.sessions|
    ensures SameIds(s.signers, Sweep(s, k, now, after).signers)
  {
    var inv := (i: nat, m: Coord) => SameIds(s.signers, m.signers);
    forall i: nat, m: Coord | i < k && |m.sessions| == |s.sessions| && inv(i, m)
      ensures inv(i + 1, SweepSlot(m, i, now, i in after))
    {
      if Expired(m.sessions[i], now) {
        FormIds(Expire(m, i), now, i in after);
      }
    }
    SweepInduct(inv, s, k, now, after);
  }

  lemma ActIds(m: Coord, f: nat, v: Verdict, now: int, assembled: bool)
    requires f < |m.sessions|
    ensures SameIds(m.signers, Aggregate(m, f, v, now, assembled).signers)
  {
    if v.Culprit? {
      FormIds(DropCulprit(m, f, v.culprit), now, assembled);
    }
  }

  lemma ShareIds(s: Coord, id: Id, payload: Bytes, v: Verdict, now: int, assembled: bool)
    ensures SameIds(s.signers, OnShare(s, id, payload, v, now, assembled).signers)
  {
    if |payload| <= MAX_PAYLOAD && Routable(s, id) {
      var f := FindSession(s.sessions, s.signers[IndexOf(s.signers, id)].sessionId);
      ActIds(StoreShare(s, id, payload), f, v, now, assembled);
    }
  }

  /** Only HELLO and a lost connection change who is in the list. */
  lemma OthersKeepIds(s: Coord, e: Event)
    requires !e.Hello? && !e.Disconnect?
    ensures SameIds(s.signers, Step(s, e).signers)
  {
    match e
    case Share(id, payload, v, now, assembled) => ShareIds(s, id, payload, v, now, assembled);
    case Commit(id, payload, sig, now, assembled) =>
      if CommitAccepted(s, id, payload, sig) {
        FormIds(StoreCommit(s, IndexOf(s.signers, id), payload, sig), now, assembled);
      }
    case Tick(now, after) => if !s.done { SweepIds(s, |s.sessions|, now, after); }
    case _ =>
  }

  lemma SameListed(l: seq<Signer>, r: seq<Signer>, id: Id)
    requires SameIds(l, r)
    ensures Connected(l, id) <==> Connected(r, id)
  {
    if Connected(l, id) {
      SameIdsConnected(l, r, id);
    }
    if Connected(r, id) {
      SameIdsConnected(r, l, id);
    }
  }

  /** Who is in the list after any event, exactly. */
  lemma ConnectedIff(s: Coord, e: Event, id: Id)
    requires SignersOk(s)
    ensures Connected(Step(s, e).signers, id) <==>
      (Connected(s.signers, id) && e != Disconnect(id)) || (Admitted(s, e) && e.id == id)
  {
    match e
    case Hello(_, _, _, _) => HelloConnects(s, e, id);
    case Disconnect(gone) => QuitDisconnects(s, gone, id);
    case _ =>
      OthersKeepIds(s, e);
      SameListed(s.signers, Step(s, e).signers, id);
  }

  lemma HelloConnects(s: Coord, e: Event, id: Id)
    requires e.Hello?
    ensures Connected(Step(s, e).signers, id) <==> Connected(s.signers, id) || (Admitted(s, e) && e.id == id)
  {
    HelloIff(s, e);
    var l := Step(s, e).signers;
    if Admitted(s, e) {
      assert l[0].id == e.id;
      if i :| 0 <= i < |s.signers| && s.signers[i].id == id {
        assert l[i + 1].id == id;
      }
      if i :| 0 <= i < |l| && l[i].id == id {
        assert i > 0 ==> s.signers[i - 1].id == id;
      }
    }
  }

  lemma QuitDisconnects(s: Coord, gone: Id, id: Id)
    requires SignersOk(s)
    ensures Connected(OnDisconnect(s, gone).signers, id) <==> Connected(s.signers, id) && id != gone
  {
    var k, l := IndexOf(s.signers, gone), OnDisconnect(s, gone).signers;
    if k < |s.signers| {
      forall i | 0 <= i < |l| ensures l[i] == s.signers[if i < k then i else i + 1] {
      }
      if i :| 0 <= i < |s.signers| && s.signers[i].id == id && id != gone {
        assert l[if i < k then i else i - 1].id == id;
      }
      if i :| 0 <= i < |l| && l[i].id == id {
        assert s.signers[if i < k then i else i + 1].id == id;
      }
    }
  }

  // ---------------------------------------------------------------- every run

  /** Event `k` of the run is the HELLO under which `id` is connected now, and has been all the time since. */
  ghost predicate Since(s: Coord, es: seq<Event>, k: int, id: Id) {
    && 0 <= k < |es| && Admitted(Run(s, es[..k]), es[k]) && es[k].id == id
    && forall j :: k < j <= |es| ==> Connected(Run(s, es[..j]).signers, id)
  }

  lemma SinceLonger(s: Coord, es: seq<Event>, k: int, id: Id)
    requires es != [] && Since(s, es[..|es| - 1], k, id) && Connected(Run(s, es).signers, id)
    ensures Since(s, es, k, id)
  {
    var init := es[..|es| - 1];
    assert init[..k] == es[..k];
    forall j | k < j <= |es| ensures Connected(Run(s, es[..j]).signers, id) {
      if j < |es| {
        assert init[..j] == es[..j];
      } else {
        assert es[..j] == es;
      }
    }
  }

  lemma SinceNow(s: Coord, es: seq<Event>, id: Id)
    requires es != [] && Admitted(Run(s, es[..|es| - 1]), es[|es| - 1]) && es[|es| - 1].id == id &&
             Connected(Run(s, es).signers, id)
    ensures Since(s, es, |es| - 1, id)
  {
    assert es[..|es|] == es;
  }

  /**
   Over every run: whoever is in the list said HELLO in this run, under the certificate of the id it claimed and with
   the n and t in force, and has held the id since then.
   */
  lemma {:induction false} ConnectedMeansIdentified(n: int, t: int, tbs: Bytes, serial: nat, toMint: nat,
                                                    es: seq<Event>, id: Id)
    requires Connected(Run(Start(n, t, tbs, serial, toMint), es).signers, id)
    ensures var s := Start(n, t, tbs, serial, toMint);
            exists k :: Since(s, es, k, id) && es[k] == Hello(id, Run(s, es).n, Run(s, es).t, true)
  {
    var s := Start(n, t, tbs, serial, toMint);
    if es != [] {
      var init, e := es[..|es| - 1], es[|es| - 1];
      var p := Run(s, init);
      StartIsFine(n, t, tbs, serial, toMint);
      RunKeeps(s, init);
      ConnectedIff(p, e, id);
      SizesFixed(p, e);
      if Connected(p.signers, id) && e != Disconnect(id) {
        ConnectedMeansIdentified(n, t, tbs, serial, toMint, init, id);
        var k :| Since(s, init, k, id) && init[k] == Hello(id, p.n, p.t, true);
        SinceLonger(s, es, k, id);
      } else {
        HelloIff(p, e);
        SinceNow(s, es, id);
      }
    }
  }
}
