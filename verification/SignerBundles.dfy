/**
 What a signer signs for. A share is sent exactly when a bundle passes every check, and then the bundle has
 exactly t entries under t different ids, t being the signer's at that turn, one of them its own live
 commitment, and carries the message it was asked for last. So over every sequence of frames, and for
 every share of an honest signer whatever the coordinator does.
 */
module SignerBundles {
  import opened Octets
  import opened Bundles
  import opened SignerModel
  import opened SignerLinearity
  import Agreement

  // ---------------------------------------------------------------- one turn

  /** The bundle suits the signer as it is: t different signers, itself among them, and its current message. */
  predicate Suits(nd: Node, b: Bundle) {
    && |b.entries| == nd.t
    && (forall i, j :: 0 <= i < j < |b.entries| ==> b.entries[i].id != b.entries[j].id)
    && HasOwn(b, nd.id, nd.commit)
    && b.tbs == nd.tbs
  }

  /** The frame carries the bundle, and every entry verifies for its message. */
  predicate Carries(f: Frame, b: Bundle, valid: Signatures) {
    && f.RelayCommit? && Unpack(f.payload).Accept? && Unpack(f.payload).value == b
    && forall i :: 0 <= i < |b.entries| ==> Authentic(b.entries[i], b.tbs, valid)
  }

  /** The frame makes the signer send a share. */
  predicate Sends(nd: Node, f: Frame, valid: Signatures, o: Oracle) {
    exists i :: 0 <= i < |Turn(nd, f, valid, o).out| && Turn(nd, f, valid, o).out[i].ShareMsg?
  }

  /** Everything that is needed for a share, and everything that suffices. */
  predicate Ready(nd: Node, f: Frame, valid: Signatures, o: Oracle) {
    && f.RelayCommit? && Unpack(f.payload).Accept?
    && Carries(f, Unpack(f.payload).value, valid) && Suits(nd, Unpack(f.payload).value)
    && nd.hasKey && nd.nonces != [] && o.assembled && o.share.Some?
  }

  lemma OwnIsOnly(nd: Node, b: Bundle)
    requires Suits(nd, b)
    ensures forall i :: 0 <= i < |b.entries| && b.entries[i].id == nd.id ==> b.entries[i].commit == nd.commit
  {
    var k :| 0 <= k < |b.entries| && b.entries[k].id == nd.id && b.entries[k].commit == nd.commit;
  }

  /** A commitment made ahead leaves the message, the requests and the shares alone. */
  lemma AheadSpares(nd: Node, made: CommitResult)
    ensures var r := Precompute(nd, made);
            r.tbs == nd.tbs && r.log.requested == nd.log.requested && r.log.shares == nd.log.shares
  {
  }

  lemma AcceptsIff(nd: Node, payload: Bytes, valid: Signatures)
    ensures Accepts(nd, payload, valid) <==>
      (nd.hasKey && Unpack(payload).Accept? && Carries(RelayCommit(payload), Unpack(payload).value, valid)
       && Suits(nd, Unpack(payload).value))
  {
    if Unpack(payload).Accept? && Suits(nd, Unpack(payload).value) {
      OwnIsOnly(nd, Unpack(payload).value);
    }
  }

  /** A turn sends a share exactly when everything is ready, and then just this one, for this bundle and nonce. */
  lemma SendsIff(nd: Node, f: Frame, valid: Signatures, o: Oracle)
    ensures Sends(nd, f, valid, o) <==> Ready(nd, f, valid, o)
    ensures var r := Turn(nd, f, valid, o);
            if Ready(nd, f, valid, o)
            then r.out == [ShareMsg(o.share.value)]
                 && r.nd.log.shares == nd.log.shares + [(nd.nonces, Unpack(f.payload).value)]
            else r.nd.log.shares == nd.log.shares
  {
    AheadSpares(OnFrame(nd, f, valid, o).nd, o.madeAhead);
    if f.RelayCommit? {
      AcceptsIff(nd, f.payload, valid);
    }
    if Ready(nd, f, valid, o) {
      assert Turn(nd, f, valid, o).out[0].ShareMsg?;
    }
  }

  // ---------------------------------------------------------------- the message asked for last

  predicate AskedLast(nd: Node) {
    nd.tbs == if nd.log.requested == [] then [] else nd.log.requested[|nd.log.requested| - 1]
  }

  lemma TurnAsksLast(nd: Node, f: Frame, valid: Signatures, o: Oracle)
    requires AskedLast(nd)
    ensures AskedLast(Turn(nd, f, valid, o).nd)
  {
    if f.SignReq? {
      RequestAsksLast(nd, f.tbs, o);
    }
    AheadSpares(OnFrame(nd, f, valid, o).nd, o.madeAhead);
  }

  lemma RequestAsksLast(nd: Node, tbs: Bytes, o: Oracle)
    requires AskedLast(nd)
    ensures AskedLast(OnSignReq(nd, tbs, o).nd)
  {
    assert AskedLast(TakeRequest(nd, tbs));
  }

  lemma {:induction false} RunAsksLast(nd: Node, ins: seq<Input>)
    requires AskedLast(nd)
    ensures AskedLast(RunNode(nd, ins))
  {
    if ins != [] {
      var x := ins[|ins| - 1];
      RunAsksLast(nd, ins[..|ins| - 1]);
      TurnAsksLast(RunNode(nd, ins[..|ins| - 1]), x.f, x.valid, x.o);
    }
  }

  // ---------------------------------------------------------------- every sequence of frames

  /** Share `j` of the node was sent in turn `k`, for a bundle that suited the node as it was then. */
  ghost predicate SentIn(id: Id, t: int, ins: seq<Input>, j: nat, k: int) {
    && 0 <= k < |ins|
    && var nd := RunNode(NewNode(id, t), ins[..k]);
       var log := RunNode(NewNode(id, t), ins).log;
       && |nd.log.shares| == j < |log.shares| && AskedLast(nd)
       && Suits(nd, log.shares[j].1) && Carries(ins[k].f, log.shares[j].1, ins[k].valid)
       && log.shares[j].0 == nd.nonces
  }

  /** Every share a signer ever sends is for a bundle that suited it when it sent it. */
  lemma {:induction false} EveryShareSuits(id: Id, t: int, ins: seq<Input>, j: nat) returns (k: int)
    requires j < |RunNode(NewNode(id, t), ins).log.shares|
    ensures SentIn(id, t, ins, j, k)
  {
    var init, x := ins[..|ins| - 1], ins[|ins| - 1];
    var nd := RunNode(NewNode(id, t), init);
    SendsIff(nd, x.f, x.valid, x.o);
    if j < |nd.log.shares| {
      k := EveryShareSuits(id, t, init, j);
      assert init[..k] == ins[..k];
    } else {
      k := |ins| - 1;
      RunAsksLast(NewNode(id, t), init);
    }
  }

  // ---------------------------------------------------------------- honest signers against any coordinator

  /** Event `k` delivered the bundle to honest signer `i`, and it suited the signer as it was then. */
  ghost predicate SuitedAt(honest: set<Id>, t: int, es: seq<Agreement.Event>, i: Id, b: Bundle, k: int) {
    && 0 <= k < |es| && es[k].Deliver? && es[k].id == i
    && var w := Agreement.Run(Agreement.Start(honest, t), es[..k]);
       i in w.nodes && AskedLast(w.nodes[i]) && Suits(w.nodes[i], b) && Carries(es[k].f, b, w.valid)
  }

  lemma {:induction false} HonestAskedLast(honest: set<Id>, t: int, es: seq<Agreement.Event>, i: Id)
    requires i in Agreement.Run(Agreement.Start(honest, t), es).nodes
    ensures AskedLast(Agreement.Run(Agreement.Start(honest, t), es).nodes[i])
  {
    if es != [] {
      var w, e := Agreement.Run(Agreement.Start(honest, t), es[..|es| - 1]), es[|es| - 1];
      HonestAskedLast(honest, t, es[..|es| - 1], i);
      if e.Deliver? && e.id == i {
        TurnAsksLast(w.nodes[i], e.f, w.valid, e.o);
      }
    }
  }

  /** A new share is one that the event made the signer send. */
  lemma NewShare(w: Agreement.World, e: Agreement.Event, i: Id, b: Bundle)
    requires Agreement.SharedFor(Agreement.Step(w, e), i, b) && !Agreement.SharedFor(w, i, b)
    ensures e.Deliver? && e.id == i && i in w.nodes && Ready(w.nodes[i], e.f, w.valid, e.o)
    ensures Unpack(e.f.payload).value == b
  {
    var l := Agreement.Step(w, e).nodes[i].log.shares;
    var k :| 0 <= k < |l| && l[k].1 == b;
    assert i in w.nodes;
    if e.Deliver? && e.id == i {
      SendsIff(w.nodes[i], e.f, w.valid, e.o);
    }
  }

  lemma SuitedLonger(honest: set<Id>, t: int, es: seq<Agreement.Event>, i: Id, b: Bundle, k: int)
    requires es != [] && SuitedAt(honest, t, es[..|es| - 1], i, b, k)
    ensures SuitedAt(honest, t, es, i, b, k)
  {
    assert es[..|es| - 1][..k] == es[..k];
  }

  lemma SuitedNow(honest: set<Id>, t: int, es: seq<Agreement.Event>, i: Id, b: Bundle)
    requires es != [] && !Agreement.SharedFor(Agreement.Run(Agreement.Start(honest, t), es[..|es| - 1]), i, b)
    requires Agreement.SharedFor(Agreement.Run(Agreement.Start(honest, t), es), i, b)
    ensures SuitedAt(honest, t, es, i, b, |es| - 1)
  {
    NewShare(Agreement.Run(Agreement.Start(honest, t), es[..|es| - 1]), es[|es| - 1], i, b);
    HonestAskedLast(honest, t, es[..|es| - 1], i);
  }

  /** If an honest signer sent a share for a bundle, the bundle suited it when it came. */
  lemma {:induction false} SharedMeansSuited(honest: set<Id>, t: int, es: seq<Agreement.Event>, i: Id, b: Bundle)
      returns (k: int)
    requires Agreement.SharedFor(Agreement.Run(Agreement.Start(honest, t), es), i, b)
    ensures SuitedAt(honest, t, es, i, b, k)
  {
    var init := es[..|es| - 1];
    var w := Agreement.Run(Agreement.Start(honest, t), init);
    if Agreement.SharedFor(w, i, b) {
      k := SharedMeansSuited(honest, t, init, i, b);
      SuitedLonger(honest, t, es, i, b, k);
    } else {
      k := |es| - 1;
      SuitedNow(honest, t, es, i, b);
    }
  }
}
