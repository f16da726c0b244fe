/**
 Agreement on the message, whatever the coordinator does. Honest signers run the code; the
 coordinator and the other signers are one adversary that sends any frame to anyone, in any
 order, and makes any signature it likes except an honest signer's signature of a commit
 buffer that this signer did not sign.
 */
module Agreement {
  import opened Octets
  import opened Bundles
  import opened SignerModel
  import opened SignerLinearity

  datatype World = World(nodes: map<Id, Node>, valid: Signatures)

  datatype Event = Deliver(id: Id, f: Frame, o: Oracle) | Forge(id: Id, data: Bytes, sig: Bytes)

  /** The signature an honest signer puts under a COMMIT. */
  function NewSignatures(r: Reply, sig: Bytes): Signatures {
    if |r.out| == 1 && r.out[0].CommitMsg? && |r.nd.tbs| < U16_LIMIT
    then {(r.nd.id, SignBuf(r.nd.tbs, r.out[0].payload), sig)} else {}
  }

  predicate SignedBefore(valid: Signatures, id: Id, data: Bytes) {
    exists v :: v in valid && v.0 == id && v.1 == data
  }

  function Step(w: World, e: Event): World {
    match e
    case Deliver(id, f, o) =>
      if id in w.nodes && FreshTurn(w.nodes[id], f, w.valid, o) then
        var r := Turn(w.nodes[id], f, w.valid, o);
        World(w.nodes[id := r.nd], w.valid + NewSignatures(r, o.sig))
      else w
    case Forge(id, data, sig) =>
      if id !in w.nodes || SignedBefore(w.valid, id, data) then w.(valid := w.valid + {(id, data, sig)}) else w
  }

  function Run(w: World, es: seq<Event>): World {
    if es == [] then w else Step(Run(w, es[..|es| - 1]), es[|es| - 1])
  }

  function Start(honest: set<Id>, t: int): World {
    World(map i | i in honest :: NewNode(i, t), {})
  }

  // ---------------------------------------------------------------- invariant

  predicate InLog(log: Log, data: Bytes) {
    exists k :: 0 <= k < |log.signed| && |log.signed[k].1| < U16_LIMIT &&
      data == SignBuf(log.signed[k].1, log.signed[k].0)
  }

  predicate SignatureOk(nodes: map<Id, Node>, v: (Id, Bytes, Bytes)) {
    v.0 in nodes ==> InLog(nodes[v.0].log, v.1)
  }

  predicate Backed(nodes: map<Id, Node>, e: Entry, tbs: Bytes) {
    e.id in nodes ==> (e.commit, tbs) in nodes[e.id].log.signed
  }

  /** Every entry of the bundle that names an honest signer was signed by it for this message. */
  predicate BundleBacked(nodes: map<Id, Node>, b: Bundle) {
    forall k :: 0 <= k < |b.entries| ==> Backed(nodes, b.entries[k], b.tbs)
  }

  ghost predicate NodeOk(w: World, i: Id)
    requires i in w.nodes
  {
    && w.nodes[i].id == i && NodeInv(w.nodes[i])
    && forall k :: 0 <= k < |w.nodes[i].log.shares| ==> BundleBacked(w.nodes, w.nodes[i].log.shares[k].1)
  }

  ghost predicate Inv(w: World) {
    && (forall i {:trigger NodeOk(w, i)} :: i in w.nodes ==> NodeOk(w, i))
    && (forall v {:trigger SignatureOk(w.nodes, v)} :: v in w.valid ==> SignatureOk(w.nodes, v))
  }

  // ---------------------------------------------------------------- one turn of one node

  /** `b` continues `a`. */
  predicate Extends<T(==)>(a: seq<T>, b: seq<T>) {
    |a| <= |b| && a == b[..|a|]
  }

  /** What one frame can add to a node's log. */
  lemma TurnAdds(nd: Node, f: Frame, valid: Signatures, o: Oracle)
    ensures var r := Turn(nd, f, valid, o);
            && r.nd.id == nd.id
            && (r.nd.log.signed == nd.log.signed || r.nd.log.signed == nd.log.signed + [(r.nd.commit, r.nd.tbs)])
            && (r.nd.log.shares != nd.log.shares ==>
                  f.RelayCommit? && Accepts(nd, f.payload, valid)
                  && r.nd.log.shares == nd.log.shares + [(nd.nonces, Unpack(f.payload).value)])
  {
  }

  lemma TurnSigns(nd: Node, f: Frame, valid: Signatures, o: Oracle)
    requires |Turn(nd, f, valid, o).out| == 1 && Turn(nd, f, valid, o).out[0].CommitMsg?
    ensures var r := Turn(nd, f, valid, o);
            && |r.nd.tbs| <= MAX_PAYLOAD && r.nd.log.signed == nd.log.signed + [(r.out[0].payload, r.nd.tbs)]
  {
  }

  lemma InLogGrows(a: Log, b: Log, data: Bytes)
    requires InLog(a, data) && Extends(a.signed, b.signed)
    ensures InLog(b, data)
  {
    var k :| 0 <= k < |a.signed| && |a.signed[k].1| < U16_LIMIT && data == SignBuf(a.signed[k].1, a.signed[k].0);
    assert b.signed[k] == b.signed[..|a.signed|][k] == a.signed[k];
  }

  lemma BackedGrows(w: World, nodes: map<Id, Node>, b: Bundle)
    requires nodes.Keys == w.nodes.Keys && BundleBacked(w.nodes, b)
    requires forall i :: i in nodes ==> Extends(w.nodes[i].log.signed, nodes[i].log.signed)
    ensures BundleBacked(nodes, b)
  {
    forall k | 0 <= k < |b.entries| ensures Backed(nodes, b.entries[k], b.tbs) {
      assert Backed(w.nodes, b.entries[k], b.tbs);
      var e := b.entries[k];
      if e.id in nodes {
        var a, c := w.nodes[e.id].log.signed, nodes[e.id].log.signed;
        var x :| 0 <= x < |a| && a[x] == (e.commit, b.tbs);
        assert c[..|a|][x] == c[x];
      }
    }
  }

  /** The check on signatures is worth what the buffer's injectivity makes of it. */
  lemma AuthenticMeansSigned(w: World, e: Entry, tbs: Bytes)
    requires Inv(w) && Authentic(e, tbs, w.valid)
    ensures Backed(w.nodes, e, tbs)
  {
    if e.id in w.nodes {
      var log := w.nodes[e.id].log;
      var v := (e.id, SignBuf(tbs, e.commit), e.sig);
      assert SignatureOk(w.nodes, v);
      var k :| 0 <= k < |log.signed| && |log.signed[k].1| < U16_LIMIT
               && v.1 == SignBuf(log.signed[k].1, log.signed[k].0);
      SignBufInjective(tbs, e.commit, log.signed[k].1, log.signed[k].0);
    }
  }

  lemma AcceptedIsBacked(w: World, nd: Node, payload: Bytes)
    requires Inv(w) && Accepts(nd, payload, w.valid)
    ensures BundleBacked(w.nodes, Unpack(payload).value)
  {
    var b := Unpack(payload).value;
    forall k | 0 <= k < |b.entries| ensures Backed(w.nodes, b.entries[k], b.tbs) {
      AuthenticMeansSigned(w, b.entries[k], b.tbs);
    }
  }

  // ---------------------------------------------------------------- steps

  lemma DeliverGrows(w: World, id: Id, f: Frame, o: Oracle, i: Id)
    requires id in w.nodes && FreshTurn(w.nodes[id], f, w.valid, o) && i in w.nodes
    ensures var r := Step(w, Deliver(id, f, o));
            r.nodes.Keys == w.nodes.Keys && Extends(w.nodes[i].log.signed, r.nodes[i].log.signed)
  {
    TurnAdds(w.nodes[id], f, w.valid, o);
  }

  lemma DeliverSignatures(w: World, id: Id, f: Frame, o: Oracle, v: (Id, Bytes, Bytes))
    requires Inv(w) && id in w.nodes && FreshTurn(w.nodes[id], f, w.valid, o)
    requires v in Step(w, Deliver(id, f, o)).valid
    ensures SignatureOk(Step(w, Deliver(id, f, o)).nodes, v)
  {
    var r := Step(w, Deliver(id, f, o));
    var turn := Turn(w.nodes[id], f, w.valid, o);
    if v in w.valid {
      assert SignatureOk(w.nodes, v);
      if v.0 in w.nodes {
        DeliverGrows(w, id, f, o, v.0);
        InLogGrows(w.nodes[v.0].log, r.nodes[v.0].log, v.1);
      }
    } else {
      TurnSigns(w.nodes[id], f, w.valid, o);
      TurnAdds(w.nodes[id], f, w.valid, o);
      assert NodeOk(w, id);
      var log := r.nodes[id].log;
      assert log.signed[|log.signed| - 1] == (turn.out[0].payload, turn.nd.tbs);
      assert InLog(log, v.1);
    }
  }

  lemma DeliverShares(w: World, id: Id, f: Frame, o: Oracle, i: Id, k: nat)
    requires Inv(w) && id in w.nodes && FreshTurn(w.nodes[id], f, w.valid, o)
    requires i in w.nodes && k < |Step(w, Deliver(id, f, o)).nodes[i].log.shares|
    ensures var r := Step(w, Deliver(id, f, o)); BundleBacked(r.nodes, r.nodes[i].log.shares[k].1)
  {
    var r := Step(w, Deliver(id, f, o));
    ShareRests(w, id, f, o, i, k);
    forall j | j in r.nodes ensures Extends(w.nodes[j].log.signed, r.nodes[j].log.signed) {
      DeliverGrows(w, id, f, o, j);
    }
    BackedGrows(w, r.nodes, r.nodes[i].log.shares[k].1);
  }

  /** The bundle of every share is backed by what was signed before the turn. */
  lemma ShareRests(w: World, id: Id, f: Frame, o: Oracle, i: Id, k: nat)
    requires Inv(w) && id in w.nodes && FreshTurn(w.nodes[id], f, w.valid, o)
    requires i in w.nodes && k < |Step(w, Deliver(id, f, o)).nodes[i].log.shares|
    ensures BundleBacked(w.nodes, Step(w, Deliver(id, f, o)).nodes[i].log.shares[k].1)
  {
    assert NodeOk(w, i);
    TurnAdds(w.nodes[id], f, w.valid, o);
    if k < |w.nodes[i].log.shares| {
      assert Step(w, Deliver(id, f, o)).nodes[i].log.shares[k] == w.nodes[i].log.shares[k];
    } else {
      AcceptedIsBacked(w, w.nodes[id], f.payload);
    }
  }

  lemma DeliverNode(w: World, id: Id, f: Frame, o: Oracle, i: Id)
    requires Inv(w) && id in w.nodes && FreshTurn(w.nodes[id], f, w.valid, o) && i in w.nodes
    ensures var r := Step(w, Deliver(id, f, o)); r.nodes[i].id == i && NodeInv(r.nodes[i])
  {
    assert NodeOk(w, i) && NodeOk(w, id);
    TurnKeeps(w.nodes[id], f, w.valid, o);
    TurnAdds(w.nodes[id], f, w.valid, o);
  }

  lemma DeliverKeeps(w: World, id: Id, f: Frame, o: Oracle)
    requires Inv(w) && id in w.nodes && FreshTurn(w.nodes[id], f, w.valid, o)
    ensures Inv(Step(w, Deliver(id, f, o)))
  {
    var r := Step(w, Deliver(id, f, o));
    forall i | i in r.nodes ensures NodeOk(r, i) {
      DeliverNode(w, id, f, o, i);
      forall k | 0 <= k < |r.nodes[i].log.shares| ensures BundleBacked(r.nodes, r.nodes[i].log.shares[k].1) {
        DeliverShares(w, id, f, o, i, k);
      }
    }
    forall v | v in r.valid ensures SignatureOk(r.nodes, v) {
      DeliverSignatures(w, id, f, o, v);
    }
  }

  lemma ForgeKeeps(w: World, id: Id, data: Bytes, sig: Bytes)
    requires Inv(w)
    ensures Inv(Step(w, Forge(id, data, sig)))
  {
    var r := Step(w, Forge(id, data, sig));
    forall i | i in r.nodes ensures NodeOk(r, i) {
      assert NodeOk(w, i);
    }
    forall v | v in r.valid ensures SignatureOk(r.nodes, v) {
      if v in w.valid {
        assert SignatureOk(w.nodes, v);
      } else if SignedBefore(w.valid, id, data) {
        var u :| u in w.valid && u.0 == id && u.1 == data;
        assert SignatureOk(w.nodes, u);
      }
    }
  }

  lemma {:induction false} RunKeeps(honest: set<Id>, t: int, es: seq<Event>)
    ensures Inv(Run(Start(honest, t), es))
  {
    if es != [] {
      var w := Run(Start(honest, t), es[..|es| - 1]);
      RunKeeps(honest, t, es[..|es| - 1]);
      match es[|es| - 1]
      case Deliver(id, f, o) => if id in w.nodes && FreshTurn(w.nodes[id], f, w.valid, o) { DeliverKeeps(w, id, f, o); }
      case Forge(id, data, sig) => ForgeKeeps(w, id, data, sig);
    } else {
      var w := Start(honest, t);
      forall i | i in w.nodes ensures NodeOk(w, i) {
        assert w.nodes[i] == NewNode(i, t);
      }
    }
  }

  // ---------------------------------------------------------------- the guarantees

  /** Honest signer i sent a share for bundle b. */
  predicate SharedFor(w: World, i: Id, b: Bundle) {
    i in w.nodes && exists k :: 0 <= k < |w.nodes[i].log.shares| && w.nodes[i].log.shares[k].1 == b
  }

  /**
   If an honest signer sends a share for `b`, then every entry of `b` under the name of an
   honest signer j is a commitment that j made and signed for exactly the message of `b`,
   after a SIGN_REQ that carried it, and that j signed for no other message.
   */
  lemma MessageAgreement(honest: set<Id>, t: int, es: seq<Event>, i: Id, b: Bundle, k: nat, tbs: Bytes)
    requires SharedFor(Run(Start(honest, t), es), i, b)
    requires k < |b.entries| && b.entries[k].id in Run(Start(honest, t), es).nodes
    ensures var e := b.entries[k];
            var log := Run(Start(honest, t), es).nodes[e.id].log;
            && MadeByMe(log, e.commit) && b.tbs in log.requested
            && ((e.commit, tbs) in log.signed <==> tbs == b.tbs)
  {
    var w := Run(Start(honest, t), es);
    var e := b.entries[k];
    RunKeeps(honest, t, es);
    assert NodeOk(w, i) && NodeOk(w, e.id);
    var x :| 0 <= x < |w.nodes[i].log.shares| && w.nodes[i].log.shares[x].1 == b;
    assert BundleBacked(w.nodes, b) && Backed(w.nodes, e, b.tbs);
    SignedAlone(w.nodes[e.id], e.commit, b.tbs, tbs);
  }

  lemma SignedAlone(nd: Node, c: Bytes, tbs: Bytes, other: Bytes)
    requires NodeInv(nd) && (c, tbs) in nd.log.signed
    ensures (c, other) in nd.log.signed <==> other == tbs
    ensures MadeByMe(nd.log, c) && tbs in nd.log.requested
  {
    var s := nd.log.signed;
    var x :| 0 <= x < |s| && s[x] == (c, tbs);
    if (c, other) in s {
      var y :| 0 <= y < |s| && s[y] == (c, other);
      assert x == y;
    }
  }

  /**
   Hence no two shares of honest signers that rest on one commitment of an honest signer are over different messages.
   */
  lemma NoCommitmentServesTwoMessages(honest: set<Id>, t: int, es: seq<Event>, i: Id, b: Bundle, k: nat, i': Id,
                                      b': Bundle, k': nat)
    requires SharedFor(Run(Start(honest, t), es), i, b) && SharedFor(Run(Start(honest, t), es), i', b')
    requires k < |b.entries| && k' < |b'.entries| && b.entries[k].id in Run(Start(honest, t), es).nodes
    requires b.entries[k].id == b'.entries[k'].id && b.entries[k].commit == b'.entries[k'].commit
    ensures b.tbs == b'.tbs
  {
    MessageAgreement(honest, t, es, i, b, k, b'.tbs);
    MessageAgreement(honest, t, es, i', b', k', b'.tbs);
  }
}
