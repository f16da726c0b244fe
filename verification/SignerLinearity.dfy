/**
 Nonces and commitments are linear: over every sequence of coordinator frames, every
 set of valid signatures and every pattern of successes and failures of `frost_commit`,
 `assemble` and `frost_sign`, including commitments made ahead.
 */
module SignerLinearity {
  import opened Octets
  import opened Bundles
  import opened SignerModel

  predicate NonceUsed(log: Log, nonce: Bytes) {
    exists k :: 0 <= k < |log.shares| && log.shares[k].0 == nonce
  }

  predicate CommitSigned(log: Log, c: Bytes) {
    exists k :: 0 <= k < |log.signed| && log.signed[k].0 == c
  }

  predicate WasGenerated(log: Log, nonce: Bytes, c: Bytes) {
    (nonce, c) in log.generated
  }

  /** Commitment of the entry that carries `id`. */
  predicate HasOwn(b: Bundle, id: Id, c: Bytes) {
    exists i :: 0 <= i < |b.entries| && b.entries[i].id == id && b.entries[i].commit == c
  }

  /** No nonce is made twice, and no commitment either. */
  predicate GeneratedOnce(log: Log) {
    forall i, j :: 0 <= i < j < |log.generated| ==>
      log.generated[i].0 != log.generated[j].0 && log.generated[i].1 != log.generated[j].1
  }

  /** Each nonce is in at most one share. */
  predicate NoncesLinear(log: Log) {
    forall i, j :: 0 <= i < j < |log.shares| ==> log.shares[i].0 != log.shares[j].0
  }

  /** Each commitment is signed at most once, so with at most one message. */
  predicate CommitsLinear(log: Log) {
    forall i, j :: 0 <= i < j < |log.signed| ==> log.signed[i].0 != log.signed[j].0
  }

  /** A share's nonce was made together with the commitment its bundle shows for the node. */
  ghost predicate ShareMatches(log: Log, id: Id, sh: (Bytes, Bundle)) {
    exists c :: WasGenerated(log, sh.0, c) && HasOwn(sh.1, id, c)
  }

  predicate MadeByMe(log: Log, c: Bytes) {
    exists g :: g in log.generated && g.1 == c
  }

  ghost predicate LogOk(id: Id, log: Log) {
    && GeneratedOnce(log) && NoncesLinear(log) && CommitsLinear(log)
    && (forall k :: 0 <= k < |log.shares| ==> ShareMatches(log, id, log.shares[k]))
    && (forall k :: 0 <= k < |log.signed| ==> MadeByMe(log, log.signed[k].0) && log.signed[k].1 in log.requested)
    && (forall k :: 0 <= k < |log.signed| ==> |log.signed[k].1| <= MAX_PAYLOAD)
  }

  /** The live nonce is unused and belongs to the live commitment; a commitment made ahead is unsigned. */
  ghost predicate NodeInv(nd: Node) {
    && LogOk(nd.id, nd.log)
    && (nd.nonces != [] ==> WasGenerated(nd.log, nd.nonces, nd.commit) && !NonceUsed(nd.log, nd.nonces))
    && (nd.precomputed ==> MadeByMe(nd.log, nd.commit) && !CommitSigned(nd.log, nd.commit))
    && |nd.commit| <= MAX_PAYLOAD
  }

  lemma LogKeepsGenerated(id: Id, log: Log, g: (Bytes, Bytes))
    requires LogOk(id, log) && forall x :: x in log.generated ==> x.0 != g.0 && x.1 != g.1
    ensures LogOk(id, log.(generated := log.generated + [g]))
  {
    var r := log.(generated := log.generated + [g]);
    forall k | 0 <= k < |r.shares| ensures ShareMatches(r, id, r.shares[k]) {
      var c :| WasGenerated(log, log.shares[k].0, c) && HasOwn(log.shares[k].1, id, c);
      assert WasGenerated(r, log.shares[k].0, c);
    }
    forall k | 0 <= k < |r.signed| ensures MadeByMe(r, r.signed[k].0) {
      assert MadeByMe(log, log.signed[k].0);
      var x :| x in log.generated && x.1 == log.signed[k].0;
      assert x in r.generated;
    }
  }

  /** A newly made pair is neither used nor signed. */
  lemma NewIsUnused(id: Id, log: Log, g: (Bytes, Bytes))
    requires LogOk(id, log) && forall x :: x in log.generated ==> x.0 != g.0 && x.1 != g.1
    ensures !NonceUsed(log, g.0) && !CommitSigned(log, g.1)
  {
    forall k | 0 <= k < |log.shares| ensures log.shares[k].0 != g.0 {
      assert ShareMatches(log, id, log.shares[k]);
      var c :| WasGenerated(log, log.shares[k].0, c) && HasOwn(log.shares[k].1, id, c);
      assert (log.shares[k].0, c) in log.generated;
    }
    forall k | 0 <= k < |log.signed| ensures log.signed[k].0 != g.1 {
      assert MadeByMe(log, log.signed[k].0);
    }
  }

  lemma GenerateKeeps(nd: Node, made: CommitResult)
    requires NodeInv(nd) && !nd.precomputed && FreshPair(nd.log, made)
    requires made.Broken? ==> |made.garbage| == |nd.commit|
    ensures NodeInv(Generate(nd, made))
    ensures made.Made? ==>
      MadeByMe(Generate(nd, made).log, made.commitment) && !CommitSigned(Generate(nd, made).log, made.commitment)
  {
    if made.Made? {
      var g := (made.nonce, made.commitment);
      NewIsUnused(nd.id, nd.log, g);
      LogKeepsGenerated(nd.id, nd.log, g);
      var r := Generate(nd, made);
      assert g in r.log.generated;
      assert !NonceUsed(r.log, made.nonce);
      assert !CommitSigned(r.log, made.commitment);
    }
  }

  lemma RequestKeeps(nd: Node, tbs: Bytes)
    requires NodeInv(nd)
    ensures NodeInv(TakeRequest(nd, tbs))
    ensures nd.precomputed ==> !CommitSigned(TakeRequest(nd, tbs).log, nd.commit)
  {
    var r := TakeRequest(nd, tbs);
    forall k | 0 <= k < |r.log.shares| ensures ShareMatches(r.log, nd.id, r.log.shares[k]) {
      var c :| WasGenerated(nd.log, nd.log.shares[k].0, c) && HasOwn(nd.log.shares[k].1, nd.id, c);
      assert WasGenerated(r.log, r.log.shares[k].0, c);
    }
    assert forall k :: 0 <= k < |r.log.signed| ==> MadeByMe(nd.log, r.log.signed[k].0);
  }

  lemma SignKeeps(nd: Node, sig: Bytes)
    requires NodeInv(nd) && MadeByMe(nd.log, nd.commit) && !CommitSigned(nd.log, nd.commit)
    requires nd.tbs in nd.log.requested && |nd.tbs| <= MAX_PAYLOAD
    ensures NodeInv(SignCommit(nd, sig).nd)
  {
    var r := SignCommit(nd, sig).nd;
    forall k | 0 <= k < |r.log.shares| ensures ShareMatches(r.log, nd.id, r.log.shares[k]) {
      var c :| WasGenerated(nd.log, nd.log.shares[k].0, c) && HasOwn(nd.log.shares[k].1, nd.id, c);
      assert WasGenerated(r.log, r.log.shares[k].0, c);
    }
    forall k | 0 <= k < |r.log.signed| ensures MadeByMe(r.log, r.log.signed[k].0) {
      assert MadeByMe(nd.log, r.log.signed[k].0);
    }
  }

  lemma SignReqKeeps(nd: Node, tbs: Bytes, o: Oracle)
    requires NodeInv(nd) && FreshPair(nd.log, o.made) && (o.made.Broken? ==> |o.made.garbage| == |nd.commit|)
    ensures NodeInv(OnSignReq(nd, tbs, o).nd)
  {
    var nd1 := TakeRequest(nd, tbs);
    RequestKeeps(nd, tbs);
    if nd.precomputed {
      if |tbs| <= MAX_PAYLOAD {
        SignKeeps(nd1, o.sig);
      }
    } else {
      GenerateKeeps(nd1, o.made);
      if o.made.Made? && |tbs| <= MAX_PAYLOAD {
        SignKeeps(Generate(nd1, o.made), o.sig);
      }
    }
  }

  lemma EmitKeeps(nd: Node, b: Bundle)
    requires NodeInv(nd) && nd.nonces != [] && HasOwn(b, nd.id, nd.commit)
    ensures NodeInv(nd.(nonces := [], state := Complete, log := nd.log.(shares := nd.log.shares + [(nd.nonces, b)])))
  {
    var log := nd.log.(shares := nd.log.shares + [(nd.nonces, b)]);
    forall k | 0 <= k < |log.shares| ensures ShareMatches(log, nd.id, log.shares[k]) {
      if k < |nd.log.shares| {
        var c :| WasGenerated(nd.log, nd.log.shares[k].0, c) && HasOwn(nd.log.shares[k].1, nd.id, c);
        assert WasGenerated(log, log.shares[k].0, c);
      } else {
        assert WasGenerated(log, nd.nonces, nd.commit);
      }
    }
    assert forall k :: 0 <= k < |log.signed| ==> MadeByMe(nd.log, log.signed[k].0);
    if nd.precomputed {
      assert MadeByMe(nd.log, nd.commit) && !CommitSigned(nd.log, nd.commit);
    }
  }

  lemma RelayKeeps(nd: Node, payload: Bytes, valid: Signatures, o: Oracle)
    requires NodeInv(nd)
    ensures NodeInv(OnRelayCommit(nd, payload, valid, o).nd)
  {
    if Accepts(nd, payload, valid) && nd.nonces != [] {
      var b := Unpack(payload).value;
      assert HasOwn(b, nd.id, nd.commit);
      EmitKeeps(nd, b);
    }
  }

  lemma OtherKeeps(nd: Node, t: int, hasKey: bool, signMode: bool, state: State)
    requires NodeInv(nd)
    ensures NodeInv(nd.(t := t, hasKey := hasKey, signMode := signMode, state := state))
  {
  }

  lemma AheadKeeps(nd: Node, made: CommitResult)
    requires NodeInv(nd) && FreshPair(nd.log, made) && (made.Broken? ==> |made.garbage| == |nd.commit|)
    ensures NodeInv(Precompute(nd, made))
  {
    if !nd.precomputed {
      GenerateKeeps(nd, made);
    }
  }

  lemma TurnKeeps(nd: Node, f: Frame, valid: Signatures, o: Oracle)
    requires NodeInv(nd) && FreshTurn(nd, f, valid, o)
    ensures NodeInv(Turn(nd, f, valid, o).nd)
  {
    match f {
      case SignReq(tbs) => SignReqKeeps(nd, tbs, o);
      case RelayCommit(payload) => RelayKeeps(nd, payload, valid, o);
      case Other(t, hasKey, signMode, state) => OtherKeeps(nd, t, hasKey, signMode, state);
    }
    AheadKeeps(OnFrame(nd, f, valid, o).nd, o.madeAhead);
  }

  // ---------------------------------------------------------------- runs of one node

  datatype Input = Input(f: Frame, valid: Signatures, o: Oracle)

  function RunNode(nd: Node, ins: seq<Input>): Node {
    if ins == [] then nd else
    var x := ins[|ins| - 1];
    Turn(RunNode(nd, ins[..|ins| - 1]), x.f, x.valid, x.o).nd
  }

  /** `frost_commit` returned fresh values all along. */
  predicate FreshRun(nd: Node, ins: seq<Input>) {
    ins == [] ||
    (var x := ins[|ins| - 1];
     FreshRun(nd, ins[..|ins| - 1]) && FreshTurn(RunNode(nd, ins[..|ins| - 1]), x.f, x.valid, x.o))
  }

  lemma {:induction false} RunKeeps(id: Id, t: int, ins: seq<Input>)
    requires FreshRun(NewNode(id, t), ins)
    ensures NodeInv(RunNode(NewNode(id, t), ins))
    ensures RunNode(NewNode(id, t), ins).id == id
  {
    if ins != [] {
      var x := ins[|ins| - 1];
      RunKeeps(id, t, ins[..|ins| - 1]);
      TurnKeeps(RunNode(NewNode(id, t), ins[..|ins| - 1]), x.f, x.valid, x.o);
    }
  }

  /** No two shares a node ever sends use the same nonce; each uses the nonce of the commitment it shows. */
  lemma NonceUsedOnce(id: Id, t: int, ins: seq<Input>, i: nat, j: nat)
    requires FreshRun(NewNode(id, t), ins)
    requires var log := RunNode(NewNode(id, t), ins).log; i < |log.shares| && j < |log.shares|
    ensures var log := RunNode(NewNode(id, t), ins).log;
            && (log.shares[i].0 == log.shares[j].0 ==> i == j)
            && ShareMatches(log, id, log.shares[i])
  {
    RunKeeps(id, t, ins);
  }

  /** A commitment is signed with one message only, one that a SIGN_REQ carried. */
  lemma CommitmentSignedOnce(id: Id, t: int, ins: seq<Input>, i: nat, j: nat)
    requires FreshRun(NewNode(id, t), ins)
    requires var log := RunNode(NewNode(id, t), ins).log; i < |log.signed| && j < |log.signed|
    ensures var log := RunNode(NewNode(id, t), ins).log;
            && (log.signed[i].0 == log.signed[j].0 ==> i == j)
            && log.signed[i].1 in log.requested && MadeByMe(log, log.signed[i].0)
  {
    RunKeeps(id, t, ins);
  }
}
