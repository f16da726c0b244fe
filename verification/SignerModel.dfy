/**
 The signer node in sign mode: the life of a nonce, of its commitment and of the message
 they are bound to, with one function per handler of `frost_signer.c`. The class in
 SignerNode.dfy is proved to compute these functions in place.

 RSA signatures are ideal: `valid` is the set of (signer, data, signature) triples that
 verify. What the node cannot decide itself (whether the key file loads, what
 `frost_commit`, `assemble` and `frost_sign` return) is an `Oracle`.
 */
module SignerModel {
  import opened Octets
  import opened Bundles

  const SIGN_BUF_MAX: int := 2 * MAX_PAYLOAD + 4

  type Id = int

  type Signatures = set<(Id, Bytes, Bytes)>

  datatype State = Idle | CollectingR1 | CollectingR2 | Complete | Signing

  /** What happened so far, oldest first. */
  datatype Log = Log(generated: seq<(Bytes, Bytes)>,   // (nonce, commitment) pairs made by frost_commit
                     requested: seq<Bytes>,            // messages of the SIGN_REQ frames taken
                     signed: seq<(Bytes, Bytes)>,      // (commitment, message) pairs signed
                     shares: seq<(Bytes, Bundle)>)     // (nonce, bundle) of each share sent

  datatype Node = Node(id: Id, t: int, hasKey: bool, signMode: bool, state: State,
                       tbs: Bytes, nonces: Bytes, commit: Bytes, precomputed: bool, log: Log)

  /** COMMIT with its signature, SIG_SHARE, SHARE_LOAD_FAIL. */
  datatype UpMsg = CommitMsg(payload: Bytes, sig: Bytes) | ShareMsg(share: Bytes) | LoadFailMsg

  /** `frost_commit`: new values, or a failure that leaves arbitrary bytes in the commit buffer. */
  datatype CommitResult = Made(nonce: Bytes, commitment: Bytes) | Broken(garbage: Bytes)

  datatype Oracle = Oracle(loads: bool, made: CommitResult, sig: Bytes,
                           assembled: bool, share: Option<Bytes>, madeAhead: CommitResult)

  /** Frames from the coordinator. `Other` stands for every frame that leaves the signing variables alone. */
  datatype Frame =
    | SignReq(tbs: Bytes)
    | RelayCommit(payload: Bytes)
    | Other(t: int, hasKey: bool, signMode: bool, state: State)

  datatype Reply = Reply(nd: Node, out: seq<UpMsg>)

  // ---------------------------------------------------------------- the signed buffer

  /** What is signed for a commitment: the length-prefixed message, then the commitment. */
  function SignBuf(tbs: Bytes, commit: Bytes): (r: Bytes)
    requires |tbs| < U16_LIMIT
    ensures |r| == 2 + |tbs| + |commit|
    ensures |tbs| <= MAX_PAYLOAD && |commit| <= MAX_PAYLOAD ==> |r| <= SIGN_BUF_MAX < U16_LIMIT
  {
    PutU16(|tbs|) + tbs + commit
  }

  /** The prefix leaves no freedom in where the message ends. */
  lemma SignBufInjective(tbs1: Bytes, commit1: Bytes, tbs2: Bytes, commit2: Bytes)
    requires |tbs1| < U16_LIMIT && |tbs2| < U16_LIMIT
    requires SignBuf(tbs1, commit1) == SignBuf(tbs2, commit2)
    ensures tbs1 == tbs2 && commit1 == commit2
  {
    var b1, b2 := SignBuf(tbs1, commit1), SignBuf(tbs2, commit2);
    assert b1[0] == PutU16(|tbs1|)[0] && b1[1] == PutU16(|tbs1|)[1];
    assert b2[0] == PutU16(|tbs2|)[0] && b2[1] == PutU16(|tbs2|)[1];
    assert |tbs1| == GetU16(b1[0], b1[1]) == GetU16(b2[0], b2[1]) == |tbs2|;
    assert tbs1 == b1[2..2 + |tbs1|] == tbs2;
    assert commit1 == b1[2 + |tbs1|..] == b2[2 + |tbs2|..] == commit2;
  }

  // ---------------------------------------------------------------- commitments

  /** Old nonces are wiped first, so a failure leaves none. */
  function Generate(nd: Node, made: CommitResult): Node {
    match made
    case Made(nonce, c) =>
      nd.(nonces := nonce, commit := c, log := nd.log.(generated := nd.log.generated + [(nonce, c)]))
    case Broken(garbage) => nd.(nonces := [], commit := garbage)
  }

  function SignCommit(nd: Node, sig: Bytes): Reply {
    if 2 + |nd.tbs| + |nd.commit| > SIGN_BUF_MAX then Reply(nd, [])
    else Reply(nd.(precomputed := false, log := nd.log.(signed := nd.log.signed + [(nd.commit, nd.tbs)])),
               [CommitMsg(nd.commit, sig)])
  }

  function TakeRequest(nd: Node, tbs: Bytes): Node {
    nd.(hasKey := true, tbs := tbs, state := Signing, log := nd.log.(requested := nd.log.requested + [tbs]))
  }

  function OnSignReq(nd: Node, tbs: Bytes, o: Oracle): Reply {
    if !nd.hasKey && !o.loads then Reply(nd, [LoadFailMsg])
    else if |tbs| > MAX_PAYLOAD then Reply(nd.(hasKey := true), [])
    else
      var nd1 := TakeRequest(nd, tbs);
      if nd.precomputed then SignCommit(nd1, o.sig)
      else if o.made.Broken? then Reply(Generate(nd1, o.made), [])
      else SignCommit(Generate(nd1, o.made), o.sig)
  }

  /** After every frame: a commitment made ahead of the next SIGN_REQ. */
  function Precompute(nd: Node, made: CommitResult): Node {
    if nd.signMode && (nd.state.Idle? || nd.state.Complete?) && !nd.precomputed
    then Generate(nd, made).(precomputed := made.Made?)
    else nd
  }

  // ---------------------------------------------------------------- bundles

  /** The signature of an entry verifies for the bundle's message. */
  predicate Authentic(e: Entry, tbs: Bytes, valid: Signatures) {
    && |tbs| < U16_LIMIT && 2 + |tbs| + |e.commit| <= SIGN_BUF_MAX
    && (e.id, SignBuf(tbs, e.commit), e.sig) in valid
  }

  /** A bundle passes every check before signing. */
  predicate Checks(nd: Node, b: Bundle, valid: Signatures) {
    && |b.entries| == nd.t && DistinctIds(b.entries)
    && (forall i :: 0 <= i < |b.entries| ==> Authentic(b.entries[i], b.tbs, valid))
    && (forall i :: 0 <= i < |b.entries| && b.entries[i].id == nd.id ==> b.entries[i].commit == nd.commit)
    && (exists i :: 0 <= i < |b.entries| && b.entries[i].id == nd.id)
    && b.tbs == nd.tbs
  }

  predicate Accepts(nd: Node, payload: Bytes, valid: Signatures) {
    nd.hasKey && Unpack(payload).Accept? && Checks(nd, Unpack(payload).value, valid)
  }

  /** `frost_sign` fails without nonces; nonces are wiped once the share is queued. */
  function OnRelayCommit(nd: Node, payload: Bytes, valid: Signatures, o: Oracle): Reply {
    if !Accepts(nd, payload, valid) || !o.assembled || nd.nonces == [] || o.share.None? then Reply(nd, [])
    else
      var b := Unpack(payload).value;
      Reply(nd.(nonces := [], state := Complete, log := nd.log.(shares := nd.log.shares + [(nd.nonces, b)])),
            [ShareMsg(o.share.value)])
  }

  function OnFrame(nd: Node, f: Frame, valid: Signatures, o: Oracle): Reply {
    match f
    case SignReq(tbs) => OnSignReq(nd, tbs, o)
    case RelayCommit(payload) => OnRelayCommit(nd, payload, valid, o)
    case Other(t, hasKey, signMode, state) =>
      Reply(nd.(t := t, hasKey := hasKey, signMode := signMode, state := state), [])
  }

  /** One turn of the event loop that takes a whole frame. */
  function Turn(nd: Node, f: Frame, valid: Signatures, o: Oracle): Reply {
    var r := OnFrame(nd, f, valid, o);
    r.(nd := Precompute(r.nd, o.madeAhead))
  }

  function NewNode(id: Id, t: int): Node {
    Node(id, t, false, false, Idle, [], [], [], false, Log([], [], [], []))
  }

  // ---------------------------------------------------------------- what is assumed of frost_commit

  predicate FreshPair(log: Log, made: CommitResult) {
    made.Made? ==>
      && made.nonce != [] && 0 < |made.commitment| <= MAX_PAYLOAD
      && forall g :: g in log.generated ==> g.0 != made.nonce && g.1 != made.commitment
  }

  /** `frost_commit` never repeats a nonce or a commitment of this node, nor exceeds the buffers. */
  predicate FreshTurn(nd: Node, f: Frame, valid: Signatures, o: Oracle) {
    && FreshPair(nd.log, o.made) && FreshPair(OnFrame(nd, f, valid, o).nd.log, o.madeAhead)
    && (o.made.Broken? ==> |o.made.garbage| == |nd.commit|)
    && (o.madeAhead.Broken? ==> |o.madeAhead.garbage| == |OnFrame(nd, f, valid, o).nd.commit|)
  }
}
