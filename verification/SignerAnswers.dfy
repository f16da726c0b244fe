/**
 How a signer answers a SIGN_REQ, exactly, and what the commitment made ahead is good for: after a share the next
 request is answered with it, whatever `frost_commit` does then; and it is only made in sign mode.
 */
module SignerAnswers {
  import opened Octets
  import opened Bundles
  import opened SignerModel
  import opened SignerLinearity
  import opened SignerBundles

  // ---------------------------------------------------------------- one request

  /** The commitment a request would be answered with, if there is one. */
  function Offer(nd: Node, o: Oracle): Option<Bytes> {
    if nd.precomputed then Some(nd.commit)
    else if o.made.Made? then Some(o.made.commitment) else None
  }

  /** The request can be answered: there is a key, a commitment, and room for both in the signed buffer. */
  predicate Answerable(nd: Node, tbs: Bytes, o: Oracle) {
    && (nd.hasKey || o.loads) && |tbs| <= MAX_PAYLOAD
    && Offer(nd, o).Some? && 2 + |tbs| + |Offer(nd, o).value| <= SIGN_BUF_MAX
  }

  /** What a SIGN_REQ is answered with, exactly. */
  lemma RequestAnswer(nd: Node, tbs: Bytes, valid: Signatures, o: Oracle)
    ensures Turn(nd, SignReq(tbs), valid, o).out ==
            if !nd.hasKey && !o.loads then [LoadFailMsg]
            else if Answerable(nd, tbs, o) then [CommitMsg(Offer(nd, o).value, o.sig)]
            else []
  {
  }

  /** And what it leaves behind when it is answered: the message, and a commitment that is signed for it and spent. */
  lemma AnsweredNode(nd: Node, tbs: Bytes, valid: Signatures, o: Oracle)
    requires Answerable(nd, tbs, o)
    ensures var r := Turn(nd, SignReq(tbs), valid, o).nd;
            && r.tbs == tbs && r.commit == Offer(nd, o).value && r.hasKey && !r.precomputed && r.state.Signing?
            && r.nonces == (if nd.precomputed then nd.nonces else o.made.nonce)
            && r.log.signed == nd.log.signed + [(r.commit, tbs)] && r.log.requested == nd.log.requested + [tbs]
  {
  }

  // ---------------------------------------------------------------- made ahead

  /** After a share was sent in sign mode, the next request gets the commitment made ahead. */
  lemma AheadServes(nd: Node, f: Frame, valid: Signatures, o: Oracle, tbs: Bytes, valid2: Signatures, o2: Oracle)
    requires Sends(nd, f, valid, o) && nd.signMode && !nd.precomputed && o.madeAhead.Made?
    requires |tbs| <= MAX_PAYLOAD && 2 + |tbs| + |o.madeAhead.commitment| <= SIGN_BUF_MAX
    ensures var r := Turn(nd, f, valid, o).nd;
            && r.precomputed && r.commit == o.madeAhead.commitment && r.nonces == o.madeAhead.nonce
            && Turn(r, SignReq(tbs), valid2, o2).out == [CommitMsg(o.madeAhead.commitment, o2.sig)]
            && Turn(r, SignReq(tbs), valid2, o2).nd.nonces == o.madeAhead.nonce
  {
    SendsIff(nd, f, valid, o);
    ShareLeaves(nd, f, valid, o);
    var r := Turn(nd, f, valid, o).nd;
    RequestAnswer(r, tbs, valid2, o2);
    AnsweredNode(r, tbs, valid2, o2);
  }

  lemma ShareLeaves(nd: Node, f: Frame, valid: Signatures, o: Oracle)
    requires Ready(nd, f, valid, o) && nd.signMode && !nd.precomputed && o.madeAhead.Made?
    ensures var r := Turn(nd, f, valid, o).nd;
            r.precomputed && r.hasKey && r.commit == o.madeAhead.commitment && r.nonces == o.madeAhead.nonce
  {
    AcceptsIff(nd, f.payload, valid);
  }

  /** An idle signer in sign mode is ready for the first request in the same way. */
  lemma IdleIsReady(nd: Node, f: Frame, valid: Signatures, o: Oracle)
    requires f.Other? && f.signMode && f.state.Idle? && !nd.precomputed && o.madeAhead.Made?
    ensures var r := Turn(nd, f, valid, o).nd;
            r.precomputed && r.commit == o.madeAhead.commitment && r.nonces == o.madeAhead.nonce
  {
  }

  /** Sign mode was switched on at some point. */
  predicate SwitchedOn(ins: seq<Input>) {
    exists k :: 0 <= k < |ins| && ins[k].f.Other? && ins[k].f.signMode
  }

  lemma TurnSwitches(nd: Node, f: Frame, valid: Signatures, o: Oracle)
    requires !nd.signMode && !nd.precomputed && !(f.Other? && f.signMode)
    ensures var r := Turn(nd, f, valid, o).nd; !r.signMode && !r.precomputed
  {
  }

  /** Over every run: nothing is made ahead before sign mode. */
  lemma {:induction false} AheadNeedsSignMode(id: Id, t: int, ins: seq<Input>)
    requires !SwitchedOn(ins)
    ensures var nd := RunNode(NewNode(id, t), ins); !nd.signMode && !nd.precomputed
  {
    if ins != [] {
      var init, x := ins[..|ins| - 1], ins[|ins| - 1];
      assert forall k :: 0 <= k < |init| ==> init[k] == ins[k];
      AheadNeedsSignMode(id, t, init);
      TurnSwitches(RunNode(NewNode(id, t), init), x.f, x.valid, x.o);
    }
  }
}
