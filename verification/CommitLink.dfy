/**
 One signer and its two channels: what can be on the way while the coordinator holds its
 commitment, waits for a new one, or has it in a session.
 */
module CommitLink {
  import opened Octets
  import opened Bundles
  import opened Roast
  import opened RoastCoherence
  import SM = SignerModel
  import SL = SignerLinearity
  import opened SignSystem

  // ---------------------------------------------------------------- the frames that matter

  predicate Matters(m: Msg) {
    m.SignReq? || m.RelayCommit?
  }

  function Down(q: seq<Msg>): seq<Msg> {
    if q == [] then [] else (if Matters(q[0]) then [q[0]] else []) + Down(q[1..])
  }

  function Up(q: seq<SM.UpMsg>): seq<SM.UpMsg> {
    if q == [] then [] else (if q[0].LoadFailMsg? then [] else [q[0]]) + Up(q[1..])
  }

  lemma {:induction false} DownAppend(q: seq<Msg>, m: Msg)
    ensures Down(q + [m]) == Down(q) + if Matters(m) then [m] else []
  {
    if q != [] {
      DownAppend(q[1..], m);
      assert (q + [m])[1..] == q[1..] + [m];
    }
  }

  lemma {:induction false} UpAppend(q: seq<SM.UpMsg>, out: seq<SM.UpMsg>)
    ensures Up(q + out) == Up(q) + Up(out)
  {
    if q == [] {
      assert q + out == out;
    } else {
      var first := if q[0].LoadFailMsg? then [] else [q[0]];
      assert (q + out)[0] == q[0] && (q + out)[1..] == q[1..] + out;
      assert Up(q + out) == first + Up(q[1..] + out);
      UpAppend(q[1..], out);
      assert first + (Up(q[1..]) + Up(out)) == (first + Up(q[1..])) + Up(out);
    }
  }

  // ---------------------------------------------------------------- the link

  /**
   The node can answer a bundle that shows `p`: commitment, message and unused nonces are still the ones it signed.
   */
  predicate Live(tbs: Bytes, nd: SM.Node, p: Bytes, g: Bytes, valid: SM.Signatures) {
    && nd.hasKey && nd.state.Signing? && !nd.precomputed && nd.nonces != []
    && nd.commit == p && nd.tbs == tbs
    && SM.Authentic(Entry(nd.id, p, g), tbs, valid)
  }

  /** The node will answer this very bundle. */
  predicate Ready(nd: SM.Node, b: Bundle, valid: SM.Signatures) {
    && WellFormed(b) && nd.hasKey && nd.state.Signing? && !nd.precomputed && nd.nonces != []
    && SM.Checks(nd, b, valid)
  }

  predicate OnlyShare(u: seq<SM.UpMsg>) {
    u == [] || (|u| == 1 && u[0].ShareMsg?)
  }

  predicate EndsInCommit(u: seq<SM.UpMsg>) {
    u != [] && u[|u| - 1].CommitMsg? && OnlyShare(u[..|u| - 1])
  }

  predicate Relaying(nd: SM.Node, d: seq<Msg>, valid: SM.Signatures) {
    d != [] && d[0].RelayCommit? && Ready(nd, d[0].bundle, valid)
  }

  /** In a session: the bundle is on its way, or was answered or ignored. */
  predicate InSessionShape(nd: SM.Node, d: seq<Msg>, u: seq<SM.UpMsg>, valid: SM.Signatures) {
    || (d == [] && OnlyShare(u))
    || (|d| == 1 && u == [] && Relaying(nd, d, valid))
  }

  /** The coordinator waits for a commitment. */
  predicate WaitingShape(tbs: Bytes, nd: SM.Node, d: seq<Msg>, u: seq<SM.UpMsg>, valid: SM.Signatures) {
    || (|d| == 2 && d[1] == SignReq(tbs) && u == [] && Relaying(nd, d, valid))
    || (d == [SignReq(tbs)] && OnlyShare(u))
    || (d == [] && OnlyShare(u))
    || (d == [] && EndsInCommit(u) && Live(tbs, nd, u[|u| - 1].payload, u[|u| - 1].sig, valid))
  }

  predicate Shape(tbs: Bytes, sg: Signer, nd: SM.Node, d: seq<Msg>, u: seq<SM.UpMsg>, valid: SM.Signatures) {
    if sg.sessionId != 0 then !Free(sg) && InSessionShape(nd, d, u, valid)
    else if sg.commit != [] then d == [] && u == [] && Live(tbs, nd, sg.commit, sg.commitSig, valid)
    else WaitingShape(tbs, nd, d, u, valid)
  }

  ghost predicate Link(tbs: Bytes, t: int, sg: Signer, nd: SM.Node, u: seq<SM.UpMsg>, valid: SM.Signatures) {
    && nd.id == sg.id && nd.t == t && SL.NodeInv(nd) && (nd.precomputed ==> nd.nonces != [])
    && Shape(tbs, sg, nd, Down(sg.msgq), Up(u), valid)
  }

  // ---------------------------------------------------------------- more signatures

  lemma ReadyGrows(nd: SM.Node, b: Bundle, v: SM.Signatures, w: SM.Signatures)
    requires Ready(nd, b, v) && v <= w
    ensures Ready(nd, b, w)
  {
    assert forall i :: 0 <= i < |b.entries| && SM.Authentic(b.entries[i], b.tbs, v) ==>
      SM.Authentic(b.entries[i], b.tbs, w);
  }

  lemma ShapeGrows(tbs: Bytes, sg: Signer, nd: SM.Node, d: seq<Msg>, u: seq<SM.UpMsg>, v: SM.Signatures,
                   w: SM.Signatures)
    requires Shape(tbs, sg, nd, d, u, v) && v <= w
    ensures Shape(tbs, sg, nd, d, u, w)
  {
    if d != [] && d[0].RelayCommit? && Ready(nd, d[0].bundle, v) {
      ReadyGrows(nd, d[0].bundle, v, w);
    }
  }

  // ---------------------------------------------------------------- the coordinator's side of the link

  /** A member of a session that ends is asked for a new commitment. */
  lemma RenewLinks(tbs: Bytes, t: int, sg: Signer, nd: SM.Node, u: seq<SM.UpMsg>, valid: SM.Signatures, phase: Phase)
    requires Link(tbs, t, sg, nd, u, valid) && sg.sessionId != 0
    ensures Link(tbs, t, Renew(sg, phase, tbs), nd, u, valid)
  {
    DownAppend(sg.msgq, SignReq(tbs));
  }

  /** A change of phase that frees nobody. */
  lemma PhaseLinks(tbs: Bytes, t: int, sg: Signer, nd: SM.Node, u: seq<SM.UpMsg>, valid: SM.Signatures, phase: Phase)
    requires Link(tbs, t, sg, nd, u, valid) && !Free(sg.(phase := phase))
    ensures Link(tbs, t, sg.(phase := phase), nd, u, valid)
  {
  }

  lemma NoticeLinks(tbs: Bytes, t: int, sg: Signer, nd: SM.Node, u: seq<SM.UpMsg>, valid: SM.Signatures)
    requires Link(tbs, t, sg, nd, u, valid)
    ensures Link(tbs, t, sg.(msgq := sg.msgq + [CertOutput]), nd, u, valid)
  {
    DownAppend(sg.msgq, CertOutput);
  }

  /** A chosen signer gets a bundle it is ready for. */
  lemma JoinLinks(tbs: Bytes, t: int, sg: Signer, nd: SM.Node, u: seq<SM.UpMsg>, valid: SM.Signatures, sid: nat,
                  b: Bundle)
    requires Link(tbs, t, sg, nd, u, valid) && sg.sessionId == 0 && sg.commit != [] && sid != 0 && Ready(nd, b, valid)
    ensures Link(tbs, t, sg.(phase := InSession, sessionId := sid, msgq := sg.msgq + [RelayCommit(b)]), nd, u, valid)
  {
    DownAppend(sg.msgq, RelayCommit(b));
  }

  // ---------------------------------------------------------------- the signer's side of the link

  /** A frame that matters to neither the nonces nor the commitment of a signer that is signing. */
  lemma IdleTurn(nd: SM.Node, m: Msg, valid: SM.Signatures, ignored: bool, o: SM.Oracle)
    requires ignored || !Matters(m)
    ensures var r := TurnOf(nd, m, valid, ignored, o);
            && r.out == [] && r.nd.id == nd.id && r.nd.t == nd.t && (nd.hasKey ==> r.nd.hasKey)
            && (nd.state.Signing? ==> r.nd == nd.(hasKey := r.nd.hasKey, signMode := r.nd.signMode))
            && Up(SentOn(nd, m, valid, ignored, o)) == []
  {
    var out := SentOn(nd, m, valid, ignored, o);
    assert out == [] || out == [SM.LoadFailMsg];
  }

  /** Whatever is live or ready stays so when nothing but the key and the mode change. */
  lemma StillShaped(tbs: Bytes, sg: Signer, sg2: Signer, nd: SM.Node, nd2: SM.Node, d: seq<Msg>, u: seq<SM.UpMsg>,
                    valid: SM.Signatures)
    requires Shape(tbs, sg, nd, d, u, valid)
    requires sg2 == sg.(msgq := sg2.msgq) && nd2.id == nd.id && nd2.t == nd.t && (nd.hasKey ==> nd2.hasKey)
    requires nd.state.Signing? ==> nd2 == nd.(hasKey := nd2.hasKey, signMode := nd2.signMode)
    ensures Shape(tbs, sg2, nd2, d, u, valid)
  {
    if d != [] && d[0].RelayCommit? && Ready(nd, d[0].bundle, valid) {
      assert Ready(nd2, d[0].bundle, valid);
    }
  }

  /** A frame the signer ignores is as good as answered: nothing is lost but the answer. */
  lemma IgnoredShape(tbs: Bytes, sg: Signer, nd: SM.Node, d: seq<Msg>, u: seq<SM.UpMsg>, valid: SM.Signatures)
    requires Shape(tbs, sg, nd, d, u, valid) && d != []
    ensures Shape(tbs, sg, nd, d[1..], u, valid)
  {
  }

  lemma AheadNonces(nd: SM.Node, made: SM.CommitResult)
    requires (nd.precomputed ==> nd.nonces != []) && SM.FreshPair(nd.log, made)
    ensures var r := SM.Precompute(nd, made); r.precomputed ==> r.nonces != []
  {
  }

  /** A bundle that comes to a signer ready for it passes every check. */
  lemma ReadyAccepts(nd: SM.Node, b: Bundle, valid: SM.Signatures)
    requires Ready(nd, b, valid)
    ensures SM.Accepts(nd, Pack(b), valid)
  {
    UnpackInvertsPack(b, []);
    assert Pack(b) + [] == Pack(b);
  }

  lemma RelayTurn(tbs: Bytes, sg: Signer, nd: SM.Node, d: seq<Msg>, u: seq<SM.UpMsg>, valid: SM.Signatures,
                  o: SM.Oracle)
    requires Shape(tbs, sg, nd, d, u, valid) && d != [] && d[0].RelayCommit?
    requires SM.FreshTurn(nd, FrameOf(nd, d[0], false, o), valid, o)
    ensures var r := TurnOf(nd, d[0], valid, false, o);
            && Shape(tbs, sg, r.nd, d[1..], u + r.out, valid) && Up(r.out) == r.out
            && r.nd.id == nd.id && r.nd.t == nd.t && (r.nd.precomputed ==> r.nd.nonces != [])
  {
    var r := TurnOf(nd, d[0], valid, false, o);
    assert Ready(nd, d[0].bundle, valid);
    var h := SM.OnFrame(nd, FrameOf(nd, d[0], false, o), valid, o);
    AheadNonces(h.nd, o.madeAhead);
    assert r.out == [] || (|r.out| == 1 && r.out[0].ShareMsg?);
    assert u == [] && u + r.out == r.out;
  }

  lemma SignReqTurn(tbs: Bytes, sg: Signer, nd: SM.Node, d: seq<Msg>, u: seq<SM.UpMsg>, valid: SM.Signatures,
                    o: SM.Oracle)
    requires Shape(tbs, sg, nd, d, u, valid) && d != [] && d[0].SignReq? && (nd.precomputed ==> nd.nonces != [])
    requires SM.FreshTurn(nd, FrameOf(nd, d[0], false, o), valid, o)
    ensures var r := TurnOf(nd, d[0], valid, false, o);
            && Shape(tbs, sg, r.nd, d[1..], u + Up(r.out), valid + Agreement.NewSignatures(r, o.sig))
            && r.nd.id == nd.id && r.nd.t == nd.t && (r.nd.precomputed ==> r.nd.nonces != [])
  {
    var r := TurnOf(nd, d[0], valid, false, o);
    assert sg.sessionId == 0 && sg.commit == [] && d == [SignReq(tbs)] && d[1..] == [];
    var h := SM.OnSignReq(nd, tbs, o);
    AheadNonces(h.nd, o.madeAhead);
    if r.out != [] && r.out[0].CommitMsg? {
      var v := valid + Agreement.NewSignatures(r, o.sig);
      assert r.nd == h.nd && r.out == [SM.CommitMsg(r.nd.commit, o.sig)] && r.nd.tbs == tbs;
      assert (r.nd.id, SM.SignBuf(tbs, r.nd.commit), o.sig) in v;
      assert Live(tbs, r.nd, r.nd.commit, o.sig, v);
      assert Up(r.out) == r.out;
      assert (u + r.out)[..|u|] == u;
    } else {
      assert Up(r.out) == [];
      assert u + [] == u;
    }
  }

  /** A frame that matters, taken by a signer that does not ignore it. */
  lemma BusyLinks(tbs: Bytes, t: int, sg: Signer, nd: SM.Node, u: seq<SM.UpMsg>, valid: SM.Signatures, o: SM.Oracle)
    requires Link(tbs, t, sg, nd, u, valid) && sg.msgq != [] && Matters(sg.msgq[0])
    requires SM.FreshTurn(nd, FrameOf(nd, sg.msgq[0], false, o), valid, o)
    ensures var r := TurnOf(nd, sg.msgq[0], valid, false, o);
            && Shape(tbs, sg, r.nd, Down(sg.msgq[1..]), Up(u) + Up(r.out), valid + Agreement.NewSignatures(r, o.sig))
            && r.nd.id == nd.id && r.nd.t == nd.t && (r.nd.precomputed ==> r.nd.nonces != [])
  {
    var m := sg.msgq[0];
    var r := TurnOf(nd, m, valid, false, o);
    var d := Down(sg.msgq);
    assert d[0] == m && d[1..] == Down(sg.msgq[1..]);
    if m.RelayCommit? {
      RelayTurn(tbs, sg, nd, d, Up(u), valid, o);
      ShapeGrows(tbs, sg, r.nd, d[1..], Up(u) + r.out, valid, valid + Agreement.NewSignatures(r, o.sig));
    } else {
      SignReqTurn(tbs, sg, nd, d, Up(u), valid, o);
    }
  }

  lemma SameShape(tbs: Bytes, sg: Signer, sg2: Signer, nd: SM.Node, d: seq<Msg>, u: seq<SM.UpMsg>, valid: SM.Signatures)
    requires Shape(tbs, sg, nd, d, u, valid) && sg2 == sg.(msgq := sg2.msgq)
    ensures Shape(tbs, sg2, nd, d, u, valid)
  {
  }

  /** One frame taken by the signer keeps its link. */
  lemma TurnLinks(tbs: Bytes, t: int, sg: Signer, nd: SM.Node, u: seq<SM.UpMsg>, valid: SM.Signatures, ignored: bool,
                  o: SM.Oracle)
    requires Link(tbs, t, sg, nd, u, valid) && sg.msgq != []
    requires SM.FreshTurn(nd, FrameOf(nd, sg.msgq[0], ignored, o), valid, o)
    ensures var m := sg.msgq[0];
            var r := TurnOf(nd, m, valid, ignored, o);
            Link(tbs, t, DropHead(sg), r.nd, u + SentOn(nd, m, valid, ignored, o),
                 valid + Agreement.NewSignatures(r, o.sig))
  {
    var m := sg.msgq[0];
    var r := TurnOf(nd, m, valid, ignored, o);
    var out := SentOn(nd, m, valid, ignored, o);
    SL.TurnKeeps(nd, FrameOf(nd, m, ignored, o), valid, o);
    UpAppend(u, out);
    if ignored || !Matters(m) {
      IdleLinks(tbs, t, sg, nd, u, valid, ignored, o);
      assert Up(u) + [] == Up(u);
      ShapeGrows(tbs, DropHead(sg), r.nd, Down(sg.msgq[1..]), Up(u), valid, valid + Agreement.NewSignatures(r, o.sig));
    } else {
      BusyLinks(tbs, t, sg, nd, u, valid, o);
      assert out == r.out;
      SameShape(tbs, sg, DropHead(sg), r.nd, Down(sg.msgq[1..]), Up(u) + Up(out),
                valid + Agreement.NewSignatures(r, o.sig));
    }
  }

  lemma IdleLinks(tbs: Bytes, t: int, sg: Signer, nd: SM.Node, u: seq<SM.UpMsg>, valid: SM.Signatures, ignored: bool,
                  o: SM.Oracle)
    requires Link(tbs, t, sg, nd, u, valid) && sg.msgq != [] && (ignored || !Matters(sg.msgq[0]))
    requires SM.FreshTurn(nd, FrameOf(nd, sg.msgq[0], ignored, o), valid, o)
    ensures var r := TurnOf(nd, sg.msgq[0], valid, ignored, o);
            && Shape(tbs, DropHead(sg), r.nd, Down(sg.msgq[1..]), Up(u), valid)
            && r.out == [] && r.nd.id == nd.id && r.nd.t == nd.t && (r.nd.precomputed ==> r.nd.nonces != [])
            && Up(SentOn(nd, sg.msgq[0], valid, ignored, o)) == []
  {
    var m := sg.msgq[0];
    var r := TurnOf(nd, m, valid, ignored, o);
    var d := Down(sg.msgq);
    IdleTurn(nd, m, valid, ignored, o);
    AheadNonces(SM.OnFrame(nd, FrameOf(nd, m, ignored, o), valid, o).nd, o.madeAhead);
    if Matters(m) {
      IgnoredShape(tbs, sg, nd, d, Up(u), valid);
      assert d[1..] == Down(sg.msgq[1..]);
    } else {
      assert d == Down(sg.msgq[1..]);
    }
    StillShaped(tbs, sg, DropHead(sg), nd, r.nd, Down(sg.msgq[1..]), Up(u), valid);
  }

  // ---------------------------------------------------------------- frames to the coordinator

  lemma TakenShape(tbs: Bytes, sg: Signer, nd: SM.Node, d: seq<Msg>, v: seq<SM.UpMsg>, valid: SM.Signatures)
    requires Shape(tbs, sg, nd, d, v, valid) && v != []
    ensures Shape(tbs, sg, nd, d, v[1..], valid)
    ensures v[0].CommitMsg? ==> && d == [] && |v| == 1 && sg.sessionId == 0
                                && Live(tbs, nd, v[0].payload, v[0].sig, valid)
  {
    if EndsInCommit(v) {
      assert |v| == 1 || (|v| == 2 && v[..1][0] == v[0] && v[0].ShareMsg? && v[1..] == [v[1]]);
    }
  }

  /** Taking the first frame of the channel leaves a link, with what the frame itself says. */
  lemma TakenLinks(tbs: Bytes, t: int, sg: Signer, nd: SM.Node, u: seq<SM.UpMsg>, valid: SM.Signatures)
    requires Link(tbs, t, sg, nd, u, valid) && u != []
    ensures Link(tbs, t, sg, nd, u[1..], valid)
    ensures u[0].CommitMsg? ==> && Down(sg.msgq) == [] && Up(u[1..]) == [] && sg.sessionId == 0
                                && Live(tbs, nd, u[0].payload, u[0].sig, valid)
  {
    var v := Up(u);
    if u[0].LoadFailMsg? {
      assert v == Up(u[1..]);
    } else {
      assert v[0] == u[0] && v[1..] == Up(u[1..]);
      TakenShape(tbs, sg, nd, Down(sg.msgq), v, valid);
    }
  }

  /** A commitment that is stored is the live one. */
  lemma StoredLinks(tbs: Bytes, t: int, sg: Signer, nd: SM.Node, u: seq<SM.UpMsg>, valid: SM.Signatures, p: Bytes,
                    g: Bytes)
    requires Link(tbs, t, sg, nd, u, valid) && Down(sg.msgq) == [] && Up(u) == [] && sg.sessionId == 0 &&
             Live(tbs, nd, p, g, valid)
    ensures Link(tbs, t, sg.(commit := p, commitSig := g, phase := Committed), nd, u, valid)
  {
  }
}
