/**
 The coordinator and the signers together: `msgq` of each registered signer is its channel
 from the coordinator, `up` its channel to it, both FIFO. Certificate after certificate; a
 signer that leaves does not come back; every failure is attributed. A signer may ignore any
 frame and may send any bytes as a share; a commitment it sends is well signed.
 */
module SignSystem {
  import opened Octets
  import opened Bundles
  import opened Roast
  import RoastCoherence
  import SM = SignerModel
  import Agreement

  datatype Sys = Sys(c: Coord, nodes: map<Id, SM.Node>, up: map<Id, seq<SM.UpMsg>>, valid: SM.Signatures)

  datatype SysEvent =
    | Join(id: Id, n: int, t: int)
    | Leave(id: Id)
    | ToNode(id: Id, ignored: bool, o: SM.Oracle)
    | ToCoord(id: Id, verdict: Verdict, now: int, assembled: bool)
    | Clock(now: int, assembledAfter: set<int>)
    | NewMessage(newTbs: Bytes)

  /** What a signer makes of a frame; an ignored one leaves everything to the loop around it. */
  function FrameOf(nd: SM.Node, m: Msg, ignored: bool, o: SM.Oracle): SM.Frame {
    if ignored then SM.Other(nd.t, nd.hasKey, nd.signMode, nd.state) else
    match m
    case HelloAck => SM.Other(nd.t, nd.hasKey || o.loads, true, nd.state)
    case SignReq(tbs) => SM.SignReq(tbs)
    case RelayCommit(b) => SM.RelayCommit(if BundleShape(b) then Pack(b) else [])
    case CertOutput => SM.Other(nd.t, nd.hasKey, nd.signMode, nd.state)
  }

  function TurnOf(nd: SM.Node, m: Msg, valid: SM.Signatures, ignored: bool, o: SM.Oracle): SM.Reply {
    SM.Turn(nd, FrameOf(nd, m, ignored, o), valid, o)
  }

  /** The frames it sends: HELLO_ACK makes it report a key that does not load. */
  function SentOn(nd: SM.Node, m: Msg, valid: SM.Signatures, ignored: bool, o: SM.Oracle): seq<SM.UpMsg> {
    TurnOf(nd, m, valid, ignored, o).out + if m.HelloAck? && !ignored && !o.loads then [SM.LoadFailMsg] else []
  }

  function DropHead(sg: Signer): Signer {
    if sg.msgq == [] then sg else sg.(msgq := sg.msgq[1..])
  }

  function OnJoin(s: Sys, id: Id, n: int, t: int): Sys {
    var c1 := OnHello(s.c, id, n, t, true);
    if id in s.nodes then s
    else if c1.signers == s.c.signers then s.(c := c1)
    else s.(c := c1, nodes := s.nodes[id := SM.NewNode(id, t)], up := s.up[id := []])
  }

  predicate CanReceive(s: Sys, id: Id) {
    var i := IndexOf(s.c.signers, id);
    i < |s.c.signers| && s.c.signers[i].msgq != [] && id in s.nodes && id in s.up
  }

  /** Signer `id` takes the first frame of its channel. */
  function OnToNode(s: Sys, id: Id, ignored: bool, o: SM.Oracle): Sys
    requires CanReceive(s, id)
  {
    var i := IndexOf(s.c.signers, id);
    var m := s.c.signers[i].msgq[0];
    var nd := s.nodes[id];
    if !SM.FreshTurn(nd, FrameOf(nd, m, ignored, o), s.valid, o) then s else
    var r := TurnOf(nd, m, s.valid, ignored, o);
    Sys(s.c.(signers := s.c.signers[i := DropHead(s.c.signers[i])]),
        s.nodes[id := r.nd],
        s.up[id := s.up[id] + SentOn(nd, m, s.valid, ignored, o)],
        s.valid + Agreement.NewSignatures(r, o.sig))
  }

  function EventOf(id: Id, m: SM.UpMsg, verdict: Verdict, now: int, assembled: bool): Event {
    match m
    case CommitMsg(payload, sig) => Commit(id, payload, sig, now, assembled)
    case ShareMsg(share) => Share(id, share, verdict, now, assembled)
    case LoadFailMsg => LoadFail(id)
  }

  predicate CanSend(s: Sys, id: Id, verdict: Verdict) {
    id in s.up && s.up[id] != [] && Connected(s.c.signers, id) && !RoastCoherence.Unattributed(verdict)
  }

  function OnToCoord(s: Sys, id: Id, verdict: Verdict, now: int, assembled: bool): Sys
    requires CanSend(s, id, verdict)
  {
    s.(c := Roast.Step(s.c, EventOf(id, s.up[id][0], verdict, now, assembled)), up := s.up[id := s.up[id][1..]])
  }

  function Step(s: Sys, e: SysEvent): Sys {
    match e
    case Join(id, n, t) => OnJoin(s, id, n, t)
    case Leave(id) => s.(c := OnDisconnect(s.c, id))
    case ToNode(id, ignored, o) => if CanReceive(s, id) then OnToNode(s, id, ignored, o) else s
    case ToCoord(id, verdict, now, assembled) =>
      if CanSend(s, id, verdict) then OnToCoord(s, id, verdict, now, assembled) else s
    case Clock(now, after) => s.(c := Roast.Step(s.c, Tick(now, after)))
    case NewMessage(newTbs) => s.(c := OnNextCert(s.c, newTbs))
  }

  function Run(s: Sys, es: seq<SysEvent>): Sys {
    if es == [] then s else Step(Run(s, es[..|es| - 1]), es[|es| - 1])
  }

  function Start(n: int, t: int, tbs: Bytes, serial: nat, toMint: nat): Sys {
    Sys(Roast.Start(n, t, tbs, serial, toMint), map[], map[], {})
  }
}
