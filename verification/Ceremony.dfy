/**
 Distributed key generation and share refresh: n signers and the coordinator, joined by FIFO
 channels, under every interleaving. The two ceremonies share their handlers up to the
 points where the code differs, so one model with a mode serves both.

 `up[i]` holds the frames signer i sent and the coordinator has not handled; `down[i]` those
 the coordinator queued for signer i. Packages are named by their author (round 1) or by
 author and addressee (round 2); each is made once, so the name stands for its bytes.
 */
module Ceremony {
  import opened Octets
  import opened Counting

  type Id = int

  datatype Mode = Dkg | Refresh

  datatype Phase = Idle | CollectingR1 | CollectingR2 | Complete

  /** ROUND1_PKG or REFRESH_R1; ROUND2_PKG or REFRESH_R2; R2_COMPLETE; PUB_KEY_PKG or REFRESH_COMPLETE. */
  datatype UpMsg = Round1 | Round2(dst: Id) | R2Complete | Finished

  /** START_*; RELAY_*_R1; RELAY_*_R2; DKG_DONE or REFRESH_FINALIZE; REFRESH_CONFIRMED. */
  datatype DownMsg = StartMsg | RelayR1(src: Id) | RelayR2(src: Id) | AllDone | Confirmed

  /** A signer: ids of the packages it holds, in arrival order, and how often each part ran. */
  datatype Node = Node(started: bool, r1: seq<Id>, r2: seq<Id>,
                       part2Runs: nat, part3Runs: nat, announced: nat, finalized: nat)

  const NEW_NODE: Node := Node(false, [], [], 0, 0, 0, 0)

  datatype Coordinator = Coordinator(members: seq<Id>, phase: Phase, r1: set<Id>, r2Complete: set<Id>,
                                     pub: set<Id>, finishedCount: nat, done: bool, announcements: nat)

  datatype Net = Net(mode: Mode, n: nat, c: Coordinator, nodes: map<Id, Node>,
                     up: map<Id, seq<UpMsg>>, down: map<Id, seq<DownMsg>>)

  // ---------------------------------------------------------------- the signer's handlers

  function Round2For(peers: seq<Id>): (r: seq<UpMsg>)
    ensures |r| == |peers| && forall i :: 0 <= i < |r| ==> r[i] == Round2(peers[i])
  {
    seq(|peers|, i requires 0 <= i < |peers| => Round2(peers[i]))
  }

  function OnRelayR1(mode: Mode, n: nat, nd: Node, src: Id): (Node, seq<UpMsg>) {
    if |nd.r1| >= MAX_SIGNERS then (nd, []) else
    var r1 := nd.r1 + [src];
    if |r1| < n - 1 then (nd.(r1 := r1), [])
    else (nd.(r1 := r1, part2Runs := nd.part2Runs + 1),
          Round2For(r1) + if mode.Refresh? then [R2Complete] else [])
  }

  function OnRelayR2(mode: Mode, n: nat, nd: Node, src: Id): (Node, seq<UpMsg>) {
    if |nd.r2| >= MAX_SIGNERS then (nd, []) else
    var r2 := nd.r2 + [src];
    if mode.Refresh? || |r2| < n - 1 then (nd.(r2 := r2), [])
    else (nd.(r2 := r2, part3Runs := nd.part3Runs + 1), [R2Complete, Finished])
  }

  /** DKG_DONE is only logged; REFRESH_FINALIZE first checks the number of round-2 packages. */
  function OnAllDone(mode: Mode, n: nat, nd: Node): (Node, seq<UpMsg>) {
    var nd1 := nd.(announced := nd.announced + 1);
    if mode.Refresh? && |nd.r2| == n - 1 then (nd1.(finalized := nd.finalized + 1), [Finished])
    else (nd1, [])
  }

  function NodeStep(mode: Mode, n: nat, nd: Node, m: DownMsg): (Node, seq<UpMsg>) {
    match m
    case StartMsg => (nd.(started := true), [Round1])
    case RelayR1(src) => OnRelayR1(mode, n, nd, src)
    case RelayR2(src) => OnRelayR2(mode, n, nd, src)
    case AllDone => OnAllDone(mode, n, nd)
    case Confirmed => (nd, [])
  }

  // ---------------------------------------------------------------- the coordinator's handlers

  /** What a handler queues: for everyone, the relays of all round-1 packages, or for one addressee. */
  datatype Sends = Nothing | ToAll(m: DownMsg) | RelayAllR1 | ToOne(dst: Id, one: DownMsg)

  function OthersR1(members: seq<Id>, self: Id): seq<DownMsg> {
    if members == [] then []
    else (if members[0] != self then [RelayR1(members[0])] else []) + OthersR1(members[1..], self)
  }

  function QueuedFor(c: Coordinator, sends: Sends, j: Id): seq<DownMsg> {
    if j !in c.members then [] else
    match sends
    case Nothing => []
    case ToAll(m) => [m]
    case RelayAllR1 => OthersR1(c.members, j)
    case ToOne(dst, m) => if j == dst then [m] else []
  }

  function OnRegister(n: nat, c: Coordinator, id: Id): (Coordinator, Sends) {
    var c1 := c.(members := [id] + c.members);
    if c.phase.Idle? && |c1.members| >= n then (c1.(phase := CollectingR1), ToAll(StartMsg)) else (c1, Nothing)
  }

  function OnRound1(n: nat, c: Coordinator, from: Id): (Coordinator, Sends) {
    if !c.phase.CollectingR1? then (c, Nothing) else
    var c1 := c.(r1 := c.r1 + {from});
    if |c1.r1| < n then (c1, Nothing) else (c1.(phase := CollectingR2), RelayAllR1)
  }

  function OnR2Complete(n: nat, c: Coordinator, from: Id): (Coordinator, Sends) {
    if from in c.r2Complete then (c, Nothing) else
    var c1 := c.(r2Complete := c.r2Complete + {from});
    if |c1.r2Complete| < n then (c1, Nothing)
    else (c1.(phase := Complete, announcements := c.announcements + 1), ToAll(AllDone))
  }

  function OnFinished(mode: Mode, n: nat, c: Coordinator, from: Id): (Coordinator, Sends) {
    var c1 := c.(pub := c.pub + {from}, finishedCount := c.finishedCount + 1);
    if c1.finishedCount < n then (c1, Nothing)
    else (c1.(done := true), if mode.Refresh? then ToAll(Confirmed) else Nothing)
  }

  function CoordStep(mode: Mode, n: nat, c: Coordinator, from: Id, m: UpMsg): (Coordinator, Sends) {
    match m
    case Round1 => OnRound1(n, c, from)
    case Round2(dst) => (c, ToOne(dst, RelayR2(from)))
    case R2Complete => OnR2Complete(n, c, from)
    case Finished => OnFinished(mode, n, c, from)
  }

  // ---------------------------------------------------------------- the network

  datatype Event = Register(id: Id) | DeliverUp(id: Id) | DeliverDown(id: Id)

  function Apply(s: Net, r: (Coordinator, Sends)): Net {
    s.(c := r.0, down := map j | j in s.down :: s.down[j] + QueuedFor(r.0, r.1, j))
  }

  /** An event that cannot happen (an id taken, an empty channel) changes nothing. */
  function Step(s: Net, e: Event): Net {
    match e
    case Register(id) =>
      if 1 <= id <= s.n && id !in s.c.members then Apply(s, OnRegister(s.n, s.c, id)) else s
    case DeliverUp(id) =>
      if id in s.up && s.up[id] != [] && id in s.c.members
      then Apply(s.(up := s.up[id := s.up[id][1..]]), CoordStep(s.mode, s.n, s.c, id, s.up[id][0]))
      else s
    case DeliverDown(id) =>
      if id in s.down && id in s.up && id in s.nodes && s.down[id] != [] then
        var r := NodeStep(s.mode, s.n, s.nodes[id], s.down[id][0]);
        s.(down := s.down[id := s.down[id][1..]], nodes := s.nodes[id := r.0], up := s.up[id := s.up[id] + r.1])
      else s
  }

  function Run(s: Net, es: seq<Event>): Net {
    if es == [] then s else Step(Run(s, es[..|es| - 1]), es[|es| - 1])
  }

  function Start(mode: Mode, n: nat): Net {
    Net(mode, n, Coordinator([], Idle, {}, {}, {}, 0, false, 0),
        map i | i in Upto(n) :: NEW_NODE, map i | i in Upto(n) :: [], map i | i in Upto(n) :: [])
  }
}
