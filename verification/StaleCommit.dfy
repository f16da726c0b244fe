/**
 Why a new message must wait: a run of two signers with t = 1 in which the second certificate is
 requested while the commitment of signer 2 for the first message is still on its way. The coordinator
 takes it as one for the new message, forms a session on it, and signer 2 refuses the bundle.
 */
module StaleCommit {
  import opened Octets
  import opened Bundles
  import opened Roast
  import opened RoastMinting
  import opened RoastPrompt
  import SM = SignerModel
  import CommitLink
  import opened SignSystem

  const FIRST: Bytes := [1]
  const SECOND: Bytes := [2]

  function Sig(): Bytes {
    Zeros(SIG_SIZE)
  }

  // ---------------------------------------------------------------- one turn of a signer

  /** Coordinator, signers 1 and 2 with their channels; signer 2 registered last, so it comes first. */
  function World(c: Coord, a: SM.Node, b: SM.Node, ua: seq<SM.UpMsg>, ub: seq<SM.UpMsg>, valid: SM.Signatures): Sys {
    Sys(c, map[1 := a, 2 := b], map[1 := ua, 2 := ub], valid)
  }

  predicate Two(c: Coord) {
    |c.signers| == 2 && c.signers[0].id == 2 && c.signers[1].id == 1
  }

  lemma Places(c: Coord)
    requires Two(c)
    ensures IndexOf(c.signers, 2) == 0 && IndexOf(c.signers, 1) == 1
  {
    assert Connected(c.signers, 1) && Connected(c.signers, 2);
  }

  lemma FirstTurns(c: Coord, a: SM.Node, b: SM.Node, ua: seq<SM.UpMsg>, ub: seq<SM.UpMsg>, valid: SM.Signatures,
                   o: SM.Oracle)
    requires Two(c) && c.signers[1].msgq != [] && SM.FreshTurn(a, FrameOf(a, c.signers[1].msgq[0], false, o), valid, o)
    ensures var m := c.signers[1].msgq[0];
            var r := TurnOf(a, m, valid, false, o);
            SignSystem.Step(World(c, a, b, ua, ub, valid), ToNode(1, false, o)) ==
            World(c.(signers := [c.signers[0], DropHead(c.signers[1])]), r.nd, b,
                  ua + SentOn(a, m, valid, false, o), ub, valid + Agreement.NewSignatures(r, o.sig))
  {
    Places(c);
    assert c.signers[1 := DropHead(c.signers[1])] == [c.signers[0], DropHead(c.signers[1])];
  }

  lemma SecondTurns(c: Coord, a: SM.Node, b: SM.Node, ua: seq<SM.UpMsg>, ub: seq<SM.UpMsg>, valid: SM.Signatures,
                    o: SM.Oracle)
    requires Two(c) && c.signers[0].msgq != [] && SM.FreshTurn(b, FrameOf(b, c.signers[0].msgq[0], false, o), valid, o)
    ensures var m := c.signers[0].msgq[0];
            var r := TurnOf(b, m, valid, false, o);
            SignSystem.Step(World(c, a, b, ua, ub, valid), ToNode(2, false, o)) ==
            World(c.(signers := [DropHead(c.signers[0]), c.signers[1]]), a, r.nd, ua,
                  ub + SentOn(b, m, valid, false, o),
                  valid + Agreement.NewSignatures(r, o.sig))
  {
    Places(c);
    assert c.signers[0 := DropHead(c.signers[0])] == [DropHead(c.signers[0]), c.signers[1]];
  }

  // ---------------------------------------------------------------- what a signer does

  /** Everything works but `frost_commit`, which is not needed. */
  function Plain(garbage: Bytes): SM.Oracle {
    SM.Oracle(true, SM.Broken(garbage), Sig(), true, Some([9]), SM.Broken(garbage))
  }

  /** `frost_commit` makes the pair `k`. */
  function Making(k: Byte): SM.Oracle {
    SM.Oracle(true, SM.Made([k], [k]), Sig(), true, Some([9]), SM.Broken([0]))
  }

  function Loaded(id: Id): SM.Node {
    SM.NewNode(id, 1).(hasKey := true, signMode := true)
  }

  /** A signer that has committed to FIRST with the pair `k`. */
  function Signed(id: Id, k: Byte): SM.Node {
    Loaded(id).(tbs := FIRST, state := SM.Signing, nonces := [k], commit := [k],
                log := SM.Log([([k], [k])], [FIRST], [([k], FIRST)], []))
  }

  lemma HelloTurn(id: Id, valid: SM.Signatures)
    ensures var nd, o := SM.NewNode(id, 1), Plain([]);
            && SM.FreshTurn(nd, FrameOf(nd, HelloAck, false, o), valid, o)
            && TurnOf(nd, HelloAck, valid, false, o) == SM.Reply(Loaded(id), []) &&
               SentOn(nd, HelloAck, valid, false, o) == []
  {
  }

  lemma RequestTurn(id: Id, k: Byte, valid: SM.Signatures)
    ensures var nd, o, m := Loaded(id), Making(k), SignReq(FIRST);
            && SM.FreshTurn(nd, FrameOf(nd, m, false, o), valid, o)
            && TurnOf(nd, m, valid, false, o) == SM.Reply(Signed(id, k), [SM.CommitMsg([k], Sig())])
            && SentOn(nd, m, valid, false, o) == [SM.CommitMsg([k], Sig())]
  {
  }

  /** Signer 1 has signed its commitment `i` for FIRST. */
  predicate HasSigned(valid: SM.Signatures, i: Byte) {
    (1, SM.SignBuf(FIRST, [i]), Sig()) in valid
  }

  /** The bundle with the commitment `k` of signer `id` alone. */
  function Alone(id: Id, k: Byte, tbs: Bytes): Bundle {
    Bundle([Entry(id, [k], Sig())], tbs)
  }

  lemma AloneFits(id: Id, k: Byte, tbs: Bytes)
    requires 1 <= id <= 2 && |tbs| == 1
    ensures WellFormed(Alone(id, k, tbs)) && PackedLen(Alone(id, k, tbs)) <= MAX_PAYLOAD
  {
    var es := Alone(id, k, tbs).entries;
    assert es[1..] == [];
    assert EntriesLen(es) == 4 + 1 + SIG_SIZE + EntriesLen(es[1..]);
  }

  /** Signer 1 answers the bundle on its own commitment. */
  lemma ShareTurn(k: Byte, valid: SM.Signatures)
    requires HasSigned(valid, k)
    ensures var nd, o, m := Signed(1, k), Plain([0]), RelayCommit(Alone(1, k, FIRST));
            && SM.FreshTurn(nd, FrameOf(nd, m, false, o), valid, o)
            && SentOn(nd, m, valid, false, o) == [SM.ShareMsg([9])] &&
               TurnOf(nd, m, valid, false, o).out == [SM.ShareMsg([9])]
  {
    var nd, b := Signed(1, k), Alone(1, k, FIRST);
    AloneFits(1, k, FIRST);
    assert SM.Authentic(b.entries[0], b.tbs, valid);
    assert CommitLink.Ready(nd, b, valid);
    CommitLink.ReadyAccepts(nd, b, valid);
  }

  /** Signer 2 learns that the first certificate is out, and commits to SECOND with the pair `j`. */
  lemma NoticeTurn(k: Byte, valid: SM.Signatures)
    ensures var nd, o := Signed(2, k), Plain([0]);
            && SM.FreshTurn(nd, FrameOf(nd, CertOutput, false, o), valid, o)
            && TurnOf(nd, CertOutput, valid, false, o) == SM.Reply(nd, []) &&
               SentOn(nd, CertOutput, valid, false, o) == []
  {
  }

  lemma AgainTurn(k: Byte, j: Byte, valid: SM.Signatures)
    requires j != k
    ensures var nd, o, m := Signed(2, k), Making(j), SignReq(SECOND);
            && SM.FreshTurn(nd, FrameOf(nd, m, false, o), valid, o)
            && var r := TurnOf(nd, m, valid, false, o).nd;
               r.id == 2 && r.commit == [j] && r.hasKey && r.tbs == SECOND && r.nonces == [j]
  {
  }

  /** It refuses the bundle on its old commitment. */
  lemma Refuses(nd: SM.Node, k: Byte, valid: SM.Signatures)
    requires nd.id == 2 && nd.commit != [k]
    ensures !SM.Accepts(nd, Pack(Alone(2, k, SECOND)), valid)
  {
    var b := Alone(2, k, SECOND);
    AloneFits(2, k, SECOND);
    UnpackInvertsPack(b, []);
    assert Pack(b) + [] == Pack(b);
    assert b.entries[0].id == nd.id;
  }

  // ---------------------------------------------------------------- what the coordinator does

  predicate Clean(c: Coord) {
    Two(c) && c.n == 2 && c.t == 1 && c.blacklist == [] && Strikes(c.strikes, 1) == Strikes(c.strikes, 2) == 0 &&
      |c.sessions| == MAX_SESSIONS && c.nextSid > 0
  }

  lemma {:induction false} TwoPick(l: seq<Signer>, bl: seq<Id>, strikes: seq<nat>, i: nat)
    requires |l| == 2 && i < 2 && Eligible(l[i], bl, strikes, false) && (i == 1 ==> !Eligible(l[0], bl, strikes, false))
    ensures Pick(l, bl, strikes, false, 1) == [l[i].id] && Visited(l, bl, strikes, 1) >= 1
  {
    assert l[1..][0] == l[1] && l[1..][1..] == [];
  }

  /** A single commitment, and nothing in the table: a session of that signer forms in slot 0. */
  lemma FormsAlone(c: Coord, i: nat, k: Byte)
    requires Clean(c) && !c.done && c.sessions[0].state.Empty? && i < 2 && |c.tbs| == 1
    requires c.signers[i].phase.Committed? && c.signers[i].commit == [k] && c.signers[i].commitSig == Sig()
    requires !c.signers[1 - i].phase.Committed?
    ensures MaybeForm(c, 0, true) == Form(c, [c.signers[i].id], Alone(c.signers[i].id, k, c.tbs), 0, 0)
  {
    var id := c.signers[i].id;
    TwoPick(c.signers, c.blacklist, c.strikes, i);
    assert Select(c) == [id];
    Places(c);
    assert BundleFor(c, [id]) == Alone(id, k, c.tbs);
    AloneFits(id, k, c.tbs);
    assert FreeSlot(c.sessions) == 0;
    ActiveAtMost(c.sessions);
  }

  function Quietly(id: Id): Signer {
    Signer(id, Init, [], [], 0, [])
  }

  /** Signer 1 commits: it is in session 1, slot 0, and signer 2 is not touched. */
  lemma FirstCommits(c: Coord, k: Byte)
    requires Clean(c) && !c.done && c.sessions[0].state.Empty? && c.tbs == FIRST &&
             c.signers == [Quietly(2), Quietly(1)]
    ensures var r := OnCommit(c, 1, [k], Sig(), 0, true);
            && Clean(r) && !r.done && r.toMint == c.toMint && r.tbs == FIRST && r.nextSid == c.nextSid + 1
            && r.signers == [Quietly(2), Signer(1, InSession, [k], Sig(), c.nextSid, [RelayCommit(Alone(1, k, FIRST))])]
            && r.sessions[0].state.Awaiting? && r.sessions[0].members == [1] && r.sessions[0].id == c.nextSid
            && |r.sessions[0].shares| == 1 && r.sessions[0].nShares == 0
  {
    Places(c);
    var m := StoreCommit(c, 1, [k], Sig());
    assert m.signers == [Quietly(2), Signer(1, Committed, [k], Sig(), 0, [])];
    FormsAlone(m, 1, k);
    var r := MaybeForm(m, 0, true);
    assert r.signers[0] == Quietly(2);
    assert r.signers[1].msgq == [] + [RelayCommit(Alone(1, k, FIRST))] == [RelayCommit(Alone(1, k, FIRST))];
  }

  /** Its share completes the session: the certificate is out, and both are told. */
  lemma FirstShares(c: Coord, k: Byte)
    requires Clean(c) && !c.done && c.toMint == 2 && c.sessions[0].id == 1 && c.sessions[0].state.Awaiting?
    requires c.sessions[0].members == [1] && |c.sessions[0].shares| == 1
    requires c.signers == [Quietly(2), Signer(1, InSession, [k], Sig(), 1, [])]
    ensures var r := OnShare(c, 1, [9], Good(true), 0, true);
            && Clean(r) && r.done && r.toMint == 1
            && r.signers[0] == Quietly(2).(msgq := [CertOutput]) && r.signers[1].phase.Shared?
  {
    Places(c);
    assert FindSession(c.sessions, 1) == 0;
    assert SlotOf([1], 1) == 0;
    var m := StoreShare(c, 1, [9]);
    assert m.sessions[0].nShares >= m.t && !m.done;
    assert OnShare(c, 1, [9], Good(true), 0, true) == Succeed(m, 0, true);
    assert m.signers[0] == Quietly(2) && [] + [CertOutput] == [CertOutput];
  }

  /** The next message is broadcast. */
  lemma Requests(c: Coord)
    requires Clean(c) && c.done && c.toMint == 1 && c.signers[0] == Quietly(2).(msgq := [CertOutput]) &&
             c.signers[1].phase.Shared?
    ensures var r := OnNextCert(c, SECOND);
            && Clean(r) && !r.done && r.tbs == SECOND && r.sessions[0].state.Empty?
            && r.signers[0] == Quietly(2).(msgq := [CertOutput, SignReq(SECOND)]) && r.signers[1].phase.Init?
  {
  }

  /** The old commitment of signer 2 is taken for the new message. */
  lemma SecondCommits(c: Coord, k: Byte)
    requires Clean(c) && !c.done && c.tbs == SECOND && c.sessions[0].state.Empty?
    requires c.signers[0] == Quietly(2).(msgq := [CertOutput, SignReq(SECOND)]) && c.signers[1].phase.Init?
    ensures var r := OnCommit(c, 2, [k], Sig(), 0, true);
            Two(r) && r.signers[0].msgq == [CertOutput, SignReq(SECOND), RelayCommit(Alone(2, k, SECOND))]
  {
    Places(c);
    var m := StoreCommit(c, 0, [k], Sig());
    FormsAlone(m, 0, k);
  }

  // ---------------------------------------------------------------- the run

  lemma FirstTaken(c: Coord, a: SM.Node, b: SM.Node, ua: seq<SM.UpMsg>, ub: seq<SM.UpMsg>, valid: SM.Signatures)
    requires Two(c) && ua != []
    ensures SignSystem.Step(World(c, a, b, ua, ub, valid), ToCoord(1, Good(true), 0, true)) ==
            World(Roast.Step(c, EventOf(1, ua[0], Good(true), 0, true)), a, b, ua[1..], ub, valid)
  {
    Places(c);
    assert Connected(c.signers, 1);
  }

  lemma SecondTaken(c: Coord, a: SM.Node, b: SM.Node, ua: seq<SM.UpMsg>, ub: seq<SM.UpMsg>, valid: SM.Signatures)
    requires Two(c) && ub != []
    ensures SignSystem.Step(World(c, a, b, ua, ub, valid), ToCoord(2, Good(true), 0, true)) ==
            World(Roast.Step(c, EventOf(2, ub[0], Good(true), 0, true)), a, b, ua, ub[1..], valid)
  {
    Places(c);
    assert Connected(c.signers, 2);
  }

  lemma BothJoin()
    ensures var s0 := SignSystem.Start(2, 1, FIRST, 0, 2);
            var ask := [HelloAck, SignReq(FIRST)];
            SignSystem.Step(SignSystem.Step(s0, Join(1, 2, 1)), Join(2, 2, 1)) ==
            World(s0.c.(signers := [Quietly(2).(msgq := ask), Quietly(1).(msgq := ask)]), SM.NewNode(1, 1),
                  SM.NewNode(2, 1), [], [], {})
  {
    var s0 := SignSystem.Start(2, 1, FIRST, 0, 2);
    var ask := [HelloAck, SignReq(FIRST)];
    var s1 := SignSystem.Step(s0, Join(1, 2, 1));
    assert s1.c.signers == [Quietly(1).(msgq := ask)] && s1.nodes == map[1 := SM.NewNode(1, 1)] &&
           s1.up == map[1 := []];
    assert !Connected(s1.c.signers, 2);
    var s2 := SignSystem.Step(s1, Join(2, 2, 1));
    assert s2.c.signers == [Quietly(2).(msgq := ask), Quietly(1).(msgq := ask)];
    assert s2.nodes == map[1 := SM.NewNode(1, 1), 2 := SM.NewNode(2, 1)] && s2.up == map[1 := [], 2 := []];
  }

  lemma Then(s: Sys, es: seq<SysEvent>, e: SysEvent)
    ensures SignSystem.Run(s, es + [e]) == SignSystem.Step(SignSystem.Run(s, es), e)
  {
    assert (es + [e])[..|es + [e]| - 1] == es;
  }

  /** Always true. A run is only looked at where this is mentioned, which keeps it out of the other proofs. */
  predicate Look(es: seq<SysEvent>) {
    true
  }

  ghost predicate Comes(es: seq<SysEvent>, s: Sys) {
    forall x {:trigger Look(x)} :: Look(x) && x == es ==> SignSystem.Run(SignSystem.Start(2, 1, FIRST, 0, 2), x) == s
  }

  /** Some run leads from start-up to this state. */
  ghost predicate Gets(s: Sys) {
    exists es :: Comes(es, s)
  }

  lemma GetsOn(s: Sys, e: SysEvent)
    requires Gets(s)
    ensures Gets(SignSystem.Step(s, e))
  {
    var es :| Comes(es, s);
    assert Look(es);
    Then(SignSystem.Start(2, 1, FIRST, 0, 2), es, e);
    assert Comes(es + [e], SignSystem.Step(s, e));
  }

  lemma GetsBegun()
    ensures Gets(SignSystem.Start(2, 1, FIRST, 0, 2))
  {
    assert Comes([], SignSystem.Start(2, 1, FIRST, 0, 2));
  }

  /** Signer 1 takes a frame, with a known outcome. */
  lemma FirstGets(c: Coord, a: SM.Node, b: SM.Node, ua: seq<SM.UpMsg>, ub: seq<SM.UpMsg>, valid: SM.Signatures,
                  o: SM.Oracle, m: Msg, rest: seq<Msg>)
      returns (a2: SM.Node, v2: SM.Signatures)
    requires Gets(World(c, a, b, ua, ub, valid)) && Two(c) && c.signers[1].msgq == [m] + rest
    requires SM.FreshTurn(a, FrameOf(a, m, false, o), valid, o)
    ensures a2 == TurnOf(a, m, valid, false, o).nd &&
            v2 == valid + Agreement.NewSignatures(TurnOf(a, m, valid, false, o), o.sig)
    ensures Gets(World(c.(signers := [c.signers[0], c.signers[1].(msgq := rest)]), a2, b,
                       ua + SentOn(a, m, valid, false, o), ub, v2))
  {
    FirstTurns(c, a, b, ua, ub, valid, o);
    GetsOn(World(c, a, b, ua, ub, valid), ToNode(1, false, o));
    a2, v2 := TurnOf(a, m, valid, false, o).nd, valid + Agreement.NewSignatures(TurnOf(a, m, valid, false, o), o.sig);
    assert DropHead(c.signers[1]) == c.signers[1].(msgq := rest);
  }

  lemma SecondGets(c: Coord, a: SM.Node, b: SM.Node, ua: seq<SM.UpMsg>, ub: seq<SM.UpMsg>, valid: SM.Signatures,
                   o: SM.Oracle, m: Msg, rest: seq<Msg>)
      returns (b2: SM.Node, v2: SM.Signatures)
    requires Gets(World(c, a, b, ua, ub, valid)) && Two(c) && c.signers[0].msgq == [m] + rest
    requires SM.FreshTurn(b, FrameOf(b, m, false, o), valid, o)
    ensures b2 == TurnOf(b, m, valid, false, o).nd &&
            v2 == valid + Agreement.NewSignatures(TurnOf(b, m, valid, false, o), o.sig)
    ensures Gets(World(c.(signers := [c.signers[0].(msgq := rest), c.signers[1]]), a, b2, ua,
                       ub + SentOn(b, m, valid, false, o), v2))
  {
    SecondTurns(c, a, b, ua, ub, valid, o);
    GetsOn(World(c, a, b, ua, ub, valid), ToNode(2, false, o));
    b2, v2 := TurnOf(b, m, valid, false, o).nd, valid + Agreement.NewSignatures(TurnOf(b, m, valid, false, o), o.sig);
    assert DropHead(c.signers[0]) == c.signers[0].(msgq := rest);
  }

  function Asked(id: Id): Signer {
    Quietly(id).(msgq := [HelloAck, SignReq(FIRST)])
  }

  function Told(id: Id): Signer {
    Quietly(id).(msgq := [SignReq(FIRST)])
  }

  /** Nothing has happened but that the signers `b` and `a` registered. */
  predicate Fresh(c: Coord, b: Signer, a: Signer) {
    && Clean(c) && !c.done && c.tbs == FIRST && c.toMint == 2 && c.nextSid == 1 && c.sessions[0].state.Empty?
    && c.signers == [b, a]
  }

  /** Both are registered. */
  lemma BothRegister() returns (c: Coord)
    ensures Gets(World(c, SM.NewNode(1, 1), SM.NewNode(2, 1), [], [], {})) && Fresh(c, Asked(2), Asked(1))
  {
    var s0 := SignSystem.Start(2, 1, FIRST, 0, 2);
    GetsBegun();
    GetsOn(s0, Join(1, 2, 1));
    GetsOn(SignSystem.Step(s0, Join(1, 2, 1)), Join(2, 2, 1));
    BothJoin();
    c := s0.c.(signers := [Asked(2), Asked(1)]);
  }

  lemma FirstLoads(c: Coord, b: SM.Node) returns (r: Coord)
    requires Gets(World(c, SM.NewNode(1, 1), b, [], [], {})) && Fresh(c, Asked(2), Asked(1))
    ensures Gets(World(r, Loaded(1), b, [], [], {})) && Fresh(r, Asked(2), Told(1))
  {
    HelloTurn(1, {});
    var a, v := FirstGets(c, SM.NewNode(1, 1), b, [], [], {}, Plain([]), HelloAck, [SignReq(FIRST)]);
    assert v == {};
    r := c.(signers := [c.signers[0], c.signers[1].(msgq := [SignReq(FIRST)])]);
  }

  lemma SecondLoads(c: Coord, a: SM.Node) returns (r: Coord)
    requires Gets(World(c, a, SM.NewNode(2, 1), [], [], {})) && Fresh(c, Asked(2), Told(1))
    ensures Gets(World(r, a, Loaded(2), [], [], {})) && Fresh(r, Told(2), Told(1))
  {
    HelloTurn(2, {});
    var b, v := SecondGets(c, a, SM.NewNode(2, 1), [], [], {}, Plain([]), HelloAck, [SignReq(FIRST)]);
    assert v == {};
    r := c.(signers := [c.signers[0].(msgq := [SignReq(FIRST)]), c.signers[1]]);
  }

  lemma FirstSigns(c: Coord, b: SM.Node, i: Byte) returns (r: Coord, valid: SM.Signatures)
    requires Gets(World(c, Loaded(1), b, [], [], {})) && Fresh(c, Told(2), Told(1))
    ensures Gets(World(r, Signed(1, i), b, [SM.CommitMsg([i], Sig())], [], valid)) && Fresh(r, Told(2), Quietly(1)) &&
            HasSigned(valid, i)
  {
    RequestTurn(1, i, {});
    var a;
    a, valid := FirstGets(c, Loaded(1), b, [], [], {}, Making(i), SignReq(FIRST), []);
    assert [] + [SM.CommitMsg([i], Sig())] == [SM.CommitMsg([i], Sig())];
    r := c.(signers := [c.signers[0], c.signers[1].(msgq := [])]);
  }

  lemma SecondSigns(c: Coord, a: SM.Node, ua: seq<SM.UpMsg>, v: SM.Signatures, k: Byte)
      returns (r: Coord, valid: SM.Signatures)
    requires Gets(World(c, a, Loaded(2), ua, [], v)) && Fresh(c, Told(2), Quietly(1))
    ensures Gets(World(r, a, Signed(2, k), ua, [SM.CommitMsg([k], Sig())], valid)) &&
            Fresh(r, Quietly(2), Quietly(1)) && v <= valid
  {
    RequestTurn(2, k, v);
    var b;
    b, valid := SecondGets(c, a, Loaded(2), ua, [], v, Making(k), SignReq(FIRST), []);
    assert [] + [SM.CommitMsg([k], Sig())] == [SM.CommitMsg([k], Sig())];
    r := c.(signers := [c.signers[0].(msgq := []), c.signers[1]]);
  }

  /** Both have committed to the first message, and neither commitment has arrived. */
  lemma BothCommit(i: Byte, k: Byte) returns (c: Coord, valid: SM.Signatures)
    ensures Gets(World(c, Signed(1, i), Signed(2, k), [SM.CommitMsg([i], Sig())], [SM.CommitMsg([k], Sig())], valid))
    ensures Fresh(c, Quietly(2), Quietly(1)) && HasSigned(valid, i)
  {
    c := BothRegister();
    c := FirstLoads(c, SM.NewNode(2, 1));
    c := SecondLoads(c, Loaded(1));
    var v;
    c, v := FirstSigns(c, Loaded(2), i);
    c, valid := SecondSigns(c, Signed(1, i), [SM.CommitMsg([i], Sig())], v, k);
  }

  /** A frame of signer 1 arrives. */
  lemma FirstArrives(c: Coord, a: SM.Node, b: SM.Node, m: SM.UpMsg, ub: seq<SM.UpMsg>, valid: SM.Signatures)
    requires Gets(World(c, a, b, [m], ub, valid)) && Two(c)
    ensures Gets(World(Roast.Step(c, EventOf(1, m, Good(true), 0, true)), a, b, [], ub, valid))
  {
    FirstTaken(c, a, b, [m], ub, valid);
    GetsOn(World(c, a, b, [m], ub, valid), ToCoord(1, Good(true), 0, true));
    assert [m][1..] == [];
  }

  lemma SecondArrives(c: Coord, a: SM.Node, b: SM.Node, ua: seq<SM.UpMsg>, m: SM.UpMsg, valid: SM.Signatures)
    requires Gets(World(c, a, b, ua, [m], valid)) && Two(c)
    ensures Gets(World(Roast.Step(c, EventOf(2, m, Good(true), 0, true)), a, b, ua, [], valid))
  {
    SecondTaken(c, a, b, ua, [m], valid);
    GetsOn(World(c, a, b, ua, [m], valid), ToCoord(2, Good(true), 0, true));
    assert [m][1..] == [];
  }

  /** The session of signer 1 waits for its share. */
  predicate Waiting(c: Coord, i: Byte) {
    && Clean(c) && !c.done && c.toMint == 2 && c.sessions[0].state.Awaiting? && c.sessions[0].id == 1
    && c.sessions[0].members == [1] && |c.sessions[0].shares| == 1
    && c.signers == [Quietly(2), Signer(1, InSession, [i], Sig(), 1, [RelayCommit(Alone(1, i, FIRST))])]
  }

  lemma SessionForms(c: Coord, a: SM.Node, b: SM.Node, i: Byte, ub: seq<SM.UpMsg>, valid: SM.Signatures)
      returns (r: Coord)
    requires Gets(World(c, a, b, [SM.CommitMsg([i], Sig())], ub, valid)) && Fresh(c, Quietly(2), Quietly(1))
    ensures Gets(World(r, a, b, [], ub, valid)) && Waiting(r, i)
  {
    FirstArrives(c, a, b, SM.CommitMsg([i], Sig()), ub, valid);
    r := OnCommit(c, 1, [i], Sig(), 0, true);
    FirstCommits(c, i);
  }

  lemma FirstReplies(c: Coord, a: SM.Node, b: SM.Node, ub: seq<SM.UpMsg>, v: SM.Signatures, o: SM.Oracle, m: Msg,
                     out: seq<SM.UpMsg>)
      returns (r: Coord, a2: SM.Node, valid: SM.Signatures)
    requires Gets(World(c, a, b, [], ub, v)) && Two(c) && c.signers[1].msgq == [m]
    requires SM.FreshTurn(a, FrameOf(a, m, false, o), v, o) && SentOn(a, m, v, false, o) == out
    ensures Gets(World(r, a2, b, out, ub, valid)) && r == c.(signers := [c.signers[0], c.signers[1].(msgq := [])])
  {
    a2, valid := FirstGets(c, a, b, [], ub, v, o, m, []);
    assert [] + out == out;
    r := c.(signers := [c.signers[0], c.signers[1].(msgq := [])]);
  }

  lemma FirstAnswers(c: Coord, b: SM.Node, ub: seq<SM.UpMsg>, v: SM.Signatures, i: Byte)
      returns (r: Coord, a: SM.Node, valid: SM.Signatures)
    requires Gets(World(c, Signed(1, i), b, [], ub, v)) && Waiting(c, i) && HasSigned(v, i)
    ensures Gets(World(r, a, b, [SM.ShareMsg([9])], ub, valid))
    ensures r == c.(signers := [Quietly(2), Signer(1, InSession, [i], Sig(), 1, [])])
  {
    ShareTurn(i, v);
    r, a, valid := FirstReplies(c, Signed(1, i), b, ub, v, Plain([0]), RelayCommit(Alone(1, i, FIRST)),
                                [SM.ShareMsg([9])]);
  }

  /** The first certificate is out. */
  predicate Minted(c: Coord) {
    Clean(c) && c.done && c.toMint == 1 && c.signers[0] == Quietly(2).(msgq := [CertOutput]) &&
      c.signers[1].phase.Shared?
  }

  lemma ShareArrives(c: Coord, a: SM.Node, b: SM.Node, ub: seq<SM.UpMsg>, valid: SM.Signatures, i: Byte)
      returns (r: Coord)
    requires Gets(World(c.(signers := [Quietly(2), Signer(1, InSession, [i], Sig(), 1, [])]), a, b, [SM.ShareMsg([9])],
                        ub, valid))
    requires Waiting(c, i)
    ensures Gets(World(r, a, b, [], ub, valid)) && Minted(r)
  {
    var c1 := c.(signers := [Quietly(2), Signer(1, InSession, [i], Sig(), 1, [])]);
    FirstShares(c1, i);
    FirstArrives(c1, a, b, SM.ShareMsg([9]), ub, valid);
    r := OnShare(c1, 1, [9], Good(true), 0, true);
  }

  /** Signer 1 commits and sends its share; the commitment of signer 2 is still on its way. */
  lemma FirstIsMinted(i: Byte, k: Byte) returns (c: Coord, a: SM.Node, valid: SM.Signatures)
    ensures Gets(World(c, a, Signed(2, k), [], [SM.CommitMsg([k], Sig())], valid)) && Minted(c)
  {
    var ub := [SM.CommitMsg([k], Sig())];
    var c0, v := BothCommit(i, k);
    var c1 := SessionForms(c0, Signed(1, i), Signed(2, k), i, ub, v);
    var c2;
    c2, a, valid := FirstAnswers(c1, Signed(2, k), ub, v, i);
    c := ShareArrives(c1, a, Signed(2, k), ub, valid, i);
  }

  /** The second message is requested. */
  predicate Requested(c: Coord) {
    && Clean(c) && !c.done && c.tbs == SECOND && c.sessions[0].state.Empty?
    && c.signers[0] == Quietly(2).(msgq := [CertOutput, SignReq(SECOND)]) && c.signers[1].phase.Init?
  }

  lemma MessageChanges(c: Coord, a: SM.Node, b: SM.Node, ua: seq<SM.UpMsg>, ub: seq<SM.UpMsg>, valid: SM.Signatures)
      returns (r: Coord)
    requires Gets(World(c, a, b, ua, ub, valid)) && Minted(c)
    ensures Gets(World(r, a, b, ua, ub, valid)) && Requested(r)
  {
    GetsOn(World(c, a, b, ua, ub, valid), NewMessage(SECOND));
    Requests(c);
    r := OnNextCert(c, SECOND);
  }

  lemma StaleArrives(c: Coord, a: SM.Node, b: SM.Node, ua: seq<SM.UpMsg>, k: Byte, valid: SM.Signatures)
      returns (r: Coord)
    requires Gets(World(c, a, b, ua, [SM.CommitMsg([k], Sig())], valid)) && Requested(c)
    ensures Gets(World(r, a, b, ua, [], valid))
    ensures Two(r) && r.signers[0].msgq == [CertOutput, SignReq(SECOND), RelayCommit(Alone(2, k, SECOND))]
  {
    SecondArrives(c, a, b, ua, SM.CommitMsg([k], Sig()), valid);
    SecondCommits(c, k);
    r := OnCommit(c, 2, [k], Sig(), 0, true);
  }

  /** The next message is broadcast, and the old commitment of signer 2 arrives. */
  lemma NextBegins(i: Byte, k: Byte) returns (c: Coord, a: SM.Node, valid: SM.Signatures)
    ensures Gets(World(c, a, Signed(2, k), [], [], valid))
    ensures Two(c) && c.signers[0].msgq == [CertOutput, SignReq(SECOND), RelayCommit(Alone(2, k, SECOND))]
  {
    c, a, valid := FirstIsMinted(i, k);
    c := MessageChanges(c, a, Signed(2, k), [], [SM.CommitMsg([k], Sig())], valid);
    c := StaleArrives(c, a, Signed(2, k), [], k, valid);
  }

  /** Signer 2 takes the notice and the request, and has the bundle before it. */
  lemma BundleIsNext(k: Byte, j: Byte) returns (s: Sys)
    requires j != k
    ensures Gets(s) && Two(s.c) && s.c.signers[0].msgq == [RelayCommit(Alone(2, k, SECOND))]
    ensures 2 in s.nodes && s.nodes[2].id == 2 && s.nodes[2].commit == [j] && s.nodes[2].hasKey &&
            s.nodes[2].nonces == [j]
  {
    var c, a, v := NextBegins(10, k);
    var m := RelayCommit(Alone(2, k, SECOND));
    NoticeTurn(k, v);
    var b, v1 := SecondGets(c, a, Signed(2, k), [], [], v, Plain([0]), CertOutput, [SignReq(SECOND), m]);
    assert v1 == v;
    var c1 := c.(signers := [c.signers[0].(msgq := [SignReq(SECOND), m]), c.signers[1]]);
    AgainTurn(k, j, v);
    var b2, v2 := SecondGets(c1, a, Signed(2, k), [], [], v, Making(j), SignReq(SECOND), [m]);
    s := World(c1.(signers := [c1.signers[0].(msgq := [m]), c1.signers[1]]), a, b2, [],
               [] + SentOn(Signed(2, k), SignReq(SECOND), v, false, Making(j)), v2);
  }

  /**
   From start-up, with honest signers that take every frame: the bundle at the head of signer 2's channel
   is refused, although that signer has its key and nonces.
   */
  lemma StaleCommitIsRefused() returns (es: seq<SysEvent>)
    ensures var s := SignSystem.Run(SignSystem.Start(2, 1, FIRST, 0, 2), es);
            && |s.c.signers| == 2 && s.c.signers[0].id == 2 && s.c.signers[0].msgq != [] &&
               s.c.signers[0].msgq[0].RelayCommit?
            && 2 in s.nodes && s.nodes[2].hasKey && s.nodes[2].nonces != []
            && WellFormed(s.c.signers[0].msgq[0].bundle) &&
               !SM.Accepts(s.nodes[2], Pack(s.c.signers[0].msgq[0].bundle), s.valid)
  {
    var s := BundleIsNext(20, 21);
    es :| Comes(es, s);
    assert Look(es);
    AloneFits(2, 20, SECOND);
    Refuses(s.nodes[2], 20, s.valid);
  }
}