/**
 Commit coherence across processes: in every run of coordinator and signers in which a new message
 is only broadcast once the answers to the last one are in, the commitment stored for a signer is
 the one it can still answer for, so no signer refuses a bundle the coordinator sends it. The
 condition on the broadcast is exact (NewMessageIff), and without it there is a run in which a bundle
 is refused (StaleCommit.dfy).
 */
module CommitCoherence {
  import opened Octets
  import opened Bundles
  import opened Roast
  import opened RoastInvariant
  import opened RoastExclusion
  import opened RoastCoherence
  import SM = SignerModel
  import SL = SignerLinearity
  import opened SignSystem
  import opened CommitLink

  /** The signers' side: their states, their channels to the coordinator, the signatures made, the messages in use. */
  datatype Net = Net(nodes: map<Id, SM.Node>, up: map<Id, seq<SM.UpMsg>>, valid: SM.Signatures, told: set<Bytes>)

  /** The broadcast of the current message reached this signer, or it is in a session. */
  predicate Current(c: Coord, sg: Signer) {
    sg.id !in c.blacklist && !(sg.phase.NoKey? && sg.sessionId == 0)
  }

  /** The link to this signer is good for the message `tb`, which is the current one unless it is out of reach. */
  ghost predicate LinkBy(c: Coord, w: Net, i: int, tb: Bytes)
    requires 0 <= i < |c.signers|
  {
    var sg := c.signers[i];
    && tb in w.told && (Current(c, sg) ==> tb == c.tbs)
    && sg.id in w.nodes && sg.id in w.up && Link(tb, c.t, sg, w.nodes[sg.id], w.up[sg.id], w.valid)
  }

  ghost predicate LinkAt(c: Coord, w: Net, i: int)
    requires 0 <= i < |c.signers|
  {
    exists tb :: LinkBy(c, w, i, tb)
  }

  ghost predicate Links(c: Coord, w: Net) {
    c.tbs in w.told && forall i {:trigger LinkAt(c, w, i)} :: 0 <= i < |c.signers| ==> LinkAt(c, w, i)
  }

  /** Sessions wait only for signers that once joined. */
  ghost predicate MembersKnown(c: Coord, w: Net) {
    forall k, id :: Active(c, k) && id in c.sessions[k].members ==> id in w.nodes
  }

  ghost predicate Good(c: Coord, w: Net) {
    Inv(c) && Coherent(c) && MembersKnown(c, w) && Links(c, w)
  }

  function NetOf(s: Sys, told: set<Bytes>): Net {
    Net(s.nodes, s.up, s.valid, told)
  }

  ghost predicate SysOk(s: Sys, told: set<Bytes>) {
    Good(s.c, NetOf(s, told))
  }

  /** The message a link is good for; in a session any message will do, so the current one does. */
  lemma ToldTo(c: Coord, w: Net, i: nat) returns (tb: Bytes)
    requires Links(c, w) && i < |c.signers|
    ensures LinkBy(c, w, i, tb) && (c.signers[i].sessionId != 0 ==> tb == c.tbs)
  {
    assert LinkAt(c, w, i);
    tb :| LinkBy(c, w, i, tb);
    if c.signers[i].sessionId != 0 {
      tb := c.tbs;
    }
  }

  // ---------------------------------------------------------------- a session forms

  ghost predicate ChosenAt(c: Coord, w: Net, id: Id, i: int) {
    && 0 <= i < |c.signers| && c.signers[i].id == id && id in w.nodes && w.nodes[id].id == id && w.nodes[id].t == c.t
    && c.signers[i].sessionId == 0 && c.signers[i].commit != [] && Current(c, c.signers[i])
    && EntryFor(c.signers, id) == Entry(id, c.signers[i].commit, c.signers[i].commitSig)
    && Live(c.tbs, w.nodes[id], c.signers[i].commit, c.signers[i].commitSig, w.valid)
  }

  lemma ChosenPlace(c: Coord, id: Id) returns (i: int)
    requires SignersOk(c) && id in Select(c)
    ensures 0 <= i < |c.signers| && c.signers[i].id == id && c.signers[i].commit != [] && Free(c.signers[i])
    ensures id !in c.blacklist
  {
    SelectIs(c);
    assert SelectableId(id, c);
    i :| 0 <= i < |c.signers| && c.signers[i].id == id && c.signers[i].commit != [] && Free(c.signers[i]);
  }

  lemma ChosenIsLive(c: Coord, w: Net, id: Id) returns (i: int)
    requires SignersOk(c) && Links(c, w) && id in Select(c)
    ensures ChosenAt(c, w, id, i)
  {
    i := ChosenPlace(c, id);
    var tb := ToldTo(c, w, i);
    IndexOfIs(c.signers, i);
  }

  lemma EntriesAuthentic(c: Coord, w: Net, k: nat)
    requires SignersOk(c) && Links(c, w) && k < |Select(c)|
    ensures var b := BundleFor(c, Select(c));
            b.entries[k].id == Select(c)[k] && SM.Authentic(b.entries[k], c.tbs, w.valid)
    ensures var b := BundleFor(c, Select(c));
            var id := Select(c)[k];
            id in w.nodes && w.nodes[id].id == id && w.nodes[id].t == c.t && b.entries[k].commit == w.nodes[id].commit
            && Live(c.tbs, w.nodes[id], b.entries[k].commit, b.entries[k].sig, w.valid)
  {
    var i := ChosenIsLive(c, w, Select(c)[k]);
  }

  lemma BundleIsAnswerable(c: Coord, w: Net, k: nat)
    requires SignersOk(c) && Links(c, w) && Formable(c, true) && k < |Select(c)|
    ensures var id := Select(c)[k]; id in w.nodes && Ready(w.nodes[id], BundleFor(c, Select(c)), w.valid)
  {
    var chosen := Select(c);
    var b := BundleFor(c, chosen);
    SelectIs(c);
    forall x | 0 <= x < |b.entries| ensures b.entries[x].id == chosen[x] && SM.Authentic(b.entries[x], c.tbs, w.valid) {
      EntriesAuthentic(c, w, x);
    }
    EntriesAuthentic(c, w, k);
    var nd := w.nodes[chosen[k]];
    assert DistinctIds(b.entries);
    assert b.entries[k].id == nd.id;
    forall x | 0 <= x < |b.entries| && b.entries[x].id == nd.id ensures b.entries[x].commit == nd.commit {
      assert x == k;
    }
    assert c.signers != [];
    assert |b.entries| == nd.t;
    assert SM.Checks(nd, b, w.valid);
  }

  lemma FormLink(c: Coord, w: Net, now: int, i: nat)
    requires Inv(c) && Links(c, w) && Formable(c, true) && i < |c.signers|
    ensures LinkAt(TryForm(c, now, true), w, i)
  {
    var sg, chosen := c.signers[i], Select(c);
    var b := BundleFor(c, chosen);
    var tb := ToldTo(c, w, i);
    if sg.id in chosen {
      var k :| 0 <= k < |chosen| && chosen[k] == sg.id;
      BundleIsAnswerable(c, w, k);
      var j := ChosenIsLive(c, w, sg.id);
      assert i == j;
      JoinLinks(c.tbs, c.t, sg, w.nodes[sg.id], w.up[sg.id], w.valid, c.nextSid, b);
    }
    assert LinkBy(TryForm(c, now, true), w, i, tb);
  }

  lemma FormKnown(c: Coord, w: Net, now: int)
    requires Inv(c) && Links(c, w) && MembersKnown(c, w) && Formable(c, true)
    ensures MembersKnown(TryForm(c, now, true), w)
  {
    var r := TryForm(c, now, true);
    forall k, id | Active(r, k) && id in r.sessions[k].members ensures id in w.nodes {
      if k == FreeSlot(c.sessions) {
        var i := ChosenIsLive(c, w, id);
      } else {
        assert Active(c, k);
      }
    }
  }

  lemma MaybeFormGood(c: Coord, w: Net, now: int, assembled: bool)
    requires Good(c, w) && SizesOk(c.n, c.t)
    ensures Good(MaybeForm(c, now, assembled), w)
  {
    MaybeFormKeeps(c, now, assembled);
    MaybeFormCoherent(c, now, assembled);
    var r := MaybeForm(c, now, assembled);
    if r != c {
      FormKnown(c, w, now);
      forall i | 0 <= i < |r.signers| ensures LinkAt(r, w, i) {
        FormLink(c, w, now, i);
      }
    }
  }

  // ---------------------------------------------------------------- a session ends

  /** Each signer of `r` is the one of `c` with a link that survived; sessions only closed. */
  lemma EndedGood(c: Coord, r: Coord, w: Net)
    requires MembersKnown(c, w) && Inv(r) && Coherent(r) && r.tbs in w.told
    requires |r.sessions| == |c.sessions|
    requires forall k :: 0 <= k < |c.sessions| && r.sessions[k].state.Awaiting? ==>
      c.sessions[k].state.Awaiting? && r.sessions[k].members == c.sessions[k].members
    requires forall i :: 0 <= i < |r.signers| ==> LinkAt(r, w, i)
    ensures Good(r, w)
  {
    assert forall k :: Active(r, k) ==> Active(c, k);
  }

  lemma MemberIsIn(c: Coord, k: nat, i: nat)
    requires SessionsOk(c) && Coherent(c) && Active(c, k) && i < |c.signers| && c.signers[i].id in c.sessions[k].members
    ensures c.signers[i].sessionId != 0
  {
    assert c.signers[i].sessionId == c.sessions[k].id;
  }

  lemma ExpireGood(c: Coord, w: Net, k: nat)
    requires Good(c, w) && Active(c, k)
    ensures Good(Expire(c, k), w)
  {
    var r := Expire(c, k);
    ExpireKeeps(c, k);
    ExpireCoherent(c, k);
    forall i | 0 <= i < |r.signers| ensures LinkAt(r, w, i) {
      ExpireLink(c, w, k, i);
    }
    EndedGood(c, r, w);
  }

  lemma ExpireLink(c: Coord, w: Net, k: nat, i: nat)
    requires Good(c, w) && Active(c, k) && i < |c.signers|
    ensures LinkAt(Expire(c, k), w, i)
  {
    var sg, sess := c.signers[i], c.sessions[k];
    var tb := ToldTo(c, w, i);
    assert SessionOk(sess, c.n, c.t);
    BlacklistStruckOutIs(c.blacklist, sess.members, sess, c.signers, Expire(c, k).strikes);
    if sg.id in sess.members {
      MemberIsIn(c, k, i);
      RenewLinks(c.tbs, c.t, sg, w.nodes[sg.id], w.up[sg.id], w.valid, Init);
      RenewLinks(c.tbs, c.t, sg, w.nodes[sg.id], w.up[sg.id], w.valid, Suspect);
      PhaseLinks(c.tbs, c.t, sg, w.nodes[sg.id], w.up[sg.id], w.valid, Blacklisted);
    }
    assert LinkBy(Expire(c, k), w, i, tb);
  }

  lemma {:induction false} SweepGood(c: Coord, w: Net, k: nat, now: int, after: set<int>)
    requires Good(c, w) && !c.done && k <= |c.sessions|
    ensures Good(Sweep(c, k, now, after), w)
  {
    if k != 0 {
      SweepGood(c, w, k - 1, now, after);
      var m := Sweep(c, k - 1, now, after);
      if Expired(m.sessions[k - 1], now) {
        assert SessionOk(m.sessions[k - 1], m.n, m.t);
        ExpireGood(m, w, k - 1);
        MaybeFormGood(Expire(m, k - 1), w, now, k - 1 in after);
      }
    }
  }

  /** Coherence between storing a share in slot `k` and acting on it. */
  ghost predicate Storing(c: Coord, w: Net, k: nat) {
    SharesStored(c, k) && Coherent(c) && MembersKnown(c, w) && Links(c, w)
  }

  lemma DropCulpritLink(c: Coord, w: Net, k: nat, culprit: Id, i: nat)
    requires Storing(c, w, k) && 0 < culprit <= MAX_SIGNERS && i < |c.signers|
    ensures LinkAt(DropCulprit(c, k, culprit), w, i)
  {
    var sg := c.signers[i];
    var tb := ToldTo(c, w, i);
    AddBlacklistIs(c.blacklist, culprit);
    PhaseLinks(tb, c.t, sg, w.nodes[sg.id], w.up[sg.id], w.valid, Blacklisted);
    if sg.id in c.sessions[k].members {
      MemberIsIn(c, k, i);
      RenewLinks(c.tbs, c.t, sg, w.nodes[sg.id], w.up[sg.id], w.valid, Init);
    }
    assert LinkBy(DropCulprit(c, k, culprit), w, i, tb);
  }

  lemma DropCulpritGood(c: Coord, w: Net, k: nat, culprit: Id)
    requires Storing(c, w, k) && !c.done && 0 < culprit <= MAX_SIGNERS
    ensures Good(DropCulprit(c, k, culprit), w)
  {
    var r := DropCulprit(c, k, culprit);
    DropCulpritKeeps(c, k, culprit);
    DropCulpritCoherent(c, k, culprit);
    forall i | 0 <= i < |r.signers| ensures LinkAt(r, w, i) {
      DropCulpritLink(c, w, k, culprit, i);
    }
    EndedGood(c, r, w);
  }

  lemma SucceedGood(c: Coord, w: Net, k: nat, mintOk: bool)
    requires Storing(c, w, k)
    ensures Good(Succeed(c, k, mintOk), w)
  {
    var r := Succeed(c, k, mintOk);
    SucceedKeeps(c, k, mintOk);
    CloseCoherent(c, r, k);
    forall i | 0 <= i < |r.signers| ensures LinkAt(r, w, i) {
      var sg := c.signers[i];
      var tb := ToldTo(c, w, i);
      NoticeLinks(tb, c.t, sg, w.nodes[sg.id], w.up[sg.id], w.valid);
      assert LinkBy(r, w, i, tb);
    }
    EndedGood(c, r, w);
  }

  /** Nothing but the verdict's latches changes. */
  lemma LatchGood(c: Coord, r: Coord, w: Net)
    requires Good(c, w) && r == c.(roastFail := r.roastFail)
    ensures Good(r, w)
  {
    QuietCoherent(c, r);
    forall i | 0 <= i < |r.signers| ensures LinkAt(r, w, i) {
      var tb := ToldTo(c, w, i);
      assert LinkBy(r, w, i, tb);
    }
    EndedGood(c, r, w);
  }

  lemma AggregateGood(c: Coord, w: Net, k: nat, verdict: Verdict, now: int, assembled: bool)
    requires Storing(c, w, k) && !Unattributed(verdict)
    ensures Good(Aggregate(c, k, verdict, now, assembled), w)
  {
    if c.sessions[k].nShares < c.t || c.done {
      assert Inv(c);
    } else if verdict.Good? {
      SucceedGood(c, w, k, verdict.mintOk);
    } else {
      var m := DropCulprit(c, k, verdict.culprit);
      assert SessionOk(c.sessions[k], c.n, c.t);
      DropCulpritGood(c, w, k, verdict.culprit);
      MaybeFormGood(m, w, now, assembled);
      LatchGood(MaybeForm(m, now, assembled), FailCulprit(c, k, verdict.culprit, now, assembled), w);
    }
  }

  // ---------------------------------------------------------------- frames to the coordinator

  lemma StoreShareLink(c: Coord, w: Net, id: Id, payload: Bytes, i: nat)
    requires Good(c, w) && Routable(c, id) && i < |c.signers|
    ensures LinkAt(StoreShare(c, id, payload), w, i)
  {
    var sg := c.signers[i];
    var tb := ToldTo(c, w, i);
    PhaseLinks(tb, c.t, sg, w.nodes[sg.id], w.up[sg.id], w.valid, Shared);
    if sg.sessionId == 0 {
      ZeroIdNeverStores(c, i);
    }
    assert LinkBy(StoreShare(c, id, payload), w, i, tb);
  }

  lemma StoreShareLinks(c: Coord, w: Net, id: Id, payload: Bytes)
    requires Good(c, w) && Routable(c, id)
    ensures Storing(StoreShare(c, id, payload), w, FindSession(c.sessions, c.signers[IndexOf(c.signers, id)].sessionId))
  {
    var m := StoreShare(c, id, payload);
    StoreShareKeeps(c, id, payload);
    QuietCoherent(c, m);
    assert forall k :: Active(m, k) ==> Active(c, k);
    forall i | 0 <= i < |m.signers| ensures LinkAt(m, w, i) {
      StoreShareLink(c, w, id, payload, i);
    }
  }

  lemma ShareGood(c: Coord, w: Net, id: Id, payload: Bytes, verdict: Verdict, now: int, assembled: bool)
    requires Good(c, w) && !Unattributed(verdict)
    ensures Good(OnShare(c, id, payload, verdict, now, assembled), w)
  {
    if |payload| <= MAX_PAYLOAD && Routable(c, id) {
      var k := FindSession(c.sessions, c.signers[IndexOf(c.signers, id)].sessionId);
      StoreShareLinks(c, w, id, payload);
      AggregateGood(StoreShare(c, id, payload), w, k, verdict, now, assembled);
    }
  }

  lemma LoadFailLink(c: Coord, w: Net, id: Id, i: nat)
    requires Links(c, w) && i < |c.signers|
    ensures i < |OnLoadFail(c, id).signers| && LinkAt(OnLoadFail(c, id), w, i)
  {
    var sg := c.signers[i];
    var tb := ToldTo(c, w, i);
    PhaseLinks(tb, c.t, sg, w.nodes[sg.id], w.up[sg.id], w.valid, NoKey);
    assert LinkBy(OnLoadFail(c, id), w, i, tb);
  }

  lemma LoadFailGood(c: Coord, w: Net, id: Id)
    requires Good(c, w)
    ensures Good(OnLoadFail(c, id), w)
  {
    var r := OnLoadFail(c, id);
    LoadFailKeeps(c, id);
    QuietCoherent(c, r);
    forall i | 0 <= i < |r.signers| ensures LinkAt(r, w, i) {
      LoadFailLink(c, w, id, i);
    }
    EndedGood(c, r, w);
  }

  /** The commitment just taken from the channel of signer i is the one it can answer for. */
  ghost predicate ArrivedFor(c: Coord, w: Net, i: nat, payload: Bytes, sig: Bytes, tb: Bytes) {
    && i < |c.signers| && LinkBy(c, w, i, tb)
    && var sg := c.signers[i];
       Down(sg.msgq) == [] && Up(w.up[sg.id]) == [] && sg.sessionId == 0 &&
         Live(tb, w.nodes[sg.id], payload, sig, w.valid)
  }

  ghost predicate Arrived(c: Coord, w: Net, i: nat, payload: Bytes, sig: Bytes) {
    exists tb :: ArrivedFor(c, w, i, payload, sig, tb)
  }

  lemma StoreCommitLink(c: Coord, w: Net, i: nat, payload: Bytes, sig: Bytes, j: nat)
    requires Links(c, w) && Arrived(c, w, i, payload, sig) && j < |c.signers| && i < |c.signers|
    requires !c.signers[i].phase.NoKey?
    ensures LinkAt(StoreCommit(c, i, payload, sig), w, j)
  {
    var m := StoreCommit(c, i, payload, sig);
    if j == i {
      var tb :| ArrivedFor(c, w, i, payload, sig, tb);
      var sg := c.signers[i];
      StoredLinks(tb, c.t, sg, w.nodes[sg.id], w.up[sg.id], w.valid, payload, sig);
      assert LinkBy(m, w, i, tb);
    } else {
      var tb := ToldTo(c, w, j);
      assert LinkBy(m, w, j, tb);
    }
  }

  lemma CommitGood(c: Coord, w: Net, id: Id, payload: Bytes, sig: Bytes, now: int, assembled: bool)
    requires Good(c, w) && Arrived(c, w, IndexOf(c.signers, id), payload, sig)
    ensures Good(OnCommit(c, id, payload, sig, now, assembled), w)
  {
    if CommitAccepted(c, id, payload, sig) {
      var i := IndexOf(c.signers, id);
      var m := StoreCommit(c, i, payload, sig);
      StoreCommitKeeps(c, id, payload, sig);
      QuietCoherent(c, m);
      forall j | 0 <= j < |m.signers| ensures LinkAt(m, w, j) {
        StoreCommitLink(c, w, i, payload, sig, j);
      }
      EndedGood(c, m, w);
      MaybeFormGood(m, w, now, assembled);
    }
  }

  /** The first frame is off the channel of `id`. */
  function Popped(w: Net, id: Id): Net
    requires id in w.up && w.up[id] != []
  {
    w.(up := w.up[id := w.up[id][1..]])
  }

  lemma TakenLink(c: Coord, w: Net, id: Id, i: nat)
    requires SignersOk(c) && Links(c, w) && id in w.up && w.up[id] != [] && i < |c.signers|
    ensures LinkAt(c, Popped(w, id), i)
    ensures c.signers[i].id == id && w.up[id][0].CommitMsg? ==>
      Arrived(c, Popped(w, id), i, w.up[id][0].payload, w.up[id][0].sig)
  {
    var tb := ToldTo(c, w, i);
    if c.signers[i].id == id {
      TakenLinks(tb, c.t, c.signers[i], w.nodes[id], w.up[id], w.valid);
    }
    assert LinkBy(c, Popped(w, id), i, tb);
    if c.signers[i].id == id && w.up[id][0].CommitMsg? {
      assert ArrivedFor(c, Popped(w, id), i, w.up[id][0].payload, w.up[id][0].sig, tb);
    }
  }

  lemma TakenGood(c: Coord, w: Net, id: Id)
    requires Good(c, w) && Connected(c.signers, id) && id in w.up && w.up[id] != []
    ensures Good(c, Popped(w, id))
    ensures w.up[id][0].CommitMsg? ==>
      Arrived(c, Popped(w, id), IndexOf(c.signers, id), w.up[id][0].payload, w.up[id][0].sig)
  {
    forall i | 0 <= i < |c.signers| ensures LinkAt(c, Popped(w, id), i) {
      TakenLink(c, w, id, i);
    }
    TakenLink(c, w, id, IndexOf(c.signers, id));
  }

  lemma ToCoordGood(s: Sys, told: set<Bytes>, id: Id, verdict: Verdict, now: int, assembled: bool)
    requires SysOk(s, told) && CanSend(s, id, verdict)
    ensures SysOk(OnToCoord(s, id, verdict, now, assembled), told)
  {
    var w := NetOf(s, told);
    TakenGood(s.c, w, id);
    HandledGood(s.c, Popped(w, id), id, s.up[id][0], verdict, now, assembled);
    assert NetOf(OnToCoord(s, id, verdict, now, assembled), told) == Popped(w, id);
  }

  /** The coordinator acts on the frame just taken. */
  lemma HandledGood(c: Coord, w: Net, id: Id, m: SM.UpMsg, verdict: Verdict, now: int, assembled: bool)
    requires Good(c, w) && !Unattributed(verdict)
    requires m.CommitMsg? ==> Arrived(c, w, IndexOf(c.signers, id), m.payload, m.sig)
    ensures Good(Roast.Step(c, EventOf(id, m, verdict, now, assembled)), w)
  {
    match m
    case CommitMsg(payload, sig) => CommitGood(c, w, id, payload, sig, now, assembled);
    case ShareMsg(share) => ShareGood(c, w, id, share, verdict, now, assembled);
    case LoadFailMsg => LoadFailGood(c, w, id);
  }

  // ---------------------------------------------------------------- frames to a signer

  lemma DropHeadKeeps(c: Coord, i: nat)
    requires Inv(c) && Coherent(c) && i < |c.signers|
    ensures var r := c.(signers := c.signers[i := DropHead(c.signers[i])]); Inv(r) && Coherent(r)
  {
    QuietCoherent(c, c.(signers := c.signers[i := DropHead(c.signers[i])]));
  }

  lemma MoreSigned(tb: Bytes, t: int, sg: Signer, nd: SM.Node, u: seq<SM.UpMsg>, v: SM.Signatures, more: SM.Signatures)
    requires Link(tb, t, sg, nd, u, v) && v <= more
    ensures Link(tb, t, sg, nd, u, more)
  {
    ShapeGrows(tb, sg, nd, Down(sg.msgq), Up(u), v, more);
  }

  lemma ToNodeLink(s: Sys, told: set<Bytes>, id: Id, ignored: bool, o: SM.Oracle, i: nat)
    requires SysOk(s, told) && CanReceive(s, id) && i < |s.c.signers|
    ensures var r := OnToNode(s, id, ignored, o); i < |r.c.signers| && LinkAt(r.c, NetOf(r, told), i)
  {
    var k, sg := IndexOf(s.c.signers, id), s.c.signers[i];
    var r := OnToNode(s, id, ignored, o);
    var tb := ToldTo(s.c, NetOf(s, told), i);
    if i != k {
      MoreSigned(tb, s.c.t, sg, s.nodes[sg.id], s.up[sg.id], s.valid, r.valid);
    } else if SM.FreshTurn(s.nodes[id], FrameOf(s.nodes[id], sg.msgq[0], ignored, o), s.valid, o) {
      TurnLinks(tb, s.c.t, sg, s.nodes[id], s.up[id], s.valid, ignored, o);
    }
    assert LinkBy(r.c, NetOf(r, told), i, tb);
  }

  lemma ToNodeGood(s: Sys, told: set<Bytes>, id: Id, ignored: bool, o: SM.Oracle)
    requires SysOk(s, told) && CanReceive(s, id)
    ensures SysOk(OnToNode(s, id, ignored, o), told)
  {
    var r := OnToNode(s, id, ignored, o);
    if r != s {
      DropHeadKeeps(s.c, IndexOf(s.c.signers, id));
      forall i | 0 <= i < |r.c.signers| ensures LinkAt(r.c, NetOf(r, told), i) {
        ToNodeLink(s, told, id, ignored, o, i);
      }
      assert MembersKnown(s.c, NetOf(r, told));
      EndedGood(s.c, r.c, NetOf(r, told));
    }
  }

  // ---------------------------------------------------------------- coming and going

  lemma NewLink(c: Coord, id: Id, t: int, valid: SM.Signatures)
    requires c.t == t
    ensures Link(c.tbs, t, Signer(id, Init, [], [], 0, [HelloAck, SignReq(c.tbs)]), SM.NewNode(id, t), [], valid)
  {
    var q := [HelloAck, SignReq(c.tbs)];
    assert q[1..] == [SignReq(c.tbs)] && q[1..][1..] == [];
    assert Down(q[1..]) == [SignReq(c.tbs)] + Down(q[1..][1..]);
    assert Down(q) == [SignReq(c.tbs)];
  }

  lemma NotWaitedFor(s: Sys, told: set<Bytes>, id: Id)
    requires SysOk(s, told) && id !in s.nodes
    ensures !InActive(s.c, id) && !Connected(s.c.signers, id)
  {
    forall i | 0 <= i < |s.c.signers| ensures s.c.signers[i].id != id {
      var tb := ToldTo(s.c, NetOf(s, told), i);
    }
  }

  /** A newcomer is linked to the current message; the others keep their places in the list. */
  lemma NewcomerLink(c: Coord, w: Net, id: Id, nd: SM.Node)
    requires c.tbs in w.told && nd == SM.NewNode(id, c.t)
    ensures LinkBy(Register(c, id), w.(nodes := w.nodes[id := nd], up := w.up[id := []]), 0, c.tbs)
  {
    NewLink(c, id, c.t, w.valid);
  }

  lemma OlderLink(c: Coord, w: Net, id: Id, nd: SM.Node, i: nat)
    requires Links(c, w) && i < |c.signers| && c.signers[i].id != id
    ensures LinkAt(Register(c, id), w.(nodes := w.nodes[id := nd], up := w.up[id := []]), i + 1)
  {
    var tb := ToldTo(c, w, i);
    assert Register(c, id).signers[i + 1] == c.signers[i];
    assert LinkBy(Register(c, id), w.(nodes := w.nodes[id := nd], up := w.up[id := []]), i + 1, tb);
  }

  /** Fixing n and t changes no link, since nobody is connected before. */
  lemma SizedLinks(c: Coord, w: Net, n: int, t: int)
    requires SignersOk(c) && Links(c, w) && c.n == 0
    ensures c.signers == [] && Links(c.(n := n, t := t), w)
  {
  }

  lemma JoinLink(s: Sys, told: set<Bytes>, id: Id, n: int, t: int, i: nat)
    requires SysOk(s, told) && id !in s.nodes && i < |OnJoin(s, id, n, t).c.signers|
    ensures var r := OnJoin(s, id, n, t); LinkAt(r.c, NetOf(r, told), i)
  {
    var r, w := OnJoin(s, id, n, t), NetOf(s, told);
    var c := if s.c.n == 0 then s.c.(n := n, t := t) else s.c;
    if s.c.n == 0 {
      SizedLinks(s.c, w, n, t);
    }
    if r.c.signers == s.c.signers {
      var tb := ToldTo(s.c, w, i);
      assert LinkBy(r.c, NetOf(r, told), i, tb);
    } else {
      assert r.c == Register(c, id);
      if i == 0 {
        NewcomerLink(c, w, id, SM.NewNode(id, t));
      } else {
        NotWaitedFor(s, told, id);
        OlderLink(c, w, id, SM.NewNode(id, t), i - 1);
      }
    }
  }

  lemma JoinKeeps(s: Sys, told: set<Bytes>, id: Id, n: int, t: int)
    requires SysOk(s, told) && id !in s.nodes
    ensures var r := OnJoin(s, id, n, t);
            Inv(r.c) && Coherent(r.c) && r.c.sessions == s.c.sessions && r.c.tbs == s.c.tbs
  {
    NotWaitedFor(s, told, id);
    HelloKeeps(s.c, id, n, t, true);
    HelloCoherent(s.c, id, n, t, true);
  }

  lemma JoinGood(s: Sys, told: set<Bytes>, id: Id, n: int, t: int)
    requires SysOk(s, told)
    ensures SysOk(OnJoin(s, id, n, t), told)
  {
    if id !in s.nodes {
      var r := OnJoin(s, id, n, t);
      JoinKeeps(s, told, id, n, t);
      forall i | 0 <= i < |r.c.signers| ensures LinkAt(r.c, NetOf(r, told), i) {
        JoinLink(s, told, id, n, t, i);
      }
      assert MembersKnown(s.c, NetOf(r, told));
      EndedGood(s.c, r.c, NetOf(r, told));
    }
  }

  lemma SameLink(c: Coord, r: Coord, w: Net, j: nat, i: nat)
    requires Links(c, w) && j < |c.signers| && i < |r.signers| && r.signers[i] == c.signers[j]
    requires r.tbs == c.tbs && r.t == c.t && r.blacklist == c.blacklist
    ensures LinkAt(r, w, i)
  {
    var tb := ToldTo(c, w, j);
    assert LinkBy(r, w, i, tb);
  }

  lemma LeaveLinks(c: Coord, w: Net, id: Id)
    requires Links(c, w)
    ensures var r := OnDisconnect(c, id); forall i :: 0 <= i < |r.signers| ==> LinkAt(r, w, i)
  {
    var r, k := OnDisconnect(c, id), IndexOf(c.signers, id);
    forall i | 0 <= i < |r.signers| ensures LinkAt(r, w, i) {
      SameLink(c, r, w, if i < k then i else i + 1, i);
    }
  }

  lemma LeaveGood(s: Sys, told: set<Bytes>, id: Id)
    requires SysOk(s, told)
    ensures SysOk(s.(c := OnDisconnect(s.c, id)), told)
  {
    var r := OnDisconnect(s.c, id);
    DisconnectKeeps(s.c, id);
    DisconnectCoherent(s.c, id);
    LeaveLinks(s.c, NetOf(s, told), id);
    EndedGood(s.c, r, NetOf(s, told));
  }

  // ---------------------------------------------------------------- a new message

  predicate NoRequest(q: seq<Msg>) {
    forall j :: 0 <= j < |q| ==> !q[j].SignReq?
  }

  predicate NoCommit(q: seq<SM.UpMsg>) {
    forall j :: 0 <= j < |q| ==> !q[j].CommitMsg?
  }

  /** No request and no commitment is on its way. */
  predicate Idle(d: seq<Msg>, u: seq<SM.UpMsg>) {
    NoRequest(d) && NoCommit(u)
  }

  /** The broadcast reaches this signer. */
  predicate Reached(c: Coord, sg: Signer) {
    sg.id !in c.blacklist && !sg.phase.NoKey?
  }

  lemma NoRequestSplit(a: seq<Msg>, b: seq<Msg>)
    ensures NoRequest(a + b) <==> NoRequest(a) && NoRequest(b)
  {
    assert forall j :: 0 <= j < |a| ==> a[j] == (a + b)[j];
    assert forall j :: 0 <= j < |b| ==> b[j] == (a + b)[|a| + j];
  }

  lemma NoCommitSplit(a: seq<SM.UpMsg>, b: seq<SM.UpMsg>)
    ensures NoCommit(a + b) <==> NoCommit(a) && NoCommit(b)
  {
    assert forall j :: 0 <= j < |a| ==> a[j] == (a + b)[j];
    assert forall j :: 0 <= j < |b| ==> b[j] == (a + b)[|a| + j];
  }

  lemma {:induction false} DownIdle(q: seq<Msg>)
    ensures NoRequest(q) <==> NoRequest(Down(q))
  {
    if q != [] {
      DownIdle(q[1..]);
      assert q == [q[0]] + q[1..];
      NoRequestSplit([q[0]], q[1..]);
      NoRequestSplit(if Matters(q[0]) then [q[0]] else [], Down(q[1..]));
    }
  }

  lemma {:induction false} UpIdle(q: seq<SM.UpMsg>)
    ensures NoCommit(q) <==> NoCommit(Up(q))
  {
    if q != [] {
      UpIdle(q[1..]);
      assert q == [q[0]] + q[1..];
      NoCommitSplit([q[0]], q[1..]);
      NoCommitSplit(if q[0].LoadFailMsg? then [] else [q[0]], Up(q[1..]));
    }
  }

  /**
   The frames on the way after the request for the new message was queued fit that message exactly if the link was idle.
   */
  lemma RequestShape(tbs: Bytes, newTbs: Bytes, sg: Signer, nd: SM.Node, d: seq<Msg>, u: seq<SM.UpMsg>,
                     valid: SM.Signatures)
    requires Shape(tbs, sg, nd, d, u, valid)
    ensures WaitingShape(newTbs, nd, d + [SignReq(newTbs)], u, valid) <==> Idle(d, u)
  {
    var d2 := d + [SignReq(newTbs)];
    assert d == [] ==> d2 == [SignReq(newTbs)];
    assert |d| >= 1 ==> d2[0] == d[0] && d2[|d|] == SignReq(newTbs);
    assert EndsInCommit(u) ==> u[|u| - 1].CommitMsg?;
  }

  lemma RequestLinks(tbs: Bytes, newTbs: Bytes, t: int, sg: Signer, nd: SM.Node, u: seq<SM.UpMsg>, valid: SM.Signatures)
    requires Link(tbs, t, sg, nd, u, valid)
    ensures Link(newTbs, t, Renew(sg, Init, newTbs), nd, u, valid) <==> Idle(sg.msgq, u)
  {
    DownAppend(sg.msgq, SignReq(newTbs));
    DownIdle(sg.msgq);
    UpIdle(u);
    RequestShape(tbs, newTbs, sg, nd, Down(sg.msgq), Up(u), valid);
    var r := Renew(sg, Init, newTbs);
    assert Idle(sg.msgq, u) <==> Idle(Down(sg.msgq), Up(u));
    assert Down(r.msgq) == Down(sg.msgq) + [SignReq(newTbs)];
    assert Shape(newTbs, r, nd, Down(r.msgq), Up(u), valid) <==> WaitingShape(newTbs, nd, Down(r.msgq), Up(u), valid);
  }

  /** What the broadcast does to one link. */
  lemma BroadcastLink(s: Sys, told: set<Bytes>, newTbs: Bytes, i: nat)
    requires SysOk(s, told) && s.c.done && s.c.toMint > 0 && i < |s.c.signers|
    ensures LinkAt(OnNextCert(s.c, newTbs), NetOf(s, told + {newTbs}), i) <==> QuietAt(s, i)
  {
    var c, r, w, sg := s.c, OnNextCert(s.c, newTbs), NetOf(s, told + {newTbs}), s.c.signers[i];
    var tb := ToldTo(c, NetOf(s, told), i);
    RequestLinks(tb, newTbs, c.t, sg, s.nodes[sg.id], s.up[sg.id], s.valid);
    if Reached(c, sg) {
      assert r.signers[i] == Renew(sg, Init, newTbs) && Current(r, r.signers[i]);
      assert LinkBy(r, w, i, newTbs) <==> Idle(sg.msgq, s.up[sg.id]);
    } else {
      assert r.signers[i] == sg;
      assert LinkBy(r, w, i, if sg.sessionId != 0 then newTbs else tb);
    }
  }

  predicate QuietAt(s: Sys, i: int)
    requires 0 <= i < |s.c.signers|
  {
    var sg := s.c.signers[i];
    Reached(s.c, sg) ==> sg.id in s.up && Idle(sg.msgq, s.up[sg.id])
  }

  /** Every signer that the broadcast of a new message would reach has no old request and no commitment on its way. */
  predicate Quiet(s: Sys) {
    forall i {:trigger QuietAt(s, i)} :: 0 <= i < |s.c.signers| ==> QuietAt(s, i)
  }

  lemma BroadcastLinks(s: Sys, told: set<Bytes>, newTbs: Bytes)
    requires SysOk(s, told) && s.c.done && s.c.toMint > 0
    ensures Links(OnNextCert(s.c, newTbs), NetOf(s, told + {newTbs})) <==> Quiet(s)
  {
    var r, w := OnNextCert(s.c, newTbs), NetOf(s, told + {newTbs});
    forall i | 0 <= i < |s.c.signers| ensures LinkAt(r, w, i) <==> QuietAt(s, i) {
      BroadcastLink(s, told, newTbs, i);
    }
  }

  /**
   The broadcast of a new message keeps the links good if and only if no signer that it reaches has an
   old request or a commitment on its way.
   */
  lemma NewMessageIff(s: Sys, told: set<Bytes>, newTbs: Bytes)
    requires SysOk(s, told) && s.c.done && s.c.toMint > 0
    ensures SysOk(s.(c := OnNextCert(s.c, newTbs)), told + {newTbs}) <==> Quiet(s)
  {
    var r := OnNextCert(s.c, newTbs);
    NextCertKeeps(s.c, newTbs);
    assert forall k :: !Active(r, k);
    BroadcastLinks(s, told, newTbs);
    assert NetOf(s.(c := r), told + {newTbs}) == NetOf(s, told + {newTbs});
  }

  // ---------------------------------------------------------------- runs

  /** A new message is broadcast only when nothing of the old one is on its way. */
  predicate QuietStep(s: Sys, e: SysEvent) {
    e.NewMessage? && s.c.done && s.c.toMint > 0 ==> Quiet(s)
  }

  predicate QuietRun(s: Sys, es: seq<SysEvent>) {
    forall k :: 0 <= k < |es| ==> QuietStep(SignSystem.Run(s, es[..k]), es[k])
  }

  function ToldAfter(told: set<Bytes>, e: SysEvent): set<Bytes> {
    if e.NewMessage? then told + {e.newTbs} else told
  }

  /** The messages of a run. */
  function Told(tbs: Bytes, es: seq<SysEvent>): set<Bytes> {
    if es == [] then {tbs} else ToldAfter(Told(tbs, es[..|es| - 1]), es[|es| - 1])
  }

  lemma MoreTold(s: Sys, told: set<Bytes>, more: set<Bytes>)
    requires SysOk(s, told) && told <= more
    ensures SysOk(s, more)
  {
    forall i | 0 <= i < |s.c.signers| ensures LinkAt(s.c, NetOf(s, more), i) {
      var tb := ToldTo(s.c, NetOf(s, told), i);
      assert LinkBy(s.c, NetOf(s, more), i, tb);
    }
    assert MembersKnown(s.c, NetOf(s, more));
  }

  lemma StepGood(s: Sys, told: set<Bytes>, e: SysEvent)
    requires SysOk(s, told) && QuietStep(s, e)
    ensures SysOk(SignSystem.Step(s, e), ToldAfter(told, e))
  {
    match e
    case Join(id, n, t) => JoinGood(s, told, id, n, t);
    case Leave(id) => LeaveGood(s, told, id);
    case ToNode(id, ignored, o) => if CanReceive(s, id) { ToNodeGood(s, told, id, ignored, o); }
    case ToCoord(id, verdict, now, assembled) =>
      if CanSend(s, id, verdict) { ToCoordGood(s, told, id, verdict, now, assembled); }
    case Clock(now, after) => ClockGood(s, told, now, after);
    case NewMessage(newTbs) => NewMessageGood(s, told, newTbs);
  }

  lemma ClockGood(s: Sys, told: set<Bytes>, now: int, after: set<int>)
    requires SysOk(s, told)
    ensures SysOk(s.(c := Roast.Step(s.c, Tick(now, after))), told)
  {
    if !s.c.done {
      SweepGood(s.c, NetOf(s, told), |s.c.sessions|, now, after);
    }
  }

  lemma NewMessageGood(s: Sys, told: set<Bytes>, newTbs: Bytes)
    requires SysOk(s, told) && QuietStep(s, NewMessage(newTbs))
    ensures SysOk(s.(c := OnNextCert(s.c, newTbs)), told + {newTbs})
  {
    if s.c.done && s.c.toMint > 0 {
      NewMessageIff(s, told, newTbs);
    } else {
      MoreTold(s, told, told + {newTbs});
    }
  }

  lemma {:induction false} RunGood(n: int, t: int, tbs: Bytes, serial: nat, toMint: nat, es: seq<SysEvent>)
    requires QuietRun(SignSystem.Start(n, t, tbs, serial, toMint), es)
    ensures SysOk(SignSystem.Run(SignSystem.Start(n, t, tbs, serial, toMint), es), Told(tbs, es))
  {
    var s0 := SignSystem.Start(n, t, tbs, serial, toMint);
    if es == [] {
      StartIsFine(n, t, tbs, serial, toMint);
      assert forall k :: !Active(s0.c, k);
    } else {
      var init := es[..|es| - 1];
      forall k | 0 <= k < |init| ensures QuietStep(SignSystem.Run(s0, init[..k]), init[k]) {
        assert init[..k] == es[..k];
      }
      RunGood(n, t, tbs, serial, toMint, init);
      StepGood(SignSystem.Run(s0, init), Told(tbs, init), es[|es| - 1]);
    }
  }

  // ---------------------------------------------------------------- the guarantees

  /**
   A commitment the coordinator holds for a signer is that signer's live one, its nonces unused, and
   made for a message of this run: for the current one unless the signer is blacklisted.
   */
  lemma StoredCommitIsLive(n: int, t: int, tbs: Bytes, serial: nat, toMint: nat, es: seq<SysEvent>, i: nat)
    requires QuietRun(SignSystem.Start(n, t, tbs, serial, toMint), es)
    requires var c := SignSystem.Run(SignSystem.Start(n, t, tbs, serial, toMint), es).c;
             i < |c.signers| && c.signers[i].phase.Committed? && c.signers[i].commit != []
    ensures var s := SignSystem.Run(SignSystem.Start(n, t, tbs, serial, toMint), es);
            var sg := s.c.signers[i];
            && sg.id in s.nodes
            && s.nodes[sg.id].commit == sg.commit
            && s.nodes[sg.id].tbs in Told(tbs, es) && (sg.id !in s.c.blacklist ==> s.nodes[sg.id].tbs == s.c.tbs)
            && s.nodes[sg.id].nonces != [] && !SL.NonceUsed(s.nodes[sg.id].log, s.nodes[sg.id].nonces)
  {
    var s := SignSystem.Run(SignSystem.Start(n, t, tbs, serial, toMint), es);
    RunGood(n, t, tbs, serial, toMint, es);
    var tb := ToldTo(s.c, NetOf(s, Told(tbs, es)), i);
  }

  /** Whenever a bundle is the next frame of a signer, that signer accepts it and has the nonces to answer. */
  lemma NoBundleIsRefused(n: int, t: int, tbs: Bytes, serial: nat, toMint: nat, es: seq<SysEvent>, i: nat)
    requires QuietRun(SignSystem.Start(n, t, tbs, serial, toMint), es)
    requires var c := SignSystem.Run(SignSystem.Start(n, t, tbs, serial, toMint), es).c;
             i < |c.signers| && c.signers[i].msgq != [] && c.signers[i].msgq[0].RelayCommit?
    ensures var s := SignSystem.Run(SignSystem.Start(n, t, tbs, serial, toMint), es);
            var sg := s.c.signers[i];
            var b := sg.msgq[0].bundle;
            && sg.id in s.nodes && WellFormed(b)
            && SM.Accepts(s.nodes[sg.id], Pack(b), s.valid) && s.nodes[sg.id].nonces != []
  {
    var s := SignSystem.Run(SignSystem.Start(n, t, tbs, serial, toMint), es);
    RunGood(n, t, tbs, serial, toMint, es);
    var tb := ToldTo(s.c, NetOf(s, Told(tbs, es)), i);
    var sg := s.c.signers[i];
    assert Down(sg.msgq)[0] == sg.msgq[0];
    ReadyAccepts(s.nodes[sg.id], sg.msgq[0].bundle, s.valid);
  }

  /** With one certificate there is one message, also for those that are blacklisted. */
  lemma {:induction false} OneMessage(tbs: Bytes, es: seq<SysEvent>)
    requires forall k :: 0 <= k < |es| ==> !es[k].NewMessage?
    ensures Told(tbs, es) == {tbs}
  {
    if es != [] {
      OneMessage(tbs, es[..|es| - 1]);
    }
  }

  // ---------------------------------------------------------------- what an unquiet broadcast does

  /** What StoredCommitIsLive promises for one signer. */
  predicate HoldsLive(s: Sys, i: nat)
    requires i < |s.c.signers|
  {
    var sg := s.c.signers[i];
    sg.phase.Committed? && sg.commit != [] && sg.id !in s.c.blacklist ==>
      sg.id in s.nodes && s.nodes[sg.id].commit == sg.commit && s.nodes[sg.id].tbs == s.c.tbs
  }

  /** The commitment at the head of a channel was made for the coordinator's message. */
  lemma ArrivesFor(s: Sys, told: set<Bytes>, i: nat)
    requires SysOk(s, told) && i < |s.c.signers| && Reached(s.c, s.c.signers[i])
    requires var id := s.c.signers[i].id; id in s.up && s.up[id] != [] && s.up[id][0].CommitMsg?
    ensures var id := s.c.signers[i].id; id in s.nodes && s.nodes[id].tbs == s.c.tbs
  {
    var tb := ToldTo(s.c, NetOf(s, told), i);
    var sg := s.c.signers[i];
    TakenLinks(tb, s.c.t, sg, s.nodes[sg.id], s.up[sg.id], s.valid);
  }

  /** Storing a commitment while no session can form changes nothing else. */
  lemma StoredOnly(c: Coord, id: Id, payload: Bytes, sig: Bytes, now: int)
    requires CommitAccepted(c, id, payload, sig)
    ensures OnCommit(c, id, payload, sig, now, false) == StoreCommit(c, IndexOf(c.signers, id), payload, sig)
  {
  }

  /** A commitment for another message that finds its signer waiting is stored, and is not live. */
  lemma StoredStale(s: Sys, i: nat)
    requires SignersOk(s.c) && i < |s.c.signers| && s.c.signers[i].phase.Init? && s.c.signers[i].id !in s.c.blacklist
    requires var id := s.c.signers[i].id;
             && id in s.up && s.up[id] != [] && s.up[id][0].CommitMsg? && s.up[id][0].payload != []
             && |s.up[id][0].payload| <= COMMIT_ENTRY_MAX && |s.up[id][0].sig| == SIG_SIZE
             && id in s.nodes && s.nodes[id].tbs != s.c.tbs
    ensures var r := SignSystem.Step(s, ToCoord(s.c.signers[i].id, Verdict.Good(true), 0, false));
            i < |r.c.signers| && r.c.signers[i].id == s.c.signers[i].id && !HoldsLive(r, i)
  {
    var id, m := s.c.signers[i].id, s.up[s.c.signers[i].id][0];
    IndexOfIs(s.c.signers, i);
    StoredOnly(s.c, id, m.payload, m.sig, 0);
  }

  /**
   From every state the invariant allows: if a commitment of a reached signer arrives first after the broadcast of
   another message, the coordinator holds it for the new message, and it is not that signer's live one.
   */
  lemma UnquietStoresStale(s: Sys, told: set<Bytes>, newTbs: Bytes, i: nat)
    requires SysOk(s, told) && s.c.done && s.c.toMint > 0 && newTbs != s.c.tbs
    requires i < |s.c.signers| && Reached(s.c, s.c.signers[i])
    requires var id := s.c.signers[i].id;
             && id in s.up && s.up[id] != [] && s.up[id][0].CommitMsg? && s.up[id][0].payload != []
             && |s.up[id][0].payload| <= COMMIT_ENTRY_MAX && |s.up[id][0].sig| == SIG_SIZE
    ensures !Quiet(s)
    ensures var arrival := ToCoord(s.c.signers[i].id, Verdict.Good(true), 0, false);
            var r := SignSystem.Step(SignSystem.Step(s, NewMessage(newTbs)), arrival);
            i < |r.c.signers| && r.c.signers[i].id == s.c.signers[i].id && !HoldsLive(r, i)
  {
    var id := s.c.signers[i].id;
    var m := SignSystem.Step(s, NewMessage(newTbs));
    ArrivesFor(s, told, i);
    assert !QuietAt(s, i);
    assert m.c.signers[i] == Renew(s.c.signers[i], Init, newTbs);
    NextCertKeeps(s.c, newTbs);
    StoredStale(m, i);
  }
}
