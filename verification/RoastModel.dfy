/**
 The ROAST coordinator in sign mode as a state machine: the registered signers, the
 64-slot session table, the blacklist, the strikes and the minting latches, with one
 function per handler of `frost_coordinator.c`. The class in RoastCoordinator.dfy is
 proved to compute these functions in place.

 Inputs the coordinator does not control are parameters of an event: the clock, whether
 `assemble` succeeds, the verdict of `aggregate`, whether `mint` succeeds.
 */
module Roast {
  import opened Octets
  import opened Bundles

  const MAX_SESSIONS: int := 64
  const SESSION_TIMEOUT: int := 10
  const MAX_STRIKES: int := 2
  const U64_MAX: nat := 0xFFFF_FFFF_FFFF_FFFF

  type Id = int

  datatype Phase = Init | NoKey | Committed | InSession | Shared | Blacklisted | Suspect

  datatype Msg = HelloAck | SignReq(tbs: Bytes) | RelayCommit(bundle: Bundle) | CertOutput

  /** One registered connection; `msgq` is its queue of frames not yet delivered. */
  datatype Signer = Signer(id: Id, phase: Phase, commit: Bytes, commitSig: Bytes, sessionId: nat, msgq: seq<Msg>)

  datatype SessionState = Empty | Awaiting | Complete | Failed

  /** `shares[i]` is the share of `members[i]`, empty while it has not arrived. */
  datatype Session = Session(id: nat, state: SessionState, deadline: int, members: seq<Id>,
                             pkg: Bundle, shares: seq<Bytes>, nShares: nat)

  const NO_BUNDLE: Bundle := Bundle([], [])
  const EMPTY_SESSION: Session := Session(0, Empty, 0, [], NO_BUNDLE, [], 0)

  datatype Coord = Coord(
    n: int, t: int,
    signers: seq<Signer>,
    sessions: seq<Session>, nextSid: nat,
    blacklist: seq<Id>, strikes: seq<nat>,
    done: bool, roastFail: bool,
    tbs: Bytes, serial: nat, toMint: nat, minted: nat,
    certs: seq<nat>)   // serials of the certificates written, oldest first

  datatype Verdict = Good(mintOk: bool) | Culprit(culprit: Id) | Unknown

  datatype Event =
    | Hello(id: Id, n: int, t: int, authentic: bool)
    | Disconnect(id: Id)
    | LoadFail(id: Id)
    | Commit(id: Id, payload: Bytes, sig: Bytes, now: int, assembled: bool)
    | Share(id: Id, payload: Bytes, verdict: Verdict, now: int, assembled: bool)
    | Tick(now: int, assembledAfter: set<int>)
    | NextCert(newTbs: Bytes)

  // ---------------------------------------------------------------- lookups

  predicate Connected(l: seq<Signer>, id: Id) {
    exists i :: 0 <= i < |l| && l[i].id == id
  }

  /** `r` is `l` with a change that left the ids alone. */
  predicate SameIds(l: seq<Signer>, r: seq<Signer>) {
    |l| == |r| && forall i :: 0 <= i < |l| ==> r[i].id == l[i].id
  }

  /** Position of `id` in the list, or the length when it is not connected. */
  function IndexOf(l: seq<Signer>, id: Id): (i: nat)
    ensures i <= |l|
    ensures i < |l| ==> l[i].id == id
    ensures i < |l| <==> Connected(l, id)
  {
    if l == [] then 0 else if l[0].id == id then 0 else
      var r := IndexOf(l[1..], id);
      assert r < |l| - 1 ==> l[1 + r].id == id;
      assert Connected(l, id) ==> Connected(l[1..], id) by {
        if Connected(l, id) {
          var i :| 0 <= i < |l| && l[i].id == id;
          assert l[1..][i - 1].id == id;
        }
      }
      1 + r
  }

  function Strikes(strikes: seq<nat>, id: Id): nat {
    if 1 <= id <= |strikes| then strikes[id - 1] else 0
  }

  /** First empty slot, or the length when there is none. */
  function FreeSlot(ss: seq<Session>): (k: nat)
    ensures k <= |ss|
    ensures k < |ss| ==> ss[k].state.Empty?
    ensures forall i :: 0 <= i < k ==> !ss[i].state.Empty?
  {
    if ss == [] || ss[0].state.Empty? then 0 else 1 + FreeSlot(ss[1..])
  }

  /** First slot whose id is `sid`, or the length when there is none. */
  function FindSession(ss: seq<Session>, sid: nat): (k: nat)
    ensures k <= |ss|
    ensures k < |ss| ==> ss[k].id == sid
    ensures forall i :: 0 <= i < k ==> ss[i].id != sid
  {
    if ss == [] || ss[0].id == sid then 0 else 1 + FindSession(ss[1..], sid)
  }

  function SlotOf(members: seq<Id>, id: Id): (k: nat)
    ensures k <= |members|
    ensures k < |members| ==> members[k] == id
    ensures forall i :: 0 <= i < k ==> members[i] != id
  {
    if members == [] || members[0] == id then 0 else 1 + SlotOf(members[1..], id)
  }

  function ActiveCount(ss: seq<Session>): nat {
    if ss == [] then 0 else ActiveCount(ss[..|ss| - 1]) + if ss[|ss| - 1].state.Awaiting? then 1 else 0
  }

  // ---------------------------------------------------------------- blacklist

  function AddBlacklist(bl: seq<Id>, id: Id): seq<Id> {
    if |bl| >= MAX_SIGNERS || id in bl then bl else bl + [id]
  }

  function AddAllBlacklist(bl: seq<Id>, ids: seq<Id>): seq<Id>
  {
    if ids == [] then bl else AddBlacklist(AddAllBlacklist(bl, ids[..|ids| - 1]), ids[|ids| - 1])
  }

  // ---------------------------------------------------------------- SIGN_REQ

  /** Back to waiting for a fresh commitment, with a SIGN_REQ queued. */
  function Renew(sg: Signer, phase: Phase, tbs: Bytes): Signer {
    sg.(phase := phase, commit := [], sessionId := 0, msgq := sg.msgq + [SignReq(tbs)])
  }

  function BroadcastTo(sg: Signer, bl: seq<Id>, tbs: Bytes): Signer {
    if sg.id in bl || sg.phase.NoKey? then sg else Renew(sg, Init, tbs)
  }

  function Broadcast(l: seq<Signer>, bl: seq<Id>, tbs: Bytes): (r: seq<Signer>)
    ensures |r| == |l| && forall i :: 0 <= i < |r| ==> r[i] == BroadcastTo(l[i], bl, tbs)
  {
    seq(|l|, i requires 0 <= i < |l| => BroadcastTo(l[i], bl, tbs))
  }

  function Remaining(l: seq<Signer>, bl: seq<Id>): nat {
    if l == [] then 0
    else Remaining(l[..|l| - 1], bl) + if l[|l| - 1].id !in bl && !l[|l| - 1].phase.NoKey? then 1 else 0
  }

  // ---------------------------------------------------------------- session formation

  predicate Eligible(sg: Signer, bl: seq<Id>, strikes: seq<nat>, suspect: bool) {
    && sg.commit != [] && sg.id !in bl
    && if suspect then (sg.phase.Committed? || sg.phase.Suspect?) && Strikes(strikes, sg.id) > 0
       else sg.phase.Committed? && Strikes(strikes, sg.id) == 0
  }

  /** The first `limit` eligible ids in list order. */
  function Pick(l: seq<Signer>, bl: seq<Id>, strikes: seq<nat>, suspect: bool, limit: nat): (r: seq<Id>)
    ensures |r| <= limit
  {
    if l == [] || limit == 0 then []
    else if Eligible(l[0], bl, strikes, suspect)
    then [l[0].id] + Pick(l[1..], bl, strikes, suspect, limit - 1)
    else Pick(l[1..], bl, strikes, suspect, limit)
  }

  /** Reliable signers first, suspects only to fill the remaining places. */
  function Select(s: Coord): seq<Id> {
    var limit := if s.t < 0 then 0 else s.t;
    var p1 := Pick(s.signers, s.blacklist, s.strikes, false, limit);
    p1 + Pick(s.signers, s.blacklist, s.strikes, true, limit - |p1|)
  }

  /** How many list nodes the first pass touches before it stops (`num_signers`). */
  function Visited(l: seq<Signer>, bl: seq<Id>, strikes: seq<nat>, limit: nat): nat {
    if l == [] then 0
    else if limit == 0 then 1
    else 1 + Visited(l[1..], bl, strikes, if Eligible(l[0], bl, strikes, false) then limit - 1 else limit)
  }

  function EntryFor(l: seq<Signer>, id: Id): Entry {
    var i := IndexOf(l, id);
    if i < |l| then Entry(id, l[i].commit, l[i].commitSig) else Entry(0, [], [])
  }

  function BundleFor(s: Coord, chosen: seq<Id>): (b: Bundle)
    ensures |b.entries| == |chosen| && b.tbs == s.tbs
    ensures forall i :: 0 <= i < |chosen| ==> b.entries[i] == EntryFor(s.signers, chosen[i])
  {
    Bundle(seq(|chosen|, i requires 0 <= i < |chosen| => EntryFor(s.signers, chosen[i])), s.tbs)
  }

  function Join(sg: Signer, chosen: seq<Id>, sid: nat, b: Bundle): Signer {
    if sg.id in chosen
    then sg.(phase := InSession, sessionId := sid, msgq := sg.msgq + [RelayCommit(b)])
    else sg
  }

  function JoinAll(l: seq<Signer>, chosen: seq<Id>, sid: nat, b: Bundle): (r: seq<Signer>)
    ensures |r| == |l| && forall i :: 0 <= i < |r| ==> r[i] == Join(l[i], chosen, sid, b)
  {
    seq(|l|, i requires 0 <= i < |l| => Join(l[i], chosen, sid, b))
  }

  function NoShares(n: nat): (r: seq<Bytes>)
    ensures |r| == n && forall i :: 0 <= i < n ==> r[i] == []
  {
    seq(n, _ => [])
  }

  function NewSession(s: Coord, chosen: seq<Id>, b: Bundle, now: int): Session {
    Session(s.nextSid, Awaiting, now + SESSION_TIMEOUT, chosen, b, NoShares(|chosen|), 0)
  }

  function Form(s: Coord, chosen: seq<Id>, b: Bundle, k: nat, now: int): Coord
    requires k < |s.sessions|
  {
    s.(sessions := s.sessions[k := NewSession(s, chosen, b, now)],
       nextSid := s.nextSid + 1,
       signers := JoinAll(s.signers, chosen, s.nextSid, b))
  }

  /** `roast_try_form_session` finds nothing to do, or something stands in the way. */
  predicate Formable(s: Coord, assembled: bool) {
    var chosen := Select(s);
    && !s.done
    && s.t <= Visited(s.signers, s.blacklist, s.strikes, if s.t < 0 then 0 else s.t)
    && s.t <= |chosen|
    && FreeSlot(s.sessions) < |s.sessions|
    && WellFormed(BundleFor(s, chosen))
    && assembled
    && PackedLen(BundleFor(s, chosen)) <= MAX_PAYLOAD
  }

  function TryForm(s: Coord, now: int, assembled: bool): Coord {
    if !Formable(s, assembled) then s
    else Form(s, Select(s), BundleFor(s, Select(s)), FreeSlot(s.sessions), now)
  }

  /** The guard every caller puts around `roast_try_form_session`. */
  function MaybeForm(s: Coord, now: int, assembled: bool): Coord {
    if !s.done && ActiveCount(s.sessions) < MAX_SESSIONS then TryForm(s, now, assembled) else s
  }

  // ---------------------------------------------------------------- aggregation

  function AfterCulprit(sg: Signer, members: seq<Id>, culprit: Id, tbs: Bytes): Signer {
    if sg.id == culprit then sg.(phase := Blacklisted)
    else if sg.id in members then Renew(sg, Init, tbs)
    else sg
  }

  function AfterCulpritAll(l: seq<Signer>, members: seq<Id>, culprit: Id, tbs: Bytes): (r: seq<Signer>)
    ensures |r| == |l| && forall i :: 0 <= i < |r| ==> r[i] == AfterCulprit(l[i], members, culprit, tbs)
  {
    seq(|l|, i requires 0 <= i < |l| => AfterCulprit(l[i], members, culprit, tbs))
  }

  /** `roast_fail_culprit` up to the attempt to form the next session. */
  function DropCulprit(s: Coord, k: nat, culprit: Id): Coord
    requires k < |s.sessions|
  {
    var sess := s.sessions[k];
    s.(sessions := s.sessions[k := sess.(state := Failed)],
       blacklist := AddBlacklist(s.blacklist, culprit),
       signers := AfterCulpritAll(s.signers, sess.members, culprit, s.tbs))
  }

  function FailCulprit(s: Coord, k: nat, culprit: Id, now: int, assembled: bool): Coord
    requires k < |s.sessions|
  {
    var s1 := MaybeForm(DropCulprit(s, k, culprit), now, assembled);
    s1.(roastFail := Remaining(s1.signers, s1.blacklist) < s1.t)
  }

  function Banish(sg: Signer, members: seq<Id>): Signer {
    if sg.id in members then sg.(phase := Blacklisted) else sg
  }

  function BanishAll(l: seq<Signer>, members: seq<Id>): (r: seq<Signer>)
    ensures |r| == |l| && forall i :: 0 <= i < |r| ==> r[i] == Banish(l[i], members)
  {
    seq(|l|, i requires 0 <= i < |l| => Banish(l[i], members))
  }

  /** No culprit named: the whole session is blacklisted and everyone else starts again. */
  function FailUnknown(s: Coord, k: nat): Coord
    requires k < |s.sessions|
  {
    var sess := s.sessions[k];
    var bl := AddAllBlacklist(s.blacklist, sess.members);
    var l := BanishAll(s.signers, sess.members);
    s.(sessions := s.sessions[k := sess.(state := Failed)],
       blacklist := bl,
       done := s.done || Remaining(l, bl) < s.t,
       signers := Broadcast(l, bl, s.tbs))
  }

  function NotifyAll(l: seq<Signer>): (r: seq<Signer>)
    ensures |r| == |l| && forall i :: 0 <= i < |r| ==> r[i] == l[i].(msgq := l[i].msgq + [CertOutput])
  {
    seq(|l|, i requires 0 <= i < |l| => l[i].(msgq := l[i].msgq + [CertOutput]))
  }

  /** `g_to_mint--` on an unsigned 64-bit counter. */
  function Decrement64(x: nat): nat {
    if x == 0 then U64_MAX else x - 1
  }

  /** `call_mint` after its certificate file was written. */
  function Mint(s: Coord): Coord {
    s.(minted := s.minted + 1, toMint := Decrement64(s.toMint), certs := s.certs + [s.serial])
  }

  function Succeed(s: Coord, k: nat, mintOk: bool): Coord
    requires k < |s.sessions|
  {
    var s1 := s.(sessions := s.sessions[k := s.sessions[k].(state := Complete)], done := true);
    if mintOk then Mint(s1).(signers := NotifyAll(s1.signers)) else s1
  }

  function Aggregate(s: Coord, k: nat, verdict: Verdict, now: int, assembled: bool): Coord
    requires k < |s.sessions|
  {
    if s.sessions[k].nShares < s.t || s.done then s else
    match verdict
    case Good(mintOk) => Succeed(s, k, mintOk)
    case Culprit(c) => if 0 < c <= MAX_SIGNERS then FailCulprit(s, k, c, now, assembled) else FailUnknown(s, k)
    case Unknown => FailUnknown(s, k)
  }

  /** The lines `aggregate` is fed: one per member whose share is not empty. */
  function AggregateLines(members: seq<Id>, shares: seq<Bytes>): seq<(Id, Bytes)>
    requires |members| == |shares|
  {
    if members == [] then []
    else (if shares[0] != [] then [(members[0], shares[0])] else []) + AggregateLines(members[1..], shares[1..])
  }

  // ---------------------------------------------------------------- expiry

  /** Did the member with this id send a share? */
  predicate Cooperated(sess: Session, id: Id) {
    var k := SlotOf(sess.members, id);
    k < |sess.members| && k < |sess.shares| && sess.shares[k] != []
  }

  predicate Silent(sess: Session, id: Id) {
    id in sess.members && !Cooperated(sess, id)
  }

  function AfterExpiry(sg: Signer, sess: Session, strikes: seq<nat>, tbs: Bytes): Signer {
    if sg.id !in sess.members then sg
    else if Cooperated(sess, sg.id) then Renew(sg, Init, tbs)
    else if Strikes(strikes, sg.id) >= MAX_STRIKES then sg.(phase := Blacklisted)
    else Renew(sg, Suspect, tbs)
  }

  /** `strikes` is the table after the silent members were struck. */
  function AfterExpiryAll(l: seq<Signer>, sess: Session, strikes: seq<nat>, tbs: Bytes): (r: seq<Signer>)
    ensures |r| == |l| && forall i :: 0 <= i < |r| ==> r[i] == AfterExpiry(l[i], sess, strikes, tbs)
  {
    seq(|l|, i requires 0 <= i < |l| => AfterExpiry(l[i], sess, strikes, tbs))
  }

  /** Only a connected silent member is struck. */
  function StrikeSilent(strikes: seq<nat>, l: seq<Signer>, sess: Session): (r: seq<nat>)
    ensures |r| == |strikes|
    ensures forall i :: 0 <= i < |r| ==>
      r[i] == strikes[i] + if Silent(sess, i + 1) && Connected(l, i + 1) then 1 else 0
  {
    seq(|strikes|, i requires 0 <= i < |strikes| =>
      strikes[i] + if Silent(sess, i + 1) && Connected(l, i + 1) then 1 else 0)
  }

  predicate StruckOut(sess: Session, l: seq<Signer>, strikes: seq<nat>, id: Id) {
    Silent(sess, id) && Connected(l, id) && Strikes(strikes, id) >= MAX_STRIKES
  }

  /** Blacklist, in member order, every silent member that has used up its strikes. */
  function BlacklistStruckOut(bl: seq<Id>, ids: seq<Id>, sess: Session, l: seq<Signer>, strikes: seq<nat>): seq<Id> {
    if ids == [] then bl else
    var before := BlacklistStruckOut(bl, ids[..|ids| - 1], sess, l, strikes);
    var id := ids[|ids| - 1];
    if StruckOut(sess, l, strikes, id) then AddBlacklist(before, id) else before
  }

  /** Retire slot `k` without forming a new session yet. */
  function Expire(s: Coord, k: nat): Coord
    requires k < |s.sessions|
  {
    var sess := s.sessions[k];
    var st := StrikeSilent(s.strikes, s.signers, sess);
    s.(sessions := s.sessions[k := sess.(state := Failed)],
       strikes := st,
       blacklist := BlacklistStruckOut(s.blacklist, sess.members, sess, s.signers, st),
       signers := AfterExpiryAll(s.signers, sess, st, s.tbs))
  }

  predicate Expired(sess: Session, now: int) {
    sess.state.Awaiting? && now >= sess.deadline
  }

  function SweepSlot(s: Coord, k: nat, now: int, assembled: bool): Coord
    requires k < |s.sessions|
  {
    if Expired(s.sessions[k], now) then MaybeForm(Expire(s, k), now, assembled) else s
  }

  /** Slots below `k`, in order. */
  function Sweep(s: Coord, k: nat, now: int, assembledAfter: set<int>): (r: Coord)
    requires k <= |s.sessions|
    ensures |r.sessions| == |s.sessions|
  {
    if k == 0 then s else
    SweepSlot(Sweep(s, k - 1, now, assembledAfter), k - 1, now, k - 1 in assembledAfter)
  }

  // ---------------------------------------------------------------- frames

  predicate HelloWellFormed(id: Id, n: int, t: int) {
    1 <= id <= MAX_SIGNERS && 2 <= n <= MAX_SIGNERS && 1 <= t <= n && id <= n
  }

  function Register(s: Coord, id: Id): Coord {
    s.(signers := [Signer(id, Init, [], [], 0, [HelloAck, SignReq(s.tbs)])] + s.signers)
  }

  /** A HELLO fixes n and t when it is the first, must agree with them otherwise, and must claim a free id. */
  function OnHello(s: Coord, id: Id, n: int, t: int, authentic: bool): Coord {
    if !HelloWellFormed(id, n, t) then s
    else if s.n != 0 && (n != s.n || t != s.t) then s
    else
      var s1 := if s.n == 0 then s.(n := n, t := t) else s;
      if !authentic || Connected(s1.signers, id) then s1 else Register(s1, id)
  }

  function OnDisconnect(s: Coord, id: Id): Coord {
    var i := IndexOf(s.signers, id);
    if i < |s.signers| then s.(signers := s.signers[..i] + s.signers[i + 1..]) else s
  }

  function OnLoadFail(s: Coord, id: Id): Coord {
    var i := IndexOf(s.signers, id);
    if i < |s.signers| then s.(signers := s.signers[i := s.signers[i].(phase := NoKey)]) else s
  }

  function StoreCommit(s: Coord, i: nat, payload: Bytes, sig: Bytes): Coord
    requires i < |s.signers|
  {
    s.(signers := s.signers[i := s.signers[i].(commit := payload, commitSig := sig, phase := Committed)])
  }

  predicate CommitAccepted(s: Coord, id: Id, payload: Bytes, sig: Bytes) {
    var i := IndexOf(s.signers, id);
    && i < |s.signers|
    && (s.signers[i].phase.Init? || s.signers[i].phase.Suspect?)
    && |payload| <= COMMIT_ENTRY_MAX && |sig| == SIG_SIZE
  }

  function OnCommit(s: Coord, id: Id, payload: Bytes, sig: Bytes, now: int, assembled: bool): Coord {
    if !CommitAccepted(s, id, payload, sig) then s
    else MaybeForm(StoreCommit(s, IndexOf(s.signers, id), payload, sig), now, assembled)
  }

  /** The slot and member position a share from `id` goes to. */
  predicate Routable(s: Coord, id: Id) {
    var i := IndexOf(s.signers, id);
    && i < |s.signers|
    && var k := FindSession(s.sessions, s.signers[i].sessionId);
       && k < |s.sessions|
       && s.sessions[k].state.Awaiting?
       && SlotOf(s.sessions[k].members, id) < |s.sessions[k].members|
  }

  function StoreShare(s: Coord, id: Id, payload: Bytes): Coord
    requires Routable(s, id)
  {
    var i := IndexOf(s.signers, id);
    var k := FindSession(s.sessions, s.signers[i].sessionId);
    var sess := s.sessions[k];
    var slot := SlotOf(sess.members, id);
    var shares := if slot < |sess.shares| then sess.shares[slot := payload] else sess.shares;
    s.(sessions := s.sessions[k := sess.(shares := shares, nShares := sess.nShares + 1)],
       signers := s.signers[i := s.signers[i].(phase := Shared)])
  }

  function OnShare(s: Coord, id: Id, payload: Bytes, verdict: Verdict, now: int, assembled: bool): Coord {
    if |payload| > MAX_PAYLOAD || !Routable(s, id) then s else
    var k := FindSession(s.sessions, s.signers[IndexOf(s.signers, id)].sessionId);
    Aggregate(StoreShare(s, id, payload), k, verdict, now, assembled)
  }

  /** `prepare_tbs` succeeded: a new message, an empty session table, the same blacklist. */
  function OnNextCert(s: Coord, newTbs: Bytes): Coord {
    if !s.done || s.toMint == 0 then s else
    s.(serial := s.serial + 1, tbs := newTbs, done := false,
       sessions := seq(|s.sessions|, _ => EMPTY_SESSION),
       signers := Broadcast(s.signers, s.blacklist, newTbs))
  }

  function Step(s: Coord, e: Event): Coord {
    match e
    case Hello(id, n, t, authentic) => OnHello(s, id, n, t, authentic)
    case Disconnect(id) => OnDisconnect(s, id)
    case LoadFail(id) => OnLoadFail(s, id)
    case Commit(id, payload, sig, now, assembled) => OnCommit(s, id, payload, sig, now, assembled)
    case Share(id, payload, verdict, now, assembled) => OnShare(s, id, payload, verdict, now, assembled)
    case Tick(now, after) => if s.done then s else Sweep(s, |s.sessions|, now, after)
    case NextCert(newTbs) => OnNextCert(s, newTbs)
  }

  /** State after the events of `es`, oldest first. */
  function Run(s: Coord, es: seq<Event>): Coord {
    if es == [] then s else Step(Run(s, es[..|es| - 1]), es[|es| - 1])
  }

  /** Sign mode at start-up: `n` and `t` from the command line (0 when not given). */
  function Start(n: int, t: int, tbs: Bytes, serial: nat, toMint: nat): Coord {
    Coord(n, t, [], seq(MAX_SESSIONS, _ => EMPTY_SESSION), 1, [], seq(MAX_SIGNERS, _ => 0),
          false, false, tbs, serial, toMint, 0, [])
  }
}
