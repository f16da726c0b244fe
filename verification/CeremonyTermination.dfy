/**
 Every ceremony ends. What is still to be done is counted by the frames in the channels and those not
 yet sent; every registration and every delivery lowers it by exactly one. So a run of n signers has
 at most n + n (3 n + 2) effective events in key generation, n more in refresh, and it has that many
 exactly when the ceremony is finished; before, some event can always happen.
 */
module CeremonyTermination {
  import opened Octets
  import opened Counting
  import opened Ceremony
  import opened CeremonyInvariant
  import opened CeremonySteps
  import opened CeremonyGuarantees

  // ---------------------------------------------------------------- sums over the signers

  function Sum(f: int -> int, k: nat): int {
    if k == 0 then 0 else Sum(f, k - 1) + f(k)
  }

  lemma {:induction false} SumShift(f: int -> int, g: int -> int, k: nat, d: int -> int)
    requires forall i :: 1 <= i <= k ==> g(i) == f(i) + d(i)
    ensures Sum(g, k) == Sum(f, k) + Sum(d, k)
  {
    if k != 0 {
      SumShift(f, g, k - 1, d);
    }
  }

  /** A sum with at most one term. */
  lemma {:induction false} SumOne(f: int -> int, k: nat, a: int, x: int)
    requires 1 <= a && forall i :: 1 <= i <= k ==> f(i) == if i == a then x else 0
    ensures Sum(f, k) == if a <= k then x else 0
  {
    if k != 0 {
      SumOne(f, k - 1, a, x);
    }
  }

  lemma {:induction false} SumConst(f: int -> int, k: nat, x: int)
    requires forall i :: 1 <= i <= k ==> f(i) == x
    ensures Sum(f, k) == k * x
  {
    if k != 0 {
      SumConst(f, k - 1, x);
    }
  }

  lemma {:induction false} SumZero(f: int -> int, k: nat)
    requires forall i :: 1 <= i <= k ==> f(i) >= 0
    ensures Sum(f, k) >= 0 && (Sum(f, k) == 0 <==> forall i :: 1 <= i <= k ==> f(i) == 0)
  {
    if k != 0 {
      SumZero(f, k - 1);
    }
  }

  // ---------------------------------------------------------------- what is still to be done

  /** Deliveries that the frames to the coordinator stand for: a round-2 package is relayed. */
  function Work(u: seq<UpMsg>): nat {
    if u == [] then 0 else (if u[0].Round2? then 2 else 1) + Work(u[1..])
  }

  lemma {:induction false} WorkAppend(u: seq<UpMsg>, v: seq<UpMsg>)
    ensures Work(u + v) == Work(u) + Work(v)
  {
    if u == [] {
      assert u + v == v;
    } else {
      WorkAppend(u[1..], v);
      assert (u + v)[1..] == u[1..] + v;
    }
  }

  lemma {:induction false} WorkRound2(peers: seq<Id>)
    ensures Work(Round2For(peers)) == 2 * |peers|
  {
    if peers != [] {
      WorkRound2(peers[1..]);
      assert Round2For(peers)[1..] == Round2For(peers[1..]);
    }
  }

  /** What a signer has not sent yet. */
  function Unsent(mode: Mode, n: nat, nd: Node): int {
    Bit(!nd.started) + (if HasR1(n, nd) then 0 else 2 * (n - 1))
    + if mode.Refresh? then Bit(!HasR1(n, nd)) + Bit(nd.finalized == 0) else 2 * Bit(!HasR2(n, nd))
  }

  /** What the coordinator has not sent yet to each signer, relays of round 2 apart. */
  function UnsentBy(mode: Mode, n: nat, c: Coordinator): int {
    Bit(c.phase.Idle?) + (if c.phase.CollectingR2? || c.phase.Complete? then 0 else n - 1) + Bit(!c.phase.Complete?)
    + if mode.Refresh? then Bit(!c.done) else 0
  }

  function LoadAt(mode: Mode, n: nat, c: Coordinator, nd: Node, u: seq<UpMsg>, d: seq<DownMsg>): int {
    Work(u) + |d| + Unsent(mode, n, nd) + UnsentBy(mode, n, c)
  }

  function Load(s: Net, i: Id): int {
    if i in s.nodes && i in s.up && i in s.down then LoadAt(s.mode, s.n, s.c, s.nodes[i], s.up[i], s.down[i]) else 0
  }

  function Pending(s: Net): int {
    s.n - |s.c.members| + Sum(i => Load(s, i), s.n)
  }

  predicate Enabled(s: Net, e: Event) {
    match e
    case Register(id) => 1 <= id <= s.n && id !in s.c.members
    case DeliverUp(id) => id in s.up && s.up[id] != [] && id in s.c.members
    case DeliverDown(id) => id in s.down && id in s.up && id in s.nodes && s.down[id] != []
  }

  /** All loads change by `d`, which sums up to one less. */
  lemma PendingShift(s: Net, r: Net, d: int -> int)
    requires r.n == s.n && forall i :: 1 <= i <= s.n ==> Load(r, i) == Load(s, i) + d(i)
    ensures Pending(r) == Pending(s) + Sum(d, s.n) - (|r.c.members| - |s.c.members|)
  {
    SumShift(i => Load(s, i), i => Load(r, i), s.n, d);
  }

  lemma PendingOne(s: Net, r: Net, a: Id)
    requires r.n == s.n && IsId(s, a) && |r.c.members| == |s.c.members|
    requires forall i {:trigger Load(r, i)} :: 1 <= i <= s.n ==> Load(r, i) == Load(s, i) - if i == a then 1 else 0
    ensures Pending(r) == Pending(s) - 1
  {
    var d := (i: int) => if i == a then -1 else 0;
    PendingShift(s, r, d);
    SumOne(d, s.n, a, -1);
  }

  // ---------------------------------------------------------------- a signer takes a frame

  lemma TurnLoad(s: Net, j: Id)
    requires Inv(s) && IsId(s, j) && s.down[j] != []
    ensures var x := NodeStep(s.mode, s.n, s.nodes[j], s.down[j][0]);
            Work(x.1) + Unsent(s.mode, s.n, x.0) == Unsent(s.mode, s.n, s.nodes[j])
  {
    var m, nd := s.down[j][0], s.nodes[j];
    assert NodeOk(s, j) && Cnt(s.down[j], m) > 0;
    match m
    case StartMsg =>
      assert [Round1][1..] == [] && Work([Round1]) == 1;
    case RelayR1(src) =>
      R1IsNew(s, j, src);
      R1Load(s.mode, s.n, nd, src);
    case RelayR2(src) =>
      R2IsNew(s, j, src);
      R2Load(s.mode, s.n, nd, src);
    case AllDone =>
      AnnouncedCounts(s, j);
      assert [Finished][1..] == [] && Work([Finished]) == 1;
    case Confirmed =>
  }

  lemma R1Load(mode: Mode, n: nat, nd: Node, src: Id)
    requires |nd.r1| + 1 <= n - 1 <= MAX_SIGNERS
    ensures var x := OnRelayR1(mode, n, nd, src); Work(x.1) + Unsent(mode, n, x.0) == Unsent(mode, n, nd)
  {
    var r1, last := nd.r1 + [src], if mode.Refresh? then [R2Complete] else [];
    WorkRound2(r1);
    WorkAppend(Round2For(r1), last);
    assert [R2Complete][1..] == [] && Work([R2Complete]) == 1;
  }

  lemma R2Load(mode: Mode, n: nat, nd: Node, src: Id)
    requires |nd.r2| + 1 <= n - 1 <= MAX_SIGNERS
    ensures var x := OnRelayR2(mode, n, nd, src); Work(x.1) + Unsent(mode, n, x.0) == Unsent(mode, n, nd)
  {
    var out := [R2Complete, Finished];
    assert out[1..] == [Finished] && out[1..][1..] == [] && Work(out[1..]) == 1 && Work(out) == 2;
  }

  lemma DownWorks(s: Net, j: Id)
    requires Inv(s) && IsId(s, j) && s.down[j] != []
    ensures Pending(Step(s, DeliverDown(j))) == Pending(s) - 1
  {
    var r, x := Step(s, DeliverDown(j)), NodeStep(s.mode, s.n, s.nodes[j], s.down[j][0]);
    TurnLoad(s, j);
    WorkAppend(s.up[j], x.1);
    forall i | 1 <= i <= s.n ensures Load(r, i) == Load(s, i) - if i == j then 1 else 0 {
      assert i in Upto(s.n);
    }
    PendingOne(s, r, j);
  }

  // ---------------------------------------------------------------- the coordinator takes a frame

  lemma {:induction false} OthersCount(ms: seq<Id>, j: Id)
    requires Distinct(ms)
    ensures |OthersR1(ms, j)| == |ms| - Bit(j in ms)
  {
    if ms != [] {
      assert ms == [ms[0]] + ms[1..];
      OthersCount(ms[1..], j);
      assert ms[0] !in ms[1..];
    }
  }

  lemma Everyone(s: Net, i: Id)
    requires Dom(s) && CoordOk(s) && !s.c.phase.Idle? && IsId(s, i)
    ensures i in s.c.members && |s.c.members| == s.n
  {
    Pigeonhole(s.c.members, Upto(s.n));
    FullMeansEveryone(s.c.members, s.n, i);
  }

  /** What the coordinator queues for signer `j` is what it had not sent to it before. */
  predicate Balanced(s: Net, res: (Coordinator, Sends), j: Id) {
    |QueuedFor(res.0, res.1, j)| + UnsentBy(s.mode, s.n, res.0) == UnsentBy(s.mode, s.n, s.c)
  }

  lemma Round1Balanced(s: Net, id: Id, j: Id)
    requires Inv(s) && IsId(s, id) && IsId(s, j) && !s.c.phase.Idle?
    ensures Balanced(s, OnRound1(s.n, s.c, id), j)
  {
    Everyone(s, j);
    OthersCount(s.c.members, j);
  }

  lemma R2CompleteBalanced(s: Net, id: Id, j: Id)
    requires Inv(s) && IsId(s, id) && IsId(s, j) && !s.c.phase.Idle? && id !in s.c.r2Complete && Relayed(s)
    ensures Balanced(s, OnR2Complete(s.n, s.c, id), j)
  {
    Everyone(s, j);
    assert id in Upto(s.n);
  }

  lemma FinishedBalanced(s: Net, id: Id, j: Id)
    requires Inv(s) && IsId(s, id) && IsId(s, j) && !s.c.phase.Idle? && id !in s.c.pub
    ensures Balanced(s, OnFinished(s.mode, s.n, s.c, id), j)
  {
    Everyone(s, j);
    assert id in Upto(s.n);
  }

  lemma FrameBalanced(s: Net, id: Id, j: Id)
    requires Inv(s) && IsId(s, id) && IsId(s, j) && s.up[id] != [] && !s.up[id][0].Round2?
    ensures Balanced(s, CoordStep(s.mode, s.n, s.c, id, s.up[id][0]), j)
  {
    Underway(s, id);
    match s.up[id][0]
    case Round1 => Round1Balanced(s, id, j);
    case R2Complete =>
      R2CompleteIsNew(s, id);
      R2CompleteBalanced(s, id, j);
    case Finished =>
      FinishedAfterComplete(s, id);
      FinishedBalanced(s, id, j);
  }

  /** A frame on its way to the coordinator means that the ceremony has begun. */
  lemma Underway(s: Net, id: Id)
    requires Inv(s) && IsId(s, id) && s.up[id] != []
    ensures !s.c.phase.Idle?
  {
    assert NodeOk(s, id);
    var m := s.up[id][0];
    assert Cnt(s.up[id], m) > 0;
    Sent(s, id, m);
    R1Bound(s, id);
    R2Bound(s, id);
  }

  /** The load of signer `i` after the coordinator handled the first frame of `id`. */
  lemma HandledLoad(s: Net, id: Id, i: Id)
    requires Inv(s) && IsId(s, id) && IsId(s, i) && s.up[id] != [] && id in s.c.members
    ensures var r, res := Step(s, DeliverUp(id)), CoordStep(s.mode, s.n, s.c, id, s.up[id][0]);
            Load(r, i) == Load(s, i) + |QueuedFor(res.0, res.1, i)| +
              UnsentBy(s.mode, s.n, res.0) - UnsentBy(s.mode, s.n, s.c)
                          - if i == id then (if s.up[id][0].Round2? then 2 else 1) else 0
  {
    UpIs(s, id);
    LoadAfter(s, Step(s, DeliverUp(id)), id, CoordStep(s.mode, s.n, s.c, id, s.up[id][0]), i);
  }

  lemma LoadAfter(s: Net, r: Net, id: Id, res: (Coordinator, Sends), i: Id)
    requires Dom(s) && IsId(s, id) && IsId(s, i) && s.up[id] != [] && Handled(s, r, id, res)
    ensures Load(r, i) == Load(s, i) + |QueuedFor(res.0, res.1, i)| +
            UnsentBy(s.mode, s.n, res.0) - UnsentBy(s.mode, s.n, s.c)
                          - if i == id then (if s.up[id][0].Round2? then 2 else 1) else 0
  {
    assert i in Upto(s.n) && id in Upto(s.n);
  }

  lemma FrameLoad(s: Net, id: Id, i: Id)
    requires Inv(s) && IsId(s, id) && IsId(s, i) && s.up[id] != [] && id in s.c.members && !s.up[id][0].Round2?
    ensures Load(Step(s, DeliverUp(id)), i) == Load(s, i) - if i == id then 1 else 0
  {
    HandledLoad(s, id, i);
    FrameBalanced(s, id, i);
  }

  lemma Round2Load(s: Net, id: Id, i: Id)
    requires Inv(s) && IsId(s, id) && IsId(s, i) && s.up[id] != [] && id in s.c.members && s.up[id][0].Round2?
    ensures Load(Step(s, DeliverUp(id)), i) ==
            Load(s, i) + (if i == s.up[id][0].dst then 1 else 0) - if i == id then 2 else 0
  {
    HandledLoad(s, id, i);
    Underway(s, id);
    Everyone(s, i);
  }

  lemma UpFrame(s: Net, id: Id)
    requires Inv(s) && IsId(s, id) && s.up[id] != [] && id in s.c.members
    ensures var r := Step(s, DeliverUp(id)); r.n == s.n && r.c.members == s.c.members
    ensures s.up[id][0].Round2? ==> IsId(s, s.up[id][0].dst)
  {
    Addressed(s, id);
    MembersStay(s.mode, s.n, s.c, id, s.up[id][0]);
  }

  lemma Addressed(s: Net, id: Id)
    requires Inv(s) && IsId(s, id) && s.up[id] != []
    ensures s.up[id][0].Round2? ==> IsId(s, s.up[id][0].dst)
  {
    assert NodeOk(s, id) && s.up[id][0] in s.up[id];
  }

  lemma MembersStay(mode: Mode, n: nat, c: Coordinator, id: Id, m: UpMsg)
    ensures CoordStep(mode, n, c, id, m).0.members == c.members
  {
  }

  /** Two less for the sender, one more for the addressee. */
  lemma PendingMoved(s: Net, r: Net, id: Id, dst: Id)
    requires r.n == s.n && IsId(s, id) && IsId(s, dst) && r.c.members == s.c.members
    requires forall i {:trigger Load(r, i)} :: 1 <= i <= s.n ==>
      Load(r, i) == Load(s, i) + (if i == dst then 1 else 0) - if i == id then 2 else 0
    ensures Pending(r) == Pending(s) - 1
  {
    var plus, minus := (i: int) => if i == dst then 1 else 0, (i: int) => if i == id then -2 else 0;
    var d := (i: int) => plus(i) + minus(i);
    PendingShift(s, r, d);
    SumShift(plus, d, s.n, minus);
    SumOne(plus, s.n, dst, 1);
    SumOne(minus, s.n, id, -2);
  }

  lemma UpWorks(s: Net, id: Id)
    requires Inv(s) && IsId(s, id) && s.up[id] != [] && id in s.c.members
    ensures Pending(Step(s, DeliverUp(id))) == Pending(s) - 1
  {
    var r := Step(s, DeliverUp(id));
    UpFrame(s, id);
    if s.up[id][0].Round2? {
      var dst := s.up[id][0].dst;
      forall i | 1 <= i <= s.n
        ensures Load(r, i) == Load(s, i) + (if i == dst then 1 else 0) - if i == id then 2 else 0 {
        Round2Load(s, id, i);
      }
      PendingMoved(s, r, id, dst);
    } else {
      forall i | 1 <= i <= s.n ensures Load(r, i) == Load(s, i) - if i == id then 1 else 0 {
        FrameLoad(s, id, i);
      }
      PendingOne(s, r, id);
    }
  }

  // ---------------------------------------------------------------- registration

  lemma RegisterBalanced(s: Net, id: Id, i: Id)
    requires Inv(s) && IsId(s, id) && id !in s.c.members && IsId(s, i)
    ensures Balanced(s, OnRegister(s.n, s.c, id), i)
  {
    var c := OnRegister(s.n, s.c, id).0;
    if !s.c.phase.Idle? {
      Everyone(s, id);
    }
    MembersAfter(s.c.members, id, s.n);
    if |c.members| >= s.n {
      FullMeansEveryone(c.members, s.n, i);
    }
  }

  lemma RegisterLoad(s: Net, id: Id, i: Id)
    requires Inv(s) && IsId(s, id) && id !in s.c.members && IsId(s, i)
    ensures Load(Step(s, Register(id)), i) == Load(s, i)
  {
    ApplyIs(s, OnRegister(s.n, s.c, id));
    RegisterBalanced(s, id, i);
    assert i in Upto(s.n);
  }

  lemma RegisterWorks(s: Net, id: Id)
    requires Inv(s) && IsId(s, id) && id !in s.c.members
    ensures Pending(Step(s, Register(id))) == Pending(s) - 1
  {
    var r, d := Step(s, Register(id)), (i: int) => 0;
    ApplyIs(s, OnRegister(s.n, s.c, id));
    forall i | 1 <= i <= s.n ensures Load(r, i) == Load(s, i) + d(i) {
      RegisterLoad(s, id, i);
    }
    PendingShift(s, r, d);
    SumConst(d, s.n, 0);
  }

  // ---------------------------------------------------------------- whole runs

  /** Every event that can happen lowers what is to be done by exactly one; the others change nothing. */
  lemma StepWorks(s: Net, e: Event)
    requires Inv(s)
    ensures Pending(Step(s, e)) == Pending(s) - Bit(Enabled(s, e))
  {
    if Enabled(s, e) {
      match e
      case Register(id) => RegisterWorks(s, id);
      case DeliverUp(id) =>
        assert id in Upto(s.n);
        UpWorks(s, id);
      case DeliverDown(id) =>
        assert id in Upto(s.n);
        DownWorks(s, id);
    } else {
      assert Step(s, e) == s;
    }
  }

  /** The events of a run that could happen when they came. */
  function Effective(s: Net, es: seq<Event>): nat {
    if es == [] then 0
    else Effective(s, es[..|es| - 1]) + Bit(Enabled(Run(s, es[..|es| - 1]), es[|es| - 1]))
  }

  /** Registrations, and 3 n + 2 frames for each signer, or one more. */
  function Budget(mode: Mode, n: nat): int {
    n + n * (3 * n + 2 + Bit(mode.Refresh?))
  }

  lemma StartPending(mode: Mode, n: nat)
    requires 2 <= n <= MAX_SIGNERS
    ensures Pending(Start(mode, n)) == Budget(mode, n)
  {
    var s := Start(mode, n);
    forall i | 1 <= i <= n ensures Load(s, i) == 3 * n + 2 + Bit(mode.Refresh?) {
      assert i in Upto(n);
    }
    SumConst(i => Load(s, i), n, 3 * n + 2 + Bit(mode.Refresh?));
  }

  lemma {:induction false} RunWorks(mode: Mode, n: nat, es: seq<Event>)
    requires 2 <= n <= MAX_SIGNERS
    ensures Effective(Start(mode, n), es) + Pending(Run(Start(mode, n), es)) == Budget(mode, n)
  {
    if es == [] {
      StartPending(mode, n);
    } else {
      var init := es[..|es| - 1];
      RunWorks(mode, n, init);
      RunKeeps(mode, n, init);
      StepWorks(Run(Start(mode, n), init), es[|es| - 1]);
    }
  }

  lemma LoadPositive(s: Net, i: Id)
    requires Inv(s) && IsId(s, i)
    ensures Load(s, i) >= 0
    ensures Load(s, i) == 0 ==> s.up[i] == [] && s.down[i] == []
  {
    assert i in Upto(s.n);
  }

  lemma MembersAtMost(s: Net)
    requires Inv(s)
    ensures |s.c.members| <= s.n
  {
    Pigeonhole(s.c.members, Upto(s.n));
  }

  lemma FinishedLoad(s: Net, i: Id)
    requires Inv(s) && Quiet(s) && IsId(s, i) && s.c.phase.Complete? && s.c.done && AllRanOnce(s.mode, s.nodes[i])
    ensures Load(s, i) == 0
  {
    assert NodeOk(s, i) && s.up[i] == [];
    QuietPart2(s, i);
    QuietPart3(s, i);
  }

  ghost predicate NoLoad(s: Net) {
    forall i {:trigger Load(s, i)} :: 1 <= i <= s.n ==> Load(s, i) == 0
  }

  lemma PendingIs(s: Net)
    requires Inv(s)
    ensures Pending(s) >= 0 && (Pending(s) == 0 <==> |s.c.members| == s.n && NoLoad(s))
  {
    var f := i => Load(s, i);
    MembersAtMost(s);
    forall i | 1 <= i <= s.n ensures f(i) >= 0 {
      LoadPositive(s, i);
    }
    SumZero(f, s.n);
    if Pending(s) == 0 {
      forall i | 1 <= i <= s.n ensures Load(s, i) == 0 {
        assert f(i) == 0;
      }
    }
  }

  lemma QuietMeansNothing(s: Net)
    requires Inv(s) && Quiet(s) && s.c.phase.Complete? && s.c.done
    requires forall j :: 1 <= j <= s.n ==> j in s.nodes && AllRanOnce(s.mode, s.nodes[j])
    ensures |s.c.members| == s.n && NoLoad(s)
  {
    forall i | 1 <= i <= s.n ensures Load(s, i) == 0 {
      FinishedLoad(s, i);
    }
    Everyone(s, 1);
  }

  /** Nothing is left to be done exactly when everyone has registered and the channels are empty. */
  lemma NothingPendingIff(mode: Mode, n: nat, es: seq<Event>)
    requires 2 <= n <= MAX_SIGNERS
    ensures var s := Run(Start(mode, n), es); Pending(s) >= 0 && (Pending(s) == 0 <==> Quiet(s))
  {
    var s := Run(Start(mode, n), es);
    RunKeeps(mode, n, es);
    RunIsOf(Start(mode, n), es);
    PendingIs(s);
    if Pending(s) == 0 {
      NothingMeansQuiet(s);
    }
    if Quiet(s) {
      NeverStuck(mode, n, es);
      AnnouncedOnce(mode, n, es);
      QuietMeansNothing(s);
    }
  }

  lemma NothingMeansQuiet(s: Net)
    requires Inv(s) && |s.c.members| == s.n && NoLoad(s)
    ensures Quiet(s)
  {
    forall i | IsId(s, i) ensures i in s.c.members && i in s.up && i in s.down && s.up[i] == [] && s.down[i] == [] {
      assert Load(s, i) == 0;
      LoadPositive(s, i);
      FullMeansEveryone(s.c.members, s.n, i);
      assert i in Upto(s.n);
    }
  }

  lemma SomethingHappens(s: Net) returns (e: Event)
    requires Dom(s) && !Quiet(s)
    ensures Enabled(s, e)
  {
    var i :| IsId(s, i) && !(i in s.c.members && i in s.up && i in s.down && s.up[i] == [] && s.down[i] == []);
    assert IsId(s, i) && i in Upto(s.n);
    e := if i !in s.c.members then Register(i) else if s.up[i] != [] then DeliverUp(i) else DeliverDown(i);
  }

  /** As long as something is left to be done, something can happen. */
  lemma AlwaysProgress(mode: Mode, n: nat, es: seq<Event>) returns (e: Event)
    requires 2 <= n <= MAX_SIGNERS && !Quiet(Run(Start(mode, n), es))
    ensures Enabled(Run(Start(mode, n), es), e)
  {
    RunKeeps(mode, n, es);
    e := SomethingHappens(Run(Start(mode, n), es));
  }

  /**
   Termination: over every interleaving the events that can happen number at most Budget, and they
   number exactly Budget when the ceremony is finished.
   */
  lemma CeremonyTerminates(mode: Mode, n: nat, es: seq<Event>)
    requires 2 <= n <= MAX_SIGNERS
    ensures var s := Run(Start(mode, n), es);
            && Effective(Start(mode, n), es) <= Budget(mode, n)
            && (Effective(Start(mode, n), es) == Budget(mode, n) <==> Quiet(s))
            && (Effective(Start(mode, n), es) == Budget(mode, n) ==>
                  s.c.done && forall j :: 1 <= j <= n ==> j in s.nodes && AllRanOnce(mode, s.nodes[j]))
  {
    RunWorks(mode, n, es);
    NothingPendingIff(mode, n, es);
    if Quiet(Run(Start(mode, n), es)) {
      NeverStuck(mode, n, es);
    }
  }
}
