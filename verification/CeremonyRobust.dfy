/**
 The ceremony against anybody. The coordinator's guards hold whatever frames the signers send, in whatever order
 and how often, and the signer's buffers hold whatever the coordinator relays. What the guards leave open is
 stated exactly: the ceremony counts as finished after n key packages, no matter whose.
 */
module CeremonyRobust {
  import opened Octets
  import opened Counting
  import opened Ceremony

  // ---------------------------------------------------------------- any signers

  /** A signer with a free id registers, or a registered one sends any frame. */
  datatype Input = Join(id: Id) | From(id: Id, m: UpMsg)

  /** The coordinator, and the broadcasts it made. */
  datatype Desk = Desk(c: Coordinator, starts: nat, relays: nat, announced: nat)

  function Told(d: Desk, r: (Coordinator, Sends)): Desk {
    Desk(r.0,
         d.starts + if r.1 == ToAll(StartMsg) then 1 else 0,
         d.relays + if r.1 == RelayAllR1 then 1 else 0,
         d.announced + if r.1 == ToAll(AllDone) then 1 else 0)
  }

  function Take(mode: Mode, n: nat, d: Desk, x: Input): Desk {
    match x
    case Join(id) => if 1 <= id <= n && id !in d.c.members then Told(d, OnRegister(n, d.c, id)) else d
    case From(id, m) => if id in d.c.members then Told(d, CoordStep(mode, n, d.c, id, m)) else d
  }

  function TakeAll(mode: Mode, n: nat, xs: seq<Input>): Desk {
    if xs == [] then Desk(Start(mode, n).c, 0, 0, 0)
    else Take(mode, n, TakeAll(mode, n, xs[..|xs| - 1]), xs[|xs| - 1])
  }

  predicate SentAt(mode: Mode, n: nat, xs: seq<Input>, k: int, id: Id, m: UpMsg) {
    0 <= k < |xs| && xs[k] == From(id, m) && id in TakeAll(mode, n, xs[..k]).c.members
  }

  /** Registered signer `id` has sent `m` in the course of the inputs. */
  ghost predicate Sent(mode: Mode, n: nat, xs: seq<Input>, id: Id, m: UpMsg) {
    exists k :: SentAt(mode, n, xs, k, id, m)
  }

  /** Key packages taken from registered signers. */
  function Finishes(mode: Mode, n: nat, xs: seq<Input>): nat {
    if xs == [] then 0 else
    var init, x := xs[..|xs| - 1], xs[|xs| - 1];
    Finishes(mode, n, init) +
      if x.From? && x.m.Finished? && x.id in TakeAll(mode, n, init).c.members then 1 else 0
  }

  predicate DeskOk(n: nat, d: Desk) {
    && (forall id :: id in d.c.members ==> 1 <= id <= n)
    && (forall id :: id in d.c.r2Complete ==> id in d.c.members)
    && (d.c.phase.Idle? ==> d.starts == 0) && d.starts <= 1
    && (d.c.phase.Idle? || d.c.phase.CollectingR1? ==> d.relays == 0) && d.relays <= 1
    && d.announced == d.c.announcements == (if |d.c.r2Complete| >= n then 1 else 0)
    && (d.c.done <==> d.c.finishedCount >= n)
  }

  lemma JoinOk(n: nat, d: Desk, id: Id)
    requires n >= 1 && DeskOk(n, d) && 1 <= id <= n
    ensures DeskOk(n, Told(d, OnRegister(n, d.c, id)))
  {
  }

  lemma ReportOk(n: nat, d: Desk, id: Id)
    requires n >= 1 && DeskOk(n, d) && id in d.c.members
    ensures DeskOk(n, Told(d, OnR2Complete(n, d.c, id)))
  {
    if id !in d.c.r2Complete {
      OneMissing(d.c.r2Complete, n, id);
    }
  }

  lemma OneMissing(a: set<Id>, n: nat, id: Id)
    requires 1 <= id <= n && id !in a && forall x :: x in a ==> 1 <= x <= n
    ensures |a| < n && |a + {id}| == |a| + 1
  {
    CardMonotone(a, Upto(n) - {id});
  }

  lemma FrameOk(mode: Mode, n: nat, d: Desk, id: Id, m: UpMsg)
    requires n >= 1 && DeskOk(n, d) && id in d.c.members
    ensures DeskOk(n, Told(d, CoordStep(mode, n, d.c, id, m)))
  {
    match m
    case R2Complete => ReportOk(n, d, id);
    case _ =>
  }

  lemma {:induction false} TakeAllOk(mode: Mode, n: nat, xs: seq<Input>)
    requires n >= 1
    ensures DeskOk(n, TakeAll(mode, n, xs))
    ensures TakeAll(mode, n, xs).c.finishedCount == Finishes(mode, n, xs)
  {
    if xs != [] {
      var d, x := TakeAll(mode, n, xs[..|xs| - 1]), xs[|xs| - 1];
      TakeAllOk(mode, n, xs[..|xs| - 1]);
      match x
      case Join(id) => if 1 <= id <= n && id !in d.c.members { JoinOk(n, d, id); }
      case From(id, m) => if id in d.c.members { FrameOk(mode, n, d, id, m); }
    }
  }

  lemma SentSplits(mode: Mode, n: nat, xs: seq<Input>, id: Id, m: UpMsg)
    requires xs != []
    ensures var init := xs[..|xs| - 1];
            Sent(mode, n, xs, id, m) <==>
            Sent(mode, n, init, id, m) || (xs[|xs| - 1] == From(id, m) && id in TakeAll(mode, n, init).c.members)
  {
    var init := xs[..|xs| - 1];
    forall k ensures SentAt(mode, n, xs, k, id, m) <==>
      SentAt(mode, n, init, k, id, m) || (k == |init| && xs[k] == From(id, m) && id in TakeAll(mode, n, init).c.members)
    {
      assert 0 <= k <= |init| ==> init[..k] == xs[..k];
    }
  }

  lemma ReportStep(mode: Mode, n: nat, d: Desk, x: Input, id: Id)
    ensures id in Take(mode, n, d, x).c.r2Complete <==>
      id in d.c.r2Complete || (x == From(id, R2Complete) && id in d.c.members)
  {
    match x
    case Join(_) =>
    case From(other, m) => FrameReports(mode, n, d.c, other, m, id);
  }

  lemma FrameReports(mode: Mode, n: nat, c: Coordinator, from: Id, m: UpMsg, id: Id)
    ensures id in CoordStep(mode, n, c, from, m).0.r2Complete <==>
      id in c.r2Complete || (from == id && m.R2Complete?)
  {
  }

  lemma {:induction false} ReportsAre(mode: Mode, n: nat, xs: seq<Input>, id: Id)
    ensures id in TakeAll(mode, n, xs).c.r2Complete <==> Sent(mode, n, xs, id, R2Complete)
  {
    if xs != [] {
      ReportsAre(mode, n, xs[..|xs| - 1], id);
      ReportStep(mode, n, TakeAll(mode, n, xs[..|xs| - 1]), xs[|xs| - 1], id);
      SentSplits(mode, n, xs, id, R2Complete);
    }
  }

  /** Whatever the signers send: each broadcast is made at most once. */
  lemma BroadcastsOnce(mode: Mode, n: nat, xs: seq<Input>)
    requires n >= 1
    ensures var d := TakeAll(mode, n, xs); d.starts <= 1 && d.relays <= 1 && d.announced <= 1
  {
    TakeAllOk(mode, n, xs);
  }

  /** Whatever the signers send: the announcement is made if and only if every one of the n has reported. */
  lemma AnnouncedIff(mode: Mode, n: nat, xs: seq<Input>)
    requires n >= 1
    ensures TakeAll(mode, n, xs).announced == 1 <==> forall id :: 1 <= id <= n ==> Sent(mode, n, xs, id, R2Complete)
  {
    var r := TakeAll(mode, n, xs).c.r2Complete;
    TakeAllOk(mode, n, xs);
    forall id ensures id in r <==> Sent(mode, n, xs, id, R2Complete) {
      ReportsAre(mode, n, xs, id);
    }
    assert r <= Upto(n);
    if |r| >= n {
      SubsetAll(r, Upto(n));
    } else if forall id :: 1 <= id <= n ==> id in r {
      CardMonotone(Upto(n), r);
    }
  }

  /** Whatever the signers send: the ceremony is finished if and only if n key packages came, no matter whose. */
  lemma FinishedIff(mode: Mode, n: nat, xs: seq<Input>)
    requires n >= 1
    ensures TakeAll(mode, n, xs).c.done <==> Finishes(mode, n, xs) >= n
  {
    TakeAllOk(mode, n, xs);
  }

  // ---------------------------------------------------------------- any coordinator

  function TakeDown(mode: Mode, n: nat, ms: seq<DownMsg>): Node {
    if ms == [] then NEW_NODE else NodeStep(mode, n, TakeDown(mode, n, ms[..|ms| - 1]), ms[|ms| - 1]).0
  }

  function CountR1(ms: seq<DownMsg>): nat {
    if ms == [] then 0 else CountR1(ms[..|ms| - 1]) + if ms[|ms| - 1].RelayR1? then 1 else 0
  }

  function CountR2(ms: seq<DownMsg>): nat {
    if ms == [] then 0 else CountR2(ms[..|ms| - 1]) + if ms[|ms| - 1].RelayR2? then 1 else 0
  }

  function Least(a: nat, b: nat): nat {
    if a < b then a else b
  }

  /** Runs of a part that starts with package number `first` and runs again with every further one. */
  function RunsFrom(first: nat, have: nat): nat {
    if have < first then 0 else have - first + 1
  }

  /** Announcements that found exactly n - 1 round-2 packages. */
  function Confirmable(n: nat, ms: seq<DownMsg>): nat {
    if ms == [] then 0 else
    Confirmable(n, ms[..|ms| - 1]) +
      if ms[|ms| - 1].AllDone? && Least(MAX_SIGNERS, CountR2(ms[..|ms| - 1])) == n - 1 then 1 else 0
  }

  lemma NodeExactly(mode: Mode, n: nat, nd: Node, m: DownMsg)
    requires 2 <= n <= MAX_SIGNERS && |nd.r1| <= MAX_SIGNERS && |nd.r2| <= MAX_SIGNERS
    ensures var r := NodeStep(mode, n, nd, m).0;
            && |r.r1| == (if m.RelayR1? then Least(MAX_SIGNERS, |nd.r1| + 1) else |nd.r1|)
            && |r.r2| == (if m.RelayR2? then Least(MAX_SIGNERS, |nd.r2| + 1) else |nd.r2|)
            && r.part2Runs - nd.part2Runs == RunsFrom(n - 1, |r.r1|) - RunsFrom(n - 1, |nd.r1|)
            && r.part3Runs - nd.part3Runs ==
               (if mode.Refresh? then 0 else RunsFrom(n - 1, |r.r2|) - RunsFrom(n - 1, |nd.r2|))
            && r.finalized == nd.finalized + if mode.Refresh? && m.AllDone? && |nd.r2| == n - 1 then 1 else 0
  {
  }

  /**
   Whatever the coordinator relays: a signer keeps at most as many packages as its buffers hold, runs part 2 and part 3
   with the (n - 1)-th package and again with each further one, and finalizes only on exactly n - 1.
   */
  lemma {:induction false} SignerExactly(mode: Mode, n: nat, ms: seq<DownMsg>)
    requires 2 <= n <= MAX_SIGNERS
    ensures var nd := TakeDown(mode, n, ms);
            && |nd.r1| == Least(MAX_SIGNERS, CountR1(ms)) && |nd.r2| == Least(MAX_SIGNERS, CountR2(ms))
            && nd.part2Runs == RunsFrom(n - 1, |nd.r1|)
            && nd.part3Runs == (if mode.Refresh? then 0 else RunsFrom(n - 1, |nd.r2|))
            && nd.finalized == if mode.Refresh? then Confirmable(n, ms) else 0
  {
    if ms != [] {
      SignerExactly(mode, n, ms[..|ms| - 1]);
      NodeExactly(mode, n, TakeDown(mode, n, ms[..|ms| - 1]), ms[|ms| - 1]);
    }
  }
}
