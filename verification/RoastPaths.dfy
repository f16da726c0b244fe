/** Runs as a relation between states, for whatever steps a fault model allows. */
module RoastPaths {
  import opened Roast

  /** The steps that a fault model allows. */
  type Model = (Coord, Event) -> bool

  /** A run with the states it passes through. */
  datatype Path = Path(states: seq<Coord>, events: seq<Event>)

  ghost predicate Follows(p: Path, s: Coord, r: Coord, ok: Model) {
    && |p.states| == |p.events| + 1 && p.states[0] == s && p.states[|p.events|] == r
    && forall i {:trigger p.events[i]} :: 0 <= i < |p.events| ==>
         ok(p.states[i], p.events[i]) && p.states[i + 1] == Step(p.states[i], p.events[i])
  }

  /** Some run of the model leads from `s` to `r`. */
  ghost predicate LeadsIn(s: Coord, r: Coord, ok: Model) {
    exists p: Path :: Follows(p, s, r, ok)
  }

  ghost predicate RunIn(s: Coord, es: seq<Event>, ok: Model) {
    forall i :: 0 <= i < |es| ==> ok(Run(s, es[..i]), es[i])
  }

  lemma SelfIn(s: Coord, ok: Model)
    ensures LeadsIn(s, s, ok)
  {
    assert Follows(Path([s], []), s, s, ok);
  }

  lemma OneIn(s: Coord, e: Event, ok: Model)
    requires ok(s, e)
    ensures LeadsIn(s, Step(s, e), ok)
  {
    var p := Path([s, Step(s, e)], [e]);
    assert Follows(p, s, Step(s, e), ok);
  }

  lemma OnIn(s: Coord, m: Coord, r: Coord, ok: Model)
    requires LeadsIn(s, m, ok) && LeadsIn(m, r, ok)
    ensures LeadsIn(s, r, ok)
  {
    var p: Path :| Follows(p, s, m, ok);
    var q: Path :| Follows(q, m, r, ok);
    var k := |p.events|;
    var pq := Path(p.states + q.states[1..], p.events + q.events);
    assert forall i :: k <= i < |pq.states| ==> pq.states[i] == q.states[i - k];
    forall i | 0 <= i < |pq.events|
      ensures ok(pq.states[i], pq.events[i]) && pq.states[i + 1] == Step(pq.states[i], pq.events[i])
    {
      if i < k {
        assert pq.events[i] == p.events[i];
      } else {
        assert pq.events[i] == q.events[i - k];
      }
    }
    assert Follows(pq, s, r, ok);
  }

  /** What one model allows, a wider one does. */
  lemma WiderIn(s: Coord, r: Coord, ok: Model, wider: Model)
    requires LeadsIn(s, r, ok) && forall c, e :: ok(c, e) ==> wider(c, e)
    ensures LeadsIn(s, r, wider)
  {
    var p: Path :| Follows(p, s, r, ok);
    assert Follows(p, s, r, wider);
  }

  lemma {:induction false} PathIsRun(p: Path, s: Coord, r: Coord, ok: Model, k: nat)
    requires Follows(p, s, r, ok) && k <= |p.events|
    ensures Run(s, p.events[..k]) == p.states[k]
  {
    if k != 0 {
      PathIsRun(p, s, r, ok, k - 1);
      assert p.events[..k][..k - 1] == p.events[..k - 1] && p.events[k - 1] == p.events[..k][k - 1];
    }
  }

  lemma IsRunIn(s: Coord, r: Coord, ok: Model) returns (es: seq<Event>)
    requires LeadsIn(s, r, ok)
    ensures Run(s, es) == r && RunIn(s, es, ok)
  {
    var p: Path :| Follows(p, s, r, ok);
    es := p.events;
    forall i | 0 <= i < |es| ensures ok(Run(s, es[..i]), es[i]) {
      PathIsRun(p, s, r, ok, i);
    }
    PathIsRun(p, s, r, ok, |es|);
    assert es[..|es|] == es;
  }
}
