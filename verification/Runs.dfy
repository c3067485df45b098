/** Stretches of a run: the protocol state together with the process's counters. */
module Runs {
  import opened Counters
  import opened Pipeline

  datatype Point = Point(state: State, counts: Counts)

  ghost predicate Trace(cfg: Setup, p: Point, ls: seq<Label>, q: Point) {
    && Legal(cfg, p.state, ls)
    && q == Point(Exec(cfg, p.state, ls), CountAlong(cfg, p.state, ls, p.counts))
  }

  /** The labels lead from `p` to `q` by pipeline steps. The quantifier keeps the recursion out of
      proofs that only pass the fact along. */
  ghost predicate Reaches(cfg: Setup, p: Point, ls: seq<Label>, q: Point) {
    forall k :: k == ls ==> Trace(cfg, p, k, q)
  }

  lemma ReachesIsTrace(cfg: Setup, p: Point, ls: seq<Label>, q: Point)
    ensures Reaches(cfg, p, ls, q) <==> Trace(cfg, p, ls, q)
  {}

  lemma ReachesItself(cfg: Setup, p: Point)
    ensures Reaches(cfg, p, [], p)
  {
    ReachesIsTrace(cfg, p, [], p);
  }

  /** One more step of the run; `r` stands for the point it leads to. */
  lemma Advance(cfg: Setup, p: Point, ls: seq<Label>, q: Point, l: Label, r: Point)
    requires Reaches(cfg, p, ls, q) && Enabled(cfg, q.state, l)
    requires r == Point(Next(cfg, q.state, l), Count(cfg, q.state, l, q.counts))
    ensures Reaches(cfg, p, ls + [l], r)
  {
    ReachesIsTrace(cfg, p, ls, q);
    Extend(cfg, p.state, ls, l);
    assert (ls + [l])[..|ls|] == ls;
    ReachesIsTrace(cfg, p, ls + [l], r);
  }

  lemma {:induction false} ReachesJoin(cfg: Setup, p: Point, a: seq<Label>, q: Point, b: seq<Label>, r: Point)
    requires Reaches(cfg, p, a, q) && Reaches(cfg, q, b, r)
    ensures Reaches(cfg, p, a + b, r)
  {
    ReachesIsTrace(cfg, q, b, r);
    if b == [] {
      assert a + b == a;
    } else {
      var init := b[..|b| - 1];
      var mid := Point(Exec(cfg, q.state, init), CountAlong(cfg, q.state, init, q.counts));
      ReachesIsTrace(cfg, q, init, mid);
      ReachesJoin(cfg, p, a, q, init, mid);
      Advance(cfg, p, a + init, mid, b[|b| - 1], r);
      assert a + b == (a + init) + [b[|b| - 1]];
    }
  }

  /** The point a process has reached after `ls` from its start at `s0`. */
  ghost predicate Since(cfg: Setup, s0: State, ls: seq<Label>, p: Point) {
    Reaches(cfg, Point(s0, Fresh(|s0.wal|, |s0.table|)), ls, p)
  }

  /** What the runs of `Legal` and the counters of `Counted` say about a point reached since the start. */
  lemma SinceIs(cfg: Setup, s0: State, ls: seq<Label>, p: Point)
    ensures Since(cfg, s0, ls, p) <==>
            Legal(cfg, s0, ls) && p.state == Exec(cfg, s0, ls) && p.counts == Counted(cfg, s0, ls)
  {
    ReachesIsTrace(cfg, Point(s0, Fresh(|s0.wal|, |s0.table|)), ls, p);
  }

  lemma Rewrite(ws: seq<Worker>, w: nat, x: Worker, y: Worker)
    requires w < |ws|
    ensures ws[w := x][w := y] == ws[w := y]
  {}

  /** What no step of a worker's flush touches: the ring, the subscriber's place and its counters. */
  ghost predicate IntakeKept(p: Point, q: Point) {
    && q.state.ring == p.state.ring && q.state.intake == p.state.intake && q.state.walMu == p.state.walMu
    && q.counts.dequeued == p.counts.dequeued && CountersKept(p.counts, q.counts)
  }

  /** The counters that only the subscriber moves, and those that stand still while the process runs. */
  predicate CountersKept(c: Counts, d: Counts) {
    && d.received == c.received && d.acks == c.acks && d.parseFailures == c.parseFailures
    && d.enqueued == c.enqueued && d.rejected == c.rejected && d.spilled == c.spilled
    && d.walAtOpen == c.walAtOpen && d.rowsAtOpen == c.rowsAtOpen && d.expired == c.expired
  }
}
