/** One worker's turns, one after the other: when the next pull can happen. */
module Turns {
  import opened AdaptiveMode
  import opened Buffer
  import opened Counters
  import opened FlushSpec
  import opened Latency
  import opened Messages
  import opened PullSpec
  import opened Runs
  import opened WalStore
  import P = Pipeline

  /** What the outside world answers during one turn of workerLoop. */
  datatype TurnIn = TurnIn(now: int, deleteFails: bool, env: FlushEnv)

  datatype TurnOut =
    | Skipped                                                // the gate is closed
    | Empty                                                  // nothing to flush
    | Flushed(batch: seq<Message>, calls: nat, end: LoopEnd)

  /** The stretch of the run that one turn is: the point and the stored values it found, what went wrong
      in its drain, the WAL keys it took, the point after its pull, its batch, the labels of the pull, all its
      labels, and where they lead. */
  datatype TurnLog = TurnLog(
    from: Point, entries: Entries, fault: DrainFault, ks: seq<string>, mid: Point, batch: seq<Message>,
    pull: seq<P.Label>,
    steps: seq<P.Label>, to: Point)

  /** The mode tracker after a turn. */
  ghost function AfterTurn(mc: AdaptiveMode.Config, was: AdaptiveMode.State, i: TurnIn,
                           o: TurnOut): AdaptiveMode.State {
    if o.Flushed? && o.calls > 0 then ModesAfter(mc, i.env, o.calls, o.end.Succeeded?, was) else was
  }

  ghost predicate TurnOk(mc: AdaptiveMode.Config, maxRetries: nat, was: AdaptiveMode.State, i: TurnIn, o: TurnOut) {
    && (o.Skipped? <==> GateClosed(was, i.now))
    && (o.Flushed? ==> LoopEnds(i.env, maxRetries, o.calls, o.end))
  }

  // ----- a turn as a run of the protocol -----

  /** The pull of a turn: `batch` is what it took, `pull` its labels. The drain fails exactly if a value
      that does not decode is in the way or the delete fails. */
  ghost predicate PullPart(cfg: P.Setup, w: nat, elevated: bool, i: TurnIn, t: TurnLog, batch: seq<Message>) {
    var s := t.from.state;
    var want := P.Want(cfg, elevated);
    var room := want - TakeCount(want, |s.ring|);
    && w < |s.workers|
    && (cfg.hasWal && room > 0 ==> FaultIs(t.fault, t.entries, room, i.deleteFails))
    && TopUpIs(t.ks, cfg.hasWal, s.wal, room, t.fault)
    && Pulled(t.from, w, want, t.ks, t.mid)
    && batch == PulledBatch(s.ring, s.wal, want, t.ks)
    && t.pull == PullLabels(cfg.hasWal, w, elevated, s.ring, s.wal, want, t.fault)
  }

  /** The batch is as large as the mode allows and the stores can fill: the ring, and the WAL unless its drain
      fails. */
  ghost predicate BatchSized(cfg: P.Setup, mode: Mode, t: TurnLog) {
    var size := if mode == Normal then cfg.batchSize else cfg.elevatedBatchSize;
    var stock := |t.from.state.ring| + (if cfg.hasWal && !t.fault.Any() then |t.from.state.wal| else 0);
    |t.batch| == if stock < size then stock else size
  }

  lemma PullIsSized(cfg: P.Setup, w: nat, mode: Mode, i: TurnIn, t: TurnLog)
    requires PullDone(cfg, w, mode != Normal, i, t)
    ensures BatchSized(cfg, mode, t)
  {
    assert PullPart(cfg, w, mode != Normal, i, t, t.batch);
    PulledSize(cfg.hasWal, t.from.state.ring, t.from.state.wal, P.Want(cfg, mode != Normal), t.fault, t.ks);
  }

  /** Quantified so that methods can pass it on. */
  ghost predicate PullDone(cfg: P.Setup, w: nat, elevated: bool, i: TurnIn, t: TurnLog) {
    forall batch :: batch == t.batch ==> PullPart(cfg, w, elevated, i, t, batch)
  }

  lemma PullDoneKept(cfg: P.Setup, w: nat, elevated: bool, i: TurnIn, t: TurnLog, steps: seq<P.Label>, to: Point)
    requires PullDone(cfg, w, elevated, i, t)
    ensures PullDone(cfg, w, elevated, i, t.(steps := steps, to := to))
  {
    assert PullPart(cfg, w, elevated, i, t, t.batch);
  }

  /** A pull, as a turn that flushes nothing. */
  lemma PullLogged(cfg: P.Setup, w: nat, elevated: bool, i: TurnIn, p: Point, e: Entries, fault: DrainFault,
                   ks: seq<string>, mid: Point, batch: seq<Message>) returns (t: TurnLog)
    requires var want := P.Want(cfg, elevated);
             var room := want - TakeCount(want, |p.state.ring|);
             && w < |p.state.workers|
             && (cfg.hasWal && room > 0 ==> FaultIs(fault, e, room, i.deleteFails))
             && TopUpIs(ks, cfg.hasWal, p.state.wal, room, fault)
             && Pulled(p, w, want, ks, mid) && batch == PulledBatch(p.state.ring, p.state.wal, want, ks)
             && Reaches(cfg, p, PullLabels(cfg.hasWal, w, elevated, p.state.ring, p.state.wal, want, fault), mid)
    ensures t.from == p && t.entries == e && t.batch == batch && t.mid == mid && t.to == mid && t.steps == t.pull
    ensures PullDone(cfg, w, elevated, i, t) && Reaches(cfg, p, t.pull, mid)
  {
    var pull := PullLabels(cfg.hasWal, w, elevated, p.state.ring, p.state.wal, P.Want(cfg, elevated), fault);
    t := TurnLog(p, e, fault, ks, mid, batch, pull, pull, mid);
    assert PullPart(cfg, w, elevated, i, t, batch);
  }

  /** What an open turn does: it pulls, whatever the outcome, and flushes what it pulled. */
  ghost predicate OpenTurn(cfg: P.Setup, w: nat, elevated: bool, i: TurnIn, o: TurnOut, t: TurnLog) {
    && PullDone(cfg, w, elevated, i, t)
    && if t.batch == [] then o == Empty && t.steps == t.pull
       else && o.Flushed? && o.batch == t.batch && o.calls > 0
            && t.steps == t.pull + FlushLabels(cfg.hasWal, i.env, w, |t.batch|, o.calls, o.end)
  }

  /** A turn of worker `w` that found the mode tracker at `was`. */
  ghost predicate TurnDone(cfg: P.Setup, mc: AdaptiveMode.Config, w: nat, was: AdaptiveMode.State,
                           i: TurnIn, o: TurnOut, t: TurnLog) {
    && TurnOk(mc, cfg.maxRetries, was, i, o)
    && Reaches(cfg, t.from, t.steps, t.to)
    && if o.Skipped? then t.steps == [] && t.to == t.from
       else OpenTurn(cfg, w, was.mode != Normal, i, o, t) && BatchSized(cfg, was.mode, t)
  }

  /** The labels contain a pull. */
  ghost predicate Pulls(ls: seq<P.Label>) {
    exists l :: l in ls && l.Pull?
  }

  /** A turn pulls exactly if it is not skipped, that is, exactly if the gate is open. */
  lemma PullsIffOpen(cfg: P.Setup, mc: AdaptiveMode.Config, w: nat, was: AdaptiveMode.State, i: TurnIn, o: TurnOut,
                     t: TurnLog)
    requires TurnDone(cfg, mc, w, was, i, o, t)
    ensures Pulls(t.steps) <==> !GateClosed(was, i.now)
  {
    if !o.Skipped? { PullComesFirst(cfg, w, was.mode != Normal, i, o, t); }
  }

  lemma PullComesFirst(cfg: P.Setup, w: nat, elevated: bool, i: TurnIn, o: TurnOut, t: TurnLog)
    requires OpenTurn(cfg, w, elevated, i, o, t)
    ensures t.steps != [] && t.steps[0] == P.Pull(w, elevated) && Pulls(t.steps)
  {
    assert PullPart(cfg, w, elevated, i, t, t.batch);
    assert t.steps[0] in t.steps;
  }

  // ----- turn after turn -----

  /** Where a worker starts: its place, the mode tracker, the point, and what the WAL stores. */
  datatype Outset = Outset(
    cfg: P.Setup, mc: AdaptiveMode.Config, w: nat, was: AdaptiveMode.State, from: Point, entries: Entries)

  /** What a worker did: what the world answered, what came of it, and the stretches of the run. */
  datatype Shift = Shift(ins: seq<TurnIn>, outs: seq<TurnOut>, logs: seq<TurnLog>) {
    predicate Even() { |ins| == |outs| == |logs| }

    function Snoc(i: TurnIn, o: TurnOut, t: TurnLog): Shift {
      Shift(ins + [i], outs + [o], logs + [t])
    }
  }

  /** The mode tracker before turn `n`. */
  ghost function ModesBefore(c: Outset, h: Shift, n: nat): AdaptiveMode.State
    requires h.Even() && n <= |h.ins|
  {
    if n == 0 then c.was else AfterTurn(c.mc, ModesBefore(c, h, n - 1), h.ins[n - 1], h.outs[n - 1])
  }

  function PointBefore(c: Outset, h: Shift, n: nat): Point
    requires n <= |h.logs|
  {
    if n == 0 then c.from else h.logs[n - 1].to
  }

  /** What the WAL stores before turn `n`: a turn changes live values only. */
  ghost function EntriesBefore(c: Outset, h: Shift, n: nat): Entries
    requires n <= |h.logs|
  {
    if n == 0 then c.entries else EntriesAfter(c.cfg.hasWal, h.logs[n - 1].entries, h.logs[n - 1].to)
  }

  ghost function EntriesAfter(hasWal: bool, e: Entries, p: Point): Entries {
    if hasWal then Overlay(e, p.state.wal) else e
  }

  /** Turn `n` starts where the one before ended. */
  ghost predicate DoneAt(c: Outset, h: Shift, n: nat)
    requires h.Even() && n < |h.ins|
  {
    && h.logs[n].from == PointBefore(c, h, n) && h.logs[n].entries == EntriesBefore(c, h, n)
    && TurnDone(c.cfg, c.mc, c.w, ModesBefore(c, h, n), h.ins[n], h.outs[n], h.logs[n])
  }

  /** Every turn of the shift. */
  ghost predicate TurnsDone(c: Outset, h: Shift) {
    h.Even() && forall n: nat {:trigger DoneAt(c, h, n)} :: n < |h.ins| ==> DoneAt(c, h, n)
  }

  /** The labels of all turns, one after the other. */
  function StepsOf(logs: seq<TurnLog>): seq<P.Label> {
    if logs == [] then [] else StepsOf(logs[..|logs| - 1]) + logs[|logs| - 1].steps
  }

  lemma {:induction false} ModesBeforeSnoc(c: Outset, h: Shift, i: TurnIn, o: TurnOut, t: TurnLog, n: nat)
    requires h.Even() && n <= |h.ins|
    ensures ModesBefore(c, h.Snoc(i, o, t), n) == ModesBefore(c, h, n)
  {
    if n > 0 { ModesBeforeSnoc(c, h, i, o, t, n - 1); }
  }

  lemma DoneAtSnoc(c: Outset, h: Shift, i: TurnIn, o: TurnOut, t: TurnLog, n: nat)
    requires h.Even() && n < |h.ins|
    ensures DoneAt(c, h.Snoc(i, o, t), n) <==> DoneAt(c, h, n)
  {
    ModesBeforeSnoc(c, h, i, o, t, n);
  }

  /** The shift so far, with the mode tracker, the point and the stored values it has led to; quantified so
      that a loop can pass it on. */
  ghost predicate ShiftTo(c: Outset, h: Shift, now: AdaptiveMode.State, p: Point, e: Entries) {
    forall x :: x == h ==> ShiftIs(c, x, now, p, e)
  }

  ghost predicate ShiftIs(c: Outset, h: Shift, now: AdaptiveMode.State, p: Point, e: Entries) {
    && TurnsDone(c, h)
    && now == ModesBefore(c, h, |h.ins|) && p == PointBefore(c, h, |h.ins|) && e == EntriesBefore(c, h, |h.ins|)
    && Reaches(c.cfg, c.from, StepsOf(h.logs), p)
  }

  lemma NoTurnsYet(c: Outset)
    ensures ShiftTo(c, Shift([], [], []), c.was, c.from, c.entries)
  {
    ReachesItself(c.cfg, c.from);
    assert ShiftIs(c, Shift([], [], []), c.was, c.from, c.entries);
  }

  lemma TurnsDoneSnoc(c: Outset, h: Shift, i: TurnIn, o: TurnOut, t: TurnLog)
    requires TurnsDone(c, h) && DoneAt(c, h.Snoc(i, o, t), |h.ins|)
    ensures TurnsDone(c, h.Snoc(i, o, t))
  {
    var g := h.Snoc(i, o, t);
    forall n: nat | n < |g.ins|
      ensures DoneAt(c, g, n)
    {
      if n < |h.ins| { DoneAtSnoc(c, h, i, o, t, n); }
    }
  }

  lemma StepsOfSnoc(logs: seq<TurnLog>, t: TurnLog)
    ensures StepsOf(logs + [t]) == StepsOf(logs) + t.steps
  {
    assert (logs + [t])[..|logs|] == logs;
  }

  lemma DoneNext(c: Outset, h: Shift, before: AdaptiveMode.State, i: TurnIn, o: TurnOut, t: TurnLog)
    requires h.Even() && before == ModesBefore(c, h, |h.ins|)
    requires t.from == PointBefore(c, h, |h.ins|) && t.entries == EntriesBefore(c, h, |h.ins|)
    requires TurnDone(c.cfg, c.mc, c.w, before, i, o, t)
    ensures DoneAt(c, h.Snoc(i, o, t), |h.ins|)
  {
    ModesBeforeSnoc(c, h, i, o, t, |h.ins|);
  }

  lemma EndNext(c: Outset, h: Shift, before: AdaptiveMode.State, i: TurnIn, o: TurnOut, t: TurnLog)
    requires h.Even() && before == ModesBefore(c, h, |h.ins|)
    ensures var g := h.Snoc(i, o, t);
            && ModesBefore(c, g, |g.ins|) == AfterTurn(c.mc, before, i, o)
            && PointBefore(c, g, |g.ins|) == t.to
            && EntriesBefore(c, g, |g.ins|) == EntriesAfter(c.cfg.hasWal, t.entries, t.to)
  {
    ModesBeforeSnoc(c, h, i, o, t, |h.ins|);
  }

  lemma TurnMade(c: Outset, h: Shift, before: AdaptiveMode.State, p: Point, e: Entries, i: TurnIn, o: TurnOut,
                 t: TurnLog)
    requires ShiftTo(c, h, before, p, e)
    requires TurnDone(c.cfg, c.mc, c.w, before, i, o, t) && t.from == p && t.entries == e
    ensures ShiftTo(c, h.Snoc(i, o, t), AfterTurn(c.mc, before, i, o), t.to, EntriesAfter(c.cfg.hasWal, e, t.to))
  {
    assert ShiftIs(c, h, before, p, e);
    assert TurnsDone(c, h.Snoc(i, o, t)) by {
      DoneNext(c, h, before, i, o, t);
      TurnsDoneSnoc(c, h, i, o, t);
    }
    EndNext(c, h, before, i, o, t);
    assert Reaches(c.cfg, c.from, StepsOf(h.Snoc(i, o, t).logs), t.to) by {
      ReachesJoin(c.cfg, c.from, StepsOf(h.logs), p, t.steps, t.to);
      StepsOfSnoc(h.logs, t);
    }
    assert ShiftIs(c, h.Snoc(i, o, t), AfterTurn(c.mc, before, i, o), t.to, EntriesAfter(c.cfg.hasWal, e, t.to));
  }

  // ----- the gate after a flush -----

  /** When the last failed call of a flush failed. */
  function LastFailedAt(env: FlushEnv, calls: nat, end: LoopEnd): int
    requires calls > 0 && (end.Succeeded? ==> calls > 1)
  {
    env.failedAt(if end.Succeeded? then calls - 2 else calls - 1)
  }

  predicate HadFailure(o: TurnOut) {
    o.Flushed? && o.calls > 0 && (o.end.Succeeded? ==> o.calls > 1)
  }

  lemma SuccessGate(mc: AdaptiveMode.Config, s: AdaptiveMode.State, d: int, at: int, now: int)
    requires mc.Valid()
    ensures var t := AfterSample(mc, AfterRecovery(s), d, at);
            GateClosed(t, now) <==>
              s.mode != Normal && P95(t.window) >= mc.critical && s.criticalUntil.Some? && now < s.criticalUntil.value
  {}

  /** After a flush with a failed call the gate is closed until a recovery window past the last
      failure; if a retry then succeeded, only while p95 is at the critical threshold, and otherwise it is
      open at once. */
  lemma GateAfterFlush(mc: AdaptiveMode.Config, was: AdaptiveMode.State, i: TurnIn, o: TurnOut, now: int)
    requires mc.Valid() && HadFailure(o)
    ensures var t := AfterTurn(mc, was, i, o);
            GateClosed(t, now) <==>
              && now < LastFailedAt(i.env, o.calls, o.end) + mc.recovery
              && (o.end.Succeeded? ==> P95(t.window) >= mc.critical)
  {
    if o.end.Succeeded? {
      ModesNext(mc, i.env, o.calls - 2, was);
      SuccessGate(mc, ModesFailed(mc, i.env, o.calls - 1, was), i.env.latency, i.env.recordedAt, now);
    } else {
      ModesNext(mc, i.env, o.calls - 1, was);
    }
  }

  /** After a flush that succeeded at once, an older gate still holds the worker back iff the success
      left the mode Critical, which takes a mode that was not Normal and a p95 at the critical threshold. */
  lemma GateAfterCleanFlush(mc: AdaptiveMode.Config, was: AdaptiveMode.State, i: TurnIn, o: TurnOut, now: int)
    requires mc.Valid() && o.Flushed? && o.calls == 1 && o.end.Succeeded?
    ensures var t := AfterTurn(mc, was, i, o);
            GateClosed(t, now) <==>
              && was.mode != Normal && P95(t.window) >= mc.critical
              && was.criticalUntil.Some? && now < was.criticalUntil.value
  {
    assert Failures(i.env, 0) == [];
    SuccessGate(mc, was, i.env.latency, i.env.recordedAt, now);
  }

  // ----- the next pull -----

  lemma {:induction false} ModesKept(c: Outset, h: Shift, m: nat, n: nat)
    requires h.Even() && m <= n <= |h.ins|
    requires forall k :: m <= k < n ==> !h.outs[k].Flushed?
    ensures ModesBefore(c, h, n) == ModesBefore(c, h, m)
  {
    if m < n { ModesKept(c, h, m, n - 1); }
  }

  lemma ModesStep(c: Outset, h: Shift, n: nat)
    requires h.Even() && n < |h.ins|
    ensures ModesBefore(c, h, n + 1) == AfterTurn(c.mc, ModesBefore(c, h, n), h.ins[n], h.outs[n])
  {}

  lemma TurnAt(c: Outset, h: Shift, n: nat)
    requires TurnsDone(c, h) && n < |h.ins|
    ensures TurnDone(c.cfg, c.mc, c.w, ModesBefore(c, h, n), h.ins[n], h.outs[n], h.logs[n])
  {
    assert DoneAt(c, h, n);
  }

  /** No pull step in any turn while the gate is closed, and one in every turn while it is open. */
  lemma PullsAtOpenGateOnly(c: Outset, h: Shift, n: nat)
    requires TurnsDone(c, h) && n < |h.ins|
    ensures Pulls(h.logs[n].steps) <==> !GateClosed(ModesBefore(c, h, n), h.ins[n].now)
  {
    TurnAt(c, h, n);
    PullsIffOpen(c.cfg, c.mc, c.w, ModesBefore(c, h, n), h.ins[n], h.outs[n], h.logs[n]);
  }

  /** With one worker: after a turn `m` whose flush saw a failed call, and until the next flush, a turn
      takes a pull step iff it comes at least a recovery window after the last failure, or a retry
      succeeded in turn `m` and left p95 below the critical threshold. */
  lemma NextPull(c: Outset, h: Shift, m: nat, n: nat)
    requires c.mc.Valid() && TurnsDone(c, h) && m < n < |h.ins| && HadFailure(h.outs[m])
    requires forall k :: m < k < n ==> !h.outs[k].Flushed?
    ensures var i, o := h.ins[m], h.outs[m];
            Pulls(h.logs[n].steps) <==>
              || h.ins[n].now >= LastFailedAt(i.env, o.calls, o.end) + c.mc.recovery
              || (o.end.Succeeded? && P95(ModesBefore(c, h, m + 1).window) < c.mc.critical)
  {
    var before, after := ModesBefore(c, h, m), ModesBefore(c, h, m + 1);
    assert after == AfterTurn(c.mc, before, h.ins[m], h.outs[m]) by { ModesStep(c, h, m); }
    assert Pulls(h.logs[n].steps) <==> !GateClosed(after, h.ins[n].now) by {
      ModesKept(c, h, m + 1, n);
      PullsAtOpenGateOnly(c, h, n);
    }
    GateAfterFlush(c.mc, before, h.ins[m], h.outs[m], h.ins[n].now);
  }

  // ----- the end of the worker -----

  /** The end of workerLoop once the context is cancelled. */
  lemma StopRun(cfg: P.Setup, p: Point, w: nat) returns (q: Point)
    requires w < |p.state.workers| && p.state.workers[w] == P.Idle
    ensures Reaches(cfg, p, [P.Cancel, P.Stop(w)], q)
    ensures q == Point(p.state.(workers := p.state.workers[w := P.Stopped], cancelled := true), p.counts)
  {
    var c := P.Cancel;
    var mid := Point(P.Next(cfg, p.state, c), Count(cfg, p.state, c, p.counts));
    q := Point(P.Next(cfg, mid.state, P.Stop(w)), Count(cfg, mid.state, P.Stop(w), mid.counts));
    ReachesItself(cfg, p);
    Advance(cfg, p, [], p, c, mid);
    Advance(cfg, p, [] + [c], mid, P.Stop(w), q);
    assert [] + [c] + [P.Stop(w)] == [P.Cancel, P.Stop(w)];
  }
}
