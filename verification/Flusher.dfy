/** The flusher's imperative code over the real objects: what it does to every store and counter,
    and that it takes pipeline steps only. */
module Flusher {
  import opened AdaptiveMode
  import opened Backoff
  import opened Buffer
  import opened ByteOrder
  import opened Counters
  import opened DeadLetter
  import opened FlushSpec
  import opened Messages
  import opened Numerals
  import opened Postgres
  import opened PullSpec
  import opened Runs
  import opened Turns
  import opened Wal
  import opened WalKeys
  import opened WalStore
  import opened Wrappers
  import P = Pipeline

  function DelayAhead(calls: nat): int64 {
    Delay(Spent(calls) + 1)
  }

  class Worker {
    const cfg: P.Setup
    const modes: Tracker
    const ring: Ring
    const wal: Store?
    const pg: Copier
    const dl: Sink
    var retriesTotal: nat
    var flushErrors: nat
    var flushed: nat
    var inserted: nat
    var requeued: nat
    var deadLettered: nat

    constructor (cfg: P.Setup, modes: Tracker, ring: Ring, wal: Store?, pg: Copier, dl: Sink)
      requires cfg.hasWal <==> wal != null
      ensures this.cfg == cfg && this.modes == modes && this.ring == ring && this.wal == wal
      ensures this.pg == pg && this.dl == dl && Wired()
      ensures retriesTotal == flushErrors == flushed == inserted == requeued == deadLettered == 0
    {
      this.cfg, this.modes, this.ring, this.wal, this.pg, this.dl := cfg, modes, ring, wal, pg, dl;
      retriesTotal, flushErrors, flushed, inserted, requeued, deadLettered := 0, 0, 0, 0, 0, 0;
    }

    ghost predicate Wired() {
      cfg.hasWal <==> wal != null
    }

    ghost function LogNow(): LogView
      requires wal != null
      reads wal
    {
      LogView(wal.Contents(), wal.seq_)
    }

    /** What the WAL stores, live or not. */
    ghost function EntriesNow(): Entries
      reads wal
    {
      if wal == null then map[] else wal.entries
    }

    /** Since the WAL stored `e`, only live values have come and gone. */
    ghost predicate Overlaid(e: Entries)
      reads wal
    {
      wal != null ==> OverlayIs(e, wal.entries, wal.Contents())
    }

    /** Nothing has been added to the live values of `e`. */
    ghost predicate Shrunk(e: Entries)
      reads wal
    {
      wal != null ==> wal.Contents().Keys <= LiveLog(e).Keys
    }

    ghost function SinkNow(): SinkView
      reads dl
    {
      SinkView(dl.objects, dl.seq_)
    }

    ghost predicate StoresHold(s: P.State, c: Counts)
      reads this, wal, pg, dl
    {
      && s.table == pg.rows
      && s.bucket == dl.objects && s.sinkSeq == dl.seq_
      && (wal != null ==>
            s.wal == wal.Contents() && s.walSeq == wal.seq_ && c.appended == wal.appended && c.drained == wal.drained)
      && c.retries == retriesTotal && c.flushErrors == flushErrors && c.flushed == flushed
      && c.inserted == inserted && c.requeued == requeued && c.deadLettered == deadLettered
    }

    /** The stores and the flusher's counters are those of the protocol at `p`. */
    ghost predicate StoresSynced(p: Point)
      reads this, wal, pg, dl
    {
      forall c :: c == p.counts ==> StoresHold(p.state, c)
    }

    ghost predicate RingHolds(q: seq<Message>, c: Counts)
      reads ring, ring.slots
    {
      && ring.Valid() && ring.lim == cfg.limits && q == ring.Contents()
      && c.enqueued == ring.enqueued && c.dequeued == ring.dequeued
      && c.rejected == ring.rejected && c.spilled == ring.spilled
    }

    /** The ring is that of the protocol at `p` too. */
    ghost predicate RingSynced(p: Point)
      reads ring, ring.slots
    {
      forall c :: c == p.counts ==> RingHolds(p.state.ring, c)
    }

    /** One CopyMessages call with its bookkeeping. */
    method TryOnce(batch: seq<Message>, attempt: nat, env: FlushEnv) returns (r: Result<nat, FlushError>)
      requires batch != []
      modifies this`flushErrors, this`flushed, this`inserted, modes, pg
      ensures r.Ok? <==> env.copy(attempt).Succeeds?
      ensures r.Err? ==> r.error == env.copy(attempt).Error()
      ensures pg.rows == if env.copy(attempt).Landed() then InsertBatch(old(pg.rows), batch) else old(pg.rows)
      ensures flushErrors == old(flushErrors) + (if r.Ok? then 0 else 1)
      ensures flushed == old(flushed) + (if r.Ok? then 1 else 0)
      ensures inserted == old(inserted) + (if r.Ok? then RowsAdded(old(pg.rows), batch) else 0)
      ensures modes.View() ==
              if r.Ok? then AfterSample(modes.cfg, AfterRecovery(old(modes.View())), env.latency, env.recordedAt)
                              else AfterError(modes.cfg, old(modes.View()), env.failedAt(attempt))
    {
      r := pg.CopyMessages(batch, env.copy(attempt));
      if r.Ok? {
        flushed := flushed + 1;
        inserted := inserted + r.value;
        modes.MaybeRecover();
        modes.RecordLatency(env.latency, env.recordedAt);
      } else {
        flushErrors := flushErrors + 1;
        modes.EnterCritical(env.failedAt(attempt));
      }
    }

    /** The table and the modes after `calls` failed calls, seen from those of the first. */
    ghost predicate CallsFailed(env: FlushEnv, calls: nat, batch: seq<Message>, rows: Table, was: AdaptiveMode.State)
      reads pg, modes
    {
      forall t :: t == TableAfter(env, calls, batch, rows) ==> CallsMatch(t, env, calls, was)
    }

    ghost predicate CallsMatch(t: Table, env: FlushEnv, calls: nat, was: AdaptiveMode.State)
      reads pg, modes
    {
      pg.rows == t && modes.View() == ModesFailed(modes.cfg, env, calls, was)
    }

    /** The call after `calls` failed ones. */
    method NextCall(batch: seq<Message>, calls: nat, env: FlushEnv, ghost rows: Table, ghost was: AdaptiveMode.State)
      returns (r: Result<nat, FlushError>)
      requires batch != [] && CallsFailed(env, calls, batch, rows, was)
      requires StillTrying(env, calls) && (calls > 0 ==> !env.cancelled(calls))
      modifies this`flushErrors, this`flushed, this`inserted, modes, pg
      ensures r.Err? ==> StillTrying(env, calls + 1)
      ensures r.Ok? <==> env.copy(calls).Succeeds?
      ensures r.Err? ==> r.error == env.copy(calls).Error() && CallsFailed(env, calls + 1, batch, rows, was)
      ensures r.Ok? ==> pg.rows == TableAfter(env, calls + 1, batch, rows)
                        && modes.View() == ModesAfter(modes.cfg, env, calls + 1, true, was)
      ensures flushErrors == old(flushErrors) + (if r.Ok? then 0 else 1)
      ensures flushed == old(flushed) + OneIf(r.Ok?)
      ensures inserted == old(inserted) + (if r.Ok? then NewRows(env, batch, calls + 1, Succeeded, rows) else 0)
    {
      assert CallsMatch(TableAfter(env, calls, batch, rows), env, calls, was);
      TableNext(env, calls, batch, rows);
      ModesNext(modes.cfg, env, calls, was);
      r := TryOnce(batch, calls, env);
    }

    /** The backoff before another call; a cancelled context cuts it short. */
    method Backoff(batch: seq<Message>, calls: nat, env: FlushEnv, delay: int64, slept: int)
      returns (go: bool, delay': int64, slept': int)
      requires calls > 0 && delay == DelayAhead(calls) && slept == TotalDelay(calls - 1)
      modifies this`retriesTotal
      ensures go <==> !env.cancelled(calls)
      ensures retriesTotal == old(retriesTotal) + |batch|
      ensures if go then delay' == DelayAhead(calls + 1) && slept' == TotalDelay(calls) else slept' == slept
    {
      retriesTotal := retriesTotal + |batch|;
      if env.cancelled(calls) { return false, delay, slept; }
      return true, WrapInt64(2 * delay), slept + delay;
    }

    /** The retry loop: at most MaxRetries + 1 calls, with doubling delays between them. */
    method RetryLoop(batch: seq<Message>, env: FlushEnv) returns (calls: nat, end: LoopEnd, slept: int)
      requires batch != []
      modifies this`retriesTotal, this`flushErrors, this`flushed, this`inserted, modes, pg
      ensures LoopEnds(env, cfg.maxRetries, calls, end)
      ensures slept == TotalDelay(calls - 1)
      ensures pg.rows == TableAfter(env, calls, batch, old(pg.rows))
      ensures modes.View() == ModesAfter(modes.cfg, env, calls, end.Succeeded?, old(modes.View()))
      ensures retriesTotal == old(retriesTotal) + RetriesCounted(Backoffs(calls, end), |batch|)
      ensures flushErrors == old(flushErrors) + (if end.Succeeded? then calls - 1 else calls)
      ensures flushed == old(flushed) + OneIf(end.Succeeded?)
      ensures inserted == old(inserted) + NewRows(env, batch, calls, end, old(pg.rows))
    {
      var delay: int64 := SECOND;
      var lastErr := OtherError;
      calls := 0;
      slept := 0;
      ghost var rows, was := pg.rows, modes.View();
      assert CallsMatch(TableAfter(env, 0, batch, rows), env, 0, was);
      while calls <= cfg.maxRetries
        invariant calls <= cfg.maxRetries + 1 && StillTrying(env, calls)
        invariant delay == DelayAhead(calls) && slept == TotalDelay(Spent(calls))
        invariant calls > 0 ==> lastErr == env.copy(calls - 1).Error()
        invariant CallsFailed(env, calls, batch, rows, was)
        invariant retriesTotal == old(retriesTotal) + RetriesCounted(Spent(calls), |batch|)
        invariant flushErrors == old(flushErrors) + calls && flushed == old(flushed) && inserted == old(inserted)
      {
        if calls > 0 {
          var go;
          go, delay, slept := Backoff(batch, calls, env, delay, slept);
          if !go {
            assert CallsMatch(TableAfter(env, calls, batch, rows), env, calls, was);
            return calls, Cancelled, slept;
          }
        }
        var r := NextCall(batch, calls, env, rows, was);
        calls := calls + 1;
        if r.Ok? { return calls, Succeeded, slept; }
        lastErr := r.error;
      }
      assert CallsMatch(TableAfter(env, calls, batch, rows), env, calls, was);
      end := Exhausted(lastErr);
    }

    /** Writes the batch back to the WAL, up to the first append that fails. */
    method Requeue(batch: seq<Message>, env: FlushEnv) returns (ok: bool)
      requires wal != null
      modifies this`requeued, wal
      ensures ok <==> AllAppended(env, |batch|)
      ensures LogNow() == LogRefilled(env, batch, Tried(env, |batch|), old(LogNow()))
      ensures requeued == old(requeued) + Kept(env, |batch|) && wal.appended == old(wal.appended) + Kept(env, |batch|)
      ensures wal.drained == old(wal.drained) && Overlaid(old(wal.entries))
    {
      OverlaySelf(wal.entries);
      var i := 0;
      while i < |batch|
        invariant 0 <= i <= |batch| && AllAppended(env, i)
        invariant LogNow() == LogRefilled(env, batch, i, old(LogNow()))
        invariant requeued == old(requeued) + i && wal.appended == old(wal.appended) + i
        invariant wal.drained == old(wal.drained) && Overlaid(old(wal.entries))
      {
        OverlayAppend(old(wal.entries), wal.entries, wal.Contents(), KeyAt(env.appendAt(i), NextSeq(wal.seq_)),
                      batch[i]);
        var r := wal.Append(batch[i], env.appendAt(i), env.append(i));
        if r.Err? {
          KeptIs(env, |batch|, i);
          return false;
        }
        requeued := requeued + 1;
        i := i + 1;
      }
      KeptAll(env, |batch|);
      ok := true;
    }

    /** Hands every message to the sink; a failed write is logged and skipped. */
    method Bury(batch: seq<Message>, env: FlushEnv)
      modifies this`deadLettered, dl
      ensures SinkNow() == SinkFilled(env, batch, |batch|, old(SinkNow()))
      ensures deadLettered == old(deadLettered) + Written(env, |batch|)
      ensures dl.written == old(dl.written) + Written(env, |batch|)
      ensures dl.errors == old(dl.errors) + |batch| - Written(env, |batch|)
    {
      var i := 0;
      while i < |batch|
        invariant 0 <= i <= |batch|
        invariant SinkNow() == SinkFilled(env, batch, i, old(SinkNow()))
        invariant deadLettered == old(deadLettered) + Written(env, i)
        invariant dl.written == old(dl.written) + Written(env, i) && dl.errors == old(dl.errors) + i - Written(env, i)
      {
        BuryOne(batch[i], env.date(i), env.put(i));
        i := i + 1;
      }
    }

    method BuryOne(m: Message, date: string, fault: WriteFault)
      modifies this`deadLettered, dl
      ensures SinkNow() == WriteOne(old(SinkNow()), m, date, fault)
      ensures var n := if fault == WriteFault.NoFault then 1 else 0;
              && deadLettered == old(deadLettered) + n && dl.written == old(dl.written) + n
              && dl.errors == old(dl.errors) + 1 - n
    {
      var ok := dl.Write(m, date, fault);
      if ok { deadLettered := deadLettered + 1; }
    }

    /** Out of retries: requeue a transient failure, or dead-letter. */
    method GiveUp(batch: seq<Message>, err: FlushError, env: FlushEnv) returns (outcome: Outcome)
      modifies this`requeued, this`deadLettered, dl, wal
      ensures outcome == OutcomeOf(wal != null, env, |batch|, Exhausted(err))
      ensures outcome == if wal != null && !RowFault(err) && AllAppended(env, |batch|) then Requeued(err)
                         else DeadLettered(err)
      ensures wal != null && RowFault(err) ==> LogNow() == old(LogNow())
      ensures SinkNow() ==
              if outcome.DeadLettered? then SinkFilled(env, batch, |batch|, old(SinkNow())) else old(SinkNow())
      ensures deadLettered == old(deadLettered) + (if outcome.DeadLettered? then Written(env, |batch|) else 0)
      ensures wal != null ==>
                && wal.drained == old(wal.drained)
                && LogNow() == (if Retried(true, err) then LogRefilled(env, batch, Tried(env, |batch|), old(LogNow()))
                                else old(LogNow()))
                && wal.appended == old(wal.appended) + (if Retried(true, err) then Kept(env, |batch|) else 0)
      ensures requeued == old(requeued) + (if Retried(wal != null, err) then Kept(env, |batch|) else 0)
      ensures Overlaid(old(EntriesNow()))
    {
      OverlaySelf(EntriesNow());
      PoisonIsRowFault(err);
      if !IsPoison(err) && wal != null {
        var ok := Requeue(batch, env);
        if ok { return Requeued(err); }
      }
      Bury(batch, env);
      outcome := DeadLettered(err);
    }

    /** flushWithRetry: whatever the database, the WAL and the sink answer, it is a run of the
        protocol by this worker alone, which the labels spell out, and leaves the worker idle. */
    method FlushWithRetry(batch: seq<Message>, env: FlushEnv, ghost w: nat, ghost p: Point)
      returns (outcome: Outcome, calls: nat, end: LoopEnd, slept: int, ghost q: Point)
      requires batch != [] && Wired() && StoresSynced(p)
      requires w < |p.state.workers| && p.state.workers[w] == P.Copying(batch, 0)
      modifies this, modes, pg, dl, wal
      ensures LoopEnds(env, cfg.maxRetries, calls, end) && outcome == OutcomeOf(wal != null, env, |batch|, end)
      ensures slept == TotalDelay(calls - 1)
      ensures modes.View() == ModesAfter(modes.cfg, env, calls, end.Succeeded?, old(modes.View()))
      ensures pg.rows == TableAfter(env, calls, batch, old(pg.rows))
      ensures wal != null ==>
                LogNow() ==
                if end.Exhausted? && Retried(true, end.err)
                then LogRefilled(env, batch, Tried(env, |batch|), old(LogNow()))
                else old(LogNow())
      ensures SinkNow() ==
              if outcome.DeadLettered? then SinkFilled(env, batch, |batch|, old(SinkNow())) else old(SinkNow())
      ensures (outcome == Inserted <==> end.Succeeded?) && (outcome == Dropped <==> end.Cancelled?)
      ensures end.Exhausted? ==>
                outcome == if wal != null && !RowFault(end.err) && AllAppended(env, |batch|) then Requeued(end.err)
                           else DeadLettered(end.err)
      ensures wal != null && end.Exhausted? && RowFault(end.err) ==> LogNow() == old(LogNow())
      ensures StoresSynced(q) && Overlaid(old(EntriesNow()))
      ensures Reaches(cfg, p, FlushLabels(wal != null, env, w, |batch|, calls, end), q)
      ensures q.state.workers == p.state.workers[w := P.Idle] && IntakeKept(p, q)
    {
      OverlaySelf(EntriesNow());
      ghost var mid;
      calls, end, slept, mid := Attempts(batch, env, w, p);
      ghost var ls := RetryLabels(env, w, calls, end);
      match end {
        case Succeeded => outcome, q := Inserted, mid;
        case Cancelled => outcome, q := Dropped, mid;
        case Exhausted(err) =>
          outcome, q := Settle(batch, err, env, w, mid);
          ReachesJoin(cfg, p, ls, mid, GiveUpLabels(wal != null, env, w, |batch|, err), q);
          Rewrite(p.state.workers, w, LoopExit(cfg, batch, end), P.Idle);
      }
      if !end.Exhausted? { assert ls + [] == ls; }
    }

    /** The retry loop as a run of the protocol. */
    method Attempts(batch: seq<Message>, env: FlushEnv, ghost w: nat, ghost p: Point)
      returns (calls: nat, end: LoopEnd, slept: int, ghost q: Point)
      requires batch != [] && Wired() && StoresSynced(p)
      requires w < |p.state.workers| && p.state.workers[w] == P.Copying(batch, 0)
      modifies this`retriesTotal, this`flushErrors, this`flushed, this`inserted, modes, pg
      ensures LoopEnds(env, cfg.maxRetries, calls, end)
      ensures slept == TotalDelay(calls - 1)
      ensures modes.View() == ModesAfter(modes.cfg, env, calls, end.Succeeded?, old(modes.View()))
      ensures pg.rows == TableAfter(env, calls, batch, old(pg.rows))
      ensures StoresSynced(q) && Reaches(cfg, p, RetryLabels(env, w, calls, end), q)
      ensures q.state.workers == p.state.workers[w := LoopExit(cfg, batch, end)] && IntakeKept(p, q)
    {
      assert StoresHold(p.state, p.counts);
      calls, end, slept := RetryLoop(batch, env);
      q := RetryRun(cfg, p, w, batch, env, calls, end);
    }

    /** Giving up as a run of the protocol. */
    method Settle(batch: seq<Message>, err: FlushError, env: FlushEnv, ghost w: nat, ghost p: Point)
      returns (outcome: Outcome, ghost q: Point)
      requires batch != [] && Wired() && StoresSynced(p)
      requires w < |p.state.workers| && p.state.workers[w] == P.AfterFailure(cfg, batch, cfg.maxRetries, err)
      modifies this`requeued, this`deadLettered, dl, wal
      ensures outcome == OutcomeOf(wal != null, env, |batch|, Exhausted(err))
      ensures wal != null ==>
                LogNow() ==
                if Retried(true, err) then LogRefilled(env, batch, Tried(env, |batch|), old(LogNow()))
                else old(LogNow())
      ensures SinkNow() ==
              if outcome.DeadLettered? then SinkFilled(env, batch, |batch|, old(SinkNow())) else old(SinkNow())
      ensures StoresSynced(q) && Overlaid(old(EntriesNow()))
      ensures Reaches(cfg, p, GiveUpLabels(wal != null, env, w, |batch|, err), q)
      ensures q.state.workers == p.state.workers[w := P.Idle] && IntakeKept(p, q)
    {
      assert StoresHold(p.state, p.counts);
      outcome := GiveUp(batch, err, env);
      q := GiveUpRun(cfg, p, w, batch, err, env);
    }

    /** The ring part of pullBatch. */
    method TakeRing(batchSize: nat, ghost p: Point) returns (out: seq<Message>, ghost q: Point)
      requires RingSynced(p) && StoresSynced(p)
      modifies ring, ring.slots
      ensures RingSynced(q) && StoresSynced(q)
      ensures var k := TakeCount(batchSize, |p.state.ring|);
              && out == p.state.ring[..k]
              && q == Point(p.state.(ring := p.state.ring[k..]), p.counts.(dequeued := p.counts.dequeued + k))
    {
      assert RingHolds(p.state.ring, p.counts) && StoresHold(p.state, p.counts);
      out := ring.Dequeue(batchSize);
      ghost var k := TakeCount(batchSize, |p.state.ring|);
      q := Point(p.state.(ring := p.state.ring[k..]), p.counts.(dequeued := p.counts.dequeued + k));
    }

    /** A drain that fails leaves the store as it was. */
    method DrainWal(room: nat, deleteFails: bool)
      returns (got: seq<Message>, ghost fault: DrainFault, ghost ks: seq<string>)
      requires wal != null && room > 0
      modifies wal
      ensures FaultIs(fault, old(wal.entries), room, deleteFails)
      ensures TopUpIs(ks, true, old(wal.Contents()), room, fault)
      ensures got == MessagesAt(old(wal.Contents()), ks)
      ensures wal.Contents() == old(wal.Contents()) - Elements(ks) && wal.drained == old(wal.drained) + |ks|
      ensures wal.seq_ == old(wal.seq_) && wal.appended == old(wal.appended)
      ensures Overlaid(old(wal.entries)) && Shrunk(old(wal.entries))
    {
      OverlaySelf(wal.entries);
      ghost var log := wal.Contents();
      fault := DrainFault(Blocked(wal.entries, room), deleteFails);
      FaultOf(fault, wal.entries, room, deleteFails);
      ks := TopUpKeys(true, log, room, fault);
      TopUpOf(ks, true, log, room, fault);
      var r := wal.Drain(room, deleteFails);
      got := if r.Ok? then r.value else [];
      if |OldestKeys(log, room)| == 0 || r.Err? {
        NothingDrained(log);
      } else {
        OverlayDrain(old(wal.entries), Elements(ks));
      }
    }

    /** The WAL part of pullBatch, under walMu. */
    method TopUp(room: nat, deleteFails: bool, ghost p: Point)
      returns (got: seq<Message>, ghost fault: DrainFault, ghost ks: seq<string>, ghost q: Point)
      requires wal != null && room > 0 && StoresSynced(p)
      modifies wal
      ensures FaultIs(fault, old(wal.entries), room, deleteFails)
      ensures Overlaid(old(wal.entries)) && Shrunk(old(wal.entries))
      ensures StoresSynced(q) && TopUpIs(ks, true, p.state.wal, room, fault)
      ensures got == MessagesAt(p.state.wal, ks)
      ensures q == Point(p.state.(wal := p.state.wal - Elements(ks)), p.counts.(drained := p.counts.drained + |ks|))
    {
      assert StoresHold(p.state, p.counts);
      got, fault, ks := DrainWal(room, deleteFails);
      q := Point(p.state.(wal := p.state.wal - Elements(ks)), p.counts.(drained := p.counts.drained + |ks|));
    }

    /** What pullBatch does to the ring and the WAL: `fault` is what went wrong in the drain, `ks` the
        keys drained. */
    method Take(batchSize: nat, deleteFails: bool, ghost p: Point)
      returns (out: seq<Message>, ghost fault: DrainFault, ghost ks: seq<string>, ghost q: Point)
      requires Wired() && RingSynced(p) && StoresSynced(p)
      modifies ring, ring.slots, wal
      ensures var k := TakeCount(batchSize, |p.state.ring|);
              && (wal != null && k < batchSize ==> FaultIs(fault, old(wal.entries), batchSize - k, deleteFails))
              && TopUpIs(ks, cfg.hasWal, p.state.wal, batchSize - k, fault)
      ensures out == PulledBatch(p.state.ring, p.state.wal, batchSize, ks) && q == Taken(p, batchSize, ks)
      ensures RingSynced(q) && StoresSynced(q)
      ensures Overlaid(old(EntriesNow())) && Shrunk(old(EntriesNow()))
    {
      OverlaySelf(EntriesNow());
      ghost var k := TakeCount(batchSize, |p.state.ring|);
      out, q := TakeRing(batchSize, p);
      if wal != null && |out| < batchSize {
        out, fault, ks, q := TakeMore(out, batchSize, deleteFails, k, p, q);
      } else {
        fault, ks := DrainFault(false, deleteFails), [];
        NoTopUp(cfg.hasWal, p.state.wal, batchSize - k, fault);
        TakenRing(p, batchSize);
      }
    }

    method TakeMore(front: seq<Message>, batchSize: nat, deleteFails: bool, ghost k: nat, ghost p: Point,
                    ghost mid: Point)
      returns (out: seq<Message>, ghost fault: DrainFault, ghost ks: seq<string>, ghost q: Point)
      requires wal != null && |front| < batchSize && RingSynced(mid) && StoresSynced(mid)
      requires k == TakeCount(batchSize, |p.state.ring|) && front == p.state.ring[..k]
      requires mid == Point(p.state.(ring := p.state.ring[k..]), p.counts.(dequeued := p.counts.dequeued + k))
      modifies wal
      ensures FaultIs(fault, old(wal.entries), batchSize - k, deleteFails)
      ensures TopUpIs(ks, true, p.state.wal, batchSize - k, fault)
      ensures out == PulledBatch(p.state.ring, p.state.wal, batchSize, ks) && q == Taken(p, batchSize, ks)
      ensures RingSynced(q) && StoresSynced(q)
      ensures Overlaid(old(wal.entries)) && Shrunk(old(wal.entries))
    {
      assert RingHolds(mid.state.ring, mid.counts);
      var got;
      got, fault, ks, q := TopUp(batchSize - |front|, deleteFails, mid);
      out := front + got;
    }

    /** pullBatch: the oldest ring messages, topped up with the oldest WAL messages unless the drain
        fails; a run of the protocol by this worker alone. */
    method PullBatch(deleteFails: bool, ghost w: nat, ghost p: Point)
      returns (out: seq<Message>, ghost fault: DrainFault, ghost ks: seq<string>, ghost q: Point)
      requires Wired() && RingSynced(p) && StoresSynced(p)
      requires w < |p.state.workers| && p.state.workers[w] == P.Idle && p.state.walMu == None
      modifies ring, ring.slots, wal
      ensures var want := P.Want(cfg, modes.mode != Normal);
              var k := TakeCount(want, |p.state.ring|);
              && (wal != null && k < want ==> FaultIs(fault, old(wal.entries), want - k, deleteFails))
              && TopUpIs(ks, cfg.hasWal, p.state.wal, want - k, fault)
              && out == PulledBatch(p.state.ring, p.state.wal, want, ks)
              && Pulled(p, w, want, ks, q)
              && Reaches(cfg, p, PullLabels(cfg.hasWal, w, modes.mode != Normal, p.state.ring, p.state.wal, want,
                                            fault), q)
      ensures var size := if modes.mode == Normal then cfg.batchSize else cfg.elevatedBatchSize;
              var stock := |p.state.ring| + (if wal != null && !fault.Any() then |p.state.wal| else 0);
              |out| == if stock < size then stock else size
      ensures RingSynced(q) && StoresSynced(q)
      ensures Overlaid(old(EntriesNow())) && Shrunk(old(EntriesNow()))
    {
      var batchSize := if modes.mode == Normal then cfg.batchSize else cfg.elevatedBatchSize;
      ghost var r;
      out, fault, ks, r := Take(batchSize, deleteFails, p);
      q := PullRun(cfg, p, w, modes.mode != Normal, fault, ks);
      PulledIsTaken(p, w, batchSize, ks, q);
      PulledSize(cfg.hasWal, p.state.ring, p.state.wal, batchSize, fault, ks);
      AlikeSynced(r, q);
    }

    /** What both predicates look at. */
    lemma AlikeSynced(p: Point, q: Point)
      requires RingSynced(p) && StoresSynced(p) && Alike(p, q)
      ensures RingSynced(q) && StoresSynced(q)
    {
      assert RingHolds(p.state.ring, p.counts) && StoresHold(p.state, p.counts);
    }

    /** One turn of workerLoop after its timer has fired. */
    method Turn(i: TurnIn, ghost w: nat, ghost p: Point) returns (o: TurnOut, ghost t: TurnLog)
      requires Wired() && RingSynced(p) && StoresSynced(p)
      requires w < |p.state.workers| && p.state.workers[w] == P.Idle && p.state.walMu == None
      modifies this, modes, ring, ring.slots, pg, dl, wal
      ensures TurnDone(cfg, modes.cfg, w, old(modes.View()), i, o, t)
      ensures t.from == p && t.entries == old(EntriesNow())
      ensures modes.View() == AfterTurn(modes.cfg, old(modes.View()), i, o)
      ensures RingSynced(t.to) && StoresSynced(t.to) && Overlaid(old(EntriesNow()))
      ensures BackAtTimer(p, t.to)
    {
      if modes.mode == Critical && modes.criticalUntil.Some? && i.now < modes.criticalUntil.value {
        ReachesItself(cfg, p);
        OverlaySelf(EntriesNow());
        return Skipped, TurnLog(p, EntriesNow(), DrainFault(false, false), [], p, [], [], [], p);
      }
      o, t := PullAndFlush(i, w, p);
      PullIsSized(cfg, w, old(modes.mode), i, t);
    }

    /** A turn that the gate lets through. */
    method PullAndFlush(i: TurnIn, ghost w: nat, ghost p: Point) returns (o: TurnOut, ghost t: TurnLog)
      requires Wired() && RingSynced(p) && StoresSynced(p)
      requires w < |p.state.workers| && p.state.workers[w] == P.Idle && p.state.walMu == None
      modifies this, modes, ring, ring.slots, pg, dl, wal
      ensures !o.Skipped? && (o.Flushed? ==> LoopEnds(i.env, cfg.maxRetries, o.calls, o.end))
      ensures modes.View() == AfterTurn(modes.cfg, old(modes.View()), i, o)
      ensures t.from == p && t.entries == old(EntriesNow())
      ensures OpenTurn(cfg, w, old(modes.mode) != Normal, i, o, t) && Reaches(cfg, p, t.steps, t.to)
      ensures RingSynced(t.to) && StoresSynced(t.to) && Overlaid(old(EntriesNow()))
      ensures BackAtTimer(p, t.to)
    {
      ghost var e := EntriesNow();
      var batch;
      batch, t := PullTurn(i, w, p);
      if |batch| == 0 { return Empty, t; }
      ghost var ls, q;
      var calls, end;
      calls, end, ls, q := FlushPulled(batch, i.env, w, p, t.pull, e, t.mid);
      PullDoneKept(cfg, w, old(modes.mode) != Normal, i, t, ls, q);
      o, t := Flushed(batch, calls, end), t.(steps := ls, to := q);
    }

    /** The pull of a turn, as a turn that flushes nothing. */
    method PullTurn(i: TurnIn, ghost w: nat, ghost p: Point) returns (batch: seq<Message>, ghost t: TurnLog)
      requires Wired() && RingSynced(p) && StoresSynced(p)
      requires w < |p.state.workers| && p.state.workers[w] == P.Idle && p.state.walMu == None
      modifies ring, ring.slots, wal
      ensures t.from == p && t.entries == old(EntriesNow()) && t.batch == batch && t.steps == t.pull && t.to == t.mid
      ensures PullDone(cfg, w, modes.mode != Normal, i, t) && Reaches(cfg, p, t.pull, t.mid)
      ensures RingSynced(t.mid) && StoresSynced(t.mid)
      ensures Overlaid(old(EntriesNow())) && Shrunk(old(EntriesNow()))
      ensures |t.mid.state.workers| == |p.state.workers| && t.mid.state.workers[w] == P.AfterPull(batch)
      ensures BackAtTimer(p, t.mid.(state := t.mid.state.(workers := t.mid.state.workers[w := P.Idle])))
      ensures batch == [] ==> BackAtTimer(p, t.mid)
    {
      ghost var elevated, e := modes.mode != Normal, EntriesNow();
      ghost var fault, ks, mid;
      batch, fault, ks, mid := PullBatch(i.deleteFails, w, p);
      t := PullLogged(cfg, w, elevated, i, p, e, fault, ks, mid, batch);
      BackToIdle(p, w, P.Want(cfg, elevated), ks, mid);
    }

    /** The flush of a turn, added to the run so far; `e` is what the WAL stored before the pull. */
    method FlushPulled(batch: seq<Message>, env: FlushEnv, ghost w: nat, ghost p: Point, ghost before: seq<P.Label>,
                       ghost e: Entries, ghost mid: Point)
      returns (calls: nat, end: LoopEnd, ghost ls: seq<P.Label>, ghost q: Point)
      requires batch != [] && Wired() && RingSynced(mid) && StoresSynced(mid) && Reaches(cfg, p, before, mid)
      requires w < |mid.state.workers| && mid.state.workers[w] == P.Copying(batch, 0)
      requires Overlaid(e) && Shrunk(e)
      modifies this, modes, pg, dl, wal
      ensures LoopEnds(env, cfg.maxRetries, calls, end)
      ensures modes.View() == ModesAfter(modes.cfg, env, calls, end.Succeeded?, old(modes.View()))
      ensures ls == before + FlushLabels(cfg.hasWal, env, w, |batch|, calls, end)
      ensures Reaches(cfg, p, ls, q) && RingSynced(q) && StoresSynced(q) && Overlaid(e)
      ensures q.state.workers == mid.state.workers[w := P.Idle] && IntakeKept(mid, q)
    {
      assert RingHolds(mid.state.ring, mid.counts);
      ghost var stored, log := EntriesNow(), if wal == null then map[] else wal.Contents();
      var outcome, slept;
      outcome, calls, end, slept, q := FlushWithRetry(batch, env, w, mid);
      if wal != null { OverlayTwice(e, stored, log, wal.entries, wal.Contents()); }
      ReachesJoin(cfg, p, before, mid, FlushLabels(cfg.hasWal, env, w, |batch|, calls, end), q);
      ls := before + FlushLabels(cfg.hasWal, env, w, |batch|, calls, end);
    }

    /** workerLoop, over the turns it makes before the context is cancelled: each starts where the one
        before ended, and their labels, then the stop, are the whole run. */
    method WorkerLoop(ins: seq<TurnIn>, ghost w: nat, ghost p: Point)
      returns (outs: seq<TurnOut>, ghost logs: seq<TurnLog>, ghost q: Point)
      requires Wired() && RingSynced(p) && StoresSynced(p)
      requires w < |p.state.workers| && p.state.workers[w] == P.Idle && p.state.walMu == None
      modifies this, modes, ring, ring.slots, pg, dl, wal
      ensures TurnsDone(old(OutsetAt(w, p)), Shift(ins, outs, logs))
      ensures modes.View() == ModesBefore(old(OutsetAt(w, p)), Shift(ins, outs, logs), |ins|)
      ensures Reaches(cfg, p, StepsOf(logs) + [P.Cancel, P.Stop(w)], q) && RingSynced(q) && StoresSynced(q)
      ensures q.state.workers == p.state.workers[w := P.Stopped] && q.state.walMu == None
    {
      ghost var at;
      outs, logs, at := MakeTurns(ins, w, p);
      assert RingHolds(at.state.ring, at.counts) && StoresHold(at.state, at.counts);
      q := StopRun(cfg, at, w);
      ReachesJoin(cfg, p, StepsOf(logs), at, [P.Cancel, P.Stop(w)], q);
    }

    ghost function OutsetAt(w: nat, p: Point): Outset
      reads modes, wal
    {
      Outset(cfg, modes.cfg, w, modes.View(), p, EntriesNow())
    }

    method MakeTurns(ins: seq<TurnIn>, ghost w: nat, ghost p: Point)
      returns (outs: seq<TurnOut>, ghost logs: seq<TurnLog>, ghost q: Point)
      requires Wired() && RingSynced(p) && StoresSynced(p)
      requires w < |p.state.workers| && p.state.workers[w] == P.Idle && p.state.walMu == None
      modifies this, modes, ring, ring.slots, pg, dl, wal
      ensures TurnsDone(old(OutsetAt(w, p)), Shift(ins, outs, logs))
      ensures modes.View() == ModesBefore(old(OutsetAt(w, p)), Shift(ins, outs, logs), |ins|)
      ensures Reaches(cfg, p, StepsOf(logs), q) && RingSynced(q) && StoresSynced(q)
      ensures q.state.workers == p.state.workers && q.state.walMu == None
    {
      outs, logs, q := [], [], p;
      ghost var c := OutsetAt(w, p);
      NoTurnsYet(c);
      for n := 0 to |ins|
        invariant ShiftTo(c, Shift(ins[..n], outs, logs), modes.View(), q, EntriesNow())
        invariant RingSynced(q) && StoresSynced(q)
        invariant q.state.workers == p.state.workers && q.state.walMu == None
      {
        ghost var before, e, at := modes.View(), EntriesNow(), q;
        var o;
        ghost var t;
        o, t := Turn(ins[n], w, at);
        q := t.to;
        TurnMade(c, Shift(ins[..n], outs, logs), before, at, e, ins[n], o, t);
        EntriesFollow(e, q);
        assert ins[..n + 1] == ins[..n] + [ins[n]];
        outs, logs := outs + [o], logs + [t];
      }
      assert ins[..|ins|] == ins;
      assert ShiftIs(c, Shift(ins, outs, logs), modes.View(), q, EntriesNow());
    }

    lemma EntriesFollow(e: Entries, p: Point)
      requires Wired() && StoresSynced(p) && Overlaid(e) && (wal == null ==> e == map[])
      ensures EntriesNow() == EntriesAfter(cfg.hasWal, e, p)
    {
      assert StoresHold(p.state, p.counts);
      if wal != null { assert wal.entries == Overlay(e, wal.Contents()); }
    }
  }

  /** The worker is back at its timer, and nothing of the subscriber's has moved. */
  ghost predicate BackAtTimer(p: Point, q: Point) {
    && q.state.workers == p.state.workers && q.state.walMu == None
    && q.state.intake == p.state.intake && CountersKept(p.counts, q.counts)
  }

  /** After a pull the worker is back at its timer as soon as the batch is gone. */
  lemma BackToIdle(p: Point, w: nat, want: nat, ks: seq<string>, mid: Point)
    requires w < |p.state.workers| && p.state.workers[w] == P.Idle
    requires (forall k :: k in ks ==> k in p.state.wal) && Pulled(p, w, want, ks, mid)
    ensures var batch := PulledBatch(p.state.ring, p.state.wal, want, ks);
            |mid.state.workers| == |p.state.workers| && mid.state.workers[w] == P.AfterPull(batch)
    ensures mid.state.workers[w := P.Idle] == p.state.workers && mid.state.walMu == p.state.walMu
    ensures mid.state.intake == p.state.intake && CountersKept(p.counts, mid.counts)
  {
    Rewrite(p.state.workers, w, P.AfterPull(PulledBatch(p.state.ring, p.state.wal, want, ks)), P.Idle);
    assert p.state.workers[w := P.Idle] == p.state.workers;
  }

  lemma NothingDrained(log: Log)
    ensures MessagesAt(log, []) == [] && log - Elements([]) == log
    ensures OldestKeys(log, 0) == []
  {}
}
