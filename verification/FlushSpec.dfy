/** What one flush and one pull do, as functions of what the outside world answers, and the
    pipeline steps they amount to. */
module FlushSpec {
  import opened AdaptiveMode
  import opened Counters
  import opened DeadLetter
  import opened Messages
  import opened Numerals
  import opened Postgres
  import opened Runs
  import opened Wal
  import opened WalKeys
  import opened WalStore
  import opened Wrappers
  import P = Pipeline

  /** What the outside world answers during one flushWithRetry, by attempt or by position. */
  datatype FlushEnv = FlushEnv(
    cancelled: nat -> bool,
    copy: nat -> CopyEnv,
    failedAt: nat -> int,
    latency: int,
    recordedAt: int,
    appendAt: nat -> int64,
    append: nat -> AppendFault,
    date: nat -> string,
    put: nat -> WriteFault)

  // ----- the sink after a dead-lettered batch -----

  datatype SinkView = SinkView(objects: Bucket, seq_: uint64)

  ghost function WriteOne(v: SinkView, m: Message, date: string, fault: WriteFault): SinkView {
    if fault == MarshalFails then v
    else
      var n := NextSinkSeq(v.seq_);
      SinkView(if fault == PutFails then v.objects else v.objects[ObjectKey(date, m, n) := m], n)
  }

  /** The sink after the first `n` messages were offered to it. */
  ghost function SinkFilled(env: FlushEnv, batch: seq<Message>, n: nat, v: SinkView): SinkView
    requires n <= |batch|
  {
    if n == 0 then v else WriteOne(SinkFilled(env, batch, n - 1, v), batch[n - 1], env.date(n - 1), env.put(n - 1))
  }

  /** How many of the first `n` writes succeed. */
  function Written(env: FlushEnv, n: nat): nat {
    if n == 0 then 0 else Written(env, n - 1) + (if env.put(n - 1) == WriteFault.NoFault then 1 else 0)
  }

  ghost function GoodWrites(env: FlushEnv, n: nat): set<nat> {
    set i: nat | i < n && env.put(i) == WriteFault.NoFault
  }

  lemma {:induction false} WrittenIs(env: FlushEnv, n: nat)
    ensures Written(env, n) == |GoodWrites(env, n)|
  {
    if n == 0 {
      assert GoodWrites(env, 0) == {};
    } else {
      WrittenIs(env, n - 1);
      assert GoodWrites(env, n) ==
             GoodWrites(env, n - 1) + (if env.put(n - 1) == WriteFault.NoFault then {n - 1} else {});
    }
  }

  // ----- the WAL after a requeue -----

  datatype LogView = LogView(log: Log, seq_: uint64)

  ghost function AppendOne(v: LogView, m: Message, at: int64, fault: AppendFault): LogView {
    var n := NextSeq(v.seq_);
    LogView(if fault == AppendFault.NoFault then v.log[KeyAt(at, n) := m] else v.log, n)
  }

  /** The WAL after the first `n` messages were offered to it. */
  ghost function LogRefilled(env: FlushEnv, batch: seq<Message>, n: nat, v: LogView): LogView
    requires n <= |batch|
  {
    if n == 0 then v
    else AppendOne(LogRefilled(env, batch, n - 1, v), batch[n - 1], env.appendAt(n - 1), env.append(n - 1))
  }

  ghost predicate AllAppended(env: FlushEnv, n: nat) {
    forall i :: 0 <= i < n ==> env.append(i) == AppendFault.NoFault
  }

  /** The appends that succeed before the first that fails. */
  function Kept(env: FlushEnv, n: nat): (k: nat)
    ensures k <= n && AllAppended(env, k) && (k < n ==> env.append(k) != AppendFault.NoFault)
  {
    if n == 0 then 0
    else
      var k := Kept(env, n - 1);
      if k == n - 1 && env.append(k) == AppendFault.NoFault then n else k
  }

  /** The appends made: the requeue stops at the first that fails. */
  function Tried(env: FlushEnv, n: nat): nat {
    var k := Kept(env, n);
    if k < n then k + 1 else n
  }

  lemma KeptAll(env: FlushEnv, n: nat)
    ensures Kept(env, n) == n <==> AllAppended(env, n)
  {}

  lemma KeptIs(env: FlushEnv, n: nat, i: nat)
    requires i < n && AllAppended(env, i) && env.append(i) != AppendFault.NoFault
    ensures Kept(env, n) == i && Tried(env, n) == i + 1
  {}

  // ----- the table and the modes after some calls -----

  /** Some of the first `n` calls took effect on the server, whatever it reported. */
  predicate AnyLanded(env: FlushEnv, n: nat) {
    n > 0 && (AnyLanded(env, n - 1) || env.copy(n - 1).Landed())
  }

  /** However many of the `n` calls landed, the table is that of one insert if any did. */
  function TableAfter(env: FlushEnv, n: nat, batch: seq<Message>, t: Table): Table {
    if AnyLanded(env, n) then InsertBatch(t, batch) else t
  }

  lemma TableNext(env: FlushEnv, n: nat, batch: seq<Message>, t: Table)
    ensures var before := TableAfter(env, n, batch, t);
            TableAfter(env, n + 1, batch, t) == if env.copy(n).Landed() then InsertBatch(before, batch) else before
  {
    InsertIdempotent(t, batch);
  }

  ghost function Failures(env: FlushEnv, n: nat): seq<Event> {
    if n == 0 then [] else Failures(env, n - 1) + [Failed(env.failedAt(n - 1))]
  }

  /** The mode tracker after `n` failed calls. */
  ghost function ModesFailed(mc: AdaptiveMode.Config, env: FlushEnv, n: nat,
                             was: AdaptiveMode.State): AdaptiveMode.State {
    AdaptiveMode.Run(mc, was, Failures(env, n))
  }

  /** The mode tracker after `calls` calls of which the last succeeded or not: a success recovers
      first and records second. */
  ghost function ModesAfter(mc: AdaptiveMode.Config, env: FlushEnv, calls: nat, succeeded: bool,
                            was: AdaptiveMode.State): AdaptiveMode.State
    requires calls > 0
  {
    if succeeded then AfterSample(mc, AfterRecovery(ModesFailed(mc, env, calls - 1, was)), env.latency, env.recordedAt)
    else ModesFailed(mc, env, calls, was)
  }

  lemma ModesNext(mc: AdaptiveMode.Config, env: FlushEnv, n: nat, was: AdaptiveMode.State)
    ensures ModesFailed(mc, env, n + 1, was) == AfterError(mc, ModesFailed(mc, env, n, was), env.failedAt(n))
  {
    var es := Failures(env, n);
    assert (es + [Failed(env.failedAt(n))])[..|es|] == es;
  }

  // ----- how the retry loop ends -----

  datatype LoopEnd = Succeeded | Cancelled | Exhausted(err: FlushError)

  datatype Outcome = Inserted | Dropped | Requeued(err: FlushError) | DeadLettered(err: FlushError)

  /** The first `n` calls failed and no backoff between them was cancelled. */
  ghost predicate StillTrying(env: FlushEnv, n: nat) {
    && (forall a :: 0 <= a < n ==> !env.copy(a).Succeeds?)
    && (forall a :: 1 <= a < n ==> !env.cancelled(a))
  }

  /** The loop made `calls` calls and ended in `end`; this determines both. */
  ghost predicate LoopEnds(env: FlushEnv, maxRetries: nat, calls: nat, end: LoopEnd) {
    && 1 <= calls <= maxRetries + 1
    && match end
       case Succeeded =>
         StillTrying(env, calls - 1) && (calls > 1 ==> !env.cancelled(calls - 1)) && env.copy(calls - 1).Succeeds?
       case Cancelled => StillTrying(env, calls) && calls <= maxRetries && env.cancelled(calls)
       case Exhausted(err) => StillTrying(env, calls) && calls == maxRetries + 1 && err == env.copy(maxRetries).Error()
  }

  lemma LoopEndsUnique(env: FlushEnv, maxRetries: nat, m: nat, x: LoopEnd, n: nat, y: LoopEnd)
    requires LoopEnds(env, maxRetries, m, x) && LoopEnds(env, maxRetries, n, y)
    ensures m == n && x == y
  {
    if m < n { LoopEndsFirst(env, maxRetries, m, x, n, y); }
    if n < m { LoopEndsFirst(env, maxRetries, n, y, m, x); }
  }

  lemma LoopEndsFirst(env: FlushEnv, maxRetries: nat, m: nat, x: LoopEnd, n: nat, y: LoopEnd)
    requires LoopEnds(env, maxRetries, m, x) && LoopEnds(env, maxRetries, n, y)
    ensures m >= n
  {}

  /** A transient failure goes back to the WAL when every append succeeds; otherwise the sink gets it. */
  ghost function OutcomeOf(hasWal: bool, env: FlushEnv, len: nat, end: LoopEnd): Outcome {
    match end
    case Succeeded => Inserted
    case Cancelled => Dropped
    case Exhausted(err) =>
      if Retried(hasWal, err) && AllAppended(env, len) then Requeued(err) else DeadLettered(err)
  }

  /** The batch is offered to the WAL first. */
  predicate Retried(hasWal: bool, err: FlushError) {
    hasWal && !RowFault(err)
  }

  /** What becomes of a batch whose retries are spent, by the SQLSTATE of the last error: a code that starts with 22
      or 23 never reaches the WAL; any other error, and one without a code, does if there is a WAL. */
  lemma ExhaustedOutcome(hasWal: bool, env: FlushEnv, w: nat, len: nat, err: FlushError)
    ensures var o := OutcomeOf(hasWal, env, len, Exhausted(err));
            var ls := GiveUpLabels(hasWal, env, w, len, err);
            if err.SqlState? && |err.code| >= 2 && err.code[0] == '2' && (err.code[1] == '2' || err.code[1] == '3')
            then o == DeadLettered(err) && forall l :: l in ls ==> !l.RequeueOk? && !l.RequeueFail?
            else if hasWal && AllAppended(env, len)
            then o == Requeued(err) && forall l :: l in ls ==> l.RequeueOk?
            else o == DeadLettered(err)
  {
    RequeueLabelsAre(env, w, len);
    BuryLabelsAre(env, w, len);
  }

  lemma RequeueLabelsAre(env: FlushEnv, w: nat, n: nat)
    ensures forall l :: l in RequeueLabels(env, w, n) && AllAppended(env, n) ==> l.RequeueOk?
  {
    forall i | 0 <= i < |RequeueLabels(env, w, n)|
      ensures AllAppended(env, n) ==> RequeueLabels(env, w, n)[i].RequeueOk?
    {
      if n > 0 { RequeueLabelAt(env, w, n, if i < n then i else 0); }
    }
  }

  lemma BuryLabelsAre(env: FlushEnv, w: nat, n: nat)
    ensures forall l :: l in BuryLabels(env, w, n) ==> l.BuryOk? || l.BuryFail?
  {
    forall i | 0 <= i < |BuryLabels(env, w, n)|
      ensures BuryLabels(env, w, n)[i].BuryOk? || BuryLabels(env, w, n)[i].BuryFail?
    {
      if n > 0 { BuryLabelAt(env, w, n, if i < n then i else 0); }
    }
  }

  /** Backoffs behind the worker once it has made `calls` calls. */
  function Spent(calls: nat): nat {
    if calls == 0 then 0 else calls - 1
  }

  /** Each backoff begun counts the batch as retried, also the one that a cancel cuts short. */
  function Backoffs(calls: nat, end: LoopEnd): nat {
    if end.Cancelled? then calls else Spent(calls)
  }

  /** RetriesTotal grows by the batch length at each retry. */
  function RetriesCounted(retries: nat, len: nat): nat {
    if retries == 0 then 0 else RetriesCounted(retries - 1, len) + len
  }

  lemma {:induction false} RetriesCountedIs(retries: nat, len: nat)
    ensures RetriesCounted(retries, len) == retries * len
  {
    if retries > 0 { RetriesCountedIs(retries - 1, len); }
  }

  /** Every call after the first counts the batch as retried, and a cancelled backoff counts it once more. */
  lemma RetriesOfLoop(calls: nat, end: LoopEnd, len: nat)
    requires calls > 0
    ensures RetriesCounted(Backoffs(calls, end), len) == (if end.Cancelled? then calls else calls - 1) * len
  {
    RetriesCountedIs(Backoffs(calls, end), len);
  }

  // ----- the steps a flush amounts to -----

  function Retry(w: nat, attempt: nat): seq<P.Label> {
    if attempt == 0 then [] else [P.Resume(w)]
  }

  function FailedCall(env: FlushEnv, w: nat, attempt: nat): P.Label {
    P.CopyFail(w, env.copy(attempt).Error(), env.copy(attempt).Landed())
  }

  function FailedAttempts(env: FlushEnv, w: nat, n: nat): seq<P.Label> {
    if n == 0 then [] else FailedAttempts(env, w, n - 1) + Retry(w, n - 1) + [FailedCall(env, w, n - 1)]
  }

  function RetryLabels(env: FlushEnv, w: nat, calls: nat, end: LoopEnd): seq<P.Label>
    requires calls > 0
  {
    match end
    case Succeeded => FailedAttempts(env, w, calls - 1) + Retry(w, calls - 1) + [P.CopyOk(w)]
    case Cancelled => FailedAttempts(env, w, calls) + [P.Cancel] + [P.CancelWait(w)]
    case Exhausted(_) => FailedAttempts(env, w, calls)
  }

  function AppendLabel(env: FlushEnv, w: nat, i: nat): P.Label {
    if env.append(i) == AppendFault.NoFault then P.RequeueOk(w, env.appendAt(i)) else P.RequeueFail(w)
  }

  function RequeueLabels(env: FlushEnv, w: nat, n: nat): seq<P.Label> {
    if n == 0 then [] else RequeueLabels(env, w, n - 1) + [AppendLabel(env, w, n - 1)]
  }

  function WriteLabel(env: FlushEnv, w: nat, i: nat): P.Label {
    if env.put(i) == WriteFault.NoFault then P.BuryOk(w, env.date(i)) else P.BuryFail(w, env.put(i) == PutFails)
  }

  function BuryLabels(env: FlushEnv, w: nat, n: nat): seq<P.Label> {
    if n == 0 then [] else BuryLabels(env, w, n - 1) + [WriteLabel(env, w, n - 1)]
  }

  ghost function GiveUpLabels(hasWal: bool, env: FlushEnv, w: nat, len: nat, err: FlushError): seq<P.Label> {
    if !Retried(hasWal, err) then BuryLabels(env, w, len)
    else if AllAppended(env, len) then RequeueLabels(env, w, len)
    else RequeueLabels(env, w, Tried(env, len)) + BuryLabels(env, w, len)
  }

  ghost function FlushLabels(hasWal: bool, env: FlushEnv, w: nat, len: nat, calls: nat, end: LoopEnd): seq<P.Label>
    requires calls > 0
  {
    RetryLabels(env, w, calls, end) + (if end.Exhausted? then GiveUpLabels(hasWal, env, w, len, end.err) else [])
  }

  /** Steps of worker `w` alone, but for the cancellation that a backoff saw. */
  ghost predicate OwnSteps(ls: seq<P.Label>, w: nat) {
    forall l :: l in ls ==> l.Actor() == Some(w) || l == P.Cancel
  }

  lemma OwnJoin(a: seq<P.Label>, b: seq<P.Label>, w: nat)
    requires OwnSteps(a, w) && OwnSteps(b, w)
    ensures OwnSteps(a + b, w)
  {}

  lemma {:induction false} AttemptsAreOwn(env: FlushEnv, w: nat, n: nat)
    ensures OwnSteps(FailedAttempts(env, w, n), w)
  {
    if n > 0 {
      AttemptsAreOwn(env, w, n - 1);
      OwnJoin(FailedAttempts(env, w, n - 1), Retry(w, n - 1), w);
      OwnJoin(FailedAttempts(env, w, n - 1) + Retry(w, n - 1), [FailedCall(env, w, n - 1)], w);
    }
  }

  lemma RetryIsOwn(env: FlushEnv, w: nat, calls: nat, end: LoopEnd)
    requires calls > 0
    ensures OwnSteps(RetryLabels(env, w, calls, end), w)
  {
    match end
    case Succeeded =>
      AttemptsAreOwn(env, w, calls - 1);
      OwnJoin(FailedAttempts(env, w, calls - 1), Retry(w, calls - 1), w);
      OwnJoin(FailedAttempts(env, w, calls - 1) + Retry(w, calls - 1), [P.CopyOk(w)], w);
    case Cancelled =>
      AttemptsAreOwn(env, w, calls);
      OwnJoin(FailedAttempts(env, w, calls), [P.Cancel], w);
      OwnJoin(FailedAttempts(env, w, calls) + [P.Cancel], [P.CancelWait(w)], w);
    case Exhausted(_) => AttemptsAreOwn(env, w, calls);
  }

  /** The i-th append fails in the run exactly where it failed in the world, and likewise each write. */
  lemma {:induction false} RequeueLabelAt(env: FlushEnv, w: nat, n: nat, i: nat)
    requires i < n
    ensures |RequeueLabels(env, w, n)| == n && RequeueLabels(env, w, n)[i] == AppendLabel(env, w, i)
    ensures RequeueLabels(env, w, n)[i].RequeueFail? <==> env.append(i) != AppendFault.NoFault
  {
    if n == 1 {
      assert RequeueLabels(env, w, 0) == [];
    } else {
      RequeueLabelAt(env, w, n - 1, if i < n - 1 then i else 0);
    }
  }

  lemma {:induction false} BuryLabelAt(env: FlushEnv, w: nat, n: nat, i: nat)
    requires i < n
    ensures |BuryLabels(env, w, n)| == n && BuryLabels(env, w, n)[i] == WriteLabel(env, w, i)
    ensures BuryLabels(env, w, n)[i].BuryFail? <==> env.put(i) != WriteFault.NoFault
  {
    if n == 1 {
      assert BuryLabels(env, w, 0) == [];
    } else {
      BuryLabelAt(env, w, n - 1, if i < n - 1 then i else 0);
    }
  }

  lemma RequeueIsOwn(env: FlushEnv, w: nat, n: nat)
    ensures OwnSteps(RequeueLabels(env, w, n), w)
  {
    forall l | l in RequeueLabels(env, w, n)
      ensures l.Actor() == Some(w) || l == P.Cancel
    {
      if n > 0 { RequeueLabelAt(env, w, n, 0); }
      var i :| 0 <= i < |RequeueLabels(env, w, n)| && RequeueLabels(env, w, n)[i] == l;
      RequeueLabelAt(env, w, n, i);
    }
  }

  lemma BuryIsOwn(env: FlushEnv, w: nat, n: nat)
    ensures OwnSteps(BuryLabels(env, w, n), w)
  {
    forall l | l in BuryLabels(env, w, n)
      ensures l.Actor() == Some(w) || l == P.Cancel
    {
      if n > 0 { BuryLabelAt(env, w, n, 0); }
      var i :| 0 <= i < |BuryLabels(env, w, n)| && BuryLabels(env, w, n)[i] == l;
      BuryLabelAt(env, w, n, i);
    }
  }

  /** A flush is this worker's own steps. */
  lemma FlushIsOwn(hasWal: bool, env: FlushEnv, w: nat, len: nat, calls: nat, end: LoopEnd)
    requires calls > 0
    ensures OwnSteps(FlushLabels(hasWal, env, w, len, calls, end), w)
  {
    RetryIsOwn(env, w, calls, end);
    RequeueIsOwn(env, w, len);
    RequeueIsOwn(env, w, Tried(env, len));
    BuryIsOwn(env, w, len);
    OwnJoin(RequeueLabels(env, w, Tried(env, len)), BuryLabels(env, w, len), w);
    if end.Exhausted? { OwnJoin(RetryLabels(env, w, calls, end), GiveUpLabels(hasWal, env, w, len, end.err), w); }
  }

  // ----- writing to the sink, step by step -----

  function Sinking(batch: seq<Message>, i: nat, err: FlushError): P.Worker {
    if i == |batch| then P.Idle else P.Burying(batch, i, err)
  }

  /** The point after `n` writes. */
  ghost predicate Buried(p: Point, w: nat, batch: seq<Message>, err: FlushError, env: FlushEnv, n: nat, q: Point)
    requires n <= |batch| && w < |p.state.workers|
  {
    var v := SinkFilled(env, batch, n, SinkView(p.state.bucket, p.state.sinkSeq));
    && q.state == p.state.(workers := p.state.workers[w := Sinking(batch, n, err)], bucket := v.objects,
                           sinkSeq := v.seq_)
    && q.counts == p.counts.(deadLettered := p.counts.deadLettered + Written(env, n))
  }

  lemma BuryStep(cfg: P.Setup, p: Point, w: nat, batch: seq<Message>, i: nat, err: FlushError,
                 date: string, fault: WriteFault) returns (l: P.Label, q: Point)
    requires i < |batch| && w < |p.state.workers| && p.state.workers[w] == P.Burying(batch, i, err)
    ensures l == if fault == WriteFault.NoFault then P.BuryOk(w, date) else P.BuryFail(w, fault == PutFails)
    ensures P.Enabled(cfg, p.state, l) && q == Point(P.Next(cfg, p.state, l), Count(cfg, p.state, l, p.counts))
    ensures var v := WriteOne(SinkView(p.state.bucket, p.state.sinkSeq), batch[i], date, fault);
            q.state == p.state.(workers := p.state.workers[w := Sinking(batch, i + 1, err)], bucket := v.objects,
                                sinkSeq := v.seq_)
    ensures q.counts == p.counts.(
              deadLettered := p.counts.deadLettered + (if fault == WriteFault.NoFault then 1 else 0))
  {
    l := if fault == WriteFault.NoFault then P.BuryOk(w, date) else P.BuryFail(w, fault == PutFails);
    q := Point(P.Next(cfg, p.state, l), Count(cfg, p.state, l, p.counts));
  }

  lemma {:induction false} BuryRun(cfg: P.Setup, p: Point, w: nat, batch: seq<Message>, err: FlushError, env: FlushEnv,
                                   n: nat)
    returns (q: Point)
    requires n <= |batch| && batch != [] && w < |p.state.workers| && p.state.workers[w] == P.Burying(batch, 0, err)
    ensures Reaches(cfg, p, BuryLabels(env, w, n), q) && Buried(p, w, batch, err, env, n, q)
  {
    if n == 0 {
      assert p.state.workers[w := p.state.workers[w]] == p.state.workers;
      ReachesItself(cfg, p);
      q := p;
    } else {
      var mid := BuryRun(cfg, p, w, batch, err, env, n - 1);
      var l;
      l, q := BuryStep(cfg, mid, w, batch, n - 1, err, env.date(n - 1), env.put(n - 1));
      Advance(cfg, p, BuryLabels(env, w, n - 1), mid, l, q);
      Rewrite(p.state.workers, w, Sinking(batch, n - 1, err), Sinking(batch, n, err));
    }
  }

  // ----- writing back to the WAL, step by step -----

  function Refilling(batch: seq<Message>, i: nat, err: FlushError): P.Worker {
    if i == |batch| then P.Idle else P.Requeueing(batch, i, err)
  }

  /** The point after `n` appends, of which the first `k` succeeded. */
  ghost predicate Refill(p: Point, w: nat, batch: seq<Message>, err: FlushError, env: FlushEnv, k: nat, n: nat,
                         q: Point)
    requires k <= n <= |batch| && w < |p.state.workers|
  {
    var v := LogRefilled(env, batch, n, LogView(p.state.wal, p.state.walSeq));
    && q.state == p.state.(workers := p.state.workers[w :=
                             if k == n then Refilling(batch, n, err) else P.Burying(batch, 0, err)],
                           wal := v.log, walSeq := v.seq_)
    && q.counts == p.counts.(appended := p.counts.appended + k, requeued := p.counts.requeued + k,
                             displaced := q.counts.displaced)
  }

  lemma RequeueStep(cfg: P.Setup, p: Point, w: nat, batch: seq<Message>, i: nat, err: FlushError,
                    at: int64, fault: AppendFault) returns (l: P.Label, q: Point)
    requires i < |batch| && w < |p.state.workers| && p.state.workers[w] == P.Requeueing(batch, i, err)
    ensures l == if fault == AppendFault.NoFault then P.RequeueOk(w, at) else P.RequeueFail(w)
    ensures P.Enabled(cfg, p.state, l) && q == Point(P.Next(cfg, p.state, l), Count(cfg, p.state, l, p.counts))
    ensures var v := AppendOne(LogView(p.state.wal, p.state.walSeq), batch[i], at, fault);
            q.state == p.state.(workers := p.state.workers[w :=
                                  if fault == AppendFault.NoFault then Refilling(batch, i + 1, err)
                                                                else P.Burying(batch, 0, err)],
                                wal := v.log, walSeq := v.seq_)
    ensures var k := if fault == AppendFault.NoFault then 1 else 0;
            q.counts == p.counts.(appended := p.counts.appended + k, requeued := p.counts.requeued + k,
                                  displaced := q.counts.displaced)
  {
    l := if fault == AppendFault.NoFault then P.RequeueOk(w, at) else P.RequeueFail(w);
    q := Point(P.Next(cfg, p.state, l), Count(cfg, p.state, l, p.counts));
  }

  /** The appends that succeed. */
  lemma {:induction false} RequeueRun(cfg: P.Setup, p: Point, w: nat, batch: seq<Message>, err: FlushError,
                                      env: FlushEnv, n: nat)
    returns (q: Point)
    requires n <= |batch| && batch != [] && w < |p.state.workers| && p.state.workers[w] == P.Requeueing(batch, 0, err)
    requires AllAppended(env, n)
    ensures Reaches(cfg, p, RequeueLabels(env, w, n), q) && Refill(p, w, batch, err, env, n, n, q)
  {
    if n == 0 {
      assert p.state.workers[w := p.state.workers[w]] == p.state.workers;
      ReachesItself(cfg, p);
      q := p;
    } else {
      var mid := RequeueRun(cfg, p, w, batch, err, env, n - 1);
      var l;
      l, q := RequeueStep(cfg, mid, w, batch, n - 1, err, env.appendAt(n - 1), env.append(n - 1));
      Advance(cfg, p, RequeueLabels(env, w, n - 1), mid, l, q);
      Rewrite(p.state.workers, w, Refilling(batch, n - 1, err), Refilling(batch, n, err));
    }
  }

  /** The append that fails, after `k` that did not. */
  lemma RequeueBroken(cfg: P.Setup, p: Point, w: nat, batch: seq<Message>, err: FlushError, env: FlushEnv, k: nat)
    returns (q: Point)
    requires k < |batch| && w < |p.state.workers| && p.state.workers[w] == P.Requeueing(batch, 0, err)
    requires AllAppended(env, k) && env.append(k) != AppendFault.NoFault
    ensures Reaches(cfg, p, RequeueLabels(env, w, k + 1), q) && Refill(p, w, batch, err, env, k, k + 1, q)
  {
    var mid := RequeueRun(cfg, p, w, batch, err, env, k);
    var l;
    l, q := RequeueStep(cfg, mid, w, batch, k, err, env.appendAt(k), env.append(k));
    Advance(cfg, p, RequeueLabels(env, w, k), mid, l, q);
    Rewrite(p.state.workers, w, Refilling(batch, k, err), P.Burying(batch, 0, err));
  }

  // ----- the retry loop, step by step -----

  /** The worker's place once `n` calls have failed. */
  function LoopHead(cfg: P.Setup, env: FlushEnv, batch: seq<Message>, n: nat): P.Worker {
    if n == 0 then P.Copying(batch, 0) else P.AfterFailure(cfg, batch, n - 1, env.copy(n - 1).Error())
  }

  /** The point after `n` calls that failed. */
  ghost predicate Tries(cfg: P.Setup, p: Point, w: nat, batch: seq<Message>, env: FlushEnv, n: nat, x: P.Worker,
                        retries: nat, q: Point)
    requires w < |p.state.workers|
  {
    && q.state == p.state.(workers := p.state.workers[w := x], table := TableAfter(env, n, batch, p.state.table))
    && q.counts == p.counts.(flushErrors := p.counts.flushErrors + n,
                             retries := p.counts.retries + RetriesCounted(retries, |batch|),
                             ambiguousRows := q.counts.ambiguousRows)
  }

  lemma ResumeStep(cfg: P.Setup, p: Point, w: nat, batch: seq<Message>, attempt: nat, err: FlushError)
    returns (q: Point)
    requires w < |p.state.workers| && p.state.workers[w] == P.Waiting(batch, attempt, err)
    ensures P.Enabled(cfg, p.state, P.Resume(w))
    ensures q == Point(P.Next(cfg, p.state, P.Resume(w)), Count(cfg, p.state, P.Resume(w), p.counts))
    ensures q.state == p.state.(workers := p.state.workers[w := P.Copying(batch, attempt)])
    ensures q.counts == p.counts.(retries := p.counts.retries + |batch|)
  {
    q := Point(P.Next(cfg, p.state, P.Resume(w)), Count(cfg, p.state, P.Resume(w), p.counts));
  }

  lemma CopyFailStep(cfg: P.Setup, p: Point, w: nat, batch: seq<Message>, attempt: nat, err: FlushError, landed: bool)
    returns (q: Point)
    requires w < |p.state.workers| && p.state.workers[w] == P.Copying(batch, attempt)
    ensures var l := P.CopyFail(w, err, landed);
            P.Enabled(cfg, p.state, l) && q == Point(P.Next(cfg, p.state, l), Count(cfg, p.state, l, p.counts))
    ensures q.state == p.state.(workers := p.state.workers[w := P.AfterFailure(cfg, batch, attempt, err)],
                                table := if landed then InsertBatch(p.state.table, batch) else p.state.table)
    ensures q.counts == p.counts.(flushErrors := p.counts.flushErrors + 1, ambiguousRows := q.counts.ambiguousRows)
  {
    var l := P.CopyFail(w, err, landed);
    q := Point(P.Next(cfg, p.state, l), Count(cfg, p.state, l, p.counts));
  }

  lemma CopyOkStep(cfg: P.Setup, p: Point, w: nat, batch: seq<Message>, attempt: nat) returns (q: Point)
    requires w < |p.state.workers| && p.state.workers[w] == P.Copying(batch, attempt)
    ensures P.Enabled(cfg, p.state, P.CopyOk(w))
    ensures q == Point(P.Next(cfg, p.state, P.CopyOk(w)), Count(cfg, p.state, P.CopyOk(w), p.counts))
    ensures q.state == p.state.(workers := p.state.workers[w := P.Idle], table := InsertBatch(p.state.table, batch))
    ensures q.counts == p.counts.(flushed := p.counts.flushed + 1,
                                  inserted := p.counts.inserted + RowsAdded(p.state.table, batch))
  {
    q := Point(P.Next(cfg, p.state, P.CopyOk(w)), Count(cfg, p.state, P.CopyOk(w), p.counts));
  }

  /** The select of the backoff sees the cancelled context. */
  lemma CancelSteps(cfg: P.Setup, p: Point, w: nat, batch: seq<Message>, attempt: nat, err: FlushError)
    returns (mid: Point, q: Point)
    requires w < |p.state.workers| && p.state.workers[w] == P.Waiting(batch, attempt, err)
    ensures P.Enabled(cfg, p.state, P.Cancel)
    ensures mid == Point(P.Next(cfg, p.state, P.Cancel), Count(cfg, p.state, P.Cancel, p.counts))
    ensures P.Enabled(cfg, mid.state, P.CancelWait(w))
    ensures q == Point(P.Next(cfg, mid.state, P.CancelWait(w)), Count(cfg, mid.state, P.CancelWait(w), mid.counts))
    ensures q.state == p.state.(workers := p.state.workers[w := P.Idle], cancelled := true)
    ensures q.counts == p.counts.(retries := p.counts.retries + |batch|)
  {
    mid := Point(P.Next(cfg, p.state, P.Cancel), Count(cfg, p.state, P.Cancel, p.counts));
    q := Point(P.Next(cfg, mid.state, P.CancelWait(w)), Count(cfg, mid.state, P.CancelWait(w), mid.counts));
  }

  /** From `n` failed calls to the next one: the backoff, if there was a call before. */
  lemma RetryStep(cfg: P.Setup, p: Point, ls: seq<P.Label>, w: nat, batch: seq<Message>, env: FlushEnv, n: nat,
                  mid: Point)
    returns (q: Point)
    requires w < |p.state.workers| && n <= cfg.maxRetries
    requires Reaches(cfg, p, ls, mid) && Tries(cfg, p, w, batch, env, n, LoopHead(cfg, env, batch, n), Spent(n), mid)
    ensures Reaches(cfg, p, ls + Retry(w, n), q) && Tries(cfg, p, w, batch, env, n, P.Copying(batch, n), n, q)
  {
    if n == 0 {
      assert ls + [] == ls;
      q := mid;
    } else {
      q := ResumeStep(cfg, mid, w, batch, n, env.copy(n - 1).Error());
      Advance(cfg, p, ls, mid, P.Resume(w), q);
      Rewrite(p.state.workers, w, LoopHead(cfg, env, batch, n), P.Copying(batch, n));
    }
  }

  lemma {:induction false} FailedRun(cfg: P.Setup, p: Point, w: nat, batch: seq<Message>, env: FlushEnv, n: nat)
    returns (q: Point)
    requires w < |p.state.workers| && p.state.workers[w] == P.Copying(batch, 0) && n <= cfg.maxRetries + 1
    ensures Reaches(cfg, p, FailedAttempts(env, w, n), q)
    ensures Tries(cfg, p, w, batch, env, n, LoopHead(cfg, env, batch, n), Spent(n), q)
  {
    if n == 0 {
      assert p.state.workers[w := p.state.workers[w]] == p.state.workers;
      ReachesItself(cfg, p);
      q := p;
    } else {
      var a := FailedRun(cfg, p, w, batch, env, n - 1);
      var b := RetryStep(cfg, p, FailedAttempts(env, w, n - 1), w, batch, env, n - 1, a);
      q := CopyFailStep(cfg, b, w, batch, n - 1, env.copy(n - 1).Error(), env.copy(n - 1).Landed());
      Advance(cfg, p, FailedAttempts(env, w, n - 1) + Retry(w, n - 1), b, FailedCall(env, w, n - 1), q);
      Rewrite(p.state.workers, w, P.Copying(batch, n - 1), LoopHead(cfg, env, batch, n));
      TableNext(env, n - 1, batch, p.state.table);
    }
  }

  // ----- a whole flush -----

  /** What is left of the batch's worker when the loop ends. */
  function LoopExit(cfg: P.Setup, batch: seq<Message>, end: LoopEnd): P.Worker {
    if end.Exhausted? then P.AfterFailure(cfg, batch, cfg.maxRetries, end.err) else P.Idle
  }

  /** The rows that a successful last call adds: none if an earlier call had landed. */
  function NewRows(env: FlushEnv, batch: seq<Message>, calls: nat, end: LoopEnd, t: Table): nat
    requires calls > 0
  {
    if end.Succeeded? then RowsAdded(TableAfter(env, calls - 1, batch, t), batch) else 0
  }

  /** The point after the retry loop. */
  ghost predicate Looped(cfg: P.Setup, p: Point, w: nat, batch: seq<Message>, env: FlushEnv, calls: nat, end: LoopEnd,
                         q: Point)
    requires w < |p.state.workers| && calls > 0
  {
    && q.state == p.state.(workers := p.state.workers[w := LoopExit(cfg, batch, end)],
                           table := TableAfter(env, calls, batch, p.state.table),
                           cancelled := p.state.cancelled || end.Cancelled?)
    && q.counts == p.counts.(
         flushed := p.counts.flushed + OneIf(end.Succeeded?),
         inserted := p.counts.inserted + NewRows(env, batch, calls, end, p.state.table),
         flushErrors := p.counts.flushErrors + (if end.Succeeded? then calls - 1 else calls),
         retries := p.counts.retries + RetriesCounted(Backoffs(calls, end), |batch|),
         ambiguousRows := q.counts.ambiguousRows)
  }

  lemma RetryRun(cfg: P.Setup, p: Point, w: nat, batch: seq<Message>, env: FlushEnv, calls: nat, end: LoopEnd)
    returns (q: Point)
    requires w < |p.state.workers| && p.state.workers[w] == P.Copying(batch, 0)
             && LoopEnds(env, cfg.maxRetries, calls, end)
    ensures Reaches(cfg, p, RetryLabels(env, w, calls, end), q) && Looped(cfg, p, w, batch, env, calls, end, q)
  {
    match end
    case Succeeded => q := SucceededRun(cfg, p, w, batch, env, calls);
    case Cancelled => q := CancelledRun(cfg, p, w, batch, env, calls);
    case Exhausted(err) => q := FailedRun(cfg, p, w, batch, env, calls);
  }

  lemma SucceededRun(cfg: P.Setup, p: Point, w: nat, batch: seq<Message>, env: FlushEnv, calls: nat) returns (q: Point)
    requires w < |p.state.workers| && p.state.workers[w] == P.Copying(batch, 0)
             && LoopEnds(env, cfg.maxRetries, calls, Succeeded)
    ensures Reaches(cfg, p, RetryLabels(env, w, calls, Succeeded), q)
            && Looped(cfg, p, w, batch, env, calls, Succeeded, q)
  {
    var n := calls - 1;
    var a := FailedRun(cfg, p, w, batch, env, n);
    var b := RetryStep(cfg, p, FailedAttempts(env, w, n), w, batch, env, n, a);
    q := CopyOkStep(cfg, b, w, batch, n);
    Advance(cfg, p, FailedAttempts(env, w, n) + Retry(w, n), b, P.CopyOk(w), q);
    Rewrite(p.state.workers, w, P.Copying(batch, n), P.Idle);
    TableNext(env, n, batch, p.state.table);
  }

  lemma CancelledRun(cfg: P.Setup, p: Point, w: nat, batch: seq<Message>, env: FlushEnv, calls: nat) returns (q: Point)
    requires w < |p.state.workers| && p.state.workers[w] == P.Copying(batch, 0)
             && LoopEnds(env, cfg.maxRetries, calls, Cancelled)
    ensures Reaches(cfg, p, RetryLabels(env, w, calls, Cancelled), q)
            && Looped(cfg, p, w, batch, env, calls, Cancelled, q)
  {
    var a := FailedRun(cfg, p, w, batch, env, calls);
    var b;
    b, q := CancelSteps(cfg, a, w, batch, calls, env.copy(calls - 1).Error());
    Advance(cfg, p, FailedAttempts(env, w, calls), a, P.Cancel, b);
    Advance(cfg, p, FailedAttempts(env, w, calls) + [P.Cancel], b, P.CancelWait(w), q);
    Rewrite(p.state.workers, w, LoopHead(cfg, env, batch, calls), P.Idle);
  }

  /** The point after a batch was given up: the appends made, and the writes to the sink if any. */
  ghost predicate GivenUp(hasWal: bool, p: Point, w: nat, batch: seq<Message>, err: FlushError, env: FlushEnv, q: Point)
    requires w < |p.state.workers|
  {
    var log, sink := LogView(p.state.wal, p.state.walSeq), SinkView(p.state.bucket, p.state.sinkSeq);
    var v := if Retried(hasWal, err) then LogRefilled(env, batch, Tried(env, |batch|), log) else log;
    var k := if Retried(hasWal, err) then Kept(env, |batch|) else 0;
    var dead := !Retried(hasWal, err) || !AllAppended(env, |batch|);
    var u := if dead then SinkFilled(env, batch, |batch|, sink) else sink;
    && q.state == p.state.(workers := p.state.workers[w := P.Idle],
                           wal := v.log, walSeq := v.seq_, bucket := u.objects, sinkSeq := u.seq_)
    && q.counts == p.counts.(appended := p.counts.appended + k, requeued := p.counts.requeued + k,
                             displaced := q.counts.displaced,
                             deadLettered := p.counts.deadLettered + (if dead then Written(env, |batch|) else 0))
  }

  lemma GiveUpRun(cfg: P.Setup, p: Point, w: nat, batch: seq<Message>, err: FlushError, env: FlushEnv)
    returns (q: Point)
    requires batch != [] && w < |p.state.workers|
             && p.state.workers[w] == P.AfterFailure(cfg, batch, cfg.maxRetries, err)
    ensures Reaches(cfg, p, GiveUpLabels(cfg.hasWal, env, w, |batch|, err), q)
    ensures GivenUp(cfg.hasWal, p, w, batch, err, env, q)
  {
    if !Retried(cfg.hasWal, err) {
      q := BuryRun(cfg, p, w, batch, err, env, |batch|);
    } else if AllAppended(env, |batch|) {
      KeptAll(env, |batch|);
      q := RequeueRun(cfg, p, w, batch, err, env, |batch|);
    } else {
      q := GiveUpBoth(cfg, p, w, batch, err, env);
    }
  }

  lemma GiveUpBoth(cfg: P.Setup, p: Point, w: nat, batch: seq<Message>, err: FlushError, env: FlushEnv)
    returns (q: Point)
    requires w < |p.state.workers| && p.state.workers[w] == P.Requeueing(batch, 0, err)
    requires Retried(cfg.hasWal, err) && !AllAppended(env, |batch|)
    ensures Reaches(cfg, p, RequeueLabels(env, w, Tried(env, |batch|)) + BuryLabels(env, w, |batch|), q)
    ensures GivenUp(cfg.hasWal, p, w, batch, err, env, q)
  {
    KeptAll(env, |batch|);
    var k := Kept(env, |batch|);
    var mid := RequeueBroken(cfg, p, w, batch, err, env, k);
    q := BuryRun(cfg, mid, w, batch, err, env, |batch|);
    ReachesJoin(cfg, p, RequeueLabels(env, w, k + 1), mid, BuryLabels(env, w, |batch|), q);
    Rewrite(p.state.workers, w, P.Burying(batch, 0, err), P.Idle);
  }

  /** A flush is a run of the protocol, by this worker alone, that ends with the worker idle. */
  lemma FlushRun(cfg: P.Setup, p: Point, w: nat, batch: seq<Message>, env: FlushEnv, calls: nat, end: LoopEnd)
    returns (mid: Point, q: Point)
    requires batch != [] && w < |p.state.workers| && p.state.workers[w] == P.Copying(batch, 0)
    requires LoopEnds(env, cfg.maxRetries, calls, end)
    ensures Reaches(cfg, p, FlushLabels(cfg.hasWal, env, w, |batch|, calls, end), q)
    ensures Looped(cfg, p, w, batch, env, calls, end, mid)
    ensures if end.Exhausted? then GivenUp(cfg.hasWal, mid, w, batch, end.err, env, q) else q == mid
    ensures q.state.workers == p.state.workers[w := P.Idle] && IntakeKept(p, q)
  {
    mid := RetryRun(cfg, p, w, batch, env, calls, end);
    var ls := RetryLabels(env, w, calls, end);
    if end.Exhausted? {
      q := GiveUpRun(cfg, mid, w, batch, end.err, env);
      ReachesJoin(cfg, p, ls, mid, GiveUpLabels(cfg.hasWal, env, w, |batch|, end.err), q);
      Rewrite(p.state.workers, w, LoopExit(cfg, batch, end), P.Idle);
    } else {
      assert ls + [] == ls;
      q := mid;
    }
  }
}
