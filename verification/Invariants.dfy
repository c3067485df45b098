/** What every reachable state of the pipeline satisfies. */
module Invariants {
  import opened Buffer
  import opened ByteOrder
  import opened Conservation
  import opened DeadLetter
  import opened Messages
  import opened Numerals
  import opened Pipeline
  import opened Postgres
  import opened Wal
  import opened Wrappers

  // ----- the shape of a worker -----

  ghost predicate WorkerOk(cfg: Setup, x: Worker) {
    match x
    case Idle => true
    case Stopped => true
    case TopUp(batch, room) => cfg.hasWal && room > 0 && |batch| + room <= cfg.elevatedBatchSize
    case Draining(batch, read) =>
      cfg.hasWal && read != [] && DistinctKeys(read) && |batch| + |read| <= cfg.elevatedBatchSize
    case Copying(batch, attempt) => 0 < |batch| <= cfg.elevatedBatchSize && attempt <= cfg.maxRetries
    case Waiting(batch, attempt, _) => 0 < |batch| <= cfg.elevatedBatchSize && 0 < attempt <= cfg.maxRetries
    case Requeueing(batch, next, err) =>
      cfg.hasWal && !RowFault(err) && next < |batch| <= cfg.elevatedBatchSize
    case Burying(batch, next, _) => next < |batch| <= cfg.elevatedBatchSize
  }

  /** Batch bounds, the attempt bound, and the ring within both caps. */
  ghost predicate Shaped(cfg: Setup, s: State) {
    && cfg.Valid()
    && (forall w :: 0 <= w < |s.workers| ==> WorkerOk(cfg, s.workers[w]))
    && (s.intake.Spilling? ==> cfg.hasWal)
    && |s.ring| <= cfg.limits.maxMessages && TotalSize(s.ring) <= cfg.limits.maxBytes
  }

  lemma {:induction false} ReadEntriesAre(log: Log, ks: seq<string>)
    requires forall k :: k in ks ==> k in log
    ensures forall i :: 0 <= i < |ks| ==> ReadEntries(log, ks)[i] == Entry(ks[i], log[ks[i]])
  {
    if ks != [] {
      var rest := ReadEntries(log, ks[1..]);
      ReadEntriesAre(log, ks[1..]);
      assert forall i :: 0 < i < |ks| ==> ReadEntries(log, ks)[i] == rest[i - 1];
    }
  }

  lemma AscendingDistinct(ks: seq<string>)
    requires Ascending(ks)
    ensures forall i, j :: 0 <= i < j < |ks| ==> ks[i] != ks[j]
  {
    forall i, j | 0 <= i < j < |ks|
      ensures ks[i] != ks[j]
    {
      LessIrreflexive(ks[i]);
    }
  }

  lemma ReadIsDistinct(log: Log, limit: nat)
    ensures DistinctKeys(ReadEntries(log, OldestKeys(log, limit)))
    ensures forall e :: e in ReadEntries(log, OldestKeys(log, limit)) ==> Intact(log, e)
  {
    DistinctFrom(log, OldestKeys(log, limit));
  }

  lemma DistinctFrom(log: Log, ks: seq<string>)
    requires Ascending(ks) && forall k :: k in ks ==> k in log
    ensures DistinctKeys(ReadEntries(log, ks))
    ensures forall e :: e in ReadEntries(log, ks) ==> Intact(log, e)
  {
    AscendingDistinct(ks);
    ReadEntriesAre(log, ks);
  }

  lemma WorkerStaysOk(cfg: Setup, s: State, l: Label)
    requires Shaped(cfg, s) && Enabled(cfg, s, l) && l.Actor().Some?
    ensures WorkerOk(cfg, WorkerNext(cfg, s, l))
  {
    var x := s.workers[l.Actor().value];
    assert WorkerOk(cfg, x);
    if l.Pull? || l.DrainRead? || l.DrainReadFail? || l.DrainDelete? || l.DrainDeleteFail? {
      PullStaysOk(cfg, s, l);
    } else {
      FlushStaysOk(cfg, s, l, x);
    }
  }

  lemma PullStaysOk(cfg: Setup, s: State, l: Label)
    requires cfg.Valid() && Enabled(cfg, s, l) && l.Actor().Some? && WorkerOk(cfg, s.workers[l.Actor().value])
    requires l.Pull? || l.DrainRead? || l.DrainReadFail? || l.DrainDelete? || l.DrainDeleteFail?
    ensures WorkerOk(cfg, WorkerNext(cfg, s, l))
  {
    if l.DrainRead? { ReadIsDistinct(s.wal, s.workers[l.w].room); }
  }

  lemma FlushStaysOk(cfg: Setup, s: State, l: Label, x: Worker)
    requires Enabled(cfg, s, l) && l.Actor().Some? && x == s.workers[l.Actor().value] && WorkerOk(cfg, x)
    requires !l.Pull? && !l.DrainRead? && !l.DrainReadFail? && !l.DrainDelete? && !l.DrainDeleteFail?
    ensures WorkerOk(cfg, WorkerNext(cfg, s, l))
  {}

  lemma RingStaysBounded(cfg: Setup, s: State, l: Label)
    requires |s.ring| <= cfg.limits.maxMessages && TotalSize(s.ring) <= cfg.limits.maxBytes
    ensures var q := RingNext(cfg, s, l);
            |q| <= cfg.limits.maxMessages && TotalSize(q) <= cfg.limits.maxBytes
  {
    if l.Pull? {
      TotalSizeSplit(s.ring, TakeCount(Want(cfg, l.elevated), |s.ring|));
    } else if l.Crash? {
      assert TotalSize([]) == 0;
    }
  }

  lemma StepKeepsShape(cfg: Setup, s: State, l: Label)
    requires Shaped(cfg, s) && Enabled(cfg, s, l)
    ensures Shaped(cfg, Next(cfg, s, l))
  {
    RingStaysBounded(cfg, s, l);
    if l.Actor().Some? { WorkerStaysOk(cfg, s, l); }
  }

  /** Over every run: batches are never larger than the elevated size, an attempt number never
      exceeds MaxRetries, a requeue is never under way for a poison error or without a WAL, and
      the ring keeps both caps. */
  lemma {:induction false} AlwaysShaped(cfg: Setup, s0: State, ls: seq<Label>)
    requires Init(cfg, s0) && Legal(cfg, s0, ls)
    ensures Shaped(cfg, Exec(cfg, s0, ls))
  {
    if ls != [] {
      AlwaysShaped(cfg, s0, ls[..|ls| - 1]);
      StepKeepsShape(cfg, Exec(cfg, s0, ls[..|ls| - 1]), ls[|ls| - 1]);
    }
  }

  lemma NoWalStep(cfg: Setup, s: State, l: Label)
    requires Shaped(cfg, s) && Enabled(cfg, s, l) && !cfg.hasWal && s.wal == map[]
    ensures WalNext(cfg, s, l) == map[]
  {
    if l.Actor().Some? { assert WorkerOk(cfg, s.workers[l.Actor().value]); }
  }

  /** Without a WAL nothing is ever in it. */
  lemma {:induction false} NoWalNoEntries(cfg: Setup, s0: State, ls: seq<Label>)
    requires Init(cfg, s0) && Legal(cfg, s0, ls) && !cfg.hasWal
    ensures Exec(cfg, s0, ls).wal == map[]
  {
    if ls != [] {
      NoWalNoEntries(cfg, s0, ls[..|ls| - 1]);
      AlwaysShaped(cfg, s0, ls[..|ls| - 1]);
      NoWalStep(cfg, Exec(cfg, s0, ls[..|ls| - 1]), ls[|ls| - 1]);
    }
  }

  lemma ShapedReadsDistinct(cfg: Setup, s: State)
    requires Shaped(cfg, s)
    ensures ReadsDistinct(s)
  {
    forall w | 0 <= w < |s.workers| && s.workers[w].Draining?
      ensures DistinctKeys(s.workers[w].read)
    {
      assert WorkerOk(cfg, s.workers[w]);
    }
  }

  // ----- the drain lock -----

  /** At most one worker is between its two drain transactions: the one that holds walMu. */
  ghost predicate LockHeld(s: State) {
    && (s.walMu.Some? ==> s.walMu.value < |s.workers|)
    && forall w :: 0 <= w < |s.workers| ==> (s.workers[w].Draining? <==> s.walMu == Some(w))
  }

  lemma StepKeepsLock(cfg: Setup, s: State, l: Label)
    requires LockHeld(s) && Enabled(cfg, s, l)
    ensures LockHeld(Next(cfg, s, l))
  {
    if l.Actor().Some? {
      var w := l.Actor().value;
      assert s.workers[w].Draining? <==> s.walMu == Some(w);
    }
  }

  lemma {:induction false} AlwaysLocked(cfg: Setup, s0: State, ls: seq<Label>)
    requires Init(cfg, s0) && Legal(cfg, s0, ls)
    ensures LockHeld(Exec(cfg, s0, ls))
  {
    if ls != [] {
      AlwaysLocked(cfg, s0, ls[..|ls| - 1]);
      StepKeepsLock(cfg, Exec(cfg, s0, ls[..|ls| - 1]), ls[|ls| - 1]);
    }
  }

  // ----- where messages can come from -----

  ghost predicate AllIn(q: seq<Message>, x: iset<Message>) {
    forall m :: m in q ==> m in x
  }

  ghost predicate WorkerIn(y: Worker, x: iset<Message>) {
    match y
    case TopUp(batch, _) => AllIn(batch, x)
    case Draining(batch, read) => AllIn(batch, x) && forall e :: e in read ==> e.msg in x
    case Copying(batch, _) => AllIn(batch, x)
    case Waiting(batch, _, _) => AllIn(batch, x)
    case Requeueing(batch, _, _) => AllIn(batch, x)
    case Burying(batch, _, _) => AllIn(batch, x)
    case _ => true
  }

  ghost predicate LogIn(log: Log, x: iset<Message>) {
    forall k :: k in log ==> log[k] in x
  }

  ghost predicate CrewIn(ws: seq<Worker>, x: iset<Message>) {
    forall w :: 0 <= w < |ws| ==> WorkerIn(ws[w], x)
  }

  ghost predicate IntakeIn(i: Intake, x: iset<Message>) {
    i.Free? || i.msg in x
  }

  /** Every message in flight is one of `x`: in the ring, the WAL, a worker's hands or the subscriber's. */
  ghost predicate InFlightIn(s: State, x: iset<Message>) {
    AllIn(s.ring, x) && LogIn(s.wal, x) && CrewIn(s.workers, x) && IntakeIn(s.intake, x)
  }

  /** A step that brings a message in brings one of `x`. */
  ghost predicate BringsOnly(cfg: Setup, l: Label, x: iset<Message>) {
    l.Arrive? ==> forall m :: Incoming(cfg, l.topic, l.payload, l.now) == Some(m) ==> m in x
  }

  lemma CrewInUpdate(ws: seq<Worker>, i: nat, y: Worker, x: iset<Message>)
    requires CrewIn(ws, x) && i < |ws| && WorkerIn(y, x)
    ensures CrewIn(ws[i := y], x)
  {}

  lemma {:induction false} MessagesOfIn(read: seq<Entry>, x: iset<Message>)
    requires forall e :: e in read ==> e.msg in x
    ensures AllIn(MessagesOf(read), x)
  {
    if read != [] { MessagesOfIn(read[1..], x); }
  }

  lemma WorkerStaysIn(cfg: Setup, s: State, l: Label, x: iset<Message>)
    requires InFlightIn(s, x) && Enabled(cfg, s, l) && l.Actor().Some?
    ensures WorkerIn(WorkerNext(cfg, s, l), x)
  {
    assert WorkerIn(s.workers[l.Actor().value], x);
    match l
    case Pull(_, _) => PullIn(cfg, s, l, x);
    case DrainRead(_) => ReadIn(cfg, s, l, x);
    case DrainDelete(_) => DeleteIn(cfg, s, l, x);
    case _ => BatchKept(cfg, s, l, x);
  }

  lemma PullIn(cfg: Setup, s: State, l: Label, x: iset<Message>)
    requires AllIn(s.ring, x) && Enabled(cfg, s, l) && l.Pull?
    ensures WorkerIn(WorkerNext(cfg, s, l), x)
  {
    AllInDrop(s.ring, TakeCount(Want(cfg, l.elevated), |s.ring|), x);
  }

  lemma ReadIn(cfg: Setup, s: State, l: Label, x: iset<Message>)
    requires LogIn(s.wal, x) && Enabled(cfg, s, l) && l.DrainRead?
    requires WorkerIn(s.workers[l.w], x)
    ensures WorkerIn(WorkerNext(cfg, s, l), x)
  {
    ReadIsDistinct(s.wal, s.workers[l.w].room);
  }

  lemma DeleteIn(cfg: Setup, s: State, l: Label, x: iset<Message>)
    requires Enabled(cfg, s, l) && l.DrainDelete? && WorkerIn(s.workers[l.w], x)
    ensures WorkerIn(WorkerNext(cfg, s, l), x)
  {
    MessagesOfIn(s.workers[l.w].read, x);
  }

  /** The remaining steps hand the same batch on, or drop it. */
  lemma BatchKept(cfg: Setup, s: State, l: Label, x: iset<Message>)
    requires Enabled(cfg, s, l) && l.Actor().Some? && WorkerIn(s.workers[l.Actor().value], x)
    requires !l.Pull? && !l.DrainRead? && !l.DrainDelete?
    ensures WorkerIn(WorkerNext(cfg, s, l), x)
  {
    InIfBatch(s.workers[l.Actor().value], WorkerNext(cfg, s, l), x);
  }

  function BatchOf(x: Worker): seq<Message> {
    if x.Idle? || x.Stopped? then [] else x.batch
  }

  lemma InIfBatch(y: Worker, z: Worker, x: iset<Message>)
    requires WorkerIn(y, x) && !z.Draining? && (BatchOf(z) == [] || BatchOf(z) == BatchOf(y))
    ensures WorkerIn(z, x)
  {}

  lemma WalStaysIn(cfg: Setup, s: State, l: Label, x: iset<Message>)
    requires InFlightIn(s, x) && Enabled(cfg, s, l)
    ensures LogIn(WalNext(cfg, s, l), x)
  {
    if l.RequeueOk? { assert WorkerIn(s.workers[l.w], x); }
  }

  lemma AllInSnoc(q: seq<Message>, m: Message, x: iset<Message>)
    requires AllIn(q, x) && m in x
    ensures AllIn(q + [m], x)
  {}

  lemma AllInDrop(q: seq<Message>, k: nat, x: iset<Message>)
    requires AllIn(q, x) && k <= |q|
    ensures AllIn(q[k..], x) && AllIn(q[..k], x)
  {}

  lemma RingStaysIn(cfg: Setup, s: State, l: Label, x: iset<Message>)
    requires AllIn(s.ring, x) && Enabled(cfg, s, l) && BringsOnly(cfg, l, x)
    ensures AllIn(RingNext(cfg, s, l), x)
  {
    match l
    case Arrive(topic, payload, now) =>
      var m := Incoming(cfg, topic, payload, now);
      if m.Some? { AllInSnoc(s.ring, m.value, x); }
    case Pull(_, elevated) => AllInDrop(s.ring, TakeCount(Want(cfg, elevated), |s.ring|), x);
    case _ =>
  }

  lemma IntakeStaysIn(cfg: Setup, s: State, l: Label, x: iset<Message>)
    requires IntakeIn(s.intake, x) && Enabled(cfg, s, l) && BringsOnly(cfg, l, x)
    ensures IntakeIn(IntakeNext(cfg, s, l), x)
  {
    if l.Arrive? {
      var m := Incoming(cfg, l.topic, l.payload, l.now);
      if m.Some? { assert m == Some(m.value); }
    }
  }

  lemma CrewStaysIn(cfg: Setup, s: State, l: Label, x: iset<Message>)
    requires InFlightIn(s, x) && Enabled(cfg, s, l)
    ensures CrewIn(WorkersNext(cfg, s, l), x)
  {
    if l.Actor().Some? {
      WorkerStaysIn(cfg, s, l, x);
      CrewInUpdate(s.workers, l.Actor().value, WorkerNext(cfg, s, l), x);
    }
  }

  /** No step makes a message up: what is in flight afterwards was before, or has just arrived. */
  lemma StepStaysIn(cfg: Setup, s: State, l: Label, x: iset<Message>)
    requires InFlightIn(s, x) && Enabled(cfg, s, l) && BringsOnly(cfg, l, x)
    ensures InFlightIn(Next(cfg, s, l), x)
  {
    RingStaysIn(cfg, s, l, x);
    IntakeStaysIn(cfg, s, l, x);
    WalStaysIn(cfg, s, l, x);
    CrewStaysIn(cfg, s, l, x);
  }

  // ----- every message carries its own dedup key -----

  ghost function KeyedMessages(): iset<Message> {
    iset m | WellKeyed(m)
  }

  ghost predicate Keyed(s: State) {
    InFlightIn(s, KeyedMessages()) && TableSound(s.table) && BucketSound(s.bucket)
  }

  lemma TableStaysSound(t: Table, ms: seq<Message>)
    requires TableSound(t) && AllIn(ms, KeyedMessages())
    ensures TableSound(InsertBatch(t, ms))
  {
    InsertBatchRows(t, ms);
  }

  lemma BucketStaysSound(b: Bucket, date: string, m: Message, i: uint64)
    requires BucketSound(b) && WellKeyed(m)
    ensures BucketSound(b[ObjectKey(date, m, i) := m])
  {
    PutObjectSound(b, ObjectKey(date, m, i), m);
  }

  lemma PutObjectSound(b: Bucket, key: string, m: Message)
    requires BucketSound(b) && IsObject(key, m)
    ensures BucketSound(b[key := m])
  {}

  lemma TableKeyed(cfg: Setup, s: State, l: Label)
    requires Keyed(s) && Enabled(cfg, s, l)
    ensures TableSound(TableNext(cfg, s, l))
  {
    if l.CopyOk? || l.CopyFail? {
      assert WorkerIn(s.workers[l.w], KeyedMessages());
      TableStaysSound(s.table, s.workers[l.w].batch);
    }
  }

  lemma BucketKeyed(cfg: Setup, s: State, l: Label)
    requires Keyed(s) && Enabled(cfg, s, l)
    ensures BucketSound(BucketNext(cfg, s, l))
  {
    if l.BuryOk? {
      var x := s.workers[l.w];
      assert WorkerIn(x, KeyedMessages());
      assert x.batch[x.next] in KeyedMessages();
      BucketStaysSound(s.bucket, l.date, x.batch[x.next], NextSinkSeq(s.sinkSeq));
    }
  }

  lemma StepKeepsKeys(cfg: Setup, s: State, l: Label)
    requires Keyed(s) && Enabled(cfg, s, l)
    ensures Keyed(Next(cfg, s, l))
  {
    StepStaysIn(cfg, s, l, KeyedMessages());
    TableKeyed(cfg, s, l);
    BucketKeyed(cfg, s, l);
  }

  lemma {:induction false} AlwaysKeyed(cfg: Setup, s0: State, ls: seq<Label>)
    requires Init(cfg, s0) && Legal(cfg, s0, ls)
    ensures Keyed(Exec(cfg, s0, ls))
  {
    if ls != [] {
      AlwaysKeyed(cfg, s0, ls[..|ls| - 1]);
      StepKeepsKeys(cfg, Exec(cfg, s0, ls[..|ls| - 1]), ls[|ls| - 1]);
    }
  }
}
