/** The whole service as interleaved steps: one subscriber, the ring, the WAL, any number of
    flusher workers, the telemetry table and the dead-letter bucket. */
module Pipeline {
  import opened Buffer
  import opened DeadLetter
  import opened Messages
  import opened Numerals
  import opened Postgres
  import opened Topics
  import opened Wal
  import opened WalKeys
  import opened Wrappers

  datatype Setup = Setup(
    limits: Limits,
    hasWal: bool,
    maxRetries: nat,
    batchSize: nat,
    elevatedBatchSize: nat,
    parseUuid: UuidParser)
  {
    predicate Valid() { limits.Valid() && 0 < batchSize <= elevatedBatchSize }
  }

  datatype Entry = Entry(key: string, msg: Message)

  /** Where a worker goroutine stands between two of its steps. */
  datatype Worker =
    | Idle                                                            // at the timer
    | TopUp(batch: seq<Message>, room: nat)                           // ring read, WAL to come
    | Draining(batch: seq<Message>, read: seq<Entry>)                 // holds walMu between the two transactions
    | Copying(batch: seq<Message>, attempt: nat)                      // about to call CopyMessages
    | Waiting(batch: seq<Message>, attempt: nat, err: FlushError)     // in the backoff select
    | Requeueing(batch: seq<Message>, next: nat, err: FlushError)     // writing the batch back to the WAL
    | Burying(batch: seq<Message>, next: nat, err: FlushError)        // writing the batch to the sink
    | Stopped

  /** Where the subscriber stands inside HandleMessage. */
  datatype Intake = Free | Spilling(msg: Message) | Acking(msg: Message)

  datatype State = State(
    ring: seq<Message>,
    wal: Log,
    walSeq: uint64,
    walMu: Option<nat>,
    workers: seq<Worker>,
    intake: Intake,
    table: Table,
    bucket: Bucket,
    sinkSeq: uint64,
    cancelled: bool,
    openedAt: int64)

  datatype Label =
    | Arrive(topic: string, payload: seq<byte>, now: int64)
    | SpillOk(now: int64)
    | SpillFail
    | Ack
    | Pull(w: nat, elevated: bool)
    | DrainRead(w: nat)
    | DrainReadFail(w: nat)
    | DrainDelete(w: nat)
    | DrainDeleteFail(w: nat)
    | CopyOk(w: nat)
    | CopyFail(w: nat, err: FlushError, landed: bool)
    | Resume(w: nat)
    | CancelWait(w: nat)
    | RequeueOk(w: nat, now: int64)
    | RequeueFail(w: nat)
    | BuryOk(w: nat, date: string)
    | BuryFail(w: nat, keyed: bool)
    | Stop(w: nat)
    | Cancel
    | Expire(key: string)
    | Crash(reopenedAt: int64)
  {
    /** The worker that takes the step, if one does. */
    function Actor(): Option<nat> {
      match this
      case Pull(w, _) => Some(w)
      case DrainRead(w) => Some(w)
      case DrainReadFail(w) => Some(w)
      case DrainDelete(w) => Some(w)
      case DrainDeleteFail(w) => Some(w)
      case CopyOk(w) => Some(w)
      case CopyFail(w, _, _) => Some(w)
      case Resume(w) => Some(w)
      case CancelWait(w) => Some(w)
      case RequeueOk(w, _) => Some(w)
      case RequeueFail(w) => Some(w)
      case BuryOk(w, _) => Some(w)
      case BuryFail(w, _) => Some(w)
      case Stop(w) => Some(w)
      case _ => None
    }
  }

  // ----- pieces of a step -----

  /** The message HandleMessage builds, or None when the topic does not parse. */
  function Incoming(cfg: Setup, topic: string, payload: seq<byte>, now: int64): Option<Message> {
    match ParseTopic(topic, cfg.parseUuid)
    case Err(_) => None
    case Ok(t) => Some(Message(t.tenant, t.device, topic, payload, now, MakeDedupKey(t.device, now)))
  }

  /** `m` is the message of this arrival, with no mention of the parser. */
  ghost predicate BuiltFrom(cfg: Setup, topic: string, payload: seq<byte>, now: int64, m: Message) {
    && m.topic == topic && m.payload == payload && m.receivedAt == now
    && Names(topic, cfg.parseUuid, m.tenant, m.device)
    && m.dedupKey == MakeDedupKey(m.device, now)
  }

  lemma IncomingIs(cfg: Setup, topic: string, payload: seq<byte>, now: int64, m: Message)
    ensures Incoming(cfg, topic, payload, now) == Some(m) <==> BuiltFrom(cfg, topic, payload, now, m)
  {
    ParseTopicAccepts(topic, cfg.parseUuid, m.tenant, m.device);
  }

  /** No message is built exactly if the topic names no tenant and device. */
  lemma NoneIncoming(cfg: Setup, topic: string, payload: seq<byte>, now: int64)
    ensures Incoming(cfg, topic, payload, now) == None <==>
            forall tenant, id :: !Names(topic, cfg.parseUuid, tenant, id)
  {
    var r := ParseTopic(topic, cfg.parseUuid);
    forall tenant, id
      ensures r == Ok(ParsedTopic(tenant, id)) <==> Names(topic, cfg.parseUuid, tenant, id)
    {
      ParseTopicAccepts(topic, cfg.parseUuid, tenant, id);
    }
    if r.Ok? { assert r == Ok(ParsedTopic(r.value.tenant, r.value.device)); }
  }

  ghost function WalKeyFor(s: State, now: int64): string {
    KeyAt(now, NextSeq(s.walSeq))
  }

  function Want(cfg: Setup, elevated: bool): nat {
    if elevated then cfg.elevatedBatchSize else cfg.batchSize
  }

  function AfterPull(batch: seq<Message>): Worker {
    if batch == [] then Idle else Copying(batch, 0)
  }

  function AfterDequeue(cfg: Setup, batch: seq<Message>, want: nat): Worker {
    if cfg.hasWal && |batch| < want then TopUp(batch, want - |batch|) else AfterPull(batch)
  }

  /** Retry after a backoff, or hand the batch over once the retries are spent. */
  function AfterFailure(cfg: Setup, batch: seq<Message>, attempt: nat, err: FlushError): Worker {
    if attempt < cfg.maxRetries then Waiting(batch, attempt + 1, err)
    else if !RowFault(err) && cfg.hasWal then Requeueing(batch, 0, err)
    else Burying(batch, 0, err)
  }

  function AfterRequeue(batch: seq<Message>, next: nat, err: FlushError): Worker {
    if next + 1 == |batch| then Idle else Requeueing(batch, next + 1, err)
  }

  function AfterBury(batch: seq<Message>, next: nat, err: FlushError): Worker {
    if next + 1 == |batch| then Idle else Burying(batch, next + 1, err)
  }

  ghost function ReadEntries(log: Log, ks: seq<string>): (es: seq<Entry>)
    requires forall k :: k in ks ==> k in log
    ensures |es| == |ks|
  {
    if ks == [] then [] else [Entry(ks[0], log[ks[0]])] + ReadEntries(log, ks[1..])
  }

  function MessagesOf(es: seq<Entry>): (ms: seq<Message>)
    ensures |ms| == |es|
  {
    if es == [] then [] else [es[0].msg] + MessagesOf(es[1..])
  }

  function KeysRead(es: seq<Entry>): set<string> {
    set e | e in es :: e.key
  }

  ghost function AfterRead(log: Log, batch: seq<Message>, room: nat): Worker {
    var ks := OldestKeys(log, room);
    if ks == [] then AfterPull(batch) else Draining(batch, ReadEntries(log, ks))
  }

  // ----- the step relation, as a guard and an effect -----

  ghost predicate Enabled(cfg: Setup, s: State, l: Label) {
    && (l.Actor().Some? ==> l.Actor().value < |s.workers|)
    && match l
       case Arrive(_, _, _) => s.intake == Free
       case SpillOk(_) => s.intake.Spilling?
       case SpillFail => s.intake.Spilling?
       case Ack => s.intake.Acking?
       case Pull(w, _) => s.workers[w] == Idle
       case DrainRead(w) => s.workers[w].TopUp? && s.walMu == None
       case DrainReadFail(w) => s.workers[w].TopUp? && s.walMu == None
       case DrainDelete(w) => s.workers[w].Draining?
       case DrainDeleteFail(w) => s.workers[w].Draining?
       case CopyOk(w) => s.workers[w].Copying?
       case CopyFail(w, _, _) => s.workers[w].Copying?
       case Resume(w) => s.workers[w].Waiting?
       case CancelWait(w) => s.workers[w].Waiting? && s.cancelled
       case RequeueOk(w, _) => s.workers[w].Requeueing? && s.workers[w].next < |s.workers[w].batch|
       case RequeueFail(w) => s.workers[w].Requeueing? && s.workers[w].next < |s.workers[w].batch|
       case BuryOk(w, _) => s.workers[w].Burying? && s.workers[w].next < |s.workers[w].batch|
       case BuryFail(w, _) => s.workers[w].Burying? && s.workers[w].next < |s.workers[w].batch|
       case Stop(w) => s.workers[w] == Idle && s.cancelled
       case Cancel => true
       case Expire(key) => key in s.wal
       case Crash(_) => true
  }

  /** What the acting worker becomes. */
  ghost function WorkerNext(cfg: Setup, s: State, l: Label): Worker
    requires l.Actor().Some? && Enabled(cfg, s, l)
  {
    var x := s.workers[l.Actor().value];
    match l
    case Pull(_, elevated) =>
      var want := Want(cfg, elevated);
      AfterDequeue(cfg, s.ring[..TakeCount(want, |s.ring|)], want)
    case DrainRead(_) => AfterRead(s.wal, x.batch, x.room)
    case DrainReadFail(_) => AfterPull(x.batch)
    case DrainDelete(_) => AfterPull(x.batch + MessagesOf(x.read))
    case DrainDeleteFail(_) => AfterPull(x.batch)
    case CopyOk(_) => Idle
    case CopyFail(_, err, _) => AfterFailure(cfg, x.batch, x.attempt, err)
    case Resume(_) => Copying(x.batch, x.attempt)
    case CancelWait(_) => Idle
    case RequeueOk(_, _) => AfterRequeue(x.batch, x.next, x.err)
    case RequeueFail(_) => Burying(x.batch, 0, x.err)
    case BuryOk(_, _) => AfterBury(x.batch, x.next, x.err)
    case BuryFail(_, _) => AfterBury(x.batch, x.next, x.err)
    case _ => Stopped
  }

  ghost function RingNext(cfg: Setup, s: State, l: Label): seq<Message> {
    match l
    case Arrive(topic, payload, now) =>
      var m := Incoming(cfg, topic, payload, now);
      if m.Some? && Accepts(cfg.limits, s.ring, m.value) then s.ring + [m.value] else s.ring
    case Pull(_, elevated) => s.ring[TakeCount(Want(cfg, elevated), |s.ring|)..]
    case Crash(_) => []
    case _ => s.ring
  }

  ghost function WalNext(cfg: Setup, s: State, l: Label): Log
    requires Enabled(cfg, s, l)
  {
    match l
    case SpillOk(now) => s.wal[WalKeyFor(s, now) := s.intake.msg]
    case DrainDelete(w) => s.wal - KeysRead(s.workers[w].read)
    case RequeueOk(w, now) => s.wal[WalKeyFor(s, now) := s.workers[w].batch[s.workers[w].next]]
    case Expire(key) => s.wal - {key}
    case _ => s.wal
  }

  function WalSeqNext(s: State, l: Label): uint64 {
    if l.SpillOk? || l.SpillFail? || l.RequeueOk? || l.RequeueFail? then NextSeq(s.walSeq)
    else if l.Crash? then 0
    else s.walSeq
  }

  ghost function WalMuNext(cfg: Setup, s: State, l: Label): Option<nat>
    requires Enabled(cfg, s, l)
  {
    match l
    case DrainRead(w) => if WorkerNext(cfg, s, l).Draining? then Some(w) else None
    case DrainDelete(_) => None
    case DrainDeleteFail(_) => None
    case Crash(_) => None
    case _ => s.walMu
  }

  function IntakeNext(cfg: Setup, s: State, l: Label): Intake {
    match l
    case Arrive(topic, payload, now) =>
      var m := Incoming(cfg, topic, payload, now);
      if m.None? then Free
      else if Accepts(cfg.limits, s.ring, m.value) then Acking(m.value)
      else if cfg.hasWal then Spilling(m.value)
      else Free
    case SpillOk(_) => if s.intake.Spilling? then Acking(s.intake.msg) else s.intake
    case SpillFail => Free
    case Ack => Free
    case Crash(_) => Free
    case _ => s.intake
  }

  ghost function TableNext(cfg: Setup, s: State, l: Label): Table
    requires Enabled(cfg, s, l)
  {
    if l.CopyOk? || (l.CopyFail? && l.landed) then InsertBatch(s.table, s.workers[l.w].batch) else s.table
  }

  ghost function BucketNext(cfg: Setup, s: State, l: Label): Bucket
    requires Enabled(cfg, s, l)
  {
    match l
    case BuryOk(w, date) =>
      var m := s.workers[w].batch[s.workers[w].next];
      s.bucket[ObjectKey(date, m, NextSinkSeq(s.sinkSeq)) := m]
    case _ => s.bucket
  }

  function SinkSeqNext(s: State, l: Label): uint64 {
    if l.BuryOk? || (l.BuryFail? && l.keyed) then NextSinkSeq(s.sinkSeq)
    else if l.Crash? then 0
    else s.sinkSeq
  }

  function AllIdle(n: nat): (ws: seq<Worker>)
    ensures |ws| == n && forall i :: 0 <= i < n ==> ws[i] == Idle
  {
    if n == 0 then [] else AllIdle(n - 1) + [Idle]
  }

  ghost function WorkersNext(cfg: Setup, s: State, l: Label): (ws: seq<Worker>)
    requires Enabled(cfg, s, l)
    ensures |ws| == |s.workers|
  {
    if l.Crash? then AllIdle(|s.workers|)
    else if l.Actor().Some? then s.workers[l.Actor().value := WorkerNext(cfg, s, l)]
    else s.workers
  }

  ghost function Next(cfg: Setup, s: State, l: Label): State
    requires Enabled(cfg, s, l)
  {
    State(
      RingNext(cfg, s, l), WalNext(cfg, s, l), WalSeqNext(s, l), WalMuNext(cfg, s, l),
      WorkersNext(cfg, s, l), IntakeNext(cfg, s, l), TableNext(cfg, s, l), BucketNext(cfg, s, l),
      SinkSeqNext(s, l),
      if l.Cancel? then true else if l.Crash? then false else s.cancelled,
      if l.Crash? then l.reopenedAt else s.openedAt)
  }

  // ----- runs -----

  ghost predicate Legal(cfg: Setup, s: State, ls: seq<Label>)
    decreases |ls|, 0
  {
    ls == [] || (Legal(cfg, s, ls[..|ls| - 1]) && Enabled(cfg, Exec(cfg, s, ls[..|ls| - 1]), ls[|ls| - 1]))
  }

  ghost function Exec(cfg: Setup, s: State, ls: seq<Label>): State
    requires Legal(cfg, s, ls)
    decreases |ls|, 1
  {
    if ls == [] then s else Next(cfg, Exec(cfg, s, ls[..|ls| - 1]), ls[|ls| - 1])
  }

  lemma Extend(cfg: Setup, s: State, ls: seq<Label>, l: Label)
    requires Legal(cfg, s, ls) && Enabled(cfg, Exec(cfg, s, ls), l)
    ensures Legal(cfg, s, ls + [l]) && Exec(cfg, s, ls + [l]) == Next(cfg, Exec(cfg, s, ls), l)
  {
    assert (ls + [l])[..|ls|] == ls;
  }

  lemma {:induction false} LegalPrefix(cfg: Setup, s: State, ls: seq<Label>, i: nat)
    requires Legal(cfg, s, ls) && i <= |ls|
    ensures Legal(cfg, s, ls[..i])
  {
    if i < |ls| {
      LegalPrefix(cfg, s, ls[..|ls| - 1], i);
      assert ls[..|ls| - 1][..i] == ls[..i];
    } else {
      assert ls[..i] == ls;
    }
  }

  // ----- the start -----

  ghost predicate TableSound(t: Table) {
    forall k :: k in t ==> WellKeyed(t[k]) && t[k].dedupKey == k
  }

  ghost predicate IsObject(key: string, m: Message) {
    WellKeyed(m) && exists date, i :: key == ObjectKey(date, m, i)
  }

  ghost predicate BucketSound(b: Bucket) {
    forall k :: k in b ==> IsObject(k, b[k])
  }

  /** First boot: nothing in memory, an empty log, any earlier table and bucket contents. */
  ghost predicate Init(cfg: Setup, s: State) {
    && cfg.Valid()
    && s.ring == [] && s.wal == map[] && s.walSeq == 0 && s.walMu == None
    && (forall i :: 0 <= i < |s.workers| ==> s.workers[i] == Idle)
    && s.intake == Free && !s.cancelled && s.openedAt >= 0
    && TableSound(s.table) && BucketSound(s.bucket)
  }
}
