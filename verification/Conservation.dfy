/** Where messages are, what each step moves, and the balance over every run. All quantities
    are counted per message value: equal messages count with their multiplicity. */
module Conservation {
  import opened Buffer
  import opened Messages
  import opened Pipeline
  import opened Postgres
  import opened Wal

  // ----- counting -----

  function One(a: Message, m: Message): nat {
    if a == m then 1 else 0
  }

  /** How often `m` occurs in a sequence. */
  function Times(q: seq<Message>, m: Message): nat {
    if q == [] then 0 else One(q[0], m) + Times(q[1..], m)
  }

  lemma {:induction false} TimesConcat(a: seq<Message>, b: seq<Message>, m: Message)
    ensures Times(a + b, m) == Times(a, m) + Times(b, m)
  {
    if a == [] {
      assert a + b == b;
    } else {
      assert (a + b)[1..] == a[1..] + b;
      TimesConcat(a[1..], b, m);
    }
  }

  lemma TimesSplit(q: seq<Message>, k: nat, m: Message)
    requires k <= |q|
    ensures Times(q, m) == Times(q[..k], m) + Times(q[k..], m)
  {
    TimesConcat(q[..k], q[k..], m);
    assert q == q[..k] + q[k..];
  }

  lemma TimesSnoc(q: seq<Message>, a: Message, m: Message)
    ensures Times(q + [a], m) == Times(q, m) + One(a, m)
  {
    TimesConcat(q, [a], m);
    assert Times([a], m) == One(a, m) + Times([], m);
  }

  lemma TimesHead(q: seq<Message>, i: nat, m: Message)
    requires i < |q|
    ensures Times(q[i..], m) == One(q[i], m) + Times(q[i + 1..], m)
  {
    assert q[i..][1..] == q[i + 1..];
  }

  lemma {:induction false} TimesMember(q: seq<Message>, m: Message)
    ensures Times(q, m) > 0 <==> m in q
  {
    if q != [] { TimesMember(q[1..], m); }
  }

  // ----- where messages are -----

  /** A stored message under a given key. */
  function At(log: Log, k: string, m: Message): nat {
    if k in log then One(log[k], m) else 0
  }

  /** How often `m` is stored. */
  ghost function Stored(log: Log, m: Message): nat {
    |set k | k in log && log[k] == m|
  }

  lemma StoredRemove(log: Log, k: string, m: Message)
    ensures Stored(log, m) == Stored(log - {k}, m) + At(log, k, m)
  {
    var before := set j | j in log && log[j] == m;
    var after := set j | j in log - {k} && (log - {k})[j] == m;
    if k in before {
      assert before == after + {k};
    } else {
      assert before == after;
    }
  }

  lemma StoredPut(log: Log, k: string, a: Message, m: Message)
    ensures Stored(log[k := a], m) + At(log, k, m) == Stored(log, m) + One(a, m)
  {
    StoredRemove(log[k := a], k, m);
    StoredRemove(log, k, m);
    assert log[k := a] - {k} == log - {k};
  }

  lemma StoredMember(log: Log, m: Message)
    ensures Stored(log, m) > 0 <==> m in log.Values
  {
    var ks := set k | k in log && log[k] == m;
    if m in log.Values {
      var k :| k in log && log[k] == m;
      assert k in ks;
    }
    if |ks| > 0 {
      var k :| k in ks;
      assert log[k] == m;
    }
  }

  /** What a worker holds: messages that would be gone if it vanished now. */
  function Hand(x: Worker): seq<Message> {
    match x
    case TopUp(batch, _) => batch
    case Draining(batch, _) => batch
    case Copying(batch, _) => batch
    case Waiting(batch, _, _) => batch
    case Requeueing(batch, next, _) => if next <= |batch| then batch[next..] else []
    case Burying(batch, next, _) => if next <= |batch| then batch[next..] else []
    case _ => []
  }

  function Held(ws: seq<Worker>, m: Message): nat {
    if ws == [] then 0 else Held(ws[..|ws| - 1], m) + Times(Hand(ws[|ws| - 1]), m)
  }

  lemma {:induction false} HeldUpdate(ws: seq<Worker>, i: nat, x: Worker, m: Message)
    requires i < |ws|
    ensures Held(ws[i := x], m) + Times(Hand(ws[i]), m) == Held(ws, m) + Times(Hand(x), m)
  {
    var last := |ws| - 1;
    if i == last {
      assert ws[i := x][..last] == ws[..last];
    } else {
      assert ws[i := x][..last] == ws[..last][i := x];
      HeldUpdate(ws[..last], i, x, m);
    }
  }

  lemma {:induction false} IdleHolds(ws: seq<Worker>, m: Message)
    requires forall i :: 0 <= i < |ws| ==> ws[i] == Idle
    ensures Held(ws, m) == 0
  {
    if ws != [] { IdleHolds(ws[..|ws| - 1], m); }
  }

  predicate InHand(ws: seq<Worker>, i: int, m: Message) {
    0 <= i < |ws| && m in Hand(ws[i])
  }

  lemma {:induction false} HeldMember(ws: seq<Worker>, m: Message) returns (i: int)
    requires Held(ws, m) > 0
    ensures InHand(ws, i, m)
  {
    var last := |ws| - 1;
    TimesMember(Hand(ws[last]), m);
    if m in Hand(ws[last]) {
      i := last;
    } else {
      i := HeldMember(ws[..last], m);
    }
  }

  ghost function Live(s: State, m: Message): nat {
    Times(s.ring, m) + Stored(s.wal, m) + Held(s.workers, m)
  }

  // ----- what a two-transaction drain can miss -----

  ghost predicate DistinctKeys(read: seq<Entry>) {
    forall i, j :: 0 <= i < j < |read| ==> read[i].key != read[j].key
  }

  predicate Intact(log: Log, e: Entry) {
    e.key in log && log[e.key] == e.msg
  }

  /** Read entries that are no longer stored as they were read. */
  function Missing(log: Log, read: seq<Entry>, m: Message): nat {
    if read == [] then 0
    else (if Intact(log, read[0]) then 0 else One(read[0].msg, m)) + Missing(log, read[1..], m)
  }

  /** Stored messages that a delete by key removes without their having been read. */
  function Stray(log: Log, read: seq<Entry>, m: Message): nat {
    if read == [] then 0
    else (if Intact(log, read[0]) then 0 else At(log, read[0].key, m)) + Stray(log, read[1..], m)
  }

  lemma {:induction false} DrainAgrees(a: Log, b: Log, read: seq<Entry>, m: Message)
    requires forall e :: e in read ==> (e.key in a <==> e.key in b) && (e.key in a ==> a[e.key] == b[e.key])
    ensures Missing(a, read, m) == Missing(b, read, m) && Stray(a, read, m) == Stray(b, read, m)
  {
    if read != [] {
      assert read[0] in read;
      DrainAgrees(a, b, read[1..], m);
    }
  }

  lemma KeysReadCons(read: seq<Entry>)
    requires read != []
    ensures KeysRead(read) == {read[0].key} + KeysRead(read[1..])
  {
    assert forall e :: e in read <==> e == read[0] || e in read[1..];
  }

  lemma HeadKeyFresh(read: seq<Entry>)
    requires read != [] && DistinctKeys(read)
    ensures forall e :: e in read[1..] ==> e.key != read[0].key
    ensures DistinctKeys(read[1..])
  {
    forall e | e in read[1..]
      ensures e.key != read[0].key
    {
      var i :| 0 <= i < |read[1..]| && read[1..][i] == e;
      assert read[i + 1] == e;
    }
  }

  lemma {:induction false} DrainMoves(log: Log, read: seq<Entry>, m: Message)
    requires DistinctKeys(read)
    ensures Stored(log, m) + Missing(log, read, m) ==
            Stored(log - KeysRead(read), m) + Times(MessagesOf(read), m) + Stray(log, read, m)
    decreases |read|
  {
    if read == [] {
      assert log - KeysRead(read) == log;
    } else {
      var k, rest := read[0].key, read[1..];
      HeadKeyFresh(read);
      DrainAgrees(log, log - {k}, rest, m);
      DrainMoves(log - {k}, rest, m);
      KeysReadCons(read);
      assert log - KeysRead(read) == log - {k} - KeysRead(rest);
      StoredRemove(log, k, m);
    }
  }

  // ----- what one step moves -----

  ghost function Accepted(cfg: Setup, s: State, l: Label, m: Message): nat
    requires Enabled(cfg, s, l)
  {
    match l
    case Arrive(topic, payload, now) =>
      var a := Incoming(cfg, topic, payload, now);
      if a.Some? && Accepts(cfg.limits, s.ring, a.value) then One(a.value, m) else 0
    case SpillOk(_) => One(s.intake.msg, m)
    case _ => 0
  }

  ghost function Flushed(cfg: Setup, s: State, l: Label, m: Message): nat
    requires Enabled(cfg, s, l)
  {
    if l.CopyOk? then Times(s.workers[l.w].batch, m) else 0
  }

  ghost function Buried(cfg: Setup, s: State, l: Label, m: Message): nat
    requires Enabled(cfg, s, l)
  {
    if l.BuryOk? then One(s.workers[l.w].batch[s.workers[l.w].next], m) else 0
  }

  /** Copies that leave the pipeline with nothing kept of them. */
  ghost function Lost(cfg: Setup, s: State, l: Label, m: Message): nat
    requires Enabled(cfg, s, l)
  {
    match l
    case CancelWait(w) => Times(s.workers[w].batch, m)
    case BuryFail(w, _) => One(s.workers[w].batch[s.workers[w].next], m)
    case Expire(key) => One(s.wal[key], m)
    case Crash(_) => Times(s.ring, m) + Held(s.workers, m)
    case SpillOk(now) => At(s.wal, WalKeyFor(s, now), m)
    case RequeueOk(_, now) => At(s.wal, WalKeyFor(s, now), m)
    case DrainDelete(w) => Stray(s.wal, s.workers[w].read, m)
    case _ => 0
  }

  /** Copies booked as lost while a drain had already read them. */
  ghost function Revived(cfg: Setup, s: State, l: Label, m: Message): nat
    requires Enabled(cfg, s, l)
  {
    if l.DrainDelete? then Missing(s.wal, s.workers[l.w].read, m) else 0
  }

  /** Copies already back in the WAL when the rest of their batch cannot follow: the whole batch
      goes to the sink, so these exist twice. */
  ghost function Doubled(cfg: Setup, s: State, l: Label, m: Message): nat
    requires Enabled(cfg, s, l)
  {
    if l.RequeueFail? then Times(s.workers[l.w].batch[..s.workers[l.w].next], m) else 0
  }

  ghost predicate ReadsDistinct(s: State) {
    forall w :: 0 <= w < |s.workers| && s.workers[w].Draining? ==> DistinctKeys(s.workers[w].read)
  }

  /** One step neither creates nor drops a copy beyond what is booked for it. */
  ghost predicate Flow(cfg: Setup, s: State, l: Label, m: Message)
    requires Enabled(cfg, s, l)
  {
    Accepted(cfg, s, l, m) + Doubled(cfg, s, l, m) + Revived(cfg, s, l, m) + Live(s, m) ==
    Live(Next(cfg, s, l), m) + Flushed(cfg, s, l, m) + Buried(cfg, s, l, m) + Lost(cfg, s, l, m)
  }

  lemma IntakeFlow(cfg: Setup, s: State, l: Label, m: Message)
    requires Enabled(cfg, s, l) && (l.Arrive? || l.SpillOk? || l.SpillFail? || l.Ack? || l.Cancel?)
    ensures Flow(cfg, s, l, m)
  {
    match l
    case Arrive(topic, payload, now) =>
      var a := Incoming(cfg, topic, payload, now);
      if a.Some? { TimesSnoc(s.ring, a.value, m); }
    case SpillOk(now) => StoredPut(s.wal, WalKeyFor(s, now), s.intake.msg, m);
    case _ =>
  }

  /** Steps of a worker that touch neither the ring nor the log. */
  lemma PrivateFlow(cfg: Setup, s: State, l: Label, m: Message)
    requires Enabled(cfg, s, l) && l.Actor().Some?
    requires !l.Pull? && !l.DrainDelete? && !l.RequeueOk?
    ensures Flow(cfg, s, l, m)
  {
    var w := l.Actor().value;
    var x := s.workers[w];
    HeldUpdate(s.workers, w, WorkerNext(cfg, s, l), m);
    PrivateHand(cfg, s, l, m);
  }

  lemma HandAfterRequeue(batch: seq<Message>, next: nat, err: FlushError, m: Message)
    requires next < |batch|
    ensures Times(batch[next..], m) == One(batch[next], m) + Times(Hand(AfterRequeue(batch, next, err)), m)
  {
    TimesHead(batch, next, m);
    assert batch[|batch|..] == [];
  }

  lemma HandAfterBury(batch: seq<Message>, next: nat, err: FlushError, m: Message)
    requires next < |batch|
    ensures Times(batch[next..], m) == One(batch[next], m) + Times(Hand(AfterBury(batch, next, err)), m)
  {
    TimesHead(batch, next, m);
    assert batch[|batch|..] == [];
  }

  lemma HandAfterFailure(cfg: Setup, batch: seq<Message>, attempt: nat, err: FlushError)
    ensures Hand(AfterFailure(cfg, batch, attempt, err)) == batch
  {
    assert batch[0..] == batch;
  }

  lemma PrivateHand(cfg: Setup, s: State, l: Label, m: Message)
    requires Enabled(cfg, s, l) && l.Actor().Some?
    requires !l.Pull? && !l.DrainDelete? && !l.RequeueOk?
    ensures Doubled(cfg, s, l, m) + Times(Hand(s.workers[l.Actor().value]), m) ==
            Times(Hand(WorkerNext(cfg, s, l)), m) + Flushed(cfg, s, l, m) + Buried(cfg, s, l, m) + Lost(cfg, s, l, m)
  {
    if l.BuryOk? || l.BuryFail? {
      SinkHand(cfg, s, l, m);
    } else if l.RequeueFail? {
      RequeueFailHand(s.workers[l.w].batch, s.workers[l.w].next, m);
    } else {
      QuietHand(cfg, s, l);
    }
  }

  lemma SinkHand(cfg: Setup, s: State, l: Label, m: Message)
    requires Enabled(cfg, s, l) && (l.BuryOk? || l.BuryFail?)
    ensures Times(Hand(s.workers[l.w]), m) ==
            Times(Hand(WorkerNext(cfg, s, l)), m) + Buried(cfg, s, l, m) + Lost(cfg, s, l, m)
  {
    var x := s.workers[l.w];
    HandAfterBury(x.batch, x.next, x.err, m);
  }

  lemma RequeueFailHand(batch: seq<Message>, next: nat, m: Message)
    requires next < |batch|
    ensures Times(batch[..next], m) + Times(batch[next..], m) == Times(batch[0..], m)
  {
    TimesSplit(batch, next, m);
    assert batch[0..] == batch;
  }

  lemma ReadHand(log: Log, batch: seq<Message>, room: nat)
    ensures Hand(AfterRead(log, batch, room)) == batch
  {}

  lemma QuietHand(cfg: Setup, s: State, l: Label)
    requires Enabled(cfg, s, l)
    requires l.DrainRead? || l.DrainReadFail? || l.DrainDeleteFail? || l.CopyOk? || l.CopyFail? || l.Resume?
             || l.CancelWait? || l.Stop?
    ensures var x := s.workers[l.w];
            Hand(WorkerNext(cfg, s, l)) == if l.CopyOk? || l.CancelWait? then [] else Hand(x)
  {
    if l.CopyFail? {
      HandAfterFailure(cfg, s.workers[l.w].batch, s.workers[l.w].attempt, l.err);
    } else if l.DrainRead? {
      ReadHand(s.wal, s.workers[l.w].batch, s.workers[l.w].room);
    }
  }

  lemma PullFlow(cfg: Setup, s: State, l: Label, m: Message)
    requires Enabled(cfg, s, l) && l.Pull?
    ensures Flow(cfg, s, l, m)
  {
    HeldUpdate(s.workers, l.w, WorkerNext(cfg, s, l), m);
    TimesSplit(s.ring, TakeCount(Want(cfg, l.elevated), |s.ring|), m);
  }

  lemma DrainDeleteFlow(cfg: Setup, s: State, l: Label, m: Message)
    requires Enabled(cfg, s, l) && l.DrainDelete? && ReadsDistinct(s)
    ensures Flow(cfg, s, l, m)
  {
    var x := s.workers[l.w];
    HeldUpdate(s.workers, l.w, WorkerNext(cfg, s, l), m);
    DrainMoves(s.wal, x.read, m);
    TimesConcat(x.batch, MessagesOf(x.read), m);
  }

  lemma RequeueFlow(cfg: Setup, s: State, l: Label, m: Message)
    requires Enabled(cfg, s, l) && l.RequeueOk?
    ensures Flow(cfg, s, l, m)
  {
    var x := s.workers[l.w];
    HeldUpdate(s.workers, l.w, WorkerNext(cfg, s, l), m);
    HandAfterRequeue(x.batch, x.next, x.err, m);
    StoredPut(s.wal, WalKeyFor(s, l.now), x.batch[x.next], m);
    RequeueTouches(cfg, s, l, WalKeyFor(s, l.now));
  }

  lemma RequeueTouches(cfg: Setup, s: State, l: Label, key: string)
    requires Enabled(cfg, s, l) && l.RequeueOk? && key == WalKeyFor(s, l.now)
    ensures var x := s.workers[l.w];
            var t := Next(cfg, s, l);
            && t.ring == s.ring && t.wal == s.wal[key := x.batch[x.next]]
            && t.workers == s.workers[l.w := AfterRequeue(x.batch, x.next, x.err)]
  {}

  lemma StepFlows(cfg: Setup, s: State, l: Label, m: Message)
    requires Enabled(cfg, s, l) && ReadsDistinct(s)
    ensures Flow(cfg, s, l, m)
  {
    match l
    case Pull(_, _) => PullFlow(cfg, s, l, m);
    case DrainDelete(_) => DrainDeleteFlow(cfg, s, l, m);
    case RequeueOk(_, _) => RequeueFlow(cfg, s, l, m);
    case Expire(key) => StoredRemove(s.wal, key, m);
    case Crash(_) => IdleHolds(AllIdle(|s.workers|), m);
    case Arrive(_, _, _) => IntakeFlow(cfg, s, l, m);
    case SpillOk(_) => IntakeFlow(cfg, s, l, m);
    case SpillFail => IntakeFlow(cfg, s, l, m);
    case Ack => IntakeFlow(cfg, s, l, m);
    case Cancel => IntakeFlow(cfg, s, l, m);
    case _ => PrivateFlow(cfg, s, l, m);
  }
}
