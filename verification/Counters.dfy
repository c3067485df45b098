/** The metrics counters, as identities that hold between any two steps. */
module Counters {
  import opened Buffer
  import opened Conservation
  import opened Invariants
  import opened Ledger
  import opened Messages
  import opened Pipeline
  import opened Postgres
  import opened Sessions
  import opened Wal
  import opened Wrappers

  /** The process's counters since it started; the second group is not exported by the service and
      only says what the identities need. */
  datatype Counts = Counts(
    received: nat, acks: nat, parseFailures: nat,
    enqueued: nat, dequeued: nat, rejected: nat, spilled: nat,
    appended: nat, drained: nat, requeued: nat,
    inserted: nat, flushed: nat, flushErrors: nat, retries: nat, deadLettered: nat,
    walAtOpen: nat, expired: nat, displaced: nat, revived: nat,
    rowsAtOpen: nat, ambiguousRows: nat)

  function Fresh(wal: nat, rows: nat): Counts {
    Counts(0, 0, 0, 0, 0, 0, 0, 0, 0, 0, 0, 0, 0, 0, 0, wal, 0, 0, 0, rows, 0)
  }

  function OneIf(b: bool): nat {
    if b then 1 else 0
  }

  /** Read keys that the delete transaction no longer finds. */
  ghost function Gone(log: Log, read: seq<Entry>): nat {
    |KeysRead(read) - log.Keys|
  }

  ghost function Count(cfg: Setup, s: State, l: Label, c: Counts): Counts
    requires Enabled(cfg, s, l)
  {
    match l
    case Arrive(topic, payload, now) =>
      var m := Incoming(cfg, topic, payload, now);
      if m.None? then c.(received := c.received + 1, parseFailures := c.parseFailures + 1, acks := c.acks + 1)
      else if Accepts(cfg.limits, s.ring, m.value) then c.(received := c.received + 1, enqueued := c.enqueued + 1)
      else c.(received := c.received + 1, rejected := c.rejected + 1)
    case SpillOk(now) =>
      c.(appended := c.appended + 1, spilled := c.spilled + 1,
         displaced := c.displaced + OneIf(WalKeyFor(s, now) in s.wal))
    case Ack => c.(acks := c.acks + 1)
    case Pull(_, elevated) => c.(dequeued := c.dequeued + TakeCount(Want(cfg, elevated), |s.ring|))
    case DrainDelete(w) =>
      c.(drained := c.drained + |s.workers[w].read|, revived := c.revived + Gone(s.wal, s.workers[w].read))
    case CopyOk(w) => c.(inserted := c.inserted + RowsAdded(s.table, s.workers[w].batch), flushed := c.flushed + 1)
    case CopyFail(w, _, landed) =>
      c.(flushErrors := c.flushErrors + 1,
         ambiguousRows := c.ambiguousRows + if landed then RowsAdded(s.table, s.workers[w].batch) else 0)
    case Resume(w) => c.(retries := c.retries + |s.workers[w].batch|)
    case CancelWait(w) => c.(retries := c.retries + |s.workers[w].batch|)
    case RequeueOk(_, now) =>
      c.(appended := c.appended + 1, requeued := c.requeued + 1,
         displaced := c.displaced + OneIf(WalKeyFor(s, now) in s.wal))
    case BuryOk(_, _) => c.(deadLettered := c.deadLettered + 1)
    case Expire(_) => c.(expired := c.expired + 1)
    case Crash(_) => Fresh(|s.wal|, |s.table|)
    case _ => c
  }

  /** The counters at the end of a run that found them at `c`. */
  ghost function CountAlong(cfg: Setup, s: State, ls: seq<Label>, c: Counts): Counts
    requires Legal(cfg, s, ls)
  {
    if ls == [] then c
    else
      var init := ls[..|ls| - 1];
      Count(cfg, Exec(cfg, s, init), ls[|ls| - 1], CountAlong(cfg, s, init, c))
  }

  /** The counters of a process that started at `s0`. */
  ghost function Counted(cfg: Setup, s0: State, ls: seq<Label>): Counts
    requires Legal(cfg, s0, ls)
  {
    CountAlong(cfg, s0, ls, Fresh(|s0.wal|, |s0.table|))
  }

  // ----- cardinalities -----

  lemma SplitSize(a: set<string>, b: set<string>)
    ensures |a| == |a - b| + |a * b|
  {
    assert a == (a - b) + (a * b);
  }

  lemma RemoveSize(log: Log, ks: set<string>)
    ensures |log - ks| + |ks * log.Keys| == |log|
  {
    SplitSize(log.Keys, ks);
    assert log.Keys * ks == ks * log.Keys;
    assert (log - ks).Keys == log.Keys - ks;
  }

  lemma {:induction false} ReadSize(read: seq<Entry>)
    requires DistinctKeys(read)
    ensures |KeysRead(read)| == |read|
  {
    if read != [] {
      HeadKeyFresh(read);
      ReadSize(read[1..]);
      KeysReadCons(read);
      assert read[0].key !in KeysRead(read[1..]);
    }
  }

  lemma DrainSize(log: Log, read: seq<Entry>)
    requires DistinctKeys(read)
    ensures |log - KeysRead(read)| + |read| == |log| + Gone(log, read)
  {
    ReadSize(read);
    RemoveSize(log, KeysRead(read));
    SplitSize(KeysRead(read), log.Keys);
  }

  // ----- the identities -----

  ghost predicate RingIdentity(s: State, c: Counts) {
    c.enqueued == c.dequeued + |s.ring|
  }

  ghost predicate LogIdentity(s: State, c: Counts) {
    c.walAtOpen + c.appended + c.revived == |s.wal| + c.drained + c.expired + c.displaced
  }

  ghost predicate AppendIdentity(c: Counts) {
    c.appended == c.spilled + c.requeued
  }

  ghost predicate AckIdentity(s: State, c: Counts) {
    && c.acks + OneIf(s.intake.Acking?) == c.enqueued + c.spilled + c.parseFailures
    && c.received == c.enqueued + c.rejected + c.parseFailures
    && c.spilled + OneIf(s.intake.Spilling?) <= c.rejected
  }

  ghost predicate RowIdentity(s: State, c: Counts) {
    c.rowsAtOpen + c.inserted + c.ambiguousRows == |s.table|
  }

  lemma RingStep(cfg: Setup, s: State, l: Label, c: Counts)
    requires Enabled(cfg, s, l) && RingIdentity(s, c)
    ensures RingIdentity(Next(cfg, s, l), Count(cfg, s, l, c))
  {}

  lemma LogPutStep(cfg: Setup, s: State, l: Label, c: Counts)
    requires Enabled(cfg, s, l) && LogIdentity(s, c) && (l.SpillOk? || l.RequeueOk?)
    ensures LogIdentity(Next(cfg, s, l), Count(cfg, s, l, c))
  {
    match l
    case SpillOk(now) => PutSize(s.wal, WalKeyFor(s, now), s.intake.msg);
    case RequeueOk(w, now) => PutSize(s.wal, WalKeyFor(s, now), s.workers[w].batch[s.workers[w].next]);
  }

  lemma LogCutStep(cfg: Setup, s: State, l: Label, c: Counts)
    requires Enabled(cfg, s, l) && ReadsDistinct(s) && LogIdentity(s, c) && (l.DrainDelete? || l.Expire?)
    ensures LogIdentity(Next(cfg, s, l), Count(cfg, s, l, c))
  {
    match l
    case DrainDelete(w) => DrainSize(s.wal, s.workers[w].read);
    case Expire(key) =>
      RemoveSize(s.wal, {key});
      assert {key} * s.wal.Keys == {key};
  }

  lemma LogStep(cfg: Setup, s: State, l: Label, c: Counts)
    requires Enabled(cfg, s, l) && ReadsDistinct(s) && LogIdentity(s, c)
    ensures LogIdentity(Next(cfg, s, l), Count(cfg, s, l, c))
  {
    if l.SpillOk? || l.RequeueOk? {
      LogPutStep(cfg, s, l, c);
    } else if l.DrainDelete? || l.Expire? {
      LogCutStep(cfg, s, l, c);
    }
  }

  lemma AckStep(cfg: Setup, s: State, l: Label, c: Counts)
    requires Enabled(cfg, s, l) && AckIdentity(s, c)
    ensures AckIdentity(Next(cfg, s, l), Count(cfg, s, l, c))
  {
    if l.Arrive? || l.SpillOk? || l.SpillFail? || l.Ack? { IntakeAckStep(cfg, s, l, c); }
  }

  lemma IntakeAckStep(cfg: Setup, s: State, l: Label, c: Counts)
    requires Enabled(cfg, s, l) && AckIdentity(s, c) && (l.Arrive? || l.SpillOk? || l.SpillFail? || l.Ack?)
    ensures AckIdentity(Next(cfg, s, l), Count(cfg, s, l, c))
  {}

  lemma RowStep(cfg: Setup, s: State, l: Label, c: Counts)
    requires Enabled(cfg, s, l) && RowIdentity(s, c)
    ensures RowIdentity(Next(cfg, s, l), Count(cfg, s, l, c))
  {}

  lemma AppendStep(cfg: Setup, s: State, l: Label, c: Counts)
    requires Enabled(cfg, s, l) && AppendIdentity(c)
    ensures AppendIdentity(Count(cfg, s, l, c))
  {}

  // ----- entries that expire under a drain -----

  /** Keys that the drain under way has read and would no longer find. */
  ghost function GoneNow(s: State): nat {
    if s.walMu.Some? && s.walMu.value < |s.workers| && s.workers[s.walMu.value].Draining?
    then Gone(s.wal, s.workers[s.walMu.value].read)
    else 0
  }

  /** Only entries that expired are delivered after they were gone. */
  ghost predicate RevivedIdentity(s: State, c: Counts) {
    c.revived + GoneNow(s) <= c.expired
  }

  lemma SubsetSize(a: set<string>, b: set<string>)
    requires a <= b
    ensures |a| <= |b|
  {
    assert b == a + (b - a);
  }

  lemma GoneAfterPut(log: Log, key: string, m: Message, read: seq<Entry>)
    ensures Gone(log[key := m], read) <= Gone(log, read)
  {
    SubsetSize(KeysRead(read) - log[key := m].Keys, KeysRead(read) - log.Keys);
  }

  lemma GoneAfterExpire(log: Log, key: string, read: seq<Entry>)
    ensures Gone(log - {key}, read) <= Gone(log, read) + 1
  {
    var before := KeysRead(read) - log.Keys;
    SubsetSize(KeysRead(read) - (log - {key}).Keys, before + {key});
  }

  lemma GoneAfterRead(log: Log, read: seq<Entry>)
    requires forall e :: e in read ==> Intact(log, e)
    ensures Gone(log, read) == 0
  {
    assert KeysRead(read) - log.Keys == {};
  }

  lemma GoneAfterWrite(cfg: Setup, s: State, l: Label)
    requires LockHeld(s) && Enabled(cfg, s, l) && (l.SpillOk? || l.RequeueOk? || l.Expire?)
    ensures GoneNow(Next(cfg, s, l)) <= GoneNow(s) + OneIf(l.Expire?)
  {
    DrainerStandsStill(cfg, s, l);
    if s.walMu.Some? && s.workers[s.walMu.value].Draining? {
      GoneInLog(cfg, s, l, s.workers[s.walMu.value].read);
    }
  }

  lemma GoneInLog(cfg: Setup, s: State, l: Label, read: seq<Entry>)
    requires Enabled(cfg, s, l) && (l.SpillOk? || l.RequeueOk? || l.Expire?)
    ensures Gone(WalNext(cfg, s, l), read) <= Gone(s.wal, read) + OneIf(l.Expire?)
  {
    match l
    case SpillOk(now) => GoneAfterPut(s.wal, WalKeyFor(s, now), s.intake.msg, read);
    case RequeueOk(w, now) => GoneAfterPut(s.wal, WalKeyFor(s, now), s.workers[w].batch[s.workers[w].next], read);
    case Expire(key) => GoneAfterExpire(s.wal, key, read);
  }

  lemma GoneOnRead(cfg: Setup, s: State, l: Label)
    requires Enabled(cfg, s, l) && l.DrainRead?
    ensures GoneNow(Next(cfg, s, l)) == 0
  {
    var room := s.workers[l.w].room;
    ReadIsDistinct(s.wal, room);
    GoneAfterRead(s.wal, ReadEntries(s.wal, OldestKeys(s.wal, room)));
  }

  lemma GoneQuiet(cfg: Setup, s: State, l: Label)
    requires LockHeld(s) && Enabled(cfg, s, l)
    requires !l.SpillOk? && !l.RequeueOk? && !l.Expire? && !l.DrainRead? && !l.DrainDelete?
    ensures GoneNow(Next(cfg, s, l)) <= GoneNow(s)
  {
    if l.Actor().Some? {
      var w := l.Actor().value;
      assert s.workers[w].Draining? <==> s.walMu == Some(w);
      OthersStandStill(cfg, s, l, w);
    }
  }

  lemma OthersStandStill(cfg: Setup, s: State, l: Label, w: nat)
    requires Enabled(cfg, s, l) && l.Actor() == Some(w) && !l.DrainRead? && !l.DrainDelete?
    requires !l.SpillOk? && !l.RequeueOk? && !l.Expire?
    requires s.workers[w].Draining? <==> s.walMu == Some(w)
    ensures var t := Next(cfg, s, l);
            || t.walMu == None
            || (t.walMu == s.walMu && t.walMu != Some(w) && t.wal == s.wal
                && t.workers == s.workers[w := WorkerNext(cfg, s, l)])
  {}

  lemma GoneOnDelete(cfg: Setup, s: State, l: Label)
    requires LockHeld(s) && Enabled(cfg, s, l) && l.DrainDelete?
    ensures Gone(s.wal, s.workers[l.w].read) == GoneNow(s) && GoneNow(Next(cfg, s, l)) == 0
  {
    assert s.workers[l.w].Draining? <==> s.walMu == Some(l.w);
  }

  /** What one step adds to the two counters. */
  lemma RevivedCount(cfg: Setup, s: State, l: Label, c: Counts)
    requires Enabled(cfg, s, l) && !l.Crash?
    ensures Count(cfg, s, l, c).expired == c.expired + OneIf(l.Expire?)
    ensures Count(cfg, s, l, c).revived == c.revived + (if l.DrainDelete? then Gone(s.wal, s.workers[l.w].read) else 0)
  {}

  lemma GoneStep(cfg: Setup, s: State, l: Label)
    requires LockHeld(s) && Enabled(cfg, s, l)
    ensures (if l.DrainDelete? then Gone(s.wal, s.workers[l.w].read) else 0) + GoneNow(Next(cfg, s, l)) <=
            GoneNow(s) + OneIf(l.Expire?)
  {
    if l.SpillOk? || l.RequeueOk? || l.Expire? {
      GoneAfterWrite(cfg, s, l);
    } else if l.DrainRead? {
      GoneOnRead(cfg, s, l);
    } else if l.DrainDelete? {
      GoneOnDelete(cfg, s, l);
    } else {
      GoneQuiet(cfg, s, l);
    }
  }

  lemma CrashForgets(cfg: Setup, s: State, l: Label, c: Counts)
    requires Enabled(cfg, s, l) && l.Crash?
    ensures RevivedIdentity(Next(cfg, s, l), Count(cfg, s, l, c))
  {}

  lemma RevivedStep(cfg: Setup, s: State, l: Label, c: Counts)
    requires LockHeld(s) && Enabled(cfg, s, l) && RevivedIdentity(s, c)
    ensures RevivedIdentity(Next(cfg, s, l), Count(cfg, s, l, c))
  {
    if l.Crash? {
      CrashForgets(cfg, s, l, c);
    } else {
      RevivedCount(cfg, s, l, c);
      GoneStep(cfg, s, l);
    }
  }

  // ----- over every run -----

  ghost predicate Agree(s: State, c: Counts) {
    && RingIdentity(s, c) && LogIdentity(s, c) && AppendIdentity(c) && AckIdentity(s, c) && RowIdentity(s, c)
    && RevivedIdentity(s, c)
  }

  /** Over every run and any number of workers: Enqueued - Dequeued is the ring length; Appended less
      Drained is what the log holds, with the entries that expired undrained and the displaced ones;
      Appended is Spilled plus Requeued; acks are acceptances plus parse failures. */
  lemma {:induction false} CountersAgree(cfg: Setup, s0: State, ls: seq<Label>)
    requires Init(cfg, s0) && Legal(cfg, s0, ls)
    ensures Agree(Exec(cfg, s0, ls), Counted(cfg, s0, ls))
  {
    if ls != [] {
      var init := ls[..|ls| - 1];
      CountersAgree(cfg, s0, init);
      AlwaysShaped(cfg, s0, init);
      AlwaysLocked(cfg, s0, init);
      AgreeStep(cfg, Exec(cfg, s0, init), ls[|ls| - 1], Counted(cfg, s0, init));
    }
  }

  lemma AgreeStep(cfg: Setup, s: State, l: Label, c: Counts)
    requires Shaped(cfg, s) && LockHeld(s) && Enabled(cfg, s, l) && Agree(s, c)
    ensures Agree(Next(cfg, s, l), Count(cfg, s, l, c))
  {
    ShapedReadsDistinct(cfg, s);
    RingStep(cfg, s, l, c);
    LogStep(cfg, s, l, c);
    AppendStep(cfg, s, l, c);
    AckStep(cfg, s, l, c);
    RowStep(cfg, s, l, c);
    RevivedStep(cfg, s, l, c);
  }

  lemma SaneAppendDisplacesNothing(cfg: Setup, s: State, l: Label, c: Counts)
    requires Unclobbered(s) && Enabled(cfg, s, l) && SaneStep(s, l) && c.displaced == 0
    ensures Count(cfg, s, l, c).displaced == 0
  {
    match l
    case SpillOk(now) => AppendOwned(s, now, s.intake.msg);
    case RequeueOk(w, now) => AppendOwned(s, now, s.workers[w].batch[s.workers[w].next]);
    case _ =>
  }

  lemma {:induction false} SaneDisplacesNothing(cfg: Setup, s0: State, ls: seq<Label>)
    requires Init(cfg, s0) && Legal(cfg, s0, ls) && Sane(cfg, s0, ls)
    ensures Counted(cfg, s0, ls).displaced == 0
  {
    if ls != [] {
      var init := ls[..|ls| - 1];
      SaneDisplacesNothing(cfg, s0, init);
      AlwaysUnclobbered(cfg, s0, init);
      SaneAppendDisplacesNothing(cfg, Exec(cfg, s0, init), ls[|ls| - 1], Counted(cfg, s0, init));
    }
  }

  /** With a well-behaved clock: what was stored at open and appended since, less what was drained, is
      what the log holds and what expired before a drain delivered it. */
  lemma SaneLogIdentity(cfg: Setup, s0: State, ls: seq<Label>, s: State, c: Counts)
    requires Init(cfg, s0) && Legal(cfg, s0, ls) && Sane(cfg, s0, ls)
    requires s == Exec(cfg, s0, ls) && c == Counted(cfg, s0, ls)
    ensures c.walAtOpen + c.appended - c.drained == |s.wal| + (c.expired - c.revived)
    ensures 0 <= c.revived <= c.expired
  {
    SaneDisplacesNothing(cfg, s0, ls);
    CountersAgree(cfg, s0, ls);
    CleanLog(s, c);
  }

  lemma CleanLog(s: State, c: Counts)
    requires Agree(s, c) && c.displaced == 0
    ensures c.walAtOpen + c.appended - c.drained == |s.wal| + (c.expired - c.revived)
    ensures 0 <= c.revived <= c.expired
  {}

  lemma RowsBound(s: State, c: Counts)
    requires RowIdentity(s, c)
    ensures c.inserted <= |s.table| - c.rowsAtOpen
    ensures c.inserted == |s.table| - c.rowsAtOpen <==> c.ambiguousRows == 0
  {}

  /** The Inserted counter never exceeds the rows added since start, and falls short of them exactly
      when some commit that reported an error had added rows. */
  lemma InsertedBoundsRows(cfg: Setup, s0: State, ls: seq<Label>, s: State, c: Counts)
    requires Init(cfg, s0) && Legal(cfg, s0, ls) && s == Exec(cfg, s0, ls) && c == Counted(cfg, s0, ls)
    ensures c.inserted <= |s.table| - c.rowsAtOpen
    ensures c.inserted == |s.table| - c.rowsAtOpen <==> c.ambiguousRows == 0
  {
    CountersAgree(cfg, s0, ls);
    RowsBound(s, c);
  }
}
