/** Conservation over whole runs: what was accepted is live, stored, or lost at a named step. */
module Ledger {
  import opened Conservation
  import opened DeadLetter
  import opened Invariants
  import opened Messages
  import opened Numerals
  import opened Pipeline
  import opened Postgres
  import opened Wal
  import opened Wrappers

  /** Running totals for one message value. */
  datatype Books = Books(
    accepted: nat, acked: nat, doubled: nat, revived: nat, flushed: nat, buried: nat, lost: nat)

  ghost function Acked(s: State, l: Label, m: Message): nat {
    if l.Ack? && s.intake.Acking? then One(s.intake.msg, m) else 0
  }

  ghost function Enter(cfg: Setup, s: State, l: Label, m: Message, b: Books): Books
    requires Enabled(cfg, s, l)
  {
    Books(
      b.accepted + Accepted(cfg, s, l, m), b.acked + Acked(s, l, m),
      b.doubled + Doubled(cfg, s, l, m), b.revived + Revived(cfg, s, l, m),
      b.flushed + Flushed(cfg, s, l, m), b.buried + Buried(cfg, s, l, m), b.lost + Lost(cfg, s, l, m))
  }

  ghost function Tally(cfg: Setup, s0: State, ls: seq<Label>, m: Message): Books
    requires Legal(cfg, s0, ls)
  {
    if ls == [] then Books(0, 0, 0, 0, 0, 0, 0)
    else
      var init := ls[..|ls| - 1];
      Enter(cfg, Exec(cfg, s0, init), ls[|ls| - 1], m, Tally(cfg, s0, init, m))
  }

  // ----- the balance -----

  lemma NothingLiveAtStart(cfg: Setup, s: State, m: Message)
    requires Init(cfg, s)
    ensures Live(s, m) == 0
  {
    IdleHolds(s.workers, m);
    StoredMember(s.wal, m);
  }

  /** Every copy is accounted for, over any interleaving of any number of workers. */
  lemma {:induction false} Balance(cfg: Setup, s0: State, ls: seq<Label>, m: Message)
    requires Init(cfg, s0) && Legal(cfg, s0, ls)
    ensures var b := Tally(cfg, s0, ls, m);
            b.accepted + b.doubled + b.revived == Live(Exec(cfg, s0, ls), m) + b.flushed + b.buried + b.lost
  {
    if ls == [] {
      NothingLiveAtStart(cfg, s0, m);
    } else {
      var init := ls[..|ls| - 1];
      var s := Exec(cfg, s0, init);
      Balance(cfg, s0, init, m);
      AlwaysShaped(cfg, s0, init);
      ShapedReadsDistinct(cfg, s);
      StepFlows(cfg, s, ls[|ls| - 1], m);
    }
  }

  // ----- acknowledged messages -----

  ghost function Pending(s: State, m: Message): nat {
    if s.intake.Acking? then One(s.intake.msg, m) else 0
  }

  lemma AckStep(cfg: Setup, s: State, l: Label, m: Message)
    requires Enabled(cfg, s, l)
    ensures Acked(s, l, m) + Pending(Next(cfg, s, l), m) <= Pending(s, m) + Accepted(cfg, s, l, m)
  {}

  /** Nothing is acknowledged that the ring or the WAL did not accept first. */
  lemma {:induction false} AckedWereAccepted(cfg: Setup, s0: State, ls: seq<Label>, m: Message)
    requires Init(cfg, s0) && Legal(cfg, s0, ls)
    ensures var b := Tally(cfg, s0, ls, m); b.acked + Pending(Exec(cfg, s0, ls), m) <= b.accepted
  {
    if ls != [] {
      var init := ls[..|ls| - 1];
      AckedWereAccepted(cfg, s0, init, m);
      AckStep(cfg, Exec(cfg, s0, init), ls[|ls| - 1], m);
    }
  }

  // ----- flushed means present in the table, buried means present in the bucket -----

  ghost predicate InBucket(b: Bucket, dedupKey: string) {
    exists k :: k in b && b[k].dedupKey == dedupKey
  }

  lemma TableOnlyGrows(cfg: Setup, s: State, l: Label)
    requires Enabled(cfg, s, l)
    ensures Extends(s.table, Next(cfg, s, l).table)
  {
    if l.CopyOk? || l.CopyFail? { InsertBatchRows(s.table, s.workers[l.w].batch); }
  }

  lemma FlushedIsInTable(cfg: Setup, s: State, l: Label, m: Message)
    requires Enabled(cfg, s, l) && Flushed(cfg, s, l, m) > 0
    ensures m.dedupKey in Next(cfg, s, l).table
  {
    var batch := s.workers[l.w].batch;
    TimesMember(batch, m);
    InsertBatchKeys(s.table, batch);
    assert m.dedupKey in KeysOf(batch);
  }

  lemma {:induction false} FlushedStaysInTable(cfg: Setup, s0: State, ls: seq<Label>, m: Message)
    requires Init(cfg, s0) && Legal(cfg, s0, ls) && Tally(cfg, s0, ls, m).flushed > 0
    ensures m.dedupKey in Exec(cfg, s0, ls).table
  {
    var init := ls[..|ls| - 1];
    var s, l := Exec(cfg, s0, init), ls[|ls| - 1];
    TableOnlyGrows(cfg, s, l);
    if Flushed(cfg, s, l, m) > 0 {
      FlushedIsInTable(cfg, s, l, m);
    } else {
      FlushedStaysInTable(cfg, s0, init, m);
    }
  }

  /** An object is only ever replaced by one with the same dedup key. */
  lemma PutKeepsDedupKeys(b: Bucket, date: string, m: Message, i: uint64, dedupKey: string)
    requires BucketSound(b) && WellKeyed(m) && InBucket(b, dedupKey)
    ensures InBucket(b[ObjectKey(date, m, i) := m], dedupKey)
  {
    var key := ObjectKey(date, m, i);
    var k :| k in b && b[k].dedupKey == dedupKey;
    if k == key {
      assert IsObject(k, b[k]);
      var d, j :| k == ObjectKey(d, b[k], j);
      SameObjectSameDedupKey(date, m, i, d, b[k], j);
    }
    PutFound(b, key, m, k);
  }

  lemma PutFound(b: Bucket, key: string, m: Message, k: string)
    requires k in b && (k == key ==> m.dedupKey == b[k].dedupKey)
    ensures InBucket(b[key := m], b[k].dedupKey)
  {
    assert k in b[key := m];
  }

  lemma BucketKeepsDedupKeys(cfg: Setup, s: State, l: Label, dedupKey: string)
    requires Keyed(s) && Enabled(cfg, s, l) && InBucket(s.bucket, dedupKey)
    ensures InBucket(BucketNext(cfg, s, l), dedupKey)
  {
    if l.BuryOk? {
      var m := BuryKeyed(cfg, s, l);
      PutKeepsDedupKeys(s.bucket, l.date, m, NextSinkSeq(s.sinkSeq), dedupKey);
    }
  }

  lemma BuryKeyed(cfg: Setup, s: State, l: Label) returns (m: Message)
    requires CrewIn(s.workers, KeyedMessages()) && Enabled(cfg, s, l) && l.BuryOk?
    ensures m == s.workers[l.w].batch[s.workers[l.w].next] && WellKeyed(m)
  {
    assert WorkerIn(s.workers[l.w], KeyedMessages());
    m := s.workers[l.w].batch[s.workers[l.w].next];
    assert m in KeyedMessages();
  }

  lemma BuriedIsInBucket(cfg: Setup, s: State, l: Label, m: Message)
    requires Enabled(cfg, s, l) && Buried(cfg, s, l, m) > 0
    ensures InBucket(BucketNext(cfg, s, l), m.dedupKey)
  {
    PutThere(s.bucket, ObjectKey(l.date, m, NextSinkSeq(s.sinkSeq)), m);
  }

  lemma PutThere(b: Bucket, key: string, m: Message)
    ensures InBucket(b[key := m], m.dedupKey)
  {
    assert key in b[key := m];
  }

  lemma {:induction false} BuriedStaysInBucket(cfg: Setup, s0: State, ls: seq<Label>, m: Message)
    requires Init(cfg, s0) && Legal(cfg, s0, ls) && Tally(cfg, s0, ls, m).buried > 0
    ensures InBucket(Exec(cfg, s0, ls).bucket, m.dedupKey)
  {
    var init := ls[..|ls| - 1];
    var s, l := Exec(cfg, s0, init), ls[|ls| - 1];
    if Buried(cfg, s, l, m) > 0 {
      BuriedIsInBucket(cfg, s, l, m);
    } else {
      BuriedStaysInBucket(cfg, s0, init, m);
      AlwaysKeyed(cfg, s0, init);
      BucketKeepsDedupKeys(cfg, s, l, m.dedupKey);
    }
  }

  // ----- retention -----

  ghost predicate InPipeline(s: State, m: Message) {
    m in s.ring || m in s.wal.Values || exists w :: InHand(s.workers, w, m)
  }

  lemma LiveIsSomewhere(s: State, m: Message)
    requires Live(s, m) > 0
    ensures InPipeline(s, m)
  {
    TimesMember(s.ring, m);
    StoredMember(s.wal, m);
    if Held(s.workers, m) > 0 { var w := HeldMember(s.workers, m); }
  }

  /** Step `i` of the run lost a copy of `m`. */
  ghost predicate LostAt(cfg: Setup, s0: State, ls: seq<Label>, m: Message, i: nat)
    requires Legal(cfg, s0, ls)
  {
    && i < |ls|
    && Legal(cfg, s0, ls[..i]) && Enabled(cfg, Exec(cfg, s0, ls[..i]), ls[i])
    && Lost(cfg, Exec(cfg, s0, ls[..i]), ls[i], m) > 0
  }

  lemma {:induction false} LossHasAStep(cfg: Setup, s0: State, ls: seq<Label>, m: Message) returns (i: nat)
    requires Legal(cfg, s0, ls) && Tally(cfg, s0, ls, m).lost > 0
    ensures LostAt(cfg, s0, ls, m, i)
  {
    var init := ls[..|ls| - 1];
    if Lost(cfg, Exec(cfg, s0, init), ls[|ls| - 1], m) > 0 {
      i := |ls| - 1;
    } else {
      i := LossHasAStep(cfg, s0, init, m);
      assert init[..i] == ls[..i] && init[i] == ls[i];
    }
  }

  /** The durability promise the code does keep: in every run, an acknowledged message is still in
      the ring, the WAL or a worker's hands, or its dedup key is in the table or the bucket, or
      some step of the run is one of those that `Lost` names, and lost a copy of it. */
  lemma AckedIsRetainedOrNamedLost(cfg: Setup, s0: State, ls: seq<Label>, m: Message)
    requires Init(cfg, s0) && Legal(cfg, s0, ls) && Tally(cfg, s0, ls, m).acked > 0
    ensures var s := Exec(cfg, s0, ls);
            || InPipeline(s, m)
            || m.dedupKey in s.table
            || InBucket(s.bucket, m.dedupKey)
            || exists i :: LostAt(cfg, s0, ls, m, i)
  {
    var b := Tally(cfg, s0, ls, m);
    var s := Exec(cfg, s0, ls);
    AckedWereAccepted(cfg, s0, ls, m);
    Balance(cfg, s0, ls, m);
    if Live(s, m) > 0 {
      LiveIsSomewhere(s, m);
    } else if b.flushed > 0 {
      FlushedStaysInTable(cfg, s0, ls, m);
    } else if b.buried > 0 {
      BuriedStaysInBucket(cfg, s0, ls, m);
    } else {
      var i := LossHasAStep(cfg, s0, ls, m);
    }
  }

  /** A row under a message's key came from the same device at the same nanosecond. */
  lemma RowSharesDeviceAndTime(cfg: Setup, s0: State, ls: seq<Label>, m: Message)
    requires Init(cfg, s0) && Legal(cfg, s0, ls) && WellKeyed(m)
    requires m.dedupKey in Exec(cfg, s0, ls).table
    ensures var row := Exec(cfg, s0, ls).table[m.dedupKey];
            row.device == m.device && row.receivedAt == m.receivedAt
  {
    AlwaysKeyed(cfg, s0, ls);
    var row := Exec(cfg, s0, ls).table[m.dedupKey];
    DedupKeyInjective(row.device, row.receivedAt, m.device, m.receivedAt);
  }

  // ----- no copy is invented -----

  /** Copies a drain has read but would no longer find. */
  ghost function Absent(s: State, m: Message): nat {
    if s.walMu.Some? && s.walMu.value < |s.workers| && s.workers[s.walMu.value].Draining?
    then Missing(s.wal, s.workers[s.walMu.value].read, m)
    else 0
  }

  lemma {:induction false} MissingAfterChange(a: Log, b: Log, key: string, read: seq<Entry>, m: Message)
    requires DistinctKeys(read) && a - {key} == b - {key}
    ensures Missing(b, read, m) <= Missing(a, read, m) + At(a, key, m)
  {
    if read != [] {
      HeadKeyFresh(read);
      SameElsewhere(a, b, key);
      if read[0].key == key {
        DrainAgrees(a, b, read[1..], m);
      } else {
        MissingAfterChange(a, b, key, read[1..], m);
      }
    }
  }

  lemma SameElsewhere(a: Log, b: Log, key: string)
    requires a - {key} == b - {key}
    ensures forall k :: k != key ==> (k in a <==> k in b) && (k in a ==> a[k] == b[k])
  {
    forall k | k != key
      ensures (k in a <==> k in b) && (k in a ==> a[k] == b[k])
    {
      assert k in a <==> k in a - {key};
      assert k in b <==> k in b - {key};
      if k in a { assert (a - {key})[k] == (b - {key})[k]; }
    }
  }

  lemma {:induction false} NothingMissing(log: Log, read: seq<Entry>, m: Message)
    requires forall e :: e in read ==> Intact(log, e)
    ensures Missing(log, read, m) == 0
  {
    if read != [] { NothingMissing(log, read[1..], m); }
  }

  /** The log changes at one key only, and the draining worker, if any, stands still. */
  lemma AbsentAfterChange(s: State, t: State, m: Message, key: string)
    requires t.walMu == s.walMu && t.wal - {key} == s.wal - {key} && ReadsDistinct(s)
    requires s.walMu.Some? ==> s.walMu.value < |s.workers| == |t.workers|
                               && t.workers[s.walMu.value] == s.workers[s.walMu.value]
    ensures Absent(t, m) <= Absent(s, m) + At(s.wal, key, m)
  {
    if s.walMu.Some? && s.workers[s.walMu.value].Draining? {
      MissingAfterChange(s.wal, t.wal, key, s.workers[s.walMu.value].read, m);
    }
  }

  lemma OneKeyChanges(log: Log, key: string, m: Message)
    ensures log[key := m] - {key} == log - {key} && (log - {key}) - {key} == log - {key}
  {}

  /** Writes and expiries by others, seen from the worker that is draining. */
  lemma AbsentAfterWrite(cfg: Setup, s: State, l: Label, m: Message)
    requires Shaped(cfg, s) && LockHeld(s) && Enabled(cfg, s, l)
    requires l.SpillOk? || l.RequeueOk? || l.Expire?
    ensures Absent(Next(cfg, s, l), m) <= Absent(s, m) + Lost(cfg, s, l, m)
  {
    ShapedReadsDistinct(cfg, s);
    DrainerStandsStill(cfg, s, l);
    var key := if l.Expire? then l.key else WalKeyFor(s, l.now);
    OneKeyChanges(s.wal, key, if l.SpillOk? then s.intake.msg else m);
    if l.RequeueOk? { OneKeyChanges(s.wal, key, s.workers[l.w].batch[s.workers[l.w].next]); }
    AbsentAfterChange(s, Next(cfg, s, l), m, key);
  }

  lemma DrainerStandsStill(cfg: Setup, s: State, l: Label)
    requires LockHeld(s) && Enabled(cfg, s, l) && (l.SpillOk? || l.RequeueOk? || l.Expire?)
    ensures var t := Next(cfg, s, l);
            && t.walMu == s.walMu
            && (s.walMu.Some? ==> s.walMu.value < |s.workers| == |t.workers|
                                  && t.workers[s.walMu.value] == s.workers[s.walMu.value])
  {
    if l.RequeueOk? { assert s.workers[l.w].Draining? <==> s.walMu == Some(l.w); }
  }

  lemma AbsentStep(cfg: Setup, s: State, l: Label, m: Message)
    requires Shaped(cfg, s) && LockHeld(s) && Enabled(cfg, s, l)
    ensures Revived(cfg, s, l, m) + Absent(Next(cfg, s, l), m) <= Absent(s, m) + Lost(cfg, s, l, m)
  {
    match l
    case SpillOk(_) => AbsentAfterWrite(cfg, s, l, m);
    case RequeueOk(_, _) => AbsentAfterWrite(cfg, s, l, m);
    case Expire(_) => AbsentAfterWrite(cfg, s, l, m);
    case DrainRead(w) => AbsentAfterRead(cfg, s, l, m);
    case _ => AbsentQuiet(cfg, s, l, m);
  }

  lemma AbsentAfterRead(cfg: Setup, s: State, l: Label, m: Message)
    requires Enabled(cfg, s, l) && l.DrainRead?
    ensures Absent(Next(cfg, s, l), m) == 0
  {
    var room := s.workers[l.w].room;
    ReadIsDistinct(s.wal, room);
    NothingMissing(s.wal, ReadEntries(s.wal, OldestKeys(s.wal, room)), m);
  }

  lemma AbsentQuiet(cfg: Setup, s: State, l: Label, m: Message)
    requires LockHeld(s) && Enabled(cfg, s, l)
    requires !l.SpillOk? && !l.RequeueOk? && !l.Expire? && !l.DrainRead?
    ensures Revived(cfg, s, l, m) + Absent(Next(cfg, s, l), m) <= Absent(s, m)
  {
    if l.Actor().Some? {
      var w := l.Actor().value;
      assert s.workers[w].Draining? <==> s.walMu == Some(w);
    }
  }

  lemma {:induction false} RevivedWereLost(cfg: Setup, s0: State, ls: seq<Label>, m: Message)
    requires Init(cfg, s0) && Legal(cfg, s0, ls)
    ensures var b := Tally(cfg, s0, ls, m); b.revived + Absent(Exec(cfg, s0, ls), m) <= b.lost
  {
    if ls != [] {
      var init := ls[..|ls| - 1];
      RevivedWereLost(cfg, s0, init, m);
      AlwaysShaped(cfg, s0, init);
      AlwaysLocked(cfg, s0, init);
      AbsentStep(cfg, Exec(cfg, s0, init), ls[|ls| - 1], m);
    }
  }

  /** At most one copy per acceptance, except for the part of a batch that a failed requeue left
      in the WAL: no interleaving of drains, retries and requeues delivers a message twice. */
  lemma NoExtraCopies(cfg: Setup, s0: State, ls: seq<Label>, m: Message)
    requires Init(cfg, s0) && Legal(cfg, s0, ls)
    ensures var b := Tally(cfg, s0, ls, m);
            Live(Exec(cfg, s0, ls), m) + b.flushed + b.buried <= b.accepted + b.doubled
  {
    Balance(cfg, s0, ls, m);
    RevivedWereLost(cfg, s0, ls, m);
  }
}
