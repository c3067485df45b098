/** Runs that lose an acknowledged message, and the exact conditions under which none is lost. */
module Losses {
  import opened Buffer
  import opened ByteOrder
  import opened Conservation
  import opened Counters
  import opened FlushSpec
  import opened Ledger
  import opened Messages
  import opened Numerals
  import opened Postgres
  import opened PullSpec
  import opened Runs
  import opened Subscriber
  import opened Wal
  import opened WalKeys
  import opened Wrappers
  import P = Pipeline

  /** Nothing anywhere holds the message or a row or an object with its key. */
  ghost predicate GoneForGood(s: P.State, m: Message) {
    Conservation.Live(s, m) == 0 && m.dedupKey !in s.table && !InBucket(s.bucket, m.dedupKey)
  }

  /** No row and no object with the message's key. */
  ghost predicate Unknown(s: P.State, m: Message) {
    m.dedupKey !in s.table && !InBucket(s.bucket, m.dedupKey)
  }

  // ----- following one message along a run -----

  /** `ls` leads from the start to `p`, with `m` acknowledged `n` times. */
  ghost predicate Played(cfg: P.Setup, s0: P.State, ls: seq<P.Label>, p: Point, m: Message, n: nat) {
    && Since(cfg, s0, ls, p)
    && forall k :: k == ls ==> P.Legal(cfg, s0, k) && Tally(cfg, s0, k, m).acked == n
  }

  lemma PlayedIs(cfg: P.Setup, s0: P.State, ls: seq<P.Label>, p: Point, m: Message, n: nat)
    requires Played(cfg, s0, ls, p, m, n)
    ensures P.Legal(cfg, s0, ls) && P.Exec(cfg, s0, ls) == p.state && Tally(cfg, s0, ls, m).acked == n
  {
    SinceIs(cfg, s0, ls, p);
  }

  lemma PlayNothing(cfg: P.Setup, s0: P.State, m: Message) returns (p: Point)
    ensures Played(cfg, s0, [], p, m, 0) && p.state == s0
  {
    p := Point(s0, Fresh(|s0.wal|, |s0.table|));
    ReachesItself(cfg, p);
  }

  lemma PlayOne(cfg: P.Setup, s0: P.State, ls: seq<P.Label>, p: Point, m: Message, n: nat, l: P.Label, q: Point)
    requires Played(cfg, s0, ls, p, m, n) && P.Enabled(cfg, p.state, l)
    requires q == Point(P.Next(cfg, p.state, l), Count(cfg, p.state, l, p.counts))
    ensures Played(cfg, s0, ls + [l], q, m, n + Acked(p.state, l, m))
  {
    PlayedIs(cfg, s0, ls, p, m, n);
    Advance(cfg, Point(s0, Fresh(|s0.wal|, |s0.table|)), ls, p, l, q);
    P.Extend(cfg, s0, ls, l);
    assert (ls + [l])[..|ls|] == ls;
  }

  lemma PlayQuiet(cfg: P.Setup, s0: P.State, ls: seq<P.Label>, p: Point, m: Message, n: nat, l: P.Label, q: Point)
    requires Played(cfg, s0, ls, p, m, n) && P.Enabled(cfg, p.state, l) && l != P.Ack
    requires q == Point(P.Next(cfg, p.state, l), Count(cfg, p.state, l, p.counts))
    ensures Played(cfg, s0, ls + [l], q, m, n)
  {
    PlayOne(cfg, s0, ls, p, m, n, l, q);
  }

  lemma PlayAck(cfg: P.Setup, s0: P.State, ls: seq<P.Label>, p: Point, m: Message, n: nat) returns (q: Point)
    requires Played(cfg, s0, ls, p, m, n) && p.state.intake == P.Acking(m)
    ensures Played(cfg, s0, ls + [P.Ack], q, m, n + 1) && q.state == p.state.(intake := P.Free)
  {
    q := AcknowledgeStep(cfg, p, m);
    PlayOne(cfg, s0, ls, p, m, n, P.Ack, q);
  }

  lemma LastOfRun(cfg: P.Setup, p: Point, ls: seq<P.Label>, q: Point) returns (mid: Point)
    requires Reaches(cfg, p, ls, q) && ls != []
    ensures Reaches(cfg, p, ls[..|ls| - 1], mid) && P.Enabled(cfg, mid.state, ls[|ls| - 1])
    ensures q == Point(P.Next(cfg, mid.state, ls[|ls| - 1]), Count(cfg, mid.state, ls[|ls| - 1], mid.counts))
  {
    var init := ls[..|ls| - 1];
    ReachesIsTrace(cfg, p, ls, q);
    mid := Point(P.Exec(cfg, p.state, init), CountAlong(cfg, p.state, init, p.counts));
    ReachesIsTrace(cfg, p, init, mid);
  }

  /** A stretch without acknowledgements. */
  lemma {:induction false} PlayOn(cfg: P.Setup, s0: P.State, ls: seq<P.Label>, p: Point, m: Message, n: nat,
                                  more: seq<P.Label>, q: Point)
    requires Played(cfg, s0, ls, p, m, n) && Reaches(cfg, p, more, q) && P.Ack !in more
    ensures Played(cfg, s0, ls + more, q, m, n)
  {
    if more == [] {
      ReachesIsTrace(cfg, p, more, q);
      assert ls + more == ls;
    } else {
      var init, l := more[..|more| - 1], more[|more| - 1];
      var mid := LastOfRun(cfg, p, more, q);
      PlayOn(cfg, s0, ls, p, m, n, init, mid);
      PlayQuiet(cfg, s0, ls + init, mid, m, n, l, q);
      assert ls + more == (ls + init) + [l];
    }
  }

  // ----- an acknowledged message, in memory or in the WAL -----

  /** The ring takes the message and it is acknowledged; nothing else happens. */
  lemma AckedInRing(cfg: P.Setup, s0: P.State, pre: seq<P.Label>, p: Point, m: Message, n: nat,
                    topic: string, payload: seq<byte>, now: int64) returns (ls: seq<P.Label>, q: Point)
    requires Played(cfg, s0, pre, p, m, n) && p.state.intake == P.Free
    requires P.Incoming(cfg, topic, payload, now) == Some(m) && Accepts(cfg.limits, p.state.ring, m)
    ensures Played(cfg, s0, pre + ls, q, m, n + 1) && q.state == p.state.(ring := p.state.ring + [m])
  {
    var l, b := ArriveStep(cfg, p, topic, payload, now, m);
    PlayQuiet(cfg, s0, pre, p, m, n, l, b);
    q := PlayAck(cfg, s0, pre + [l], b, m, n);
    ls := [l, P.Ack];
    assert pre + [l] + [P.Ack] == pre + ls;
  }

  /** The ring refuses the message, whatever it holds; the WAL takes it, and it is acknowledged. */
  lemma AckedInWal(cfg: P.Setup, s0: P.State, pre: seq<P.Label>, p: Point, m: Message, n: nat,
                   topic: string, payload: seq<byte>, now: int64, at: int64)
    returns (ls: seq<P.Label>, q: Point, key: string)
    requires Played(cfg, s0, pre, p, m, n) && p.state.intake == P.Free && cfg.hasWal
    requires P.Incoming(cfg, topic, payload, now) == Some(m) && !Accepts(cfg.limits, p.state.ring, m)
    ensures Played(cfg, s0, pre + ls, q, m, n + 1)
    ensures q.state == p.state.(walSeq := NextSeq(p.state.walSeq), wal := p.state.wal[key := m])
  {
    key := KeyAt(at, NextSeq(p.state.walSeq));
    var l, b := ArriveStep(cfg, p, topic, payload, now, m);
    PlayQuiet(cfg, s0, pre, p, m, n, l, b);
    var x, c := SpillStep(cfg, b, m, true, at);
    PlayQuiet(cfg, s0, pre + [l], b, m, n, x, c);
    q := PlayAck(cfg, s0, pre + [l] + [x], c, m, n);
    ls := [l, x, P.Ack];
    assert pre + [l] + [x] + [P.Ack] == pre + ls;
  }

  /** The acknowledgement comes before the insert, for every message that the ring takes, whenever. */
  lemma AckBeforeInsert(cfg: P.Setup, s0: P.State, pre: seq<P.Label>, p: Point, m: Message, n: nat,
                        topic: string, payload: seq<byte>, now: int64) returns (ls: seq<P.Label>)
    requires Played(cfg, s0, pre, p, m, n) && p.state.intake == P.Free && m.dedupKey !in p.state.table
    requires P.Incoming(cfg, topic, payload, now) == Some(m) && Accepts(cfg.limits, p.state.ring, m)
    ensures P.Legal(cfg, s0, pre + ls) && Tally(cfg, s0, pre + ls, m).acked == n + 1
    ensures m.dedupKey !in P.Exec(cfg, s0, pre + ls).table
  {
    var q;
    ls, q := AckedInRing(cfg, s0, pre, p, m, n, topic, payload, now);
    PlayedIs(cfg, s0, pre + ls, q, m, n + 1);
  }

  // ----- what a crash keeps -----

  /** A crash keeps exactly the messages that the WAL holds at that moment, whoever was flushing what. */
  lemma CrashKeepsTheWal(cfg: P.Setup, s: P.State, at: int64, m: Message)
    ensures Conservation.Live(P.Next(cfg, s, P.Crash(at)), m) == Conservation.Stored(s.wal, m)
  {
    IdleHolds(P.AllIdle(|s.workers|), m);
  }

  /** The run acknowledges the message `n` times and leaves no trace of it; quantified so that proofs can pass
      it on. */
  ghost predicate EndsLost(cfg: P.Setup, s0: P.State, ls: seq<P.Label>, m: Message, n: nat) {
    forall k :: k == ls ==>
      P.Legal(cfg, s0, k) && Tally(cfg, s0, k, m).acked == n && GoneForGood(P.Exec(cfg, s0, k), m)
  }

  lemma EndsLostIs(cfg: P.Setup, s0: P.State, ls: seq<P.Label>, m: Message, n: nat)
    requires EndsLost(cfg, s0, ls, m, n)
    ensures P.Legal(cfg, s0, ls) && Tally(cfg, s0, ls, m).acked == n && GoneForGood(P.Exec(cfg, s0, ls), m)
  {}

  lemma CrashEnds(cfg: P.Setup, s0: P.State, ls: seq<P.Label>, p: Point, m: Message, n: nat, at: int64)
    requires Played(cfg, s0, ls, p, m, n) && m !in p.state.wal.Values && Unknown(p.state, m)
    ensures EndsLost(cfg, s0, ls + [P.Crash(at)], m, n)
  {
    var l := P.Crash(at);
    var q := Point(P.Next(cfg, p.state, l), Count(cfg, p.state, l, p.counts));
    PlayOne(cfg, s0, ls, p, m, n, l, q);
    PlayedIs(cfg, s0, ls + [l], q, m, n);
    CrashKeepsTheWal(cfg, p.state, at, m);
    StoredMember(p.state.wal, m);
  }

  /** Wherever a run stands: a message that the ring takes can be acknowledged and then lost in a crash. */
  lemma CrashLosesAckedInRing(cfg: P.Setup, s0: P.State, pre: seq<P.Label>, p: Point, m: Message, n: nat,
                              topic: string, payload: seq<byte>, now: int64, at: int64) returns (ls: seq<P.Label>)
    requires Played(cfg, s0, pre, p, m, n) && p.state.intake == P.Free
    requires P.Incoming(cfg, topic, payload, now) == Some(m) && Accepts(cfg.limits, p.state.ring, m)
    requires Unknown(p.state, m) && m !in p.state.wal.Values
    ensures P.Legal(cfg, s0, pre + ls) && Tally(cfg, s0, pre + ls, m).acked == n + 1
    ensures GoneForGood(P.Exec(cfg, s0, pre + ls), m)
  {
    var q;
    ls, q := AckedInRing(cfg, s0, pre, p, m, n, topic, payload, now);
    CrashEnds(cfg, s0, pre + ls, q, m, n + 1, at);
    assert pre + ls + [P.Crash(at)] == pre + (ls + [P.Crash(at)]);
    ls := ls + [P.Crash(at)];
    EndsLostIs(cfg, s0, pre + ls, m, n + 1);
  }

  lemma NoAckInPull(hasWal: bool, w: nat, elevated: bool, ring: seq<Message>, log: Log, want: nat, fault: DrainFault)
    ensures P.Ack !in PullLabels(hasWal, w, elevated, ring, log, want, fault)
  {}

  /** Nothing else in the ring or the WAL shares the key of the message stored under `key`. */
  ghost predicate Alone(s: P.State, m: Message, key: string) {
    && key in s.wal && s.wal[key] == m
    && (forall x :: x in s.ring ==> x.dedupKey != m.dedupKey)
    && (forall k :: k in s.wal && k != key ==> s.wal[k].dedupKey != m.dedupKey)
  }

  /** One pull of worker `w`, with nothing going wrong. */
  lemma PlayPull(cfg: P.Setup, s0: P.State, ls: seq<P.Label>, p: Point, m: Message, n: nat, w: nat)
    returns (more: seq<P.Label>, ks: seq<string>, q: Point)
    requires Played(cfg, s0, ls, p, m, n) && p.state.walMu == None
    requires w < |p.state.workers| && p.state.workers[w] == P.Idle
    ensures Played(cfg, s0, ls + more, q, m, n)
    ensures var room := cfg.batchSize - TakeCount(cfg.batchSize, |p.state.ring|);
            TopUpIs(ks, cfg.hasWal, p.state.wal, room, DrainFault(false, false))
    ensures Pulled(p, w, cfg.batchSize, ks, q)
  {
    var fault := DrainFault(false, false);
    var room := cfg.batchSize - TakeCount(cfg.batchSize, |p.state.ring|);
    ks := TopUpKeys(cfg.hasWal, p.state.wal, room, fault);
    TopUpOf(ks, cfg.hasWal, p.state.wal, room, fault);
    q := PullRun(cfg, p, w, false, fault, ks);
    more := PullLabels(cfg.hasWal, w, false, p.state.ring, p.state.wal, cfg.batchSize, fault);
    NoAckInPull(cfg.hasWal, w, false, p.state.ring, p.state.wal, cfg.batchSize, fault);
    PlayOn(cfg, s0, ls, p, m, n, more, q);
  }

  lemma {:induction false} StoredMessages(log: Log, ks: seq<string>, x: Message)
    requires (forall k :: k in ks ==> k in log) && x in MessagesAt(log, ks)
    ensures exists k :: k in ks && log[k] == x
  {
    if x == log[ks[0]] {
      assert ks[0] in ks;
    } else {
      StoredMessages(log, ks[1..], x);
      var k :| k in ks[1..] && log[k] == x;
      assert k in ks;
    }
  }

  /** A batch that does not hold the entry holds no message with its key. */
  lemma BatchIsForeign(s: P.State, m: Message, key: string, want: nat, ks: seq<string>)
    requires Alone(s, m, key) && (forall k :: k in ks ==> k in s.wal) && key !in ks
    ensures m.dedupKey !in KeysOf(PulledBatch(s.ring, s.wal, want, ks))
  {
    var k := TakeCount(want, |s.ring|);
    forall x | x in PulledBatch(s.ring, s.wal, want, ks)
      ensures x.dedupKey != m.dedupKey
    {
      if x in s.ring[..k] {
        assert x in s.ring;
      } else {
        StoredMessages(s.wal, ks, x);
      }
    }
  }

  /** A pull takes something as long as something is stored. */
  lemma PullMoves(log: Log, ring: seq<Message>, want: nat, ks: seq<string>)
    requires want > 0 && |log| > 0
    requires TopUpIs(ks, true, log, want - TakeCount(want, |ring|), DrainFault(false, false))
    ensures TakeCount(want, |ring|) > 0 || ks != []
  {
    TopUpOf(ks, true, log, want - TakeCount(want, |ring|), DrainFault(false, false));
  }

  lemma Smaller(log: Log, ks: seq<string>)
    requires (forall k :: k in ks ==> k in log)
    ensures |log - Elements(ks)| <= |log| && (ks != [] ==> |log - Elements(ks)| < |log|)
  {
    var after := log - Elements(ks);
    assert after.Keys <= log.Keys && log.Keys == after.Keys + (log.Keys - after.Keys);
    assert |after.Keys| + |log.Keys - after.Keys| == |log.Keys|;
    if ks != [] { assert ks[0] in log.Keys - after.Keys; }
  }

  /** A batch inserted at once, back to idle. */
  lemma PlayInsert(cfg: P.Setup, s0: P.State, ls: seq<P.Label>, p: Point, m: Message, n: nat, w: nat,
                   batch: seq<Message>)
    returns (q: Point)
    requires Played(cfg, s0, ls, p, m, n) && w < |p.state.workers| && p.state.workers[w] == P.Copying(batch, 0)
    requires Unknown(p.state, m) && m.dedupKey !in KeysOf(batch)
    ensures Played(cfg, s0, ls + [P.CopyOk(w)], q, m, n) && Unknown(q.state, m)
    ensures q.state == p.state.(workers := p.state.workers[w := P.Idle], table := q.state.table)
  {
    q := CopyOkStep(cfg, p, w, batch, 0);
    PlayQuiet(cfg, s0, ls, p, m, n, P.CopyOk(w), q);
    InsertBatchKeys(p.state.table, batch);
  }

  lemma AloneKept(s: P.State, t: P.State, m: Message, key: string, k: nat, ks: seq<string>)
    requires Alone(s, m, key) && key !in ks && k <= |s.ring|
    requires t.ring == s.ring[k..] && t.wal == s.wal - Elements(ks)
    ensures Alone(t, m, key)
  {}

  /** The insert of a batch that does not hold the entry, after its pull. */
  lemma PlayForeign(cfg: P.Setup, s0: P.State, ls: seq<P.Label>, p: Point, a: Point, m: Message, n: nat,
                    key: string, w: nat, ks: seq<string>) returns (q: Point)
    requires cfg.Valid() && cfg.hasWal && Played(cfg, s0, ls, a, m, n) && p.state.walMu == None
    requires w < |p.state.workers| && p.state.workers[w] == P.Idle
    requires Unknown(p.state, m) && Alone(p.state, m, key) && key !in ks
    requires var room := cfg.batchSize - TakeCount(cfg.batchSize, |p.state.ring|);
             TopUpIs(ks, true, p.state.wal, room, DrainFault(false, false))
    requires Pulled(p, w, cfg.batchSize, ks, a)
    ensures Played(cfg, s0, ls + [P.CopyOk(w)], q, m, n)
    ensures q.state.walMu == None && w < |q.state.workers| && q.state.workers[w] == P.Idle
    ensures Unknown(q.state, m) && Alone(q.state, m, key)
    ensures |q.state.ring| + |q.state.wal| < |p.state.ring| + |p.state.wal|
  {
    var s, k := p.state, TakeCount(cfg.batchSize, |p.state.ring|);
    BatchIsForeign(s, m, key, cfg.batchSize, ks);
    assert |s.wal| > 0;
    PullMoves(s.wal, s.ring, cfg.batchSize, ks);
    Smaller(s.wal, ks);
    q := PlayInsert(cfg, s0, ls, a, m, n, w, PulledBatch(s.ring, s.wal, cfg.batchSize, ks));
    AloneKept(s, q.state, m, key, k, ks);
  }

  /** Worker `w` pulls and inserts batch after batch, until it holds the message stored under `key`. */
  lemma {:induction false} PlayUntilPulled(cfg: P.Setup, s0: P.State, ls: seq<P.Label>, p: Point, m: Message, n: nat,
                                           key: string, w: nat) returns (more: seq<P.Label>, q: Point)
    requires cfg.Valid() && cfg.hasWal && Played(cfg, s0, ls, p, m, n) && p.state.walMu == None
    requires w < |p.state.workers| && p.state.workers[w] == P.Idle
    requires Unknown(p.state, m) && Alone(p.state, m, key)
    ensures Played(cfg, s0, ls + more, q, m, n) && Unknown(q.state, m) && m !in q.state.wal.Values
    decreases |p.state.ring| + |p.state.wal|
  {
    var ks, a;
    more, ks, a := PlayPull(cfg, s0, ls, p, m, n, w);
    if key in ks {
      q := a;
      EntryTaken(p.state, m, key, ks);
    } else {
      var b := PlayForeign(cfg, s0, ls + more, p, a, m, n, key, w, ks);
      var last;
      last, q := PlayUntilPulled(cfg, s0, ls + more + [P.CopyOk(w)], b, m, n, key, w);
      JoinLabels(ls, more, [P.CopyOk(w)], last);
      more := more + [P.CopyOk(w)] + last;
    }
  }

  lemma JoinLabels(a: seq<P.Label>, b: seq<P.Label>, c: seq<P.Label>, d: seq<P.Label>)
    ensures a + b + c + d == a + (b + c + d)
  {}

  lemma EntryTaken(s: P.State, m: Message, key: string, ks: seq<string>)
    requires Alone(s, m, key) && key in ks
    ensures m !in (s.wal - Elements(ks)).Values
  {}

  /** Wherever a run stands, with the ring full for whatever reason and one worker free: a message that spills
      to the WAL can be acknowledged, drained, and then lost in a crash during its flush, because the
      drain has deleted it. */
  lemma CrashLosesDrained(cfg: P.Setup, s0: P.State, pre: seq<P.Label>, p: Point, m: Message, n: nat,
                          topic: string, payload: seq<byte>, now: int64, at: int64, w: nat) returns (ls: seq<P.Label>)
    requires cfg.Valid() && cfg.hasWal && Played(cfg, s0, pre, p, m, n)
    requires p.state.intake == P.Free && p.state.walMu == None && w < |p.state.workers| && p.state.workers[w] == P.Idle
    requires P.Incoming(cfg, topic, payload, now) == Some(m) && !Accepts(cfg.limits, p.state.ring, m)
    requires Unknown(p.state, m) && (forall x :: x in p.state.ring ==> x.dedupKey != m.dedupKey)
    requires forall k :: k in p.state.wal ==> p.state.wal[k].dedupKey != m.dedupKey
    ensures P.Legal(cfg, s0, pre + ls) && Tally(cfg, s0, pre + ls, m).acked == n + 1
    ensures GoneForGood(P.Exec(cfg, s0, pre + ls), m)
  {
    var a, key, more, b;
    ls, a, key := AckedInWal(cfg, s0, pre, p, m, n, topic, payload, now, at);
    SpilledAlone(p.state, a.state, m, key);
    more, b := PlayUntilPulled(cfg, s0, pre + ls, a, m, n + 1, key, w);
    CrashEnds(cfg, s0, pre + ls + more, b, m, n + 1, at);
    assert pre + ls + more + [P.Crash(at)] == pre + (ls + more + [P.Crash(at)]);
    ls := ls + more + [P.Crash(at)];
    EndsLostIs(cfg, s0, pre + ls, m, n + 1);
  }

  lemma SpilledAlone(s: P.State, t: P.State, m: Message, key: string)
    requires t.ring == s.ring && t.wal == s.wal[key := m]
    requires forall x :: x in s.ring ==> x.dedupKey != m.dedupKey
    requires forall k :: k in s.wal ==> s.wal[k].dedupKey != m.dedupKey
    ensures Alone(t, m, key)
  {}

  // ----- what a cancelled backoff keeps -----

  lemma {:induction false} NoAckInAttempts(env: FlushEnv, w: nat, n: nat)
    ensures P.Ack !in FailedAttempts(env, w, n)
  {
    if n > 0 { NoAckInAttempts(env, w, n - 1); }
  }

  lemma NoAckInCancelled(env: FlushEnv, w: nat, calls: nat)
    requires calls > 0
    ensures P.Ack !in RetryLabels(env, w, calls, Cancelled)
  {
    NoAckInAttempts(env, w, calls);
  }

  lemma PullOne(cfg: P.Setup, p: Point, w: nat, m: Message) returns (ls: seq<P.Label>, q: Point)
    requires cfg.Valid() && w < |p.state.workers| && p.state.workers[w] == P.Idle && p.state.walMu == None
    requires p.state.ring == [m] && p.state.wal == map[]
    ensures Reaches(cfg, p, ls, q) && P.Ack !in ls
    ensures q.state == p.state.(ring := [], workers := p.state.workers[w := P.Copying([m], 0)])
  {
    var fault := DrainFault(false, false);
    TopUpOf([], cfg.hasWal, p.state.wal, cfg.batchSize - 1, fault);
    q := PullRun(cfg, p, w, false, fault, []);
    TakenRing(p, cfg.batchSize);
    ls := PullLabels(cfg.hasWal, w, false, p.state.ring, p.state.wal, cfg.batchSize, fault);
    NoAckInPull(cfg.hasWal, w, false, p.state.ring, p.state.wal, cfg.batchSize, fault);
    assert [m][..1] == [m] && [m][1..] == [];
  }

  /** The only message of the ring is pulled, and its flush is cancelled before a call has landed. */
  lemma PlayCancelled(cfg: P.Setup, s0: P.State, pre: seq<P.Label>, p: Point, m: Message, n: nat, w: nat, env: FlushEnv,
                      calls: nat) returns (ls: seq<P.Label>, q: Point)
    requires cfg.Valid() && Played(cfg, s0, pre, p, m, n)
    requires w < |p.state.workers| && p.state.workers[w] == P.Idle && p.state.walMu == None
    requires p.state.ring == [m] && p.state.wal == map[]
    requires LoopEnds(env, cfg.maxRetries, calls, Cancelled) && !AnyLanded(env, calls)
    ensures Played(cfg, s0, pre + ls, q, m, n)
    ensures q.state == p.state.(ring := [], workers := p.state.workers[w := P.Idle], cancelled := true)
  {
    var more, b := PullOne(cfg, p, w, m);
    PlayOn(cfg, s0, pre, p, m, n, more, b);
    q := RetryRun(cfg, b, w, [m], env, calls, Cancelled);
    NoAckInCancelled(env, w, calls);
    PlayOn(cfg, s0, pre + more, b, m, n, RetryLabels(env, w, calls, Cancelled), q);
    ls := more + RetryLabels(env, w, calls, Cancelled);
    assert pre + ls == pre + more + RetryLabels(env, w, calls, Cancelled);
    Rewrite(p.state.workers, w, P.Copying([m], 0), P.Idle);
  }

  /** Every message that the ring takes first can be acknowledged, and then lost by any flush that is
      cancelled during a backoff before a call has landed. */
  lemma CancelLosesAcked(cfg: P.Setup, s0: P.State, topic: string, payload: seq<byte>, now: int64, m: Message, w: nat,
                         env: FlushEnv, calls: nat) returns (ls: seq<P.Label>)
    requires P.Init(cfg, s0) && w < |s0.workers| && P.Incoming(cfg, topic, payload, now) == Some(m)
    requires Accepts(cfg.limits, [], m) && Unknown(s0, m)
    requires LoopEnds(env, cfg.maxRetries, calls, Cancelled) && !AnyLanded(env, calls)
    ensures P.Legal(cfg, s0, ls) && Tally(cfg, s0, ls, m).acked == 1 && GoneForGood(P.Exec(cfg, s0, ls), m)
  {
    var start := PlayNothing(cfg, s0, m);
    var a, more, b;
    ls, a := AckedInRing(cfg, s0, [], start, m, 0, topic, payload, now);
    assert [] + ls == ls && [] + [m] == [m];
    more, b := PlayCancelled(cfg, s0, ls, a, m, 1, w, env, calls);
    ls := ls + more;
    PlayedIs(cfg, s0, ls, b, m, 1);
    AfterCancel(s0, b.state, w, m);
  }

  lemma AfterCancel(s0: P.State, s: P.State, w: nat, m: Message)
    requires w < |s0.workers| && (forall i :: 0 <= i < |s0.workers| ==> s0.workers[i] == P.Idle) && Unknown(s0, m)
    requires |s.workers| == |s0.workers| && (forall i :: 0 <= i < |s.workers| ==> s.workers[i] == P.Idle)
    requires s.ring == [] && s.wal == map[] && s.table == s0.table && s.bucket == s0.bucket
    ensures GoneForGood(s, m)
  {
    IdleHolds(s.workers, m);
    StoredMember(s.wal, m);
  }

  /** A flush cancelled during a backoff keeps a message of its batch, as a row under its key, exactly if
      the row was there before or an earlier call had landed although it reported an error. */
  lemma CancelKeepsLanded(env: FlushEnv, calls: nat, batch: seq<Message>, t: Table, m: Message)
    requires m in batch
    ensures m.dedupKey in TableAfter(env, calls, batch, t) <==> m.dedupKey in t || AnyLanded(env, calls)
  {
    InsertBatchKeys(t, batch);
    assert m.dedupKey in KeysOf(batch);
  }

  // ----- when nothing is lost -----

  /** For a message accepted once, of which no copy was doubled or revived: it is in the pipeline, was
      flushed or was dead-lettered, exactly if no step lost it. */
  lemma KeptIffNotLost(cfg: P.Setup, s0: P.State, ls: seq<P.Label>, m: Message)
    requires P.Init(cfg, s0) && P.Legal(cfg, s0, ls)
    requires var b := Tally(cfg, s0, ls, m); b.accepted == 1 && b.doubled == 0 && b.revived == 0
    ensures var b := Tally(cfg, s0, ls, m);
            Conservation.Live(P.Exec(cfg, s0, ls), m) + b.flushed + b.buried > 0 <==> b.lost == 0
  {
    Balance(cfg, s0, ls, m);
  }

  /** Step `i` committed a batch with a message under this key, whatever the worker was told. */
  ghost predicate LandedAt(cfg: P.Setup, s0: P.State, ls: seq<P.Label>, dedupKey: string, i: nat)
    requires P.Legal(cfg, s0, ls)
  {
    && i < |ls| && P.Legal(cfg, s0, ls[..i]) && P.Enabled(cfg, P.Exec(cfg, s0, ls[..i]), ls[i])
    && (ls[i].CopyOk? || (ls[i].CopyFail? && ls[i].landed))
    && dedupKey in KeysOf(P.Exec(cfg, s0, ls[..i]).workers[ls[i].w].batch)
  }

  ghost predicate LandsNow(cfg: P.Setup, s: P.State, l: P.Label, dedupKey: string)
    requires P.Enabled(cfg, s, l)
  {
    (l.CopyOk? || (l.CopyFail? && l.landed)) && dedupKey in KeysOf(s.workers[l.w].batch)
  }

  lemma RowStep(cfg: P.Setup, s: P.State, l: P.Label, dedupKey: string)
    requires P.Enabled(cfg, s, l)
    ensures dedupKey in P.Next(cfg, s, l).table <==> dedupKey in s.table || LandsNow(cfg, s, l, dedupKey)
  {
    if l.CopyOk? || l.CopyFail? { InsertBatchKeys(s.table, s.workers[l.w].batch); }
  }

  lemma {:induction false} RowHasLanding(cfg: P.Setup, s0: P.State, ls: seq<P.Label>, dedupKey: string) returns (i: nat)
    requires P.Legal(cfg, s0, ls) && dedupKey in P.Exec(cfg, s0, ls).table && dedupKey !in s0.table
    ensures LandedAt(cfg, s0, ls, dedupKey, i)
  {
    var n := |ls| - 1;
    RowStep(cfg, P.Exec(cfg, s0, ls[..n]), ls[n], dedupKey);
    if dedupKey in P.Exec(cfg, s0, ls[..n]).table {
      i := RowHasLanding(cfg, s0, ls[..n], dedupKey);
      LandedInPrefix(cfg, s0, ls, dedupKey, i);
    } else {
      i := n;
      LandedLast(cfg, s0, ls, dedupKey);
    }
  }

  lemma {:induction false} RowsStay(cfg: P.Setup, s0: P.State, ls: seq<P.Label>, dedupKey: string, i: nat)
    requires P.Legal(cfg, s0, ls) && i <= |ls| && P.Legal(cfg, s0, ls[..i])
    requires dedupKey in P.Exec(cfg, s0, ls[..i]).table
    ensures dedupKey in P.Exec(cfg, s0, ls).table
  {
    var n := |ls| - 1;
    if i == |ls| {
      assert ls[..i] == ls;
    } else {
      assert ls[..n][..i] == ls[..i];
      RowsStay(cfg, s0, ls[..n], dedupKey, i);
      RowStep(cfg, P.Exec(cfg, s0, ls[..n]), ls[n], dedupKey);
    }
  }

  lemma LandedInPrefix(cfg: P.Setup, s0: P.State, ls: seq<P.Label>, dedupKey: string, i: nat)
    requires P.Legal(cfg, s0, ls) && i < |ls| - 1
    ensures LandedAt(cfg, s0, ls[..|ls| - 1], dedupKey, i) <==> LandedAt(cfg, s0, ls, dedupKey, i)
  {
    assert ls[..|ls| - 1][..i] == ls[..i] && ls[..|ls| - 1][i] == ls[i];
  }

  lemma LandedLast(cfg: P.Setup, s0: P.State, ls: seq<P.Label>, dedupKey: string)
    requires P.Legal(cfg, s0, ls) && ls != []
    ensures LandedAt(cfg, s0, ls, dedupKey, |ls| - 1) <==>
            LandsNow(cfg, P.Exec(cfg, s0, ls[..|ls| - 1]), ls[|ls| - 1], dedupKey)
  {}

  lemma LandedStays(cfg: P.Setup, s0: P.State, ls: seq<P.Label>, dedupKey: string, i: nat)
    requires P.Legal(cfg, s0, ls) && LandedAt(cfg, s0, ls, dedupKey, i)
    ensures dedupKey in P.Exec(cfg, s0, ls).table
  {
    P.LegalPrefix(cfg, s0, ls, i + 1);
    var next := ls[..i + 1];
    assert next[..i] == ls[..i] && next[i] == ls[i];
    RowStep(cfg, P.Exec(cfg, s0, ls[..i]), ls[i], dedupKey);
    RowsStay(cfg, s0, ls, dedupKey, i + 1);
  }

  /** A message's key has a row exactly if it had one at first boot or a batch with this key was committed:
      the acknowledgement plays no part. */
  lemma RowIffLanded(cfg: P.Setup, s0: P.State, ls: seq<P.Label>, dedupKey: string)
    requires P.Legal(cfg, s0, ls)
    ensures dedupKey in P.Exec(cfg, s0, ls).table <==>
            dedupKey in s0.table || exists i: nat :: LandedAt(cfg, s0, ls, dedupKey, i)
  {
    if dedupKey in s0.table {
      RowsStay(cfg, s0, ls, dedupKey, 0);
    } else if dedupKey in P.Exec(cfg, s0, ls).table {
      var i := RowHasLanding(cfg, s0, ls, dedupKey);
    }
    if i: nat :| LandedAt(cfg, s0, ls, dedupKey, i) { LandedStays(cfg, s0, ls, dedupKey, i); }
  }
}
