/** Subscriber and flusher over the same ring and WAL: whatever calls are made, the objects stay
    those of a run of the protocol, so what holds of every run holds of the objects. */
module Service {
  import opened AdaptiveMode
  import opened Buffer
  import opened Counters
  import opened DeadLetter
  import opened Flusher
  import opened Invariants
  import opened Ledger
  import opened Messages
  import opened Numerals
  import opened Provenance
  import opened Runs
  import opened Subscriber
  import opened Topics
  import opened Turns
  import opened WalStore
  import opened Wrappers
  import P = Pipeline

  /** What HandleMessage leaves to the flusher as it was. */
  ghost predicate FlusherKept(p: Point, q: Point) {
    && q.state.workers == p.state.workers && q.state.walMu == p.state.walMu && q.state.intake == p.state.intake
    && q.state.table == p.state.table && q.state.bucket == p.state.bucket && q.state.sinkSeq == p.state.sinkSeq
    && q.counts.retries == p.counts.retries && q.counts.flushErrors == p.counts.flushErrors
    && q.counts.flushed == p.counts.flushed && q.counts.inserted == p.counts.inserted
    && q.counts.requeued == p.counts.requeued && q.counts.deadLettered == p.counts.deadLettered
  }

  lemma HandledKeeps(cfg: P.Setup, p: Point, m: Message, r: Route, at: int64, q: Point)
    requires Handled(cfg, p, m, r, at, q)
    ensures FlusherKept(p, q)
  {
    assert Moved(cfg, p.(counts := p.counts.(received := p.counts.received + 1)), m, r, at,
                 q.(counts := q.counts.(acks := p.counts.acks)));
  }

  /** `p` is where the service stands after `ls`, between two calls; `ls` may hold crashes and reopenings. */
  ghost predicate Between(cfg: P.Setup, s0: P.State, ls: seq<P.Label>, p: Point) {
    && P.Init(cfg, s0) && Since(cfg, s0, ls, p)
    && p.state.intake == P.Free && p.state.walMu == None && p.state.workers == s0.workers
  }

  lemma BetweenNext(cfg: P.Setup, s0: P.State, ls: seq<P.Label>, p: Point, more: seq<P.Label>, q: Point)
    requires Between(cfg, s0, ls, p) && Reaches(cfg, p, more, q)
    requires q.state.intake == P.Free && q.state.walMu == None && q.state.workers == p.state.workers
    ensures Between(cfg, s0, ls + more, q)
  {
    ReachesJoin(cfg, Point(s0, Fresh(|s0.wal|, |s0.table|)), ls, p, more, q);
  }

  lemma CrashStep(cfg: P.Setup, s0: P.State, ls: seq<P.Label>, p: Point, at: int64) returns (q: Point)
    requires Between(cfg, s0, ls, p)
    ensures Between(cfg, s0, ls + [P.Crash(at)], q)
    ensures q.counts == Fresh(|p.state.wal|, |p.state.table|)
    ensures q.state.ring == [] && q.state.wal == p.state.wal && q.state.walSeq == 0
    ensures q.state.table == p.state.table && q.state.bucket == p.state.bucket && q.state.sinkSeq == 0
  {
    var l := P.Crash(at);
    q := Point(P.Next(cfg, p.state, l), Count(cfg, p.state, l, p.counts));
    Advance(cfg, Point(s0, Fresh(|s0.wal|, |s0.table|)), ls, p, l, q);
    assert P.AllIdle(|p.state.workers|) == s0.workers;
  }

  lemma IdentitiesBetween(cfg: P.Setup, s0: P.State, ls: seq<P.Label>, p: Point)
    requires Between(cfg, s0, ls, p)
    ensures p.counts.enqueued - p.counts.dequeued == |p.state.ring|
    ensures p.counts.acks == p.counts.enqueued + p.counts.spilled + p.counts.parseFailures
    ensures p.counts.received == p.counts.enqueued + p.counts.rejected + p.counts.parseFailures
    ensures p.counts.appended == p.counts.spilled + p.counts.requeued
    ensures p.counts.walAtOpen + p.counts.appended + p.counts.revived ==
            |p.state.wal| + p.counts.drained + p.counts.expired + p.counts.displaced
    ensures p.counts.revived <= p.counts.expired
    ensures p.counts.rowsAtOpen + p.counts.inserted + p.counts.ambiguousRows == |p.state.table|
  {
    SinceIs(cfg, s0, ls, p);
    CountersAgree(cfg, s0, ls);
  }

  lemma RetainedBetween(cfg: P.Setup, s0: P.State, ls: seq<P.Label>, p: Point, m: Message)
    requires Between(cfg, s0, ls, p) && P.Legal(cfg, s0, ls) && Tally(cfg, s0, ls, m).acked > 0
    ensures || m in p.state.ring || m in p.state.wal.Values || m.dedupKey in p.state.table
            || InBucket(p.state.bucket, m.dedupKey)
            || exists i :: LostAt(cfg, s0, ls, m, i)
    ensures !cfg.hasWal ==> p.state.wal == map[]
  {
    SinceIs(cfg, s0, ls, p);
    if !cfg.hasWal { NoWalNoEntries(cfg, s0, ls); }
    AckedIsRetainedOrNamedLost(cfg, s0, ls, m);
  }

  lemma OriginsBetween(cfg: P.Setup, s0: P.State, ls: seq<P.Label>, p: Point)
    requires Between(cfg, s0, ls, p)
    ensures forall m :: m in p.state.ring ==> Arrived(cfg, ls, m)
    ensures forall k :: k in p.state.wal ==> Arrived(cfg, ls, p.state.wal[k])
    ensures RowsFrom(p.state.table, s0.table, Arrivals(cfg, ls))
    ensures ObjectsFrom(p.state.bucket, s0.bucket, Arrivals(cfg, ls))
  {
    SinceIs(cfg, s0, ls, p);
    EveryMessageArrived(cfg, s0, ls);
  }

  class Service {
    const cfg: P.Setup
    const sub: Subscriber
    const fl: Worker

    constructor (cfg: P.Setup, sub: Subscriber, fl: Worker)
      ensures this.cfg == cfg && this.sub == sub && this.fl == fl
    {
      this.cfg, this.sub, this.fl := cfg, sub, fl;
    }

    /** One ring, one WAL. */
    ghost predicate Wired() {
      && sub.cfg == cfg && fl.cfg == cfg && sub.ring == fl.ring && sub.wal == fl.wal && fl.Wired()
    }

    ghost predicate Synced(p: Point)
      requires Wired()
      reads sub, fl, fl.ring, fl.ring.slots, fl.wal, fl.pg, fl.dl
    {
      sub.Synced(p) && fl.RingSynced(p) && fl.StoresSynced(p)
    }

    /** The objects are those of a service that first booted at `s0` and took the steps `ls` since, over any
        number of processes; no call is under way. */
    ghost predicate Running(s0: P.State, ls: seq<P.Label>, p: Point)
      requires Wired()
      reads sub, fl, fl.ring, fl.ring.slots, fl.wal, fl.pg, fl.dl
    {
      Synced(p) && Between(cfg, s0, ls, p)
    }

    /** A message arrives: it is parsed, routed and acknowledged as HandleMessage says, in these very steps. */
    method Handle(topic: string, payload: seq<byte>, now: int64, env: IntakeEnv,
                  ghost s0: P.State, ghost ls: seq<P.Label>, ghost p: Point)
      returns (ghost incoming: Option<Message>, ghost r: Route, ghost more: seq<P.Label>, ghost q: Point)
      requires Wired() && Running(s0, ls, p)
      modifies sub, fl.ring, fl.ring.slots, fl.wal, sub.unparseable
      ensures Running(s0, ls + more, q) && Reaches(cfg, p, more, q)
      ensures incoming == P.Incoming(cfg, topic, payload, now)
      ensures incoming.Some? ==> P.BuiltFrom(cfg, topic, payload, now, incoming.value)
      ensures incoming.None? <==> forall tenant, id :: !Names(topic, cfg.parseUuid, tenant, id)
      ensures incoming.None? ==> more == [P.Arrive(topic, payload, now)] && q == Unparsed(p)
      ensures incoming.Some? ==>
                && IsRoute(r, cfg.limits, p.state.ring, incoming.value,
                           fl.wal != null && env.append == AppendFault.NoFault)
                && more == HandleLabels(cfg.hasWal, topic, payload, now, r, env.appendAt)
                && Handled(cfg, p, incoming.value, r, env.appendAt, q)
                && sub.paused == PausedBy(r)
    {
      incoming, r, more, q := HandleOne(topic, payload, now, env, p);
      BetweenNext(cfg, s0, ls, p, more, q);
    }

    method HandleOne(topic: string, payload: seq<byte>, now: int64, env: IntakeEnv, ghost p: Point)
      returns (ghost incoming: Option<Message>, ghost r: Route, ghost ls: seq<P.Label>, ghost q: Point)
      requires Wired() && Synced(p) && p.state.intake == P.Free
      modifies sub, fl.ring, fl.ring.slots, fl.wal, sub.unparseable
      ensures Synced(q) && Reaches(cfg, p, ls, q) && FlusherKept(p, q)
      ensures incoming == P.Incoming(cfg, topic, payload, now)
      ensures incoming.Some? ==> P.BuiltFrom(cfg, topic, payload, now, incoming.value)
      ensures incoming.None? <==> forall tenant, id :: !Names(topic, cfg.parseUuid, tenant, id)
      ensures incoming.None? ==> ls == [P.Arrive(topic, payload, now)] && q == Unparsed(p)
      ensures incoming.Some? ==>
                && IsRoute(r, cfg.limits, p.state.ring, incoming.value,
                           fl.wal != null && env.append == AppendFault.NoFault)
                && ls == HandleLabels(cfg.hasWal, topic, payload, now, r, env.appendAt)
                && Handled(cfg, p, incoming.value, r, env.appendAt, q)
                && sub.paused == PausedBy(r)
    {
      assert fl.StoresHold(p.state, p.counts);
      incoming, r, ls, q := sub.HandleMessage(topic, payload, now, env, p);
      if incoming.Some? { HandledKeeps(cfg, p, incoming.value, r, env.appendAt, q); }
      assert sub.Holds(q.state, q.counts);
    }

    /** The timer of worker `w` fires: a turn, in the steps of its log. */
    method Turn(i: TurnIn, ghost w: nat, ghost s0: P.State, ghost ls: seq<P.Label>, ghost p: Point)
      returns (o: TurnOut, ghost t: TurnLog)
      requires Wired() && Running(s0, ls, p) && w < |s0.workers|
      modifies fl, fl.modes, fl.ring, fl.ring.slots, fl.pg, fl.dl, fl.wal
      ensures Running(s0, ls + t.steps, t.to)
      ensures TurnDone(cfg, fl.modes.cfg, w, old(fl.modes.View()), i, o, t)
      ensures t.from == p && t.entries == old(fl.EntriesNow())
      ensures fl.modes.View() == AfterTurn(fl.modes.cfg, old(fl.modes.View()), i, o)
    {
      o, t := TurnOne(i, w, p);
      BetweenNext(cfg, s0, ls, p, t.steps, t.to);
    }

    method TurnOne(i: TurnIn, ghost w: nat, ghost p: Point) returns (o: TurnOut, ghost t: TurnLog)
      requires Wired() && Synced(p)
      requires w < |p.state.workers| && p.state.workers[w] == P.Idle && p.state.walMu == None
      modifies fl, fl.modes, fl.ring, fl.ring.slots, fl.pg, fl.dl, fl.wal
      ensures Synced(t.to)
      ensures TurnDone(cfg, fl.modes.cfg, w, old(fl.modes.View()), i, o, t)
      ensures t.from == p && t.entries == old(fl.EntriesNow())
      ensures fl.modes.View() == AfterTurn(fl.modes.cfg, old(fl.modes.View()), i, o)
      ensures BackAtTimer(p, t.to)
    {
      assert sub.Holds(p.state, p.counts);
      o, t := fl.Turn(i, w, p);
      assert fl.RingHolds(t.to.state.ring, t.to.counts) && fl.StoresHold(t.to.state, t.to.counts);
    }

    /** The process dies and another opens the same stores: an empty ring, the log and the bucket with their
        sequence numbers restarted, the same table, and counters from zero. */
    method Reopen(at: int64, ghost s0: P.State, ghost ls: seq<P.Label>, ghost p: Point)
      returns (next: Service, ghost q: Point)
      requires Wired() && Running(s0, ls, p)
      ensures fresh(next) && next.cfg == cfg && next.Wired() && next.Running(s0, ls + [P.Crash(at)], q)
      ensures next.fl.EntriesNow() == fl.EntriesNow() && next.fl.pg == fl.pg && next.fl.dl.objects == fl.dl.objects
    {
      assert sub.Holds(p.state, p.counts) && fl.StoresHold(p.state, p.counts);
      next := Boot();
      q := CrashStep(cfg, s0, ls, p, at);
      next.JustBooted(q);
    }

    /** New objects over the same stores. */
    method Boot() returns (next: Service)
      requires Wired() && cfg.limits.Valid()
      ensures fresh(next) && next.cfg == cfg && next.Wired() && next.Unused()
      ensures next.fl.EntriesNow() == fl.EntriesNow() && next.fl.pg == fl.pg && next.fl.dl.objects == fl.dl.objects
    {
      var ring := new Ring(cfg.limits);
      var wal: Store? := null;
      if fl.wal != null { wal := new Store(fl.wal.entries); }
      var dl := new Sink(fl.dl.objects);
      var modes := new Tracker(fl.modes.cfg);
      var worker := new Worker(cfg, modes, ring, wal, fl.pg, dl);
      var subscriber := new Subscriber(cfg, ring, wal, sub.unparseable);
      next := new Service(cfg, subscriber, worker);
    }

    /** An empty ring, sequence numbers at zero, and every counter at zero. */
    ghost predicate Unused()
      reads sub, fl, fl.ring, fl.ring.slots, fl.wal, fl.dl
    {
      && fl.ring.Valid() && fl.ring.lim == cfg.limits && fl.ring.Contents() == [] && fl.dl.seq_ == 0
      && (fl.wal != null ==> fl.wal.seq_ == 0 && fl.wal.appended == fl.wal.drained == 0)
      && fl.ring.enqueued == fl.ring.dequeued == fl.ring.rejected == fl.ring.spilled == 0
      && fl.retriesTotal == fl.flushErrors == fl.flushed == fl.inserted == fl.requeued == fl.deadLettered == 0
      && sub.received == sub.acked == sub.handlerErrors == 0
    }

    lemma JustBooted(q: Point)
      requires Wired() && Unused() && q.counts == Fresh(|q.state.wal|, |q.state.table|)
      requires q.state.ring == [] && q.state.walSeq == 0 && q.state.sinkSeq == 0
      requires q.state.table == fl.pg.rows && q.state.bucket == fl.dl.objects
      requires fl.wal != null ==> q.state.wal == fl.wal.Contents()
      ensures Synced(q)
    {
      assert sub.Holds(q.state, q.counts) && fl.StoresHold(q.state, q.counts) && fl.RingHolds(q.state.ring, q.counts);
    }

    /** The exported counters, whatever calls were made: what the dashboards subtract from each other. */
    lemma CountersOfObjects(s0: P.State, ls: seq<P.Label>, p: Point)
      requires Wired() && Running(s0, ls, p)
      ensures fl.ring.Valid()
      ensures fl.ring.enqueued - fl.ring.dequeued == |fl.ring.Contents()|
      ensures sub.acked == fl.ring.enqueued + fl.ring.spilled + sub.handlerErrors
      ensures sub.received == fl.ring.enqueued + fl.ring.rejected + sub.handlerErrors
      ensures fl.wal != null ==> fl.wal.appended == fl.ring.spilled + fl.requeued
      ensures fl.wal != null ==>
                p.counts.walAtOpen + fl.wal.appended + p.counts.revived ==
                |fl.wal.Contents()| + fl.wal.drained + p.counts.expired + p.counts.displaced
      ensures p.counts.revived <= p.counts.expired
      ensures fl.inserted <= |fl.pg.rows| - p.counts.rowsAtOpen
      ensures fl.inserted == |fl.pg.rows| - p.counts.rowsAtOpen <==> p.counts.ambiguousRows == 0
    {
      assert sub.Holds(p.state, p.counts) && fl.StoresHold(p.state, p.counts);
      IdentitiesBetween(cfg, s0, ls, p);
    }

    /** Every message in the ring and the WAL, and every row and object newer than the first boot, is the message of an
        arrival of the run. */
    lemma OriginsOfObjects(s0: P.State, ls: seq<P.Label>, p: Point)
      requires Wired() && Running(s0, ls, p)
      ensures fl.ring.Valid()
      ensures forall m :: m in fl.ring.Contents() ==> Arrived(cfg, ls, m)
      ensures fl.wal != null ==> forall k :: k in fl.wal.Contents() ==> Arrived(cfg, ls, fl.wal.Contents()[k])
      ensures RowsFrom(fl.pg.rows, s0.table, Arrivals(cfg, ls))
      ensures ObjectsFrom(fl.dl.objects, s0.bucket, Arrivals(cfg, ls))
    {
      assert sub.Holds(p.state, p.counts) && fl.StoresHold(p.state, p.counts);
      OriginsBetween(cfg, s0, ls, p);
    }

    /** What an acknowledged message has become, in the objects themselves. */
    lemma AckedInObjects(s0: P.State, ls: seq<P.Label>, p: Point, m: Message)
      requires Wired() && Running(s0, ls, p)
      requires P.Legal(cfg, s0, ls) && Tally(cfg, s0, ls, m).acked > 0
      ensures fl.ring.Valid()
      ensures || m in fl.ring.Contents()
              || (fl.wal != null && m in fl.wal.Contents().Values)
              || m.dedupKey in fl.pg.rows
              || InBucket(fl.dl.objects, m.dedupKey)
              || exists i :: LostAt(cfg, s0, ls, m, i)
    {
      assert sub.Holds(p.state, p.counts) && fl.StoresHold(p.state, p.counts);
      RetainedBetween(cfg, s0, ls, p, m);
    }
  }
}
