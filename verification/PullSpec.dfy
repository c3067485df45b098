/** What one pullBatch takes, and the pipeline steps it amounts to. */
module PullSpec {
  import opened Buffer
  import opened ByteOrder
  import opened Counters
  import opened Messages
  import opened Runs
  import opened Wal
  import opened WalStore
  import opened Wrappers
  import P = Pipeline

  /** What can go wrong in the drain: a value that does not decode, or the delete transaction. */
  datatype DrainFault = DrainFault(blocked: bool, deleteFails: bool) {
    predicate Any() { blocked || deleteFails }
  }

  /** What goes wrong when `room` messages are drained from a store of these entries; quantified so that
      methods can pass it on. */
  ghost predicate FaultIs(fault: DrainFault, e: Entries, room: nat, deleteFails: bool) {
    forall n: nat :: n == room ==> fault == DrainFault(Blocked(e, n), deleteFails)
  }

  lemma FaultOf(fault: DrainFault, e: Entries, room: nat, deleteFails: bool)
    ensures FaultIs(fault, e, room, deleteFails) <==> fault == DrainFault(Blocked(e, room), deleteFails)
  {}

  /** The WAL keys that top a batch up, oldest first. */
  ghost function TopUpKeys(hasWal: bool, log: Log, room: nat, fault: DrainFault): (ks: seq<string>)
    ensures forall k :: k in ks ==> k in log
  {
    if hasWal && !fault.Any() then OldestKeys(log, room) else []
  }

  /** `ks` are those keys; quantified so that proofs which only pass them on stay small. */
  ghost predicate TopUpIs(ks: seq<string>, hasWal: bool, log: Log, room: nat, fault: DrainFault) {
    && (forall k :: k in ks ==> k in log)
    && forall n: nat :: n == room ==> ks == TopUpKeys(hasWal, log, n, fault)
  }

  lemma TopUpOf(ks: seq<string>, hasWal: bool, log: Log, room: nat, fault: DrainFault)
    ensures TopUpIs(ks, hasWal, log, room, fault) <==> ks == TopUpKeys(hasWal, log, room, fault)
  {}

  lemma NoTopUp(hasWal: bool, log: Log, room: nat, fault: DrainFault)
    requires !hasWal || room == 0
    ensures TopUpIs([], hasWal, log, room, fault)
  {
    TopUpOf([], hasWal, log, room, fault);
  }

  /** The batch: the oldest ring messages, then the WAL messages under `ks`. */
  ghost function PulledBatch(ring: seq<Message>, log: Log, want: nat, ks: seq<string>): seq<Message>
    requires forall k :: k in ks ==> k in log
  {
    ring[..TakeCount(want, |ring|)] + MessagesAt(log, ks)
  }

  /** A batch takes what the ring has, then what the log has unless the drain fails, up to the size. */
  lemma PulledSize(hasWal: bool, ring: seq<Message>, log: Log, want: nat, fault: DrainFault, ks: seq<string>)
    requires TopUpIs(ks, hasWal, log, want - TakeCount(want, |ring|), fault)
    ensures var stock := |ring| + (if hasWal && !fault.Any() then |log| else 0);
            |PulledBatch(ring, log, want, ks)| == if stock < want then stock else want
  {
    TopUpOf(ks, hasWal, log, want - TakeCount(want, |ring|), fault);
  }

  ghost function DrainLabels(w: nat, log: Log, fault: DrainFault): seq<P.Label> {
    if fault.blocked then [P.DrainReadFail(w)]
    else if |log| == 0 then [P.DrainRead(w)]
    else [P.DrainRead(w), if fault.deleteFails then P.DrainDeleteFail(w) else P.DrainDelete(w)]
  }

  ghost function PullLabels(hasWal: bool, w: nat, elevated: bool, ring: seq<Message>, log: Log, want: nat,
                            fault: DrainFault): seq<P.Label> {
    [P.Pull(w, elevated)] + (if hasWal && TakeCount(want, |ring|) < want then DrainLabels(w, log, fault) else [])
  }

  // ----- step by step -----

  lemma PullStep(cfg: P.Setup, p: Point, w: nat, elevated: bool) returns (q: Point)
    requires w < |p.state.workers| && p.state.workers[w] == P.Idle
    ensures var l := P.Pull(w, elevated);
            P.Enabled(cfg, p.state, l) && q == Point(P.Next(cfg, p.state, l), Count(cfg, p.state, l, p.counts))
    ensures var want := P.Want(cfg, elevated);
            var k := TakeCount(want, |p.state.ring|);
            && q.state == p.state.(ring := p.state.ring[k..],
                                   workers := p.state.workers[w := P.AfterDequeue(cfg, p.state.ring[..k], want)])
            && q.counts == p.counts.(dequeued := p.counts.dequeued + k)
  {
    var l := P.Pull(w, elevated);
    q := Point(P.Next(cfg, p.state, l), Count(cfg, p.state, l, p.counts));
  }

  lemma ReadStep(cfg: P.Setup, p: Point, w: nat, batch: seq<Message>, room: nat) returns (q: Point)
    requires w < |p.state.workers| && p.state.workers[w] == P.TopUp(batch, room) && p.state.walMu == None
    ensures var l := P.DrainRead(w);
            P.Enabled(cfg, p.state, l) && q == Point(P.Next(cfg, p.state, l), Count(cfg, p.state, l, p.counts))
    ensures q.state == p.state.(workers := p.state.workers[w := P.AfterRead(p.state.wal, batch, room)],
                                walMu := if OldestKeys(p.state.wal, room) == [] then None else Some(w))
    ensures q.counts == p.counts
  {
    var l := P.DrainRead(w);
    q := Point(P.Next(cfg, p.state, l), Count(cfg, p.state, l, p.counts));
  }

  lemma ReadFailStep(cfg: P.Setup, p: Point, w: nat, batch: seq<Message>, room: nat) returns (q: Point)
    requires w < |p.state.workers| && p.state.workers[w] == P.TopUp(batch, room) && p.state.walMu == None
    ensures var l := P.DrainReadFail(w);
            P.Enabled(cfg, p.state, l) && q == Point(P.Next(cfg, p.state, l), Count(cfg, p.state, l, p.counts))
    ensures q.state == p.state.(workers := p.state.workers[w := P.AfterPull(batch)]) && q.counts == p.counts
  {
    var l := P.DrainReadFail(w);
    q := Point(P.Next(cfg, p.state, l), Count(cfg, p.state, l, p.counts));
  }

  lemma DeleteStep(cfg: P.Setup, p: Point, w: nat, batch: seq<Message>, read: seq<P.Entry>) returns (q: Point)
    requires w < |p.state.workers| && p.state.workers[w] == P.Draining(batch, read)
    ensures var l := P.DrainDelete(w);
            P.Enabled(cfg, p.state, l) && q == Point(P.Next(cfg, p.state, l), Count(cfg, p.state, l, p.counts))
    ensures q.state == p.state.(workers := p.state.workers[w := P.AfterPull(batch + P.MessagesOf(read))],
                                wal := p.state.wal - P.KeysRead(read), walMu := None)
    ensures q.counts == p.counts.(drained := p.counts.drained + |read|, revived := q.counts.revived)
  {
    var l := P.DrainDelete(w);
    q := Point(P.Next(cfg, p.state, l), Count(cfg, p.state, l, p.counts));
  }

  lemma DeleteFailStep(cfg: P.Setup, p: Point, w: nat, batch: seq<Message>, read: seq<P.Entry>) returns (q: Point)
    requires w < |p.state.workers| && p.state.workers[w] == P.Draining(batch, read)
    ensures var l := P.DrainDeleteFail(w);
            P.Enabled(cfg, p.state, l) && q == Point(P.Next(cfg, p.state, l), Count(cfg, p.state, l, p.counts))
    ensures q.state == p.state.(workers := p.state.workers[w := P.AfterPull(batch)], walMu := None)
            && q.counts == p.counts
  {
    var l := P.DrainDeleteFail(w);
    q := Point(P.Next(cfg, p.state, l), Count(cfg, p.state, l, p.counts));
  }

  lemma {:induction false} ReadEntriesMatch(log: Log, ks: seq<string>)
    requires forall k :: k in ks ==> k in log
    ensures P.MessagesOf(P.ReadEntries(log, ks)) == MessagesAt(log, ks)
    ensures P.KeysRead(P.ReadEntries(log, ks)) == Elements(ks)
  {
    if ks != [] {
      var es := P.ReadEntries(log, ks);
      ReadEntriesMatch(log, ks[1..]);
      assert es[1..] == P.ReadEntries(log, ks[1..]);
      assert forall e :: e in es <==> e == es[0] || e in es[1..];
      assert P.KeysRead(es) == {es[0].key} + P.KeysRead(es[1..]);
      assert forall k :: k in ks <==> k == ks[0] || k in ks[1..];
    }
  }

  /** The point after the top-up. */
  ghost predicate ToppedUp(p: Point, w: nat, batch: seq<Message>, ks: seq<string>, q: Point)
    requires w < |p.state.workers| && forall k :: k in ks ==> k in p.state.wal
  {
    && q.state == p.state.(workers := p.state.workers[w := P.AfterPull(batch + MessagesAt(p.state.wal, ks))],
                           wal := p.state.wal - Elements(ks))
    && q.counts == p.counts.(drained := p.counts.drained + |ks|, revived := q.counts.revived)
  }

  lemma NothingTopped(p: Point, w: nat, batch: seq<Message>, q: Point)
    requires w < |p.state.workers|
    requires q.state == p.state.(workers := p.state.workers[w := P.AfterPull(batch)]) && q.counts == p.counts
    ensures ToppedUp(p, w, batch, [], q)
  {
    assert batch + MessagesAt(p.state.wal, []) == batch;
    assert p.state.wal - Elements([]) == p.state.wal;
  }

  lemma DrainRun(cfg: P.Setup, p: Point, w: nat, batch: seq<Message>, room: nat, fault: DrainFault, ks: seq<string>)
    returns (q: Point)
    requires w < |p.state.workers| && p.state.workers[w] == P.TopUp(batch, room) && p.state.walMu == None && room > 0
    requires TopUpIs(ks, true, p.state.wal, room, fault)
    ensures Reaches(cfg, p, DrainLabels(w, p.state.wal, fault), q) && ToppedUp(p, w, batch, ks, q)
  {
    TopUpOf(ks, true, p.state.wal, room, fault);
    ReachesItself(cfg, p);
    if fault.blocked {
      q := ReadFailStep(cfg, p, w, batch, room);
      Advance(cfg, p, [], p, P.DrainReadFail(w), q);
      assert [] + [P.DrainReadFail(w)] == [P.DrainReadFail(w)];
      NothingTopped(p, w, batch, q);
    } else {
      var mid := ReadStep(cfg, p, w, batch, room);
      Advance(cfg, p, [], p, P.DrainRead(w), mid);
      assert [] + [P.DrainRead(w)] == [P.DrainRead(w)];
      if |p.state.wal| == 0 {
        q := mid;
        NothingTopped(p, w, batch, q);
      } else {
        q := DrainEnd(cfg, p, mid, w, batch, OldestKeys(p.state.wal, room), fault.deleteFails);
      }
    }
  }

  /** The delete transaction. */
  lemma DrainEnd(cfg: P.Setup, p: Point, mid: Point, w: nat, batch: seq<Message>, ks: seq<string>, fails: bool)
    returns (q: Point)
    requires w < |p.state.workers| && p.state.walMu == None && forall k :: k in ks ==> k in p.state.wal
    requires Reaches(cfg, p, [P.DrainRead(w)], mid) && mid.counts == p.counts
    requires mid.state ==
             p.state.(workers := p.state.workers[w := P.Draining(batch, P.ReadEntries(p.state.wal, ks))],
                      walMu := Some(w))
    ensures Reaches(cfg, p, [P.DrainRead(w), if fails then P.DrainDeleteFail(w) else P.DrainDelete(w)], q)
    ensures ToppedUp(p, w, batch, if fails then [] else ks, q)
  {
    var read := P.ReadEntries(p.state.wal, ks);
    ReadEntriesMatch(p.state.wal, ks);
    if fails {
      q := DeleteFailStep(cfg, mid, w, batch, read);
      Rewrite(p.state.workers, w, P.Draining(batch, read), P.AfterPull(batch));
      NothingTopped(p, w, batch, q);
    } else {
      q := DeleteStep(cfg, mid, w, batch, read);
      Rewrite(p.state.workers, w, P.Draining(batch, read), P.AfterPull(batch + MessagesAt(p.state.wal, ks)));
    }
    var l := if fails then P.DrainDeleteFail(w) else P.DrainDelete(w);
    Advance(cfg, p, [P.DrainRead(w)], mid, l, q);
    assert [P.DrainRead(w)] + [l] == [P.DrainRead(w), l];
  }

  /** What the pull takes from the two stores, and counts. */
  ghost function Taken(p: Point, want: nat, ks: seq<string>): Point {
    var k := TakeCount(want, |p.state.ring|);
    Point(p.state.(ring := p.state.ring[k..], wal := p.state.wal - Elements(ks)),
          p.counts.(dequeued := p.counts.dequeued + k, drained := p.counts.drained + |ks|))
  }

  /** The point after a pull. */
  ghost predicate Pulled(p: Point, w: nat, want: nat, ks: seq<string>, q: Point)
    requires w < |p.state.workers| && forall k :: k in ks ==> k in p.state.wal
  {
    var t := Taken(p, want, ks);
    && q.state == t.state.(workers := p.state.workers[w :=
                             P.AfterPull(PulledBatch(p.state.ring, p.state.wal, want, ks))])
    && q.counts == t.counts.(revived := q.counts.revived)
  }

  /** A pull is a run of the protocol, by this worker alone. */
  lemma PullRun(cfg: P.Setup, p: Point, w: nat, elevated: bool, fault: DrainFault, ks: seq<string>) returns (q: Point)
    requires w < |p.state.workers| && p.state.workers[w] == P.Idle && p.state.walMu == None
    requires var want := P.Want(cfg, elevated);
             TopUpIs(ks, cfg.hasWal, p.state.wal, want - TakeCount(want, |p.state.ring|), fault)
    ensures Reaches(cfg, p,
                    PullLabels(cfg.hasWal, w, elevated, p.state.ring, p.state.wal, P.Want(cfg, elevated), fault), q)
    ensures Pulled(p, w, P.Want(cfg, elevated), ks, q)
  {
    var want := P.Want(cfg, elevated);
    var k := TakeCount(want, |p.state.ring|);
    var mid := PullStep(cfg, p, w, elevated);
    ReachesItself(cfg, p);
    Advance(cfg, p, [], p, P.Pull(w, elevated), mid);
    assert [] + [P.Pull(w, elevated)] == [P.Pull(w, elevated)];
    if cfg.hasWal && k < want {
      q := DrainRun(cfg, mid, w, p.state.ring[..k], want - k, fault, ks);
      ReachesJoin(cfg, p, [P.Pull(w, elevated)], mid, DrainLabels(w, p.state.wal, fault), q);
      Joined(p, mid, w, p.state.ring[..k], want, k, ks, q);
    } else {
      TopUpOf(ks, cfg.hasWal, p.state.wal, want - k, fault);
      q := mid;
      RingOnly(p, w, want, q);
    }
  }

  lemma Joined(p: Point, mid: Point, w: nat, front: seq<Message>, want: nat, k: nat, ks: seq<string>, q: Point)
    requires w < |p.state.workers| && k == TakeCount(want, |p.state.ring|) && forall j :: j in ks ==> j in p.state.wal
    requires front == p.state.ring[..k]
    requires mid.state == p.state.(ring := p.state.ring[k..], workers := p.state.workers[w := P.TopUp(front, want - k)])
    requires mid.counts == p.counts.(dequeued := p.counts.dequeued + k) && ToppedUp(mid, w, front, ks, q)
    ensures Pulled(p, w, want, ks, q)
  {
    Rewrite(p.state.workers, w, P.TopUp(front, want - k), P.AfterPull(front + MessagesAt(p.state.wal, ks)));
  }

  lemma RingOnly(p: Point, w: nat, want: nat, q: Point)
    requires w < |p.state.workers|
    requires var k := TakeCount(want, |p.state.ring|);
             && q.state == p.state.(ring := p.state.ring[k..],
                                    workers := p.state.workers[w := P.AfterPull(p.state.ring[..k])])
             && q.counts == p.counts.(dequeued := p.counts.dequeued + k)
    ensures Pulled(p, w, want, [], q)
  {
    TakenRing(p, want);
  }

  lemma TakenRing(p: Point, want: nat)
    ensures var k := TakeCount(want, |p.state.ring|);
            && PulledBatch(p.state.ring, p.state.wal, want, []) == p.state.ring[..k]
            && Taken(p, want, []) ==
               Point(p.state.(ring := p.state.ring[k..]), p.counts.(dequeued := p.counts.dequeued + k))
  {
    var k := TakeCount(want, |p.state.ring|);
    assert p.state.ring[..k] + MessagesAt(p.state.wal, []) == p.state.ring[..k];
    assert p.state.wal - Elements([]) == p.state.wal;
  }

  /** The same stores and the same counters of the flusher. */
  ghost predicate Alike(p: Point, q: Point) {
    && q.state.ring == p.state.ring && q.state.wal == p.state.wal && q.state.walSeq == p.state.walSeq
    && q.state.table == p.state.table && q.state.bucket == p.state.bucket && q.state.sinkSeq == p.state.sinkSeq
    && q.counts == p.counts.(revived := q.counts.revived)
  }

  lemma PulledIsTaken(p: Point, w: nat, want: nat, ks: seq<string>, q: Point)
    requires w < |p.state.workers| && (forall k :: k in ks ==> k in p.state.wal) && Pulled(p, w, want, ks, q)
    ensures Alike(Taken(p, want, ks), q)
  {}
}
