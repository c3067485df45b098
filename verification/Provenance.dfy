/** Where every message comes from: the arrivals of the run, with the fields the handler gave it. */
module Provenance {
  import opened DeadLetter
  import opened Invariants
  import opened Messages
  import opened Numerals
  import opened Pipeline
  import opened Postgres
  import opened Topics
  import opened Wrappers

  /** `m` is what the subscriber builds at this step. */
  ghost predicate ArrivesAs(cfg: Setup, l: Label, m: Message) {
    l.Arrive? && BuiltFrom(cfg, l.topic, l.payload, l.now, m)
  }

  ghost predicate Arrived(cfg: Setup, ls: seq<Label>, m: Message) {
    exists i :: 0 <= i < |ls| && ArrivesAs(cfg, ls[i], m)
  }

  ghost function Arrivals(cfg: Setup, ls: seq<Label>): iset<Message> {
    iset m | Arrived(cfg, ls, m)
  }

  /** The dead-letter key of a message that arrived: its own tenant and device, one segment each. */
  lemma ObjectKeyOfArrival(cfg: Setup, l: Label, m: Message, date: string, seq_: uint64)
    requires ArrivesAs(cfg, l, m) && '/' !in date
    ensures var parts := Split(ObjectKey(date, m, seq_));
            && |parts| == 5 && parts[0] == "dead-letter" && parts[1] == date && parts[2] == m.tenant
            && parts[3] == (if m.device == NIL_UUID then "unknown" else UuidText(m.device))
            && parts[4] == DecInt(l.now) + "-" + Dec(seq_) + ".json"
  {
    ObjectKeySegments(date, m, seq_);
    NilIsZeros(m.device);
  }

  /** Every row of `t` was in `t0`, or holds one of `x`. */
  ghost predicate RowsFrom(t: Table, t0: Table, x: iset<Message>) {
    forall k :: k in t ==> (k in t0 && t[k] == t0[k]) || t[k] in x
  }

  ghost predicate ObjectsFrom(b: Bucket, b0: Bucket, x: iset<Message>) {
    forall k :: k in b ==> (k in b0 && b[k] == b0[k]) || b[k] in x
  }

  ghost predicate AllFrom(s: State, s0: State, x: iset<Message>) {
    InFlightIn(s, x) && RowsFrom(s.table, s0.table, x) && ObjectsFrom(s.bucket, s0.bucket, x)
  }

  lemma BatchFrom(t: Table, t0: Table, ms: seq<Message>, x: iset<Message>)
    requires RowsFrom(t, t0, x) && AllIn(ms, x)
    ensures RowsFrom(InsertBatch(t, ms), t0, x)
  {
    InsertBatchRows(t, ms);
  }

  lemma TableFrom(cfg: Setup, s: State, s0: State, l: Label, x: iset<Message>)
    requires AllFrom(s, s0, x) && Enabled(cfg, s, l)
    ensures RowsFrom(TableNext(cfg, s, l), s0.table, x)
  {
    if l.CopyOk? || l.CopyFail? {
      assert WorkerIn(s.workers[l.w], x);
      BatchFrom(s.table, s0.table, s.workers[l.w].batch, x);
    }
  }

  lemma BucketFrom(cfg: Setup, s: State, s0: State, l: Label, x: iset<Message>)
    requires AllFrom(s, s0, x) && Enabled(cfg, s, l)
    ensures ObjectsFrom(BucketNext(cfg, s, l), s0.bucket, x)
  {
    if l.BuryOk? { assert WorkerIn(s.workers[l.w], x); }
  }

  lemma StepFrom(cfg: Setup, s: State, s0: State, l: Label, x: iset<Message>)
    requires AllFrom(s, s0, x) && Enabled(cfg, s, l) && BringsOnly(cfg, l, x)
    ensures AllFrom(Next(cfg, s, l), s0, x)
  {
    StepStaysIn(cfg, s, l, x);
    TableFrom(cfg, s, s0, l, x);
    BucketFrom(cfg, s, s0, l, x);
  }

  lemma CrewInMore(ws: seq<Worker>, x: iset<Message>, y: iset<Message>)
    requires CrewIn(ws, x) && x <= y
    ensures CrewIn(ws, y)
  {
    forall w | 0 <= w < |ws|
      ensures WorkerIn(ws[w], y)
    {
      assert WorkerIn(ws[w], x);
    }
  }

  lemma FromMore(s: State, s0: State, x: iset<Message>, y: iset<Message>)
    requires AllFrom(s, s0, x) && x <= y
    ensures AllFrom(s, s0, y)
  {
    CrewInMore(s.workers, x, y);
  }

  lemma ArrivalsGrow(cfg: Setup, ls: seq<Label>)
    requires ls != []
    ensures Arrivals(cfg, ls[..|ls| - 1]) <= Arrivals(cfg, ls) && BringsOnly(cfg, ls[|ls| - 1], Arrivals(cfg, ls))
  {
    var init, l := ls[..|ls| - 1], ls[|ls| - 1];
    forall m | Arrived(cfg, init, m)
      ensures Arrived(cfg, ls, m)
    {
      var i :| 0 <= i < |init| && ArrivesAs(cfg, init[i], m);
      assert ls[i] == init[i];
    }
    if l.Arrive? {
      forall m | Incoming(cfg, l.topic, l.payload, l.now) == Some(m)
        ensures Arrived(cfg, ls, m)
      {
        IncomingIs(cfg, l.topic, l.payload, l.now, m);
        assert ArrivesAs(cfg, ls[|ls| - 1], m);
      }
    }
  }

  /** Over every run: each message in the ring, the WAL, a worker's hands or the subscriber's, and each row or object
      that was not there at boot, is the message of some arrival of the run, with the topic, payload and
      reading of that arrival and the tenant and device that the topic names. */
  lemma {:induction false} EveryMessageArrived(cfg: Setup, s0: State, ls: seq<Label>)
    requires Init(cfg, s0) && Legal(cfg, s0, ls)
    ensures AllFrom(Exec(cfg, s0, ls), s0, Arrivals(cfg, ls))
  {
    if ls != [] {
      var init, l := ls[..|ls| - 1], ls[|ls| - 1];
      EveryMessageArrived(cfg, s0, init);
      ArrivalsGrow(cfg, ls);
      FromMore(Exec(cfg, s0, init), s0, Arrivals(cfg, init), Arrivals(cfg, ls));
      StepFrom(cfg, Exec(cfg, s0, init), s0, l, Arrivals(cfg, ls));
    }
  }
}
