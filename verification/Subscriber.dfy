/** HandleMessage: parse, route, acknowledge, and the paused flag. */
module Subscriber {
  import opened Buffer
  import opened Counters
  import opened Messages
  import opened Numerals
  import opened Runs
  import opened Topics
  import opened Wal
  import opened WalKeys
  import opened WalStore
  import opened Wrappers
  import P = Pipeline

  const MAX_ERROR_DETAIL_LEN := 256

  // ----- routing -----

  datatype Route = RingTook(state: PressureState) | WalTook | Refused

  /** Where one message goes: the ring if it fits, else the WAL if it takes the write, else nowhere. */
  function RouteOf(lim: Limits, q: seq<Message>, m: Message, walTakes: bool): Route {
    if Accepts(lim, q, m) then RingTook(StateOf(lim, q + [m]))
    else if walTakes then WalTook
    else Refused
  }

  /** `r` is where the message goes; quantified so that proofs which only pass it on stay small. */
  ghost predicate IsRoute(r: Route, lim: Limits, q: seq<Message>, m: Message, walTakes: bool) {
    forall x :: x == q ==> r == RouteOf(lim, x, m, walTakes)
  }

  lemma RouteIs(r: Route, lim: Limits, q: seq<Message>, m: Message, walTakes: bool)
    ensures IsRoute(r, lim, q, m, walTakes) <==> r == RouteOf(lim, q, m, walTakes)
  {}

  /** The paused flag after a message was routed. */
  predicate PausedBy(r: Route) {
    r == RingTook(StatePause) || r == Refused
  }

  /** The flag and the Pauses counter over a sequential run, as markPaused and clearPause leave them. */
  function PauseRun(rs: seq<Route>): (bool, nat) {
    if rs == [] then (false, 0)
    else
      var (paused, pauses) := PauseRun(rs[..|rs| - 1]);
      var now := PausedBy(rs[|rs| - 1]);
      (now, if now && !paused then pauses + 1 else pauses)
  }

  predicate Rises(rs: seq<Route>, i: nat)
    requires i < |rs|
  {
    PausedBy(rs[i]) && (i == 0 || !PausedBy(rs[i - 1]))
  }

  ghost function RisingEdges(rs: seq<Route>): set<nat> {
    set i: nat | i < |rs| && Rises(rs, i)
  }

  lemma RisingEdgesSnoc(rs: seq<Route>)
    requires rs != []
    ensures var init := rs[..|rs| - 1];
            RisingEdges(rs) == RisingEdges(init) + (if Rises(rs, |rs| - 1) then {|rs| - 1} else {})
  {
    var init := rs[..|rs| - 1];
    forall i: nat | i < |init|
      ensures Rises(rs, i) == Rises(init, i)
    {}
  }

  /** Over any run, the flag reflects the last route only, and Pauses counts exactly its rising edges. */
  lemma {:induction false} PausesCountRisingEdges(rs: seq<Route>)
    ensures PauseRun(rs).0 == (rs != [] && PausedBy(rs[|rs| - 1]))
    ensures PauseRun(rs).1 == |RisingEdges(rs)|
  {
    if rs == [] {
      assert RisingEdges(rs) == {};
    } else {
      PausesCountRisingEdges(rs[..|rs| - 1]);
      RisingEdgesSnoc(rs);
    }
  }

  /** For a message that was accepted, the flag agrees with the ring's pressure after routing, except
      after a spill to the WAL from a ring at the pause threshold: the flag is then cleared. */
  lemma FlagAgreesIff(lim: Limits, q: seq<Message>, m: Message, walTakes: bool)
    requires lim.Valid() && RouteOf(lim, q, m, walTakes) != Refused
    ensures var r := RouteOf(lim, q, m, walTakes);
            var after := if r.RingTook? then q + [m] else q;
            (PausedBy(r) <==> StateOf(lim, after) == StatePause) <==> !(r == WalTook && StateOf(lim, q) == StatePause)
  {
    if RouteOf(lim, q, m, walTakes).RingTook? { assert StateOf(lim, q + [m]) == RouteOf(lim, q, m, walTakes).state; }
  }

  /** The exception is real: every spill from a ring that is full by count clears the flag. */
  lemma FullRingSpillClears(lim: Limits, q: seq<Message>, m: Message)
    requires lim.Valid() && |q| == lim.maxMessages
    ensures RouteOf(lim, q, m, true) == WalTook && !PausedBy(WalTook) && StateOf(lim, q) == StatePause
  {
    FullIsPause(lim, q);
  }

  // ----- unparseable messages -----

  datatype Unparseable = Unparseable(
    topic: string, payload: seq<byte>, class_: TopicErrorClass, detail: Option<string>, receivedAt: int64)

  /** At most the first 256 characters; an empty text is stored as null. */
  function StoredDetail(detail: string): (r: Option<string>)
    ensures r.None? <==> detail == ""
    ensures r.Some? ==> r.value <= detail && |r.value| == if |detail| < 256 then |detail| else 256
  {
    var d := if |detail| > MAX_ERROR_DETAIL_LEN then detail[..MAX_ERROR_DETAIL_LEN] else detail;
    if d == "" then None else Some(d)
  }

  class UnparseableWriter {
    var rows: seq<Unparseable>

    constructor ()
      ensures rows == []
    {
      rows := [];
    }

    method Insert(topic: string, payload: seq<byte>, e: TopicError, receivedAt: int64, fails: bool) returns (ok: bool)
      modifies this
      ensures ok <==> topic != "" && !fails
      ensures rows == if ok then old(rows) + [Unparseable(topic, payload, e.class_, StoredDetail(e.detail), receivedAt)]
                      else old(rows)
    {
      if topic == "" || fails { return false; }
      var detail := e.detail;
      if |detail| > MAX_ERROR_DETAIL_LEN { detail := detail[..MAX_ERROR_DETAIL_LEN]; }
      var arg := if detail == "" then None else Some(detail);
      rows := rows + [Unparseable(topic, payload, e.class_, arg, receivedAt)];
      ok := true;
    }
  }

  // ----- the handler -----

  /** What the outside world answers during one HandleMessage. */
  datatype IntakeEnv = IntakeEnv(appendAt: int64, append: AppendFault, insertFails: bool)

  /** What routing one parseable message does to the stores and their counters, given where it goes. */
  ghost predicate Moved(cfg: P.Setup, p: Point, m: Message, r: Route, at: int64, q: Point) {
    && q.state == p.state.(
         ring := if r.RingTook? then p.state.ring + [m] else p.state.ring,
         walSeq := if r.RingTook? || !cfg.hasWal then p.state.walSeq else NextSeq(p.state.walSeq),
         wal := if r == WalTook then p.state.wal[KeyAt(at, NextSeq(p.state.walSeq)) := m] else p.state.wal)
    && q.counts == p.counts.(
         enqueued := p.counts.enqueued + OneIf(r.RingTook?), rejected := p.counts.rejected + OneIf(!r.RingTook?),
         spilled := p.counts.spilled + OneIf(r == WalTook), appended := p.counts.appended + OneIf(r == WalTook),
         displaced := q.counts.displaced)
  }

  ghost predicate MovedTo(cfg: P.Setup, p: Point, m: Message, r: Route, at: int64, q: Point) {
    forall x :: x == r ==> Moved(cfg, p, m, x, at, q)
  }

  /** The whole of HandleMessage: counted as received, routed, and acknowledged unless refused. */
  ghost predicate Handled(cfg: P.Setup, p: Point, m: Message, r: Route, at: int64, q: Point) {
    var before := p.(counts := p.counts.(received := p.counts.received + 1));
    var acks := p.counts.acks + OneIf(r != Refused);
    MovedTo(cfg, before, m, r, at, q.(counts := q.counts.(acks := p.counts.acks))) && q.counts.acks == acks
  }

  /** After the ring was offered a message and took it or not. */
  function Offered(p: Point, m: Message, taken: bool): Point {
    Point(if taken then p.state.(ring := p.state.ring + [m]) else p.state,
          p.counts.(enqueued := p.counts.enqueued + OneIf(taken), rejected := p.counts.rejected + OneIf(!taken)))
  }

  class Subscriber {
    const cfg: P.Setup
    const ring: Ring
    const wal: Store?
    const unparseable: UnparseableWriter?
    var paused: bool
    var pauses: nat
    var received: nat
    var acked: nat
    var handlerErrors: nat
    var preserved: nat

    constructor (cfg: P.Setup, ring: Ring, wal: Store?, unparseable: UnparseableWriter?)
      ensures this.cfg == cfg && this.ring == ring && this.wal == wal && this.unparseable == unparseable
      ensures !paused && pauses == received == acked == handlerErrors == preserved == 0
    {
      this.cfg, this.ring, this.wal, this.unparseable := cfg, ring, wal, unparseable;
      paused := false;
      pauses, received, acked, handlerErrors, preserved := 0, 0, 0, 0, 0;
    }

    ghost predicate Holds(s: P.State, c: Counts)
      reads this, ring, ring.slots, wal
    {
      && (cfg.hasWal <==> wal != null)
      && ring.Valid() && ring.lim == cfg.limits && s.ring == ring.Contents()
      && c.enqueued == ring.enqueued && c.dequeued == ring.dequeued
      && c.rejected == ring.rejected && c.spilled == ring.spilled
      && (wal != null ==>
            s.wal == wal.Contents() && s.walSeq == wal.seq_ && c.appended == wal.appended && c.drained == wal.drained)
      && c.received == received && c.acks == acked && c.parseFailures == handlerErrors
    }

    /** The two stores and the subscriber's counters are those of the protocol at `p`. */
    ghost predicate Synced(p: Point)
      reads this, ring, ring.slots, wal
    {
      forall c :: c == p.counts ==> Holds(p.state, c)
    }

    method MarkPaused()
      modifies this`paused, this`pauses
      ensures paused && pauses == old(pauses) + (if old(paused) then 0 else 1)
    {
      if !paused {
        paused := true;
        pauses := pauses + 1;
      }
    }

    method ClearPause()
      modifies this`paused
      ensures !paused
    {
      if paused { paused := false; }
    }

    method TrackRing(state: PressureState)
      modifies this`paused, this`pauses
      ensures paused == (state == StatePause)
      ensures pauses == old(pauses) + (if paused && !old(paused) then 1 else 0)
    {
      if state == StatePause { MarkPaused(); } else { ClearPause(); }
    }

    /** routeMessage: ring first, WAL when the ring is full, and the flag as a side effect. */
    method RouteMessage(m: Message, env: IntakeEnv, ghost p: Point) returns (held: bool, ghost r: Route, ghost q: Point)
      requires Synced(p)
      modifies this`paused, this`pauses, ring, ring.slots, wal
      ensures IsRoute(r, cfg.limits, p.state.ring, m, wal != null && env.append == NoFault)
      ensures Synced(q) && MovedTo(cfg, p, m, r, env.appendAt, q)
      ensures held == (r != Refused) && paused == PausedBy(r)
      ensures held <==> Accepts(cfg.limits, p.state.ring, m) || (wal != null && env.append == NoFault)
      ensures paused <==>
              if Accepts(cfg.limits, p.state.ring, m) then StateOf(cfg.limits, p.state.ring + [m]) == StatePause
              else !held
      ensures pauses == old(pauses) + (if paused && !old(paused) then 1 else 0)
    {
      assert Holds(p.state, p.counts);
      var e;
      e, q := OfferRing(m, p);
      if e.Ok? {
        held, r := true, RingTook(e.value);
      } else {
        held, q := Spill(m, env, q);
        r := if held then WalTook else Refused;
      }
      RouteIs(r, cfg.limits, p.state.ring, m, wal != null && env.append == NoFault);
    }

    /** Enqueue, and on success track the ring's state in the flag. */
    method OfferRing(m: Message, ghost p: Point) returns (e: Result<PressureState, EnqueueError>, ghost q: Point)
      requires Synced(p)
      modifies this`paused, this`pauses, ring, ring.slots
      ensures Synced(q) && q == Offered(p, m, e.Ok?)
      ensures e.Ok? <==> Accepts(cfg.limits, p.state.ring, m)
      ensures e.Ok? ==> e.value == StateOf(cfg.limits, q.state.ring) && paused == (e.value == StatePause)
                        && pauses == old(pauses) + (if paused && !old(paused) then 1 else 0)
      ensures e.Err? ==> paused == old(paused) && pauses == old(pauses)
    {
      e, q := Offer(m, p);
      assert Holds(q.state, q.counts);
      if e.Ok? { TrackRing(e.value); }
    }

    method Offer(m: Message, ghost p: Point) returns (e: Result<PressureState, EnqueueError>, ghost q: Point)
      requires Synced(p)
      modifies ring, ring.slots
      ensures Synced(q) && q == Offered(p, m, e.Ok?)
      ensures e.Ok? <==> Accepts(cfg.limits, p.state.ring, m)
      ensures e.Ok? ==> e.value == StateOf(cfg.limits, q.state.ring)
    {
      assert Holds(p.state, p.counts);
      e := ring.Enqueue(m);
      q := Offered(p, m, e.Ok?);
    }

    /** The ring refused: spill to the WAL, or pause. */
    method Spill(m: Message, env: IntakeEnv, ghost p: Point) returns (held: bool, ghost q: Point)
      requires Synced(p)
      modifies this`paused, this`pauses, ring`spilled, wal
      ensures held == (wal != null && env.append == NoFault) && paused == !held
      ensures pauses == old(pauses) + (if paused && !old(paused) then 1 else 0)
      ensures Synced(q) && q == Point(
                p.state.(walSeq := if cfg.hasWal then NextSeq(p.state.walSeq) else p.state.walSeq,
                         wal := if held then p.state.wal[KeyAt(env.appendAt, NextSeq(p.state.walSeq)) := m]
                             else p.state.wal),
                p.counts.(spilled := p.counts.spilled + OneIf(held), appended := p.counts.appended + OneIf(held)))
    {
      assert Holds(p.state, p.counts);
      held := AppendSpilled(m, env);
      q := Point(p.state.(walSeq := if cfg.hasWal then NextSeq(p.state.walSeq) else p.state.walSeq,
                          wal := if held then p.state.wal[KeyAt(env.appendAt, NextSeq(p.state.walSeq)) := m]
                              else p.state.wal),
                 p.counts.(spilled := p.counts.spilled + OneIf(held), appended := p.counts.appended + OneIf(held)));
      if held { ClearPause(); } else { MarkPaused(); }
    }

    method AppendSpilled(m: Message, env: IntakeEnv) returns (held: bool)
      requires ring.Valid()
      modifies ring`spilled, wal
      ensures ring.Valid() && ring.spilled == old(ring.spilled) + OneIf(held)
      ensures held == (wal != null && env.append == NoFault)
      ensures wal != null ==>
                && wal.seq_ == NextSeq(old(wal.seq_)) && wal.drained == old(wal.drained)
                && wal.appended == old(wal.appended) + OneIf(held)
                && wal.Contents() == if held then old(wal.Contents())[KeyAt(env.appendAt, wal.seq_) := m]
                   else old(wal.Contents())
    {
      if wal == null { return false; }
      var a := wal.Append(m, env.appendAt, env.append);
      if a.Err? { return false; }
      ring.MarkSpilled();
      held := true;
    }

    /** handleParseFailure: best-effort preservation, and always an ack. */
    method HandleParseFailure(topic: string, payload: seq<byte>, e: TopicError, now: int64, env: IntakeEnv)
      modifies this`handlerErrors, this`preserved, this`acked, unparseable
      ensures acked == old(acked) + 1 && handlerErrors == old(handlerErrors) + 1
      ensures preserved == old(preserved) + OneIf(unparseable != null && topic != "" && !env.insertFails)
      ensures unparseable != null ==>
                unparseable.rows == if topic != "" && !env.insertFails
                                    then old(unparseable.rows) +
                                         [Unparseable(topic, payload, e.class_, StoredDetail(e.detail), now)]
                                    else old(unparseable.rows)
    {
      handlerErrors := handlerErrors + 1;
      if unparseable != null {
        var ok := unparseable.Insert(topic, payload, e, now, env.insertFails);
        if ok { preserved := preserved + 1; }
      }
      acked := acked + 1;
    }

    /** HandleMessage: a run of the protocol that acknowledges exactly the messages that do not parse
        and those that the ring or the WAL took. */
    method HandleMessage(topic: string, payload: seq<byte>, now: int64, env: IntakeEnv, ghost p: Point)
      returns (ghost incoming: Option<Message>, ghost r: Route, ghost ls: seq<P.Label>, ghost q: Point)
      requires Synced(p) && p.state.intake == P.Free
      modifies this, ring, ring.slots, wal, unparseable
      ensures incoming == P.Incoming(cfg, topic, payload, now)
      ensures incoming.Some? ==> P.BuiltFrom(cfg, topic, payload, now, incoming.value)
      ensures incoming.None? <==> forall tenant, id :: !Names(topic, cfg.parseUuid, tenant, id)
      ensures Reaches(cfg, p, ls, q) && Synced(q)
      ensures incoming.None? ==>
                && ls == [P.Arrive(topic, payload, now)] && q == Unparsed(p)
                && paused == old(paused) && pauses == old(pauses)
      ensures incoming.Some? ==>
                && IsRoute(r, cfg.limits, p.state.ring, incoming.value, wal != null && env.append == NoFault)
                && ls == HandleLabels(cfg.hasWal, topic, payload, now, r, env.appendAt)
                && Handled(cfg, p, incoming.value, r, env.appendAt, q)
                && paused == PausedBy(r) && pauses == old(pauses) + (if paused && !old(paused) then 1 else 0)
    {
      assert Holds(p.state, p.counts);
      P.NoneIncoming(cfg, topic, payload, now);
      var parsed := Parse(topic, payload, now);
      if parsed.Err? {
        incoming, r := None, Refused;
        q := DropUnparsed(topic, payload, parsed.error, now, env, p);
        ls := [P.Arrive(topic, payload, now)];
        UnparsedRun(cfg, p, topic, payload, now);
        return;
      }
      incoming := Some(parsed.value);
      ghost var mid;
      r, mid := RouteAndAck(parsed.value, env, p);
      ls := HandleLabels(cfg.hasWal, topic, payload, now, r, env.appendAt);
      q := HandledRun(cfg, p, topic, payload, now, parsed.value, wal != null && env.append == NoFault, env.appendAt, r);
      HandledAlike(cfg, p, parsed.value, r, env.appendAt, mid, q);
      AlikeSynced(mid, q);
    }

    lemma AlikeSynced(p: Point, q: Point)
      requires Synced(p) && q.state == p.state && q.counts == p.counts.(displaced := q.counts.displaced)
      ensures Synced(q)
    {
      assert Holds(p.state, p.counts);
    }

    /** The half of HandleMessage after a failed parse. */
    method DropUnparsed(topic: string, payload: seq<byte>, e: TopicError, now: int64, env: IntakeEnv, ghost p: Point)
      returns (ghost q: Point)
      requires Synced(p)
      modifies this`received, this`handlerErrors, this`preserved, this`acked, unparseable
      ensures Synced(q) && q == Unparsed(p)
    {
      assert Holds(p.state, p.counts);
      received := received + 1;
      HandleParseFailure(topic, payload, e, now, env);
      q := Unparsed(p);
    }

    /** The half of HandleMessage after a parse. */
    method RouteAndAck(m: Message, env: IntakeEnv, ghost p: Point) returns (ghost r: Route, ghost q: Point)
      requires Synced(p)
      modifies this`received, this`paused, this`pauses, this`acked, ring, ring.slots, wal
      ensures IsRoute(r, cfg.limits, p.state.ring, m, wal != null && env.append == NoFault)
      ensures Synced(q) && Handled(cfg, p, m, r, env.appendAt, q)
      ensures paused == PausedBy(r) && pauses == old(pauses) + (if paused && !old(paused) then 1 else 0)
    {
      assert Holds(p.state, p.counts);
      received := received + 1;
      ghost var before := p.(counts := p.counts.(received := p.counts.received + 1));
      ghost var mid;
      var held;
      held, r, mid := RouteMessage(m, env, before);
      AcksKept(cfg, before, m, r, env.appendAt, mid);
      assert Holds(mid.state, mid.counts);
      if held { acked := acked + 1; }
      q := mid.(counts := mid.counts.(acks := mid.counts.acks + OneIf(held)));
      assert q.(counts := q.counts.(acks := p.counts.acks)) == mid;
    }

    /** The parsing half of HandleMessage, up to the message it builds. */
    method Parse(topic: string, payload: seq<byte>, now: int64) returns (r: Result<Message, TopicError>)
      ensures match r
              case Ok(m) => P.Incoming(cfg, topic, payload, now) == Some(m) && P.BuiltFrom(cfg, topic, payload, now, m)
              case Err(e) => P.Incoming(cfg, topic, payload, now) == None && ParseTopic(topic, cfg.parseUuid) == Err(e)
    {
      var parsed := ParseTopic(topic, cfg.parseUuid);
      if parsed.Err? { return Err(parsed.error); }
      var id := parsed.value;
      r := Ok(Message(id.tenant, id.device, topic, payload, now, MakeDedupKey(id.device, now)));
      P.IncomingIs(cfg, topic, payload, now, r.value);
    }
  }

  // ----- the protocol's view of one HandleMessage -----

  lemma AcksKept(cfg: P.Setup, p: Point, m: Message, r: Route, at: int64, q: Point)
    requires MovedTo(cfg, p, m, r, at, q)
    ensures q.counts.acks == p.counts.acks && q.state.intake == p.state.intake
  {
    assert Moved(cfg, p, m, r, at, q);
  }

  /** The point after a message that does not parse. */
  function Unparsed(p: Point): Point {
    p.(counts := p.counts.(received := p.counts.received + 1, parseFailures := p.counts.parseFailures + 1,
                           acks := p.counts.acks + 1))
  }

  function HandleLabels(hasWal: bool, topic: string, payload: seq<byte>, now: int64, r: Route,
                        at: int64): seq<P.Label> {
    var arrive := P.Arrive(topic, payload, now);
    match r
    case RingTook(_) => [arrive, P.Ack]
    case WalTook => [arrive, P.SpillOk(at), P.Ack]
    case Refused => if hasWal then [arrive, P.SpillFail] else [arrive]
  }

  lemma UnparsedRun(cfg: P.Setup, p: Point, topic: string, payload: seq<byte>, now: int64)
    requires p.state.intake == P.Free && P.Incoming(cfg, topic, payload, now) == None
    ensures Reaches(cfg, p, [P.Arrive(topic, payload, now)], Unparsed(p))
  {
    var l := P.Arrive(topic, payload, now);
    ReachesItself(cfg, p);
    Advance(cfg, p, [], p, l, Unparsed(p));
    assert [] + [l] == [l];
  }

  lemma ArriveStep(cfg: P.Setup, p: Point, topic: string, payload: seq<byte>, now: int64, m: Message)
    returns (l: P.Label, q: Point)
    requires p.state.intake == P.Free && P.Incoming(cfg, topic, payload, now) == Some(m)
    ensures l == P.Arrive(topic, payload, now) && P.Enabled(cfg, p.state, l)
    ensures q == Point(P.Next(cfg, p.state, l), Count(cfg, p.state, l, p.counts))
    ensures q.state ==
            if Accepts(cfg.limits, p.state.ring, m) then p.state.(ring := p.state.ring + [m], intake := P.Acking(m))
            else if cfg.hasWal then p.state.(intake := P.Spilling(m)) else p.state
    ensures var k := OneIf(Accepts(cfg.limits, p.state.ring, m));
            q.counts == p.counts.(received := p.counts.received + 1, enqueued := p.counts.enqueued + k,
                                  rejected := p.counts.rejected + 1 - k)
  {
    l := P.Arrive(topic, payload, now);
    q := Point(P.Next(cfg, p.state, l), Count(cfg, p.state, l, p.counts));
  }

  lemma SpillStep(cfg: P.Setup, p: Point, m: Message, ok: bool, at: int64) returns (l: P.Label, q: Point)
    requires p.state.intake == P.Spilling(m)
    ensures l == (if ok then P.SpillOk(at) else P.SpillFail) && P.Enabled(cfg, p.state, l)
    ensures q == Point(P.Next(cfg, p.state, l), Count(cfg, p.state, l, p.counts))
    ensures q.state == p.state.(intake := if ok then P.Acking(m) else P.Free, walSeq := NextSeq(p.state.walSeq),
                                wal := if ok then p.state.wal[KeyAt(at, NextSeq(p.state.walSeq)) := m] else p.state.wal)
    ensures q.counts == p.counts.(spilled := p.counts.spilled + OneIf(ok), appended := p.counts.appended + OneIf(ok),
                                  displaced := q.counts.displaced)
  {
    l := if ok then P.SpillOk(at) else P.SpillFail;
    q := Point(P.Next(cfg, p.state, l), Count(cfg, p.state, l, p.counts));
  }

  lemma AcknowledgeStep(cfg: P.Setup, p: Point, m: Message) returns (q: Point)
    requires p.state.intake == P.Acking(m)
    ensures P.Enabled(cfg, p.state, P.Ack)
            && q == Point(P.Next(cfg, p.state, P.Ack), Count(cfg, p.state, P.Ack, p.counts))
    ensures q.state == p.state.(intake := P.Free) && q.counts == p.counts.(acks := p.counts.acks + 1)
  {
    q := Point(P.Next(cfg, p.state, P.Ack), Count(cfg, p.state, P.Ack, p.counts));
  }

  /** `Handled` says everything but how many entries an append displaced. */
  lemma HandledAlike(cfg: P.Setup, p: Point, m: Message, r: Route, at: int64, q: Point, t: Point)
    requires Handled(cfg, p, m, r, at, q) && Handled(cfg, p, m, r, at, t)
    ensures t.state == q.state && t.counts == q.counts.(displaced := t.counts.displaced)
  {
    var before := p.(counts := p.counts.(received := p.counts.received + 1));
    assert Moved(cfg, before, m, r, at, q.(counts := q.counts.(acks := p.counts.acks)));
    assert Moved(cfg, before, m, r, at, t.(counts := t.counts.(acks := p.counts.acks)));
  }

  lemma HandledIs(cfg: P.Setup, p: Point, m: Message, r: Route, at: int64, q: Point)
    requires Moved(cfg, p.(counts := p.counts.(received := p.counts.received + 1)), m, r, at,
                   q.(counts := q.counts.(acks := p.counts.acks)))
    requires q.counts.acks == p.counts.acks + OneIf(r != Refused)
    ensures Handled(cfg, p, m, r, at, q)
  {}

  lemma ArriveRun(cfg: P.Setup, p: Point, topic: string, payload: seq<byte>, now: int64, m: Message)
    returns (l: P.Label, q: Point)
    requires p.state.intake == P.Free && P.Incoming(cfg, topic, payload, now) == Some(m)
    ensures l == P.Arrive(topic, payload, now) && Reaches(cfg, p, [l], q)
    ensures q.state ==
            if Accepts(cfg.limits, p.state.ring, m) then p.state.(ring := p.state.ring + [m], intake := P.Acking(m))
            else if cfg.hasWal then p.state.(intake := P.Spilling(m)) else p.state
    ensures var k := OneIf(Accepts(cfg.limits, p.state.ring, m));
            q.counts == p.counts.(received := p.counts.received + 1, enqueued := p.counts.enqueued + k,
                                  rejected := p.counts.rejected + 1 - k)
  {
    l, q := ArriveStep(cfg, p, topic, payload, now, m);
    ReachesItself(cfg, p);
    Advance(cfg, p, [], p, l, q);
    assert [] + [l] == [l];
  }

  /** One HandleMessage is a run of the protocol. */
  lemma HandledRun(cfg: P.Setup, p: Point, topic: string, payload: seq<byte>, now: int64, m: Message,
                   walTakes: bool, at: int64, r: Route) returns (q: Point)
    requires p.state.intake == P.Free && P.Incoming(cfg, topic, payload, now) == Some(m) && (walTakes ==> cfg.hasWal)
    requires IsRoute(r, cfg.limits, p.state.ring, m, walTakes)
    ensures Reaches(cfg, p, HandleLabels(cfg.hasWal, topic, payload, now, r, at), q) && Handled(cfg, p, m, r, at, q)
  {
    RouteIs(r, cfg.limits, p.state.ring, m, walTakes);
    var l, a := ArriveRun(cfg, p, topic, payload, now, m);
    if r.RingTook? {
      q := AcknowledgedRun(cfg, p, [l], a, m);
      HandledIs(cfg, p, m, r, at, q);
    } else {
      q := RefusedByRing(cfg, p, l, a, m, walTakes, at, r);
    }
  }

  lemma RefusedByRing(cfg: P.Setup, p: Point, l: P.Label, a: Point, m: Message, walTakes: bool, at: int64, r: Route)
    returns (q: Point)
    requires p.state.intake == P.Free && (walTakes ==> cfg.hasWal) && Reaches(cfg, p, [l], a)
    requires a.state == p.state.(intake := if cfg.hasWal then P.Spilling(m) else P.Free)
    requires a.counts == p.counts.(received := p.counts.received + 1, rejected := p.counts.rejected + 1)
    requires r == if walTakes then WalTook else Refused
    ensures Handled(cfg, p, m, r, at, q)
    ensures Reaches(cfg, p,
                    if walTakes then [l, P.SpillOk(at), P.Ack] else if cfg.hasWal then [l, P.SpillFail] else [l], q)
  {
    if cfg.hasWal {
      q := SpilledRun(cfg, p, l, a, m, walTakes, at);
    } else {
      q := a;
    }
    HandledIs(cfg, p, m, r, at, q);
  }

  lemma AcknowledgedRun(cfg: P.Setup, p: Point, ls: seq<P.Label>, a: Point, m: Message) returns (q: Point)
    requires Reaches(cfg, p, ls, a) && a.state.intake == P.Acking(m)
    ensures Reaches(cfg, p, ls + [P.Ack], q)
    ensures q.state == a.state.(intake := P.Free) && q.counts == a.counts.(acks := a.counts.acks + 1)
  {
    q := AcknowledgeStep(cfg, a, m);
    Advance(cfg, p, ls, a, P.Ack, q);
  }

  lemma SpilledRun(cfg: P.Setup, p: Point, l: P.Label, a: Point, m: Message, ok: bool, at: int64) returns (q: Point)
    requires Reaches(cfg, p, [l], a) && a.state.intake == P.Spilling(m)
    ensures Reaches(cfg, p, if ok then [l, P.SpillOk(at), P.Ack] else [l, P.SpillFail], q)
    ensures q.state == a.state.(intake := P.Free, walSeq := NextSeq(a.state.walSeq),
                                wal := if ok then a.state.wal[KeyAt(at, NextSeq(a.state.walSeq)) := m] else a.state.wal)
    ensures q.counts == a.counts.(spilled := a.counts.spilled + OneIf(ok), appended := a.counts.appended + OneIf(ok),
                                  acks := a.counts.acks + OneIf(ok), displaced := q.counts.displaced)
  {
    var x, b := SpillStep(cfg, a, m, ok, at);
    Advance(cfg, p, [l], a, x, b);
    assert [l] + [x] == [l, x];
    q := b;
    if ok {
      q := AcknowledgedRun(cfg, p, [l, x], b, m);
    }
  }
}
