/** The in-memory ring: a circular array bounded by count and by bytes. */
module Buffer {
  import opened Messages
  import opened Wrappers

  datatype PressureState = StateNormal | StateSpill | StatePause {
    function Rank(): nat {
      match this
      case StateNormal => 0
      case StateSpill => 1
      case StatePause => 2
    }
  }

  datatype ConfigError = BadMaxMessages | BadMaxBytes | BadSpill | BadPause | SpillNotBelowPause
  datatype EnqueueError = ErrFull

  /** What an operator configures. Thresholds are exact fractions: the code's
      floating-point products are taken without rounding. */
  datatype Config = Config(maxMessages: int, maxBytes: int, spill: real, pause: real) {
    predicate Valid() {
      && maxMessages > 0 && maxBytes > 0
      && 0.0 < spill < pause < 1.0
    }
  }

  /** What a ring holds: the caps and the thresholds precomputed from them. */
  datatype Limits = Limits(
    maxMessages: int, maxBytes: int,
    spillCount: int, pauseCount: int, spillBytes: int, pauseBytes: int)
  {
    predicate Valid() {
      && 0 <= spillCount <= pauseCount < maxMessages
      && 0 <= spillBytes <= pauseBytes < maxBytes
    }

    function StateAt(size: int, bytes: int): PressureState {
      if size >= pauseCount || bytes >= pauseBytes then StatePause
      else if size >= spillCount || bytes >= spillBytes then StateSpill
      else StateNormal
    }
  }

  function Scaled(cap: int, fraction: real): int {
    (cap as real * fraction).Floor
  }

  function LimitsOf(cfg: Config): Limits {
    Limits(cfg.maxMessages, cfg.maxBytes,
           Scaled(cfg.maxMessages, cfg.spill), Scaled(cfg.maxMessages, cfg.pause),
           Scaled(cfg.maxBytes, cfg.spill), Scaled(cfg.maxBytes, cfg.pause))
  }

  lemma ThresholdOrder(cap: int, spill: real, pause: real)
    requires cap > 0 && 0.0 < spill < pause < 1.0
    ensures 0 <= Scaled(cap, spill) <= Scaled(cap, pause) < cap
  {
    var c := cap as real;
    assert c * spill < c * pause < c * 1.0;
    assert 0.0 < c * spill;
  }

  /** A valid configuration orders every threshold strictly below its cap. */
  lemma LimitsOfValid(cfg: Config)
    requires cfg.Valid()
    ensures LimitsOf(cfg).Valid()
  {
    ThresholdOrder(cfg.maxMessages, cfg.spill, cfg.pause);
    ThresholdOrder(cfg.maxBytes, cfg.spill, cfg.pause);
  }

  function MessageSize(m: Message): nat {
    |m.payload| + |m.topic| + |m.tenant| + |m.dedupKey|
  }

  // ----- the bounded FIFO that the ring implements -----

  /** All payloads, end to end. */
  function Payloads(ms: seq<Message>): seq<byte> {
    if ms == [] then [] else Payloads(ms[..|ms| - 1]) + ms[|ms| - 1].payload
  }

  /** All topics, tenants and dedup keys, end to end. */
  function Texts(ms: seq<Message>): string {
    if ms == [] then ""
    else
      var m := ms[|ms| - 1];
      Texts(ms[..|ms| - 1]) + m.topic + m.tenant + m.dedupKey
  }

  /** The bytes a queue is charged for. */
  function TotalSize(ms: seq<Message>): nat {
    |Payloads(ms)| + |Texts(ms)|
  }

  predicate Accepts(lim: Limits, q: seq<Message>, m: Message) {
    |q| < lim.maxMessages && TotalSize(q + [m]) <= lim.maxBytes
  }

  function StateOf(lim: Limits, q: seq<Message>): PressureState {
    lim.StateAt(|q|, TotalSize(q))
  }

  /** How many messages a request for `n` takes from a queue of `len`. */
  function TakeCount(n: int, len: nat): nat {
    if n <= 0 then 0 else if n > len then len else n
  }

  /** What the code charges a message is what it adds to those bytes. */
  lemma TotalSizeSnoc(ms: seq<Message>, m: Message)
    ensures TotalSize(ms + [m]) == TotalSize(ms) + MessageSize(m)
  {
    assert (ms + [m])[..|ms|] == ms;
  }

  lemma {:induction false} TotalSizeConcat(a: seq<Message>, b: seq<Message>)
    ensures TotalSize(a + b) == TotalSize(a) + TotalSize(b)
  {
    if b == [] {
      assert a + b == a;
    } else {
      var init := b[..|b| - 1];
      TotalSizeConcat(a, init);
      TotalSizeSnoc(a + init, b[|b| - 1]);
      assert a + b == (a + init) + [b[|b| - 1]];
    }
  }

  lemma TotalSizeSplit(ms: seq<Message>, k: nat)
    requires k <= |ms|
    ensures TotalSize(ms) == TotalSize(ms[..k]) + TotalSize(ms[k..])
  {
    var a, b := ms[..k], ms[k..];
    assert a + b == ms;
    TotalSizeConcat(a, b);
  }

  // ----- pressure -----

  lemma RankMonotone(lim: Limits, s1: int, b1: int, s2: int, b2: int)
    requires lim.Valid() && s1 <= s2 && b1 <= b2
    ensures lim.StateAt(s1, b1).Rank() <= lim.StateAt(s2, b2).Rank()
  {}

  lemma EnqueueNeverLowersPressure(lim: Limits, q: seq<Message>, m: Message)
    requires lim.Valid() && Accepts(lim, q, m)
    ensures StateOf(lim, q).Rank() <= StateOf(lim, q + [m]).Rank()
  {
    TotalSizeSnoc(q, m);
    RankMonotone(lim, |q|, TotalSize(q), |q + [m]|, TotalSize(q + [m]));
  }

  lemma DequeueNeverRaisesPressure(lim: Limits, q: seq<Message>, n: int)
    requires lim.Valid()
    ensures StateOf(lim, q[TakeCount(n, |q|)..]).Rank() <= StateOf(lim, q).Rank()
  {
    var k := TakeCount(n, |q|);
    TotalSizeSplit(q, k);
    RankMonotone(lim, |q[k..]|, TotalSize(q[k..]), |q|, TotalSize(q));
  }

  /** A ring that refuses by count is already in pause, and so is one at a byte cap. */
  lemma FullIsPause(lim: Limits, q: seq<Message>)
    requires lim.Valid()
    requires |q| >= lim.maxMessages || TotalSize(q) >= lim.maxBytes
    ensures StateOf(lim, q) == StatePause
  {
  }

  lemma ScaledIs(cap: int, fraction: real, n: int)
    ensures n >= Scaled(cap, fraction) <==> n as real + 1.0 > cap as real * fraction
  {}

  /** The pressure in terms of the configured fractions: a state is reached where one more message, or one
      more byte, would be above that fraction of its cap. */
  lemma PressureIff(cfg: Config, q: seq<Message>)
    requires cfg.Valid()
    ensures var bytes := |Payloads(q)| + |Texts(q)|;
            && (StateOf(LimitsOf(cfg), q) == StatePause <==>
                  || |q| as real + 1.0 > cfg.maxMessages as real * cfg.pause
                  || bytes as real + 1.0 > cfg.maxBytes as real * cfg.pause)
            && (StateOf(LimitsOf(cfg), q) == StateNormal <==>
                  && |q| as real + 1.0 <= cfg.maxMessages as real * cfg.spill
                  && bytes as real + 1.0 <= cfg.maxBytes as real * cfg.spill)
  {
    ScaledIs(cfg.maxMessages, cfg.pause, |q|);
    ScaledIs(cfg.maxBytes, cfg.pause, TotalSize(q));
    ScaledIs(cfg.maxMessages, cfg.spill, |q|);
    ScaledIs(cfg.maxBytes, cfg.spill, TotalSize(q));
    LimitsOfValid(cfg);
  }

  // ----- whole runs of the FIFO -----

  datatype Op = Put(m: Message) | Take(n: int)

  /** Everything accepted and everything taken out, in order, over a run. */
  datatype History = History(q: seq<Message>, accepted: seq<Message>, taken: seq<Message>)

  function Step(lim: Limits, h: History, op: Op): History {
    match op
    case Put(m) => if Accepts(lim, h.q, m) then History(h.q + [m], h.accepted + [m], h.taken) else h
    case Take(n) =>
      var k := TakeCount(n, |h.q|);
      History(h.q[k..], h.accepted, h.taken + h.q[..k])
  }

  function RunOps(lim: Limits, ops: seq<Op>): History {
    if ops == [] then History([], [], [])
    else Step(lim, RunOps(lim, ops[..|ops| - 1]), ops[|ops| - 1])
  }

  ghost predicate Fifo(lim: Limits, h: History) {
    && h.accepted == h.taken + h.q
    && |h.q| <= lim.maxMessages && TotalSize(h.q) <= lim.maxBytes
  }

  lemma StepKeepsFifo(lim: Limits, h: History, op: Op)
    requires Fifo(lim, h)
    ensures Fifo(lim, Step(lim, h, op))
  {
    match op
    case Put(m) => TotalSizeSnoc(h.q, m);
    case Take(n) =>
      var k := TakeCount(n, |h.q|);
      TotalSizeSplit(h.q, k);
      assert h.taken + h.q == (h.taken + h.q[..k]) + h.q[k..];
  }

  /** First in, first out, nothing invented, nothing lost, and never above either cap. */
  lemma {:induction false} FifoOverRuns(lim: Limits, ops: seq<Op>)
    requires lim.Valid()
    ensures Fifo(lim, RunOps(lim, ops))
  {
    if ops != [] {
      FifoOverRuns(lim, ops[..|ops| - 1]);
      StepKeepsFifo(lim, RunOps(lim, ops[..|ops| - 1]), ops[|ops| - 1]);
    }
  }

  // ----- the circular array -----

  /** Array position of the i-th queued message. */
  function Pos(head: int, i: int, cap: int): int {
    if head + i < cap then head + i else head + i - cap
  }

  lemma ModIsPos(head: int, i: int, cap: int)
    requires 0 <= head < cap && 0 <= i <= cap
    ensures (head + i) % cap == Pos(head, i, cap)
  {
    var x := head + i;
    if x < cap {
      assert x / cap == 0;
    } else {
      assert (x - cap) / cap == 0;
      assert x == cap * 1 + (x - cap);
      assert x / cap == 1;
    }
  }

  ghost predicate InShape(s: seq<Message>, head: int, size: int) {
    0 <= head < |s| && 0 <= size <= |s|
  }

  /** The queue that an array, a head and a size stand for. */
  ghost function View(s: seq<Message>, head: int, size: int): (q: seq<Message>)
    requires InShape(s, head, size)
    ensures |q| == size
  {
    seq(size, i requires 0 <= i < size => s[Pos(head, i, |s|)])
  }

  ghost predicate DeadSlotsZero(s: seq<Message>, head: int, size: int)
    requires InShape(s, head, size)
  {
    forall i :: size <= i < |s| ==> s[Pos(head, i, |s|)] == ZeroMessage()
  }

  lemma ViewPut(s: seq<Message>, head: int, size: int, m: Message)
    requires InShape(s, head, size) && size < |s| && DeadSlotsZero(s, head, size)
    ensures var t := s[Pos(head, size, |s|) := m];
            && View(t, head, size + 1) == View(s, head, size) + [m]
            && DeadSlotsZero(t, head, size + 1)
  {}

  /** Zeroing one slot and moving the head over it drops the oldest message. */
  lemma ViewDropOne(s: seq<Message>, head: int, size: int)
    requires InShape(s, head, size) && 0 < size && DeadSlotsZero(s, head, size)
    ensures var t := s[head := ZeroMessage()];
            var h := Pos(head, 1, |s|);
            && View(s, head, size)[0] == s[head]
            && View(t, h, size - 1) == View(s, head, size)[1..]
            && DeadSlotsZero(t, h, size - 1)
  {
    var t := s[head := ZeroMessage()];
    var h := Pos(head, 1, |s|);
    forall i | size - 1 <= i < |s|
      ensures t[Pos(h, i, |s|)] == ZeroMessage()
    {
      if i < |s| - 1 { assert Pos(h, i, |s|) == Pos(head, i + 1, |s|); }
    }
    assert forall i :: 0 <= i < size - 1 ==> Pos(h, i, |s|) == Pos(head, i + 1, |s|);
  }

  /** The first `i` messages of `q` are out of the array and their slots are zero. */
  ghost predicate DrainedTo(s: seq<Message>, head: int, q: seq<Message>, i: int) {
    && 0 <= i <= |q| <= |s| && 0 <= head < |s|
    && View(s, Pos(head, i, |s|), |q| - i) == q[i..]
    && DeadSlotsZero(s, Pos(head, i, |s|), |q| - i)
  }

  lemma DrainOne(s: seq<Message>, head: int, q: seq<Message>, i: int)
    requires i < |q| && DrainedTo(s, head, q, i)
    ensures var at := Pos(head, i, |s|);
            && s[at] == q[i]
            && DrainedTo(s[at := ZeroMessage()], head, q, i + 1)
            && q[..i + 1] == q[..i] + [q[i]]
            && TotalSize(q[..i + 1]) == TotalSize(q[..i]) + MessageSize(q[i])
  {
    ViewDropOne(s, Pos(head, i, |s|), |q| - i);
    assert q[i..][0] == q[i] && q[i..][1..] == q[i + 1..];
    assert q[..i + 1] == q[..i] + [q[i]];
    TotalSizeSnoc(q[..i], q[i]);
  }

  lemma DrainedAll(s: seq<Message>, head: int, q: seq<Message>, k: int)
    requires DrainedTo(s, head, q, k)
    ensures var h := Pos(head, k, |s|);
            && InShape(s, h, |q| - k)
            && View(s, h, |q| - k) == q[k..]
            && DeadSlotsZero(s, h, |q| - k)
    ensures TotalSize(q[..k]) == TotalSize(q) - TotalSize(q[k..])
  {
    TotalSizeSplit(q, k);
  }

  class Ring {
    const lim: Limits
    const slots: array<Message>
    var head: int
    var size: int
    var bytes: int
    var enqueued: nat
    var dequeued: nat
    var rejected: nat
    var spilled: nat

    ghost predicate Shaped()
      reads this, slots
    {
      && lim.Valid()
      && slots.Length == lim.maxMessages
      && InShape(slots[..], head, size)
    }

    ghost function Contents(): seq<Message>
      reads this, slots
      requires Shaped()
    {
      View(slots[..], head, size)
    }

    ghost predicate Valid()
      reads this, slots
    {
      && Shaped()
      && bytes == TotalSize(Contents())
      && bytes <= lim.maxBytes
      && DeadSlotsZero(slots[..], head, size)
      && enqueued - dequeued == size
    }

    constructor (lim: Limits)
      requires lim.Valid()
      ensures Valid() && fresh(slots) && this.lim == lim && Contents() == []
      ensures enqueued == dequeued == rejected == spilled == 0
    {
      this.lim := lim;
      slots := new Message[lim.maxMessages](_ => ZeroMessage());
      head, size, bytes := 0, 0, 0;
      enqueued, dequeued, rejected, spilled := 0, 0, 0, 0;
    }

    method State() returns (s: PressureState)
      requires Valid()
      ensures s == StateOf(lim, Contents())
    {
      if size >= lim.pauseCount || bytes >= lim.pauseBytes { return StatePause; }
      if size >= lim.spillCount || bytes >= lim.spillBytes { return StateSpill; }
      return StateNormal;
    }

    method Enqueue(m: Message) returns (r: Result<PressureState, EnqueueError>)
      requires Valid()
      modifies this, slots
      ensures Valid()
      ensures r.Ok? <==> Accepts(lim, old(Contents()), m)
      ensures r.Ok? <==>
              var q := old(Contents()) + [m];
              |q| <= lim.maxMessages && |Payloads(q)| + |Texts(q)| <= lim.maxBytes
      ensures r.Ok? ==> Contents() == old(Contents()) + [m] && r.value == StateOf(lim, Contents())
                        && enqueued == old(enqueued) + 1 && rejected == old(rejected)
      ensures r.Err? ==> unchanged(slots) && Contents() == old(Contents())
                         && enqueued == old(enqueued) && rejected == old(rejected) + 1
      ensures dequeued == old(dequeued) && spilled == old(spilled)
    {
      var sz := MessageSize(m);
      TotalSizeSnoc(Contents(), m);
      if size >= lim.maxMessages || bytes + sz > lim.maxBytes {
        rejected := rejected + 1;
        return Err(ErrFull);
      }
      Put(m, sz);
      var s := State();
      r := Ok(s);
    }

    /** The accepting half of Enqueue. */
    method Put(m: Message, sz: int)
      requires Valid() && Accepts(lim, Contents(), m) && sz == MessageSize(m)
      modifies this`size, this`bytes, this`enqueued, slots
      ensures Valid() && Contents() == old(Contents()) + [m]
      ensures enqueued == old(enqueued) + 1
    {
      ghost var q, before := Contents(), slots[..];
      ViewPut(before, head, size, m);
      TotalSizeSnoc(q, m);
      var tail := SlotIndex(size);
      slots[tail] := m;
      assert slots[..] == before[tail := m];
      size := size + 1;
      bytes := bytes + sz;
      enqueued := enqueued + 1;
    }

    /** The modulo step shared by Enqueue and Dequeue. */
    method SlotIndex(i: int) returns (idx: int)
      requires Shaped() && 0 <= i <= lim.maxMessages
      ensures idx == Pos(head, i, lim.maxMessages)
    {
      ModIsPos(head, i, lim.maxMessages);
      idx := (head + i) % lim.maxMessages;
    }

    method MarkSpilled()
      requires Valid()
      modifies this`spilled
      ensures Valid() && spilled == old(spilled) + 1
    {
      spilled := spilled + 1;
    }

    method Dequeue(n: int) returns (out: seq<Message>)
      requires Valid()
      modifies this, slots
      ensures Valid()
      ensures var k := TakeCount(n, |old(Contents())|);
              && out == old(Contents())[..k]
              && Contents() == old(Contents())[k..]
              && dequeued == old(dequeued) + k
      ensures |out| == if n <= 0 then 0 else if n < |old(Contents())| then n else |old(Contents())|
      ensures enqueued == old(enqueued) && rejected == old(rejected) && spilled == old(spilled)
    {
      if n <= 0 || size == 0 { return []; }
      var k := if n > size then size else n;
      ghost var rest := Contents()[k..];
      var freed;
      out, freed := TakeOldest(k);
      head := SlotIndex(k);
      size := size - k;
      assert Shaped() && Contents() == rest;
      bytes := bytes - freed;
      dequeued := dequeued + k;
    }

    method TakeOldest(k: int) returns (out: seq<Message>, freed: int)
      requires Valid() && 0 <= k <= size
      modifies slots
      ensures var h := Pos(head, k, lim.maxMessages);
              && InShape(slots[..], h, size - k)
              && View(slots[..], h, size - k) == old(Contents())[k..]
              && DeadSlotsZero(slots[..], h, size - k)
      ensures out == old(Contents())[..k]
      ensures 0 <= freed == bytes - TotalSize(old(Contents())[k..])
    {
      ghost var q := Contents();
      out, freed := CopyOut(k);
      DrainedAll(slots[..], head, q, k);
    }

    /** The copying and zeroing loop of Dequeue. */
    method CopyOut(k: int) returns (out: seq<Message>, freed: int)
      requires Valid() && 0 <= k <= size
      modifies slots
      ensures DrainedTo(slots[..], head, old(Contents()), k)
      ensures out == old(Contents())[..k] && freed == TotalSize(out)
    {
      ghost var q := Contents();
      out := [];
      freed := 0;
      ghost var s := slots[..];
      for i := 0 to k
        invariant s == slots[..] && DrainedTo(s, head, q, i)
        invariant out == q[..i] && freed == TotalSize(out)
      {
        var idx := SlotIndex(i);
        DrainOne(s, head, q, i);
        out := out + [slots[idx]];
        freed := freed + MessageSize(slots[idx]);
        slots[idx] := ZeroMessage();
        s := s[idx := ZeroMessage()];
      }
    }
  }

  /** buffer.New: the checks in the order the code makes them. */
  method NewRing(cfg: Config) returns (r: Result<Ring, ConfigError>)
    ensures r.Ok? <==> cfg.Valid()
    ensures r.Ok? ==> fresh(r.value) && fresh(r.value.slots) && r.value.Valid()
    ensures r.Ok? ==> r.value.lim == LimitsOf(cfg) && r.value.Contents() == []
    ensures cfg.maxMessages <= 0 <==> r == Err(BadMaxMessages)
    ensures cfg.maxMessages > 0 && cfg.maxBytes <= 0 <==> r == Err(BadMaxBytes)
    ensures r.Err? && cfg.maxMessages > 0 && cfg.maxBytes > 0 ==>
              && (r.error == BadSpill <==> !(0.0 < cfg.spill < 1.0))
              && (r.error == BadPause <==> 0.0 < cfg.spill < 1.0 && !(0.0 < cfg.pause < 1.0))
              && (r.error == SpillNotBelowPause <==> 0.0 < cfg.pause <= cfg.spill < 1.0)
  {
    if cfg.maxMessages <= 0 { return Err(BadMaxMessages); }
    if cfg.maxBytes <= 0 { return Err(BadMaxBytes); }
    if cfg.spill <= 0.0 || cfg.spill >= 1.0 { return Err(BadSpill); }
    if cfg.pause <= 0.0 || cfg.pause >= 1.0 { return Err(BadPause); }
    if cfg.spill >= cfg.pause { return Err(SpillNotBelowPause); }
    LimitsOfValid(cfg);
    var ring := new Ring(LimitsOf(cfg));
    r := Ok(ring);
  }
}
