/** The adaptive mode machine: three modes, a rolling p95, a recovery timer and a critical gate. */
module AdaptiveMode {
  import opened Latency
  import opened Wrappers

  datatype Mode = Normal | Elevated | Critical

  datatype Config = Config(elevated: int, critical: int, recovery: int) {
    predicate Valid() { 0 < elevated < critical && 0 < recovery }
  }

  /** `belowSince` and `criticalUntil` are None while the code's fields hold the zero time. */
  datatype State = State(mode: Mode, belowSince: Option<int>, criticalUntil: Option<int>, window: seq<int>)

  const INITIAL := State(Normal, None, None, [])

  // ----- the three critical sections -----

  function AfterRecovery(s: State): State {
    if s.mode == Critical then s.(mode := Elevated) else s
  }

  function AfterError(cfg: Config, s: State, now: int): State {
    s.(mode := Critical, criticalUntil := Some(now + cfg.recovery))
  }

  ghost function AfterSample(cfg: Config, s: State, d: int, now: int): State {
    var w := Push(s.window, d);
    Judge(cfg, s.(window := w), P95(w), now)
  }

  /** The switch at the end of recordLatency. */
  function Judge(cfg: Config, s: State, p95: int, now: int): State {
    match s.mode
    case Normal =>
      if p95 >= cfg.elevated then s.(mode := Elevated) else s
    case Elevated =>
      if p95 >= cfg.critical then s.(mode := Critical)
      else if p95 < cfg.elevated then
        match s.belowSince
        case None => s.(belowSince := Some(now))
        case Some(since) =>
          if now - since >= cfg.recovery then s.(mode := Normal, belowSince := None) else s
      else s.(belowSince := None)
    case Critical =>
      if p95 < cfg.elevated then s.(mode := Elevated) else s
  }

  predicate GateClosed(s: State, now: int) {
    s.mode == Critical && s.criticalUntil.Some? && now < s.criticalUntil.value
  }

  // ----- runs: any interleaving of the critical sections, by any number of workers -----

  datatype Event = Recovered | Recorded(d: int, now: int) | Failed(now: int)

  ghost function Apply(cfg: Config, s: State, e: Event): State {
    match e
    case Recovered => AfterRecovery(s)
    case Recorded(d, now) => AfterSample(cfg, s, d, now)
    case Failed(now) => AfterError(cfg, s, now)
  }

  ghost function Run(cfg: Config, s: State, es: seq<Event>): State {
    if es == [] then s else Apply(cfg, Run(cfg, s, es[..|es| - 1]), es[|es| - 1])
  }

  /** The state before the i-th event of a run from the start. */
  ghost function At(cfg: Config, es: seq<Event>, i: nat): State
    requires i <= |es|
  {
    Run(cfg, INITIAL, es[..i])
  }

  lemma AtNext(cfg: Config, es: seq<Event>, i: nat)
    requires i < |es|
    ensures At(cfg, es, i + 1) == Apply(cfg, At(cfg, es, i), es[i])
  {
    assert es[..i + 1][..i] == es[..i];
  }

  function Latencies(es: seq<Event>): seq<int> {
    if es == [] then []
    else
      var init := Latencies(es[..|es| - 1]);
      if es[|es| - 1].Recorded? then init + [es[|es| - 1].d] else init
  }

  /** Over every run the window is the last min(64, count) recorded latencies. */
  lemma {:induction false} WindowIsRecent(cfg: Config, es: seq<Event>)
    ensures Run(cfg, INITIAL, es).window == LastOf(Latencies(es))
  {
    if es != [] {
      WindowIsRecent(cfg, es[..|es| - 1]);
      if es[|es| - 1].Recorded? { PushKeepsLast(Latencies(es[..|es| - 1]), es[|es| - 1].d); }
    }
  }

  // ----- what one event can do -----

  /** Normal reaches Critical only through an error, and Critical never steps straight to Normal. */
  lemma ModeEdges(cfg: Config, s: State, e: Event)
    ensures var t := Apply(cfg, s, e);
            && (s.mode == Normal && t.mode == Critical ==> e.Failed?)
            && (s.mode == Critical ==> t.mode != Normal)
            && (s.mode == Elevated && t.mode == Normal ==>
                  && e.Recorded? && P95(t.window) < cfg.elevated
                  && s.belowSince.Some? && e.now - s.belowSince.value >= cfg.recovery)
            && (s.mode != Critical && t.mode == Critical && !e.Failed? ==>
                  s.mode == Elevated && e.Recorded? && P95(t.window) >= cfg.critical)
  {}

  /** At least a twentieth of the samples reach the threshold; of no samples, none does. */
  ghost predicate Reached(w: seq<int>, t: int) {
    w != [] && 20 * CountGE(w, t) >= |w|
  }

  lemma ReachedIs(w: seq<int>, t: int)
    requires w != []
    ensures P95(w) >= t <==> Reached(w, t)
  {}

  /** What a sample does to the mode, over every run, in terms of the latencies recorded so far: which of the
      last 64 reach which threshold, and, for the way back to Normal, when the timer was started. */
  lemma SampleDecides(cfg: Config, es: seq<Event>, i: nat)
    requires cfg.Valid() && i < |es| && es[i].Recorded?
    ensures var w := LastOf(Latencies(es[..i + 1]));
            var s, after := At(cfg, es, i), At(cfg, es, i + 1).mode;
            && w != []
            && (s.mode == Normal ==> after == if Reached(w, cfg.elevated) then Elevated else Normal)
            && (s.mode == Critical ==> after == if Reached(w, cfg.elevated) then Critical else Elevated)
            && (s.mode == Elevated ==>
                  && (after == Critical <==> Reached(w, cfg.critical))
                  && (after == Normal <==>
                        && !Reached(w, cfg.elevated)
                        && exists j: nat :: TimerFrom(cfg, es, j, i) && es[i].now - es[j].now >= cfg.recovery))
  {
    WindowIsRecent(cfg, es[..i + 1]);
    var s := At(cfg, es, i);
    var w := Push(s.window, es[i].d);
    AtNext(cfg, es, i);
    assert At(cfg, es, i + 1).window == w;
    ReachedIs(w, cfg.elevated);
    ReachedIs(w, cfg.critical);
    if Reached(w, cfg.critical) { FewerReach(w, cfg.elevated, cfg.critical); }
    if s.belowSince.Some? { var j := TimerHasOrigin(cfg, es, i); }
  }

  lemma FewerReach(w: seq<int>, low: int, high: int)
    requires low <= high && Reached(w, high)
    ensures Reached(w, low)
  {
    ReachedIs(w, low);
    ReachedIs(w, high);
  }

  /** No run is in Normal right after a sample that lifted p95 to the elevated threshold. */
  lemma NormalAfterSampleIsFast(cfg: Config, es: seq<Event>, i: nat)
    requires cfg.Valid() && i < |es| && es[i].Recorded? && At(cfg, es, i + 1).mode == Normal
    ensures !Reached(LastOf(Latencies(es[..i + 1])), cfg.elevated)
  {
    SampleDecides(cfg, es, i);
  }

  /** In every reachable state the recovery timer is clear while the mode is Normal. */
  lemma {:induction false} NormalHasNoTimer(cfg: Config, es: seq<Event>)
    ensures var s := Run(cfg, INITIAL, es); s.mode == Normal ==> s.belowSince == None
  {
    if es != [] { NormalHasNoTimer(cfg, es[..|es| - 1]); }
  }

  // ----- the gate -----

  function LastFailure(es: seq<Event>): Option<int> {
    if es == [] then None
    else if es[|es| - 1].Failed? then Some(es[|es| - 1].now)
    else LastFailure(es[..|es| - 1])
  }

  function GateSetBy(cfg: Config, failure: Option<int>): Option<int> {
    match failure
    case None => None
    case Some(t) => Some(t + cfg.recovery)
  }

  lemma {:induction false} GateIsLastFailure(cfg: Config, es: seq<Event>)
    ensures Run(cfg, INITIAL, es).criticalUntil == GateSetBy(cfg, LastFailure(es))
  {
    if es != [] { GateIsLastFailure(cfg, es[..|es| - 1]); }
  }

  /** Only errors set the gate: it is closed iff the mode is Critical, for whatever reason, and the
      latest error is less than a recovery window old. */
  lemma GateFollowsErrors(cfg: Config, es: seq<Event>, now: int)
    ensures GateClosed(Run(cfg, INITIAL, es), now) <==>
            && Run(cfg, INITIAL, es).mode == Critical
            && LastFailure(es).Some? && now < LastFailure(es).value + cfg.recovery
  {
    GateIsLastFailure(cfg, es);
  }

  // ----- where the recovery timer comes from -----

  /** Event `j` is the sample that started the timer still running before event `i`. */
  ghost predicate TimerFrom(cfg: Config, es: seq<Event>, j: nat, i: nat) {
    && j < i <= |es|
    && es[j].Recorded?
    && At(cfg, es, j).mode == Elevated && At(cfg, es, j + 1).mode == Elevated
    && P95(At(cfg, es, j + 1).window) < cfg.elevated
    && (forall m :: j < m <= i ==> At(cfg, es, m).belowSince == Some(es[j].now))
  }

  lemma TimerStarts(cfg: Config, s: State, e: Event)
    requires cfg.Valid() && Apply(cfg, s, e).belowSince.Some? && Apply(cfg, s, e).belowSince != s.belowSince
    ensures e.Recorded? && s.mode == Elevated == Apply(cfg, s, e).mode
    ensures P95(Apply(cfg, s, e).window) < cfg.elevated && Apply(cfg, s, e).belowSince == Some(e.now)
  {}

  lemma TimerExtends(cfg: Config, es: seq<Event>, j: nat, i: nat)
    requires TimerFrom(cfg, es, j, i) && i < |es| && At(cfg, es, i + 1).belowSince == At(cfg, es, i).belowSince
    ensures TimerFrom(cfg, es, j, i + 1)
  {}

  lemma {:induction false} TimerHasOrigin(cfg: Config, es: seq<Event>, i: nat) returns (j: nat)
    requires cfg.Valid() && i <= |es| && At(cfg, es, i).belowSince.Some?
    ensures TimerFrom(cfg, es, j, i)
  {
    assert es[..0] == [];
    AtNext(cfg, es, i - 1);
    if At(cfg, es, i - 1).belowSince == At(cfg, es, i).belowSince {
      j := TimerHasOrigin(cfg, es, i - 1);
      TimerExtends(cfg, es, j, i - 1);
    } else {
      TimerStarts(cfg, At(cfg, es, i - 1), es[i - 1]);
      j := i - 1;
    }
  }

  /** Between the sample that started the timer and its use, a sample saw a p95 at or above the
      elevated threshold exactly if it left the mode Critical. */
  lemma HighSampleIffCritical(cfg: Config, es: seq<Event>, j: nat, i: nat, m: nat)
    requires cfg.Valid() && TimerFrom(cfg, es, j, i) && j < m < i && es[m].Recorded?
    ensures P95(At(cfg, es, m + 1).window) >= cfg.elevated <==> At(cfg, es, m + 1).mode == Critical
  {
    AtNext(cfg, es, m);
    NormalHasNoTimer(cfg, es[..m]);
    NormalHasNoTimer(cfg, es[..m + 1]);
    assert At(cfg, es, m).belowSince.Some? && At(cfg, es, m + 1).belowSince.Some?;
  }

  /** Sample `m` saw a p95 at or above the elevated threshold exactly if it left the mode Critical. */
  ghost predicate HighIffCritical(cfg: Config, es: seq<Event>, m: nat)
    requires m < |es|
  {
    P95(At(cfg, es, m + 1).window) >= cfg.elevated <==> At(cfg, es, m + 1).mode == Critical
  }

  ghost predicate CriticalIffHigh(cfg: Config, es: seq<Event>, j: nat, i: nat)
    requires i < |es|
  {
    forall m: nat {:trigger HighIffCritical(cfg, es, m)} :: j < m < i && es[m].Recorded? ==> HighIffCritical(cfg, es, m)
  }

  lemma HighSamplesIffCritical(cfg: Config, es: seq<Event>, j: nat, i: nat)
    requires cfg.Valid() && i < |es| && TimerFrom(cfg, es, j, i)
    ensures CriticalIffHigh(cfg, es, j, i)
  {
    forall m: nat | j < m < i && es[m].Recorded?
      ensures HighIffCritical(cfg, es, m)
    {
      HighSampleIffCritical(cfg, es, j, i, m);
    }
  }

  /** Re-entering Normal: some earlier sample saw p95 below the elevated threshold, at least a
      recovery window before; every sample since saw it below too, except those that left the
      mode Critical. */
  lemma NormalReentry(cfg: Config, es: seq<Event>, i: nat) returns (j: nat)
    requires cfg.Valid() && i < |es|
    requires At(cfg, es, i).mode != Normal && At(cfg, es, i + 1).mode == Normal
    ensures TimerFrom(cfg, es, j, i) && CriticalIffHigh(cfg, es, j, i)
    ensures es[i].Recorded? && es[i].now - es[j].now >= cfg.recovery && P95(At(cfg, es, i + 1).window) < cfg.elevated
  {
    AtNext(cfg, es, i);
    ModeEdges(cfg, At(cfg, es, i), es[i]);
    j := TimerHasOrigin(cfg, es, i);
    HighSamplesIffCritical(cfg, es, j, i);
  }

  ghost predicate CalmAt(cfg: Config, es: seq<Event>, n: nat)
    requires n <= |es|
  {
    At(cfg, es, n).mode != Critical
  }

  /** No visit to Critical after event `j` up to event `i`. */
  ghost predicate Undisturbed(cfg: Config, es: seq<Event>, j: nat, i: nat)
    requires i < |es|
  {
    forall n: nat {:trigger CalmAt(cfg, es, n)} :: j < n <= i ==> CalmAt(cfg, es, n)
  }

  lemma CalmSampleIsLow(cfg: Config, es: seq<Event>, j: nat, i: nat, m: nat)
    requires i < |es| && CriticalIffHigh(cfg, es, j, i) && Undisturbed(cfg, es, j, i) && j < m < i && es[m].Recorded?
    ensures P95(At(cfg, es, m + 1).window) < cfg.elevated
  {
    assert HighIffCritical(cfg, es, m) && CalmAt(cfg, es, m + 1);
  }

  lemma OriginIsLow(cfg: Config, es: seq<Event>, j: nat, i: nat)
    requires TimerFrom(cfg, es, j, i)
    ensures P95(At(cfg, es, j + 1).window) < cfg.elevated
  {}

  /** With no Critical visit since the timer started, p95 stayed below the elevated threshold from
      the starting sample to the one that re-enters Normal. */
  lemma UndisturbedRecovery(cfg: Config, es: seq<Event>, i: nat, m: nat) returns (j: nat)
    requires cfg.Valid() && i < |es|
    requires At(cfg, es, i).mode != Normal && At(cfg, es, i + 1).mode == Normal
    ensures TimerFrom(cfg, es, j, i)
    ensures Undisturbed(cfg, es, j, i) && j <= m <= i && es[m].Recorded? ==>
              P95(At(cfg, es, m + 1).window) < cfg.elevated
  {
    j := NormalReentry(cfg, es, i);
    if m == j {
      OriginIsLow(cfg, es, j, i);
    } else if Undisturbed(cfg, es, j, i) && j < m < i && es[m].Recorded? {
      CalmSampleIsLow(cfg, es, j, i, m);
    }
  }

  // ----- one worker: each success is maybeRecover, then recordLatency -----

  ghost function Success(cfg: Config, s: State, d: int, now: int): State {
    AfterSample(cfg, AfterRecovery(s), d, now)
  }

  /** The order the code comment says it replaced. */
  ghost function SwappedSuccess(cfg: Config, s: State, d: int, now: int): State {
    AfterRecovery(AfterSample(cfg, s, d, now))
  }

  /** A success ends in Critical iff the mode was not Normal and p95 is at the critical threshold. */
  lemma SuccessEndsCriticalIff(cfg: Config, s: State, d: int, now: int)
    requires cfg.Valid()
    ensures Success(cfg, s, d, now).mode == Critical <==>
            s.mode != Normal && P95(Push(s.window, d)) >= cfg.critical
    ensures SwappedSuccess(cfg, s, d, now).mode != Critical
  {}

  datatype Sample = Sample(d: int, now: int)

  ghost function Successes(cfg: Config, s: State, xs: seq<Sample>): State {
    if xs == [] then s
    else Success(cfg, Successes(cfg, s, xs[..|xs| - 1]), xs[|xs| - 1].d, xs[|xs| - 1].now)
  }

  lemma SuccessesNext(cfg: Config, s: State, xs: seq<Sample>, i: nat)
    requires i < |xs|
    ensures Successes(cfg, s, xs[..i + 1]) == Success(cfg, Successes(cfg, s, xs[..i]), xs[i].d, xs[i].now)
  {
    assert xs[..i + 1][..i] == xs[..i];
  }

  lemma SuccessWindow(cfg: Config, s: State, d: int, now: int)
    ensures Success(cfg, s, d, now).window == Push(s.window, d)
  {}

  lemma SlowSuccess(cfg: Config, s: State, d: int, now: int)
    requires cfg.Valid() && P95(Success(cfg, s, d, now).window) >= cfg.critical
    ensures Success(cfg, s, d, now).mode != Normal
    ensures s.mode != Normal ==> Success(cfg, s, d, now).mode == Critical
  {}

  /** While every success leaves p95 at the critical threshold, each from the second on ends Critical. */
  lemma SlowStretchStaysCritical(cfg: Config, s: State, xs: seq<Sample>, i: nat)
    requires cfg.Valid() && 2 <= i <= |xs|
    requires forall k :: 1 <= k <= |xs| ==> P95(Successes(cfg, s, xs[..k]).window) >= cfg.critical
    ensures Successes(cfg, s, xs[..i]).mode == Critical
  {
    SuccessesNext(cfg, s, xs, i - 2);
    SuccessesNext(cfg, s, xs, i - 1);
    SlowSuccess(cfg, Successes(cfg, s, xs[..i - 2]), xs[i - 2].d, xs[i - 2].now);
    SlowSuccess(cfg, Successes(cfg, s, xs[..i - 1]), xs[i - 1].d, xs[i - 1].now);
  }

  // ----- one worker: bounded recovery -----

  function Durations(xs: seq<Sample>): (ds: seq<int>)
    ensures |ds| == |xs| && forall i :: 0 <= i < |xs| ==> ds[i] == xs[i].d
  {
    if xs == [] then [] else Durations(xs[..|xs| - 1]) + [xs[|xs| - 1].d]
  }

  lemma AssocOne(a: seq<int>, b: seq<int>, d: int)
    ensures (a + b) + [d] == a + (b + [d])
  {}

  lemma {:induction false} SuccessesWindow(cfg: Config, s: State, xs: seq<Sample>, h: seq<int>)
    requires s.window == LastOf(h)
    ensures Successes(cfg, s, xs).window == LastOf(h + Durations(xs))
  {
    if xs == [] {
      assert h + [] == h;
    } else {
      var init := xs[..|xs| - 1];
      SuccessesWindow(cfg, s, init, h);
      PushKeepsLast(h + Durations(init), xs[|xs| - 1].d);
      AssocOne(h, Durations(init), xs[|xs| - 1].d);
      SuccessWindow(cfg, Successes(cfg, s, init), xs[|xs| - 1].d, xs[|xs| - 1].now);
    }
  }

  /** From a running or absent timer no later than `t`, low samples only ever lead to Normal, or to
      Elevated with a timer no later than `t`. */
  ghost predicate Recovering(s: State, t: int) {
    s.mode == Normal || (s.mode == Elevated && s.belowSince.Some? && s.belowSince.value <= t)
  }

  lemma LowSuccess(cfg: Config, s: State, d: int, now: int)
    requires cfg.Valid() && P95(Push(s.window, d)) < cfg.elevated
    requires s.belowSince.Some? ==> s.belowSince.value <= now
    ensures Recovering(Success(cfg, s, d, now), now)
  {}

  lemma LowSuccessKeeps(cfg: Config, s: State, d: int, now: int, t: int)
    requires cfg.Valid() && P95(Push(s.window, d)) < cfg.elevated && Recovering(s, t)
    ensures Recovering(Success(cfg, s, d, now), t)
    ensures now - t >= cfg.recovery ==> Success(cfg, s, d, now).mode == Normal
  {}

  ghost predicate InOrder(start: int, xs: seq<Sample>) {
    && (forall i :: 0 <= i < |xs| ==> start <= xs[i].now)
    && (forall i, j :: 0 <= i < j < |xs| ==> xs[i].now <= xs[j].now)
  }

  lemma {:induction false} TimerNotAhead(cfg: Config, s: State, xs: seq<Sample>, start: int)
    requires InOrder(start, xs) && (s.belowSince.Some? ==> s.belowSince.value <= start)
    ensures var b := Successes(cfg, s, xs).belowSince;
            b.Some? ==> b.value <= if xs == [] then start else xs[|xs| - 1].now
  {
    if xs != [] {
      var init, last := xs[..|xs| - 1], xs[|xs| - 1];
      TimerNotAhead(cfg, s, init, start);
      if init != [] { assert init[|init| - 1].now <= last.now; }
      TimerStep(cfg, Successes(cfg, s, init), last.d, last.now);
    }
  }

  lemma TimerStep(cfg: Config, s: State, d: int, now: int)
    requires s.belowSince.Some? ==> s.belowSince.value <= now
    ensures var b := Success(cfg, s, d, now).belowSince; b.Some? ==> b.value <= now
  {}

  lemma FastWindow(cfg: Config, s: State, xs: seq<Sample>, h: seq<int>, k: nat)
    requires s.window == LastOf(h) && 61 <= k <= |xs|
    requires forall i :: 0 <= i < |xs| ==> xs[i].d < cfg.elevated
    ensures P95(Successes(cfg, s, xs[..k]).window) < cfg.elevated
  {
    SuccessesWindow(cfg, s, xs[..k], h);
    SixtyOneFastSamples(h, Durations(xs[..k]), cfg.elevated);
  }

  lemma {:induction false} RecoveringFrom61(cfg: Config, s: State, xs: seq<Sample>, h: seq<int>, start: int, k: nat)
    requires cfg.Valid() && s.window == LastOf(h) && 61 <= k <= |xs|
    requires forall i :: 0 <= i < |xs| ==> xs[i].d < cfg.elevated
    requires InOrder(start, xs) && (s.belowSince.Some? ==> s.belowSince.value <= start)
    ensures Recovering(Successes(cfg, s, xs[..k]), xs[60].now)
    ensures k > 61 && xs[k - 1].now - xs[60].now >= cfg.recovery ==> Successes(cfg, s, xs[..k]).mode == Normal
  {
    var before := Successes(cfg, s, xs[..k - 1]);
    assert P95(Push(before.window, xs[k - 1].d)) < cfg.elevated by {
      FastWindow(cfg, s, xs, h, k);
      SuccessesNext(cfg, s, xs, k - 1);
      SuccessWindow(cfg, before, xs[k - 1].d, xs[k - 1].now);
    }
    SuccessesNext(cfg, s, xs, k - 1);
    if k == 61 {
      TimerNotAhead(cfg, s, xs[..60], start);
      assert xs[..60][59] == xs[59];
      LowSuccess(cfg, before, xs[60].d, xs[60].now);
    } else {
      RecoveringFrom61(cfg, s, xs, h, start, k - 1);
      LowSuccessKeeps(cfg, before, xs[k - 1].d, xs[k - 1].now, xs[60].now);
    }
  }

  /** Bounded recovery: whatever came before, once 61 fast successes are recorded, every fast
      success at least a recovery window later leaves the mode Normal. */
  lemma BoundedRecovery(cfg: Config, es: seq<Event>, xs: seq<Sample>, start: int, k: nat)
    requires cfg.Valid() && 61 < k <= |xs|
    requires forall i :: 0 <= i < |xs| ==> xs[i].d < cfg.elevated
    requires InOrder(start, xs) && (forall i :: 0 <= i < |es| && es[i].Recorded? ==> es[i].now <= start)
    requires xs[k - 1].now - xs[60].now >= cfg.recovery
    ensures Successes(cfg, Run(cfg, INITIAL, es), xs[..k]).mode == Normal
  {
    var s := Run(cfg, INITIAL, es);
    WindowIsRecent(cfg, es);
    assert es[..|es|] == es;
    if s.belowSince.Some? {
      var j := TimerHasOrigin(cfg, es, |es|);
      assert At(cfg, es, |es|).belowSince == Some(es[j].now);
    }
    RecoveringFrom61(cfg, s, xs, Latencies(es), start, k);
  }

  // ----- one worker: recovery with errors in between -----

  /** One call of the only worker, with what it does to the tracker. */
  datatype Call = Fails(now: int) | Done(d: int, now: int)

  ghost function AfterCall(cfg: Config, s: State, x: Call): State {
    match x
    case Fails(now) => AfterError(cfg, s, now)
    case Done(d, now) => Success(cfg, s, d, now)
  }

  ghost function AfterCalls(cfg: Config, s: State, xs: seq<Call>): State {
    if xs == [] then s else AfterCall(cfg, AfterCalls(cfg, s, xs[..|xs| - 1]), xs[|xs| - 1])
  }

  lemma AfterCallsNext(cfg: Config, s: State, xs: seq<Call>, k: nat)
    requires k < |xs|
    ensures AfterCalls(cfg, s, xs[..k + 1]) == AfterCall(cfg, AfterCalls(cfg, s, xs[..k]), xs[k])
  {
    assert xs[..k + 1][..k] == xs[..k];
  }

  /** Normal, or a timer running since `t` or before: an error does not stop the timer. */
  ghost predicate Ready(s: State, t: int) {
    s.mode == Normal || (s.belowSince.Some? && s.belowSince.value <= t)
  }

  lemma ReadyAfterLow(cfg: Config, s: State, d: int, now: int)
    requires cfg.Valid() && P95(Success(cfg, s, d, now).window) < cfg.elevated
    requires s.belowSince.Some? ==> s.belowSince.value <= now
    ensures Ready(Success(cfg, s, d, now), now)
  {}

  lemma ReadyStays(cfg: Config, s: State, d: int, now: int, t: int)
    requires cfg.Valid() && P95(Success(cfg, s, d, now).window) < cfg.elevated && Ready(s, t)
    ensures Ready(Success(cfg, s, d, now), t)
    ensures now - t >= cfg.recovery ==> Success(cfg, s, d, now).mode == Normal
  {}

  /** Call `k` of the run is a success that leaves p95 below the elevated threshold, or an error that does not
      hit the mode Normal. */
  ghost predicate Gentle(cfg: Config, s: State, xs: seq<Call>, k: nat)
    requires k < |xs|
  {
    if xs[k].Done? then P95(AfterCalls(cfg, s, xs[..k + 1]).window) < cfg.elevated
    else AfterCalls(cfg, s, xs[..k]).mode != Normal
  }

  ghost predicate AllGentle(cfg: Config, s: State, xs: seq<Call>) {
    forall k: nat {:trigger Gentle(cfg, s, xs, k)} :: k < |xs| ==> Gentle(cfg, s, xs, k)
  }

  lemma {:induction false} ReadySince(cfg: Config, s: State, xs: seq<Call>, k: nat)
    requires cfg.Valid() && 0 < k <= |xs| && xs[0].Done? && AllGentle(cfg, s, xs)
    requires s.belowSince.Some? ==> s.belowSince.value <= xs[0].now
    ensures Ready(AfterCalls(cfg, s, xs[..k]), xs[0].now)
  {
    assert Gentle(cfg, s, xs, k - 1);
    AfterCallsNext(cfg, s, xs, k - 1);
    if k == 1 {
      assert xs[..0] == [];
      ReadyAfterLow(cfg, s, xs[0].d, xs[0].now);
    } else {
      ReadySince(cfg, s, xs, k - 1);
      if xs[k - 1].Done? { ReadyStays(cfg, AfterCalls(cfg, s, xs[..k - 1]), xs[k - 1].d, xs[k - 1].now, xs[0].now); }
    }
  }

  /** With one worker, from any state whose timer is not ahead: once every success leaves p95 below the
      elevated threshold, each success a recovery window after the first of them ends in Normal, whatever
      errors fall between, as long as none of them hits the mode Normal. */
  lemma RecoveryDespiteErrors(cfg: Config, s: State, xs: seq<Call>, i: nat)
    requires cfg.Valid() && 0 < i < |xs| && xs[0].Done? && xs[i].Done? && AllGentle(cfg, s, xs)
    requires s.belowSince.Some? ==> s.belowSince.value <= xs[0].now
    requires xs[i].now - xs[0].now >= cfg.recovery
    ensures AfterCalls(cfg, s, xs[..i + 1]).mode == Normal
  {
    ReadySince(cfg, s, xs, i);
    assert Gentle(cfg, s, xs, i);
    AfterCallsNext(cfg, s, xs, i);
    ReadyStays(cfg, AfterCalls(cfg, s, xs[..i]), xs[i].d, xs[i].now, xs[0].now);
  }

  /** Not Normal, and the timer not started. */
  predicate Waiting(s: State) {
    s.mode != Normal && s.belowSince == None
  }

  /** An error that does hit Normal starts the wait over, and so do those that follow at once. */
  lemma {:induction false} ErrorInNormalStartsOver(cfg: Config, s: State, failed: int, xs: seq<Call>)
    requires s.mode == Normal && s.belowSince == None && forall k :: 0 <= k < |xs| ==> xs[k].Fails?
    ensures Waiting(AfterCalls(cfg, AfterError(cfg, s, failed), xs))
  {
    if xs != [] { ErrorInNormalStartsOver(cfg, s, failed, xs[..|xs| - 1]); }
  }

  /** The timer has run since `t`, and the mode is not back. */
  predicate Timed(s: State, t: int) {
    s.mode != Normal && s.belowSince == Some(t)
  }

  lemma TimedStays(cfg: Config, s: State, x: Call, t: int)
    requires cfg.Valid() && Timed(s, t)
    requires x.Done? ==> P95(AfterCall(cfg, s, x).window) < cfg.elevated && x.now - t < cfg.recovery
    ensures Timed(AfterCall(cfg, s, x), t)
  {}

  lemma LowStartsTimer(cfg: Config, s: State, d: int, now: int)
    requires cfg.Valid() && Waiting(s) && P95(Success(cfg, s, d, now).window) < cfg.elevated
    ensures Timed(Success(cfg, s, d, now), now)
  {}

  lemma {:induction false} NotYet(cfg: Config, s: State, xs: seq<Call>, k: nat)
    requires cfg.Valid() && 0 < k <= |xs| && xs[0].Done? && AllGentle(cfg, s, xs) && Waiting(s)
    requires forall j :: 0 <= j < k && xs[j].Done? ==> xs[j].now - xs[0].now < cfg.recovery
    ensures Timed(AfterCalls(cfg, s, xs[..k]), xs[0].now)
  {
    assert Gentle(cfg, s, xs, k - 1);
    AfterCallsNext(cfg, s, xs, k - 1);
    if k == 1 {
      assert xs[..0] == [];
      LowStartsTimer(cfg, s, xs[0].d, xs[0].now);
    } else {
      NotYet(cfg, s, xs, k - 1);
      TimedStays(cfg, AfterCalls(cfg, s, xs[..k - 1]), xs[k - 1], xs[0].now);
    }
  }

  /** From there the wait is exact: while every success leaves p95 low and no error hits Normal, a success whose
      reading is not behind an earlier one ends in Normal iff it comes a recovery window after the first. */
  lemma RecoveryIff(cfg: Config, s: State, xs: seq<Call>, i: nat)
    requires cfg.Valid() && 0 < i < |xs| && xs[0].Done? && xs[i].Done? && AllGentle(cfg, s, xs) && Waiting(s)
    requires forall j :: 0 <= j < i && xs[j].Done? ==> xs[j].now <= xs[i].now
    ensures AfterCalls(cfg, s, xs[..i + 1]).mode == Normal <==> xs[i].now - xs[0].now >= cfg.recovery
  {
    if xs[i].now - xs[0].now >= cfg.recovery {
      RecoveryDespiteErrors(cfg, s, xs, i);
    } else {
      NotYet(cfg, s, xs, i + 1);
    }
  }

  // ----- any number of workers: bounded recovery -----

  /** The samples recorded by events `b` to `i - 1`. */
  function SamplesIn(es: seq<Event>, b: nat, i: nat): nat
    requires i <= |es|
  {
    if i <= b then 0 else SamplesIn(es, b, i - 1) + (if es[i - 1].Recorded? then 1 else 0)
  }

  lemma {:induction false} SamplesGrow(es: seq<Event>, b: nat, i: nat, j: nat)
    requires i <= j <= |es|
    ensures SamplesIn(es, b, i) <= SamplesIn(es, b, j)
  {
    if i < j { SamplesGrow(es, b, i, j - 1); }
  }

  /** Not a failed call, and fast if it is a sample. */
  predicate FastEvent(cfg: Config, e: Event) {
    !e.Failed? && (e.Recorded? ==> e.d < cfg.elevated)
  }

  /** From event `b` on no call fails and every sample is fast. */
  predicate FastFrom(cfg: Config, es: seq<Event>, b: nat) {
    forall n {:trigger FastEvent(cfg, es[n])} :: b <= n < |es| ==> FastEvent(cfg, es[n])
  }

  predicate ClockInOrder(es: seq<Event>) {
    forall m, n :: 0 <= m < n < |es| && es[m].Recorded? && es[n].Recorded? ==> es[m].now <= es[n].now
  }

  lemma LatenciesNext(es: seq<Event>, i: nat)
    requires i < |es|
    ensures Latencies(es[..i + 1]) == if es[i].Recorded? then Latencies(es[..i]) + [es[i].d] else Latencies(es[..i])
  {
    assert es[..i + 1][..i] == es[..i];
  }

  lemma {:induction false} FastTail(cfg: Config, es: seq<Event>, b: nat, i: nat) returns (tail: seq<int>)
    requires FastFrom(cfg, es, b) && b <= i <= |es|
    ensures Latencies(es[..i]) == Latencies(es[..b]) + tail && AllBelow(tail, cfg.elevated)
            && |tail| == SamplesIn(es, b, i)
  {
    if i == b {
      tail := [];
    } else {
      tail := FastTail(cfg, es, b, i - 1);
      assert FastEvent(cfg, es[i - 1]);
      LatenciesNext(es, i - 1);
      if es[i - 1].Recorded? {
        AssocOne(Latencies(es[..b]), tail, es[i - 1].d);
        tail := tail + [es[i - 1].d];
      }
    }
  }

  /** Once 61 fast samples are in, p95 is low. */
  lemma LowAfterSixtyOne(cfg: Config, es: seq<Event>, b: nat, i: nat)
    requires FastFrom(cfg, es, b) && b <= i <= |es| && SamplesIn(es, b, i) >= 61
    ensures P95(At(cfg, es, i).window) < cfg.elevated
  {
    var tail := FastTail(cfg, es, b, i);
    WindowIsRecent(cfg, es[..i]);
    SixtyOneFastSamples(Latencies(es[..b]), tail, cfg.elevated);
  }

  lemma LowSampleCalms(cfg: Config, s: State, d: int, now: int)
    requires cfg.Valid() && P95(AfterSample(cfg, s, d, now).window) < cfg.elevated
    ensures AfterSample(cfg, s, d, now).mode != Critical
  {}

  lemma LowSampleSettles(cfg: Config, s: State, d: int, now: int)
    requires cfg.Valid() && P95(AfterSample(cfg, s, d, now).window) < cfg.elevated
    requires s.mode != Critical && (s.belowSince.Some? ==> s.belowSince.value <= now)
    ensures Recovering(AfterSample(cfg, s, d, now), now)
  {}

  lemma LowSampleKeeps(cfg: Config, s: State, d: int, now: int, t: int)
    requires cfg.Valid() && P95(AfterSample(cfg, s, d, now).window) < cfg.elevated && Recovering(s, t)
    ensures Recovering(AfterSample(cfg, s, d, now), t)
    ensures now - t >= cfg.recovery ==> AfterSample(cfg, s, d, now).mode == Normal
  {}

  lemma {:induction false} CalmAfterSixtyOne(cfg: Config, es: seq<Event>, b: nat, i: nat)
    requires cfg.Valid() && FastFrom(cfg, es, b) && b <= i <= |es| && SamplesIn(es, b, i) >= 61
    ensures At(cfg, es, i).mode != Critical
  {
    AtNext(cfg, es, i - 1);
    assert FastEvent(cfg, es[i - 1]);
    if es[i - 1].Recorded? {
      LowAfterSixtyOne(cfg, es, b, i);
      LowSampleCalms(cfg, At(cfg, es, i - 1), es[i - 1].d, es[i - 1].now);
    } else {
      CalmAfterSixtyOne(cfg, es, b, i - 1);
    }
  }

  lemma TimerBehind(cfg: Config, es: seq<Event>, j: nat)
    requires cfg.Valid() && ClockInOrder(es) && j < |es| && es[j].Recorded?
    ensures var t := At(cfg, es, j).belowSince; t.Some? ==> t.value <= es[j].now
  {
    if At(cfg, es, j).belowSince.Some? {
      var o := TimerHasOrigin(cfg, es, j);
      assert At(cfg, es, j).belowSince == Some(es[o].now);
    }
  }

  lemma RecoveringStarts(cfg: Config, es: seq<Event>, b: nat, j: nat)
    requires cfg.Valid() && FastFrom(cfg, es, b) && ClockInOrder(es) && b <= j < |es|
    requires es[j].Recorded? && SamplesIn(es, b, j) >= 61
    ensures RecoveringAt(cfg, es, j + 1, es[j].now)
  {
    AtNext(cfg, es, j);
    CalmAfterSixtyOne(cfg, es, b, j);
    LowAfterSixtyOne(cfg, es, b, j + 1);
    TimerBehind(cfg, es, j);
    LowSampleSettles(cfg, At(cfg, es, j), es[j].d, es[j].now);
  }

  /** Quantified so that the induction below passes it on without computing the run. */
  ghost predicate RecoveringAt(cfg: Config, es: seq<Event>, i: nat, t: int) {
    i <= |es| && forall k: nat :: k == i ==> k <= |es| && Recovering(At(cfg, es, k), t)
  }

  lemma RecoveringGoesOn(cfg: Config, es: seq<Event>, b: nat, i: nat, t: int)
    requires cfg.Valid() && FastFrom(cfg, es, b) && b <= i < |es|
    requires SamplesIn(es, b, i) >= 61 && RecoveringAt(cfg, es, i, t)
    ensures RecoveringAt(cfg, es, i + 1, t)
    ensures es[i].Recorded? && es[i].now - t >= cfg.recovery ==> At(cfg, es, i + 1).mode == Normal
  {
    AtNext(cfg, es, i);
    assert FastEvent(cfg, es[i]);
    if es[i].Recorded? {
      LowAfterSixtyOne(cfg, es, b, i + 1);
      LowSampleKeeps(cfg, At(cfg, es, i), es[i].d, es[i].now, t);
    }
  }

  lemma {:induction false} RecoveringSince(cfg: Config, es: seq<Event>, b: nat, from: nat, i: nat, t: int)
    requires cfg.Valid() && FastFrom(cfg, es, b) && b <= from <= i <= |es|
    requires SamplesIn(es, b, from) >= 61 && RecoveringAt(cfg, es, from, t)
    ensures RecoveringAt(cfg, es, i, t)
  {
    if from < i {
      RecoveringSince(cfg, es, b, from, i - 1, t);
      SamplesGrow(es, b, from, i - 1);
      RecoveringGoesOn(cfg, es, b, i - 1, t);
    }
  }

  /** Bounded recovery for any number of workers in any interleaving: once no call fails and samples are
      fast, 61 of them and one more at `j` start the clock, and every sample a recovery window after `j`
      leaves the mode Normal. */
  lemma BoundedRecoveryOfAll(cfg: Config, es: seq<Event>, b: nat, j: nat, i: nat)
    requires cfg.Valid() && FastFrom(cfg, es, b) && ClockInOrder(es) && b <= j < i < |es|
    requires es[j].Recorded? && SamplesIn(es, b, j) >= 61
    requires es[i].Recorded? && es[i].now - es[j].now >= cfg.recovery
    ensures At(cfg, es, i + 1).mode == Normal
  {
    RecoveringStarts(cfg, es, b, j);
    SamplesGrow(es, b, j, j + 1);
    RecoveringSince(cfg, es, b, j + 1, i, es[j].now);
    SamplesGrow(es, b, j, i);
    RecoveringGoesOn(cfg, es, b, i, es[j].now);
  }

  // ----- a Critical visit does not restart the recovery timer -----

  /** 21 successes, fast ones except the second. */
  predicate OneSlow(cfg: Config, xs: seq<Sample>) {
    && |xs| == 21 && xs[1].d >= cfg.critical
    && forall i :: 0 <= i < 21 && i != 1 ==> 0 <= xs[i].d < cfg.elevated
  }

  /** Clock readings that one worker can make after a failed call at `t0`: the retry waits a second, each
      later flush starts a flush interval after the one before ended, and while the mode is
      Critical not before the gate opens. */
  predicate Paced(cfg: Config, t0: int, second: int, interval: int, xs: seq<Sample>) {
    && |xs| > 0 && xs[0].now - xs[0].d >= t0 + second
    && (forall i :: 0 < i < |xs| ==> xs[i].now - xs[i].d >= xs[i - 1].now + interval)
    && (forall i :: 2 <= i < |xs| ==> xs[i].now - xs[i].d >= t0 + cfg.recovery)
  }

  lemma RankAt(w: seq<int>, t: int)
    requires w != []
    ensures P95(w) >= t <==> 20 * CountGE(w, t) >= |w|
  {}

  lemma RankOf(w: seq<int>, t: int, n: nat, reach: nat)
    requires |w| == n > 0 && CountGE(w, t) == reach
    ensures P95(w) >= t <==> 20 * reach >= n
  {
    RankAt(w, t);
  }

  lemma DurationsPrefix(xs: seq<Sample>, k: nat)
    requires k < |xs|
    ensures Durations(xs[..k + 1]) == Durations(xs[..k]) + [xs[k].d]
  {
    assert xs[..k + 1][..k] == xs[..k];
  }

  /** How many of the first `k` samples reach `t`. */
  function Reaching(xs: seq<Sample>, k: nat, t: int): nat
    requires k <= |xs|
  {
    if k == 0 then 0 else Reaching(xs, k - 1, t) + (if xs[k - 1].d >= t then 1 else 0)
  }

  lemma {:induction false} ReachingIsCount(xs: seq<Sample>, k: nat, t: int)
    requires k <= |xs|
    ensures CountGE(Durations(xs[..k]), t) == Reaching(xs, k, t)
  {
    if k > 0 {
      ReachingIsCount(xs, k - 1, t);
      DurationsPrefix(xs, k - 1);
      CountSnoc(Durations(xs[..k - 1]), xs[k - 1].d, t);
    }
  }

  lemma {:induction false} OneReaches(cfg: Config, xs: seq<Sample>, k: nat, t: int)
    requires cfg.Valid() && OneSlow(cfg, xs) && k <= 21 && cfg.elevated <= t <= cfg.critical
    ensures Reaching(xs, k, t) == if k <= 1 then 0 else 1
  {
    if k > 0 { OneReaches(cfg, xs, k - 1, t); }
  }

  /** One slow sample in `k` is a p95 of that sample while `k` is at most 20. */
  lemma OneSlowRank(cfg: Config, xs: seq<Sample>, k: nat, t: int, w: seq<int>)
    requires cfg.Valid() && OneSlow(cfg, xs) && 0 < k <= 21 && cfg.elevated <= t <= cfg.critical
    requires w == Durations(xs[..k])
    ensures P95(w) >= t <==> 2 <= k <= 20
  {
    var reach := if k == 1 then 0 else 1;
    assert CountGE(w, t) == reach && |w| == k by {
      ReachingIsCount(xs, k, t);
      OneReaches(cfg, xs, k, t);
    }
    RankOf(w, t, k, reach);
  }

  lemma FreshWindow(cfg: Config, t0: int, xs: seq<Sample>)
    requires |xs| <= 64
    ensures Successes(cfg, AfterError(cfg, INITIAL, t0), xs).window == Durations(xs)
  {
    SuccessesWindow(cfg, AfterError(cfg, INITIAL, t0), xs, []);
    assert [] + Durations(xs) == Durations(xs);
  }

  lemma LowRestart(cfg: Config, s: State, d: int, now: int)
    requires cfg.Valid() && s.mode == Critical && s.belowSince == None && P95(Push(s.window, d)) < cfg.elevated
    ensures var t := Success(cfg, s, d, now); t.mode == Elevated && t.belowSince == Some(now)
  {}

  lemma HighKeepsTimer(cfg: Config, s: State, d: int, now: int)
    requires cfg.Valid() && s.mode != Normal && P95(Push(s.window, d)) >= cfg.critical
    ensures var t := Success(cfg, s, d, now); t.mode == Critical && t.belowSince == s.belowSince
  {}

  lemma LowFinishes(cfg: Config, s: State, d: int, now: int, since: int)
    requires cfg.Valid() && s.mode != Normal && s.belowSince == Some(since) && P95(Push(s.window, d)) < cfg.elevated
    ensures Success(cfg, s, d, now).mode == Normal <==> now - since >= cfg.recovery
  {}

  lemma NextWindow(cfg: Config, t0: int, xs: seq<Sample>, k: nat)
    requires k < |xs| <= 64
    ensures var s := Successes(cfg, AfterError(cfg, INITIAL, t0), xs[..k]);
            Push(s.window, xs[k].d) == Durations(xs[..k + 1])
  {
    var s0 := AfterError(cfg, INITIAL, t0);
    FreshWindow(cfg, t0, xs[..k + 1]);
    SuccessesNext(cfg, s0, xs, k);
    SuccessWindow(cfg, Successes(cfg, s0, xs[..k]), xs[k].d, xs[k].now);
  }

  lemma FirstSample(cfg: Config, t0: int, xs: seq<Sample>)
    requires cfg.Valid() && OneSlow(cfg, xs)
    ensures var s := Successes(cfg, AfterError(cfg, INITIAL, t0), xs[..1]);
            s.mode == Elevated && s.belowSince == Some(xs[0].now)
  {
    var s0 := AfterError(cfg, INITIAL, t0);
    assert xs[..0] == [];
    SuccessesNext(cfg, s0, xs, 0);
    NextWindow(cfg, t0, xs, 0);
    OneSlowRank(cfg, xs, 1, cfg.elevated, Durations(xs[..1]));
    LowRestart(cfg, s0, xs[0].d, xs[0].now);
  }

  lemma {:induction false} StuckCritical(cfg: Config, t0: int, xs: seq<Sample>, k: nat)
    requires cfg.Valid() && OneSlow(cfg, xs) && 2 <= k <= 20
    ensures var s := Successes(cfg, AfterError(cfg, INITIAL, t0), xs[..k]);
            s.mode == Critical && s.belowSince == Some(xs[0].now)
  {
    var s0 := AfterError(cfg, INITIAL, t0);
    if k == 2 { FirstSample(cfg, t0, xs); } else { StuckCritical(cfg, t0, xs, k - 1); }
    SuccessesNext(cfg, s0, xs, k - 1);
    NextWindow(cfg, t0, xs, k - 1);
    OneSlowRank(cfg, xs, k, cfg.critical, Durations(xs[..k]));
    HighKeepsTimer(cfg, Successes(cfg, s0, xs[..k - 1]), xs[k - 1].d, xs[k - 1].now);
  }

  lemma HighSample(cfg: Config, t0: int, xs: seq<Sample>, k: nat)
    requires cfg.Valid() && OneSlow(cfg, xs) && 2 <= k <= 20
    ensures P95(Successes(cfg, AfterError(cfg, INITIAL, t0), xs[..k]).window) >= cfg.critical
  {
    FreshWindow(cfg, t0, xs[..k]);
    OneSlowRank(cfg, xs, k, cfg.critical, Durations(xs[..k]));
  }

  lemma LastSample(cfg: Config, t0: int, xs: seq<Sample>, n: nat)
    requires cfg.Valid() && OneSlow(cfg, xs) && n == 20
    ensures Successes(cfg, AfterError(cfg, INITIAL, t0), xs[..n + 1]).mode == Normal <==>
            xs[n].now - xs[0].now >= cfg.recovery
  {
    var s0 := AfterError(cfg, INITIAL, t0);
    StuckCritical(cfg, t0, xs, n);
    SuccessesNext(cfg, s0, xs, n);
    NextWindow(cfg, t0, xs, n);
    OneSlowRank(cfg, xs, n + 1, cfg.elevated, Durations(xs[..n + 1]));
    LowFinishes(cfg, Successes(cfg, s0, xs[..n]), xs[n].d, xs[n].now, xs[0].now);
  }

  /** The timer survives a visit to Critical. After an error, for any fast durations, any slow second one
      and any readings: samples 2 to 20 all see p95 at or above the critical threshold, and the
      21st still ends in Normal exactly if it comes a recovery window after the first. */
  lemma RecoveryDespiteCriticalSamples(cfg: Config, t0: int, xs: seq<Sample>)
    requires cfg.Valid() && OneSlow(cfg, xs)
    ensures forall k :: 2 <= k <= 20 ==>
              P95(Successes(cfg, AfterError(cfg, INITIAL, t0), xs[..k]).window) >= cfg.critical
    ensures Successes(cfg, AfterError(cfg, INITIAL, t0), xs).mode == Normal <==> xs[20].now - xs[0].now >= cfg.recovery
  {
    forall k | 2 <= k <= 20
      ensures P95(Successes(cfg, AfterError(cfg, INITIAL, t0), xs[..k]).window) >= cfg.critical
    {
      HighSample(cfg, t0, xs, k);
    }
    LastSample(cfg, t0, xs, |xs| - 1);
    assert xs[..|xs|] == xs;
  }

  /** Readings `step` apart, all fast but the second. */
  function Every(first: int, step: nat, slow: int, n: nat): (xs: seq<Sample>)
    ensures |xs| == n
    ensures forall i :: 0 <= i < n ==> xs[i].d == (if i == 1 then slow else 0) && xs[i].now >= first
    ensures n > 0 ==> xs[0].now == first
    ensures forall i :: 0 < i < n ==> xs[i].now == xs[i - 1].now + step
  {
    if n == 0 then []
    else
      var init := Every(first, step, slow, n - 1);
      init + [Sample(if n == 2 then slow else 0, if n == 1 then first else init[n - 2].now + step)]
  }

  /** One worker can make such a run, whatever its flush interval. */
  lemma SuchARunExists(cfg: Config, t0: int, second: nat, interval: nat, slow: int) returns (xs: seq<Sample>)
    requires cfg.Valid() && slow >= cfg.critical
    ensures OneSlow(cfg, xs) && Paced(cfg, t0, second, interval, xs) && xs[20].now - xs[0].now >= cfg.recovery
  {
    var step: nat := interval + slow + cfg.recovery;
    xs := Every(t0 + second, step, slow, 21);
    assert xs[1].now == xs[0].now + step;
    forall i | 2 <= i < 21
      ensures xs[i].now - xs[i].d >= t0 + cfg.recovery
    {
      assert xs[i].now == xs[i - 1].now + step;
    }
  }

  // ----- the gate and a latency-driven Critical -----

  lemma AllSlow(w: seq<int>, t: int)
    requires w != [] && AllReach(w, t)
    ensures P95(w) >= t
  {
    CountAll(w, t);
    RankAt(w, t);
  }

  lemma RunNext(cfg: Config, s: State, es: seq<Event>, e: Event)
    ensures Run(cfg, s, es + [e]) == Apply(cfg, Run(cfg, s, es), e)
  {
    assert (es + [e])[..|es|] == es;
  }

  /** Two slow samples take a fresh tracker to Critical, and the gate stays open at every time: pulls go
      on while the mode is Critical. */
  lemma LatencyCriticalLeavesGateOpen(cfg: Config, d1: int, t1: int, d2: int, t2: int, now: int)
    requires cfg.Valid() && d1 >= cfg.critical && d2 >= cfg.critical
    ensures var s := Run(cfg, INITIAL, [] + [Recorded(d1, t1)] + [Recorded(d2, t2)]);
            s.mode == Critical && !GateClosed(s, now)
  {
    RunNext(cfg, INITIAL, [], Recorded(d1, t1));
    RunNext(cfg, INITIAL, [] + [Recorded(d1, t1)], Recorded(d2, t2));
    AllSlow([d1], cfg.elevated);
    AllSlow([d1, d2], cfg.critical);
    assert [] + [d1] == [d1] && [d1] + [d2] == [d1, d2];
  }

  // ----- the mutable tracker -----

  class Tracker {
    const cfg: Config
    var mode: Mode
    var belowSince: Option<int>
    var criticalUntil: Option<int>
    var latencyWindow: seq<int>

    ghost function View(): State
      reads this
    {
      State(mode, belowSince, criticalUntil, latencyWindow)
    }

    constructor (cfg: Config)
      ensures this.cfg == cfg && View() == INITIAL
    {
      this.cfg := cfg;
      mode, belowSince, criticalUntil, latencyWindow := Normal, None, None, [];
    }

    method SetMode(m: Mode)
      modifies this`mode
      ensures mode == m
    {
      if mode == m { return; }
      mode := m;
    }

    method RecordLatency(d: int, now: int)
      modifies this
      ensures View() == AfterSample(cfg, old(View()), d, now)
      ensures old(mode) == Normal ==>
                mode == if Reached(latencyWindow, cfg.elevated) then Elevated else Normal
      ensures criticalUntil == old(criticalUntil)
    {
      latencyWindow := latencyWindow + [d];
      if |latencyWindow| > WINDOW_CAPACITY {
        latencyWindow := latencyWindow[|latencyWindow| - WINDOW_CAPACITY..];
      }
      var p95 := ComputeP95(latencyWindow);
      match mode {
        case Normal =>
          if p95 >= cfg.elevated { SetMode(Elevated); }
        case Elevated =>
          if p95 >= cfg.critical {
            SetMode(Critical);
          } else if p95 < cfg.elevated {
            if belowSince == None {
              belowSince := Some(now);
            } else if now - belowSince.value >= cfg.recovery {
              SetMode(Normal);
              belowSince := None;
            }
          } else {
            belowSince := None;
          }
        case Critical =>
          if p95 < cfg.elevated { SetMode(Elevated); }
      }
    }

    method MaybeRecover()
      modifies this
      ensures View() == AfterRecovery(old(View()))
      ensures mode == (if old(mode) == Critical then Elevated else old(mode))
      ensures belowSince == old(belowSince) && criticalUntil == old(criticalUntil)
      ensures latencyWindow == old(latencyWindow)
    {
      if mode == Critical { SetMode(Elevated); }
    }

    method EnterCritical(now: int)
      modifies this
      ensures View() == AfterError(cfg, old(View()), now)
      ensures mode == Critical && criticalUntil == Some(now + cfg.recovery)
      ensures belowSince == old(belowSince) && latencyWindow == old(latencyWindow)
    {
      SetMode(Critical);
      criticalUntil := Some(now + cfg.recovery);
    }
  }
}
