/** What a well-behaved clock adds: WAL keys never collide, a drain deletes only what it read, and
    messages can be lost at four kinds of step only. */
module Sessions {
  import opened ByteOrder
  import opened Conservation
  import opened Invariants
  import opened Ledger
  import opened Messages
  import opened Numerals
  import opened Pipeline
  import opened Wal
  import opened WalKeys
  import opened Wrappers

  /** The clock never reads earlier than the store was opened, a reopened store's clock is past every
      stored key, and one session makes fewer than 2^64 appends. */
  ghost predicate SaneStep(s: State, l: Label) {
    match l
    case SpillOk(now) => s.openedAt <= now && s.walSeq + 1 < TWO64
    case RequeueOk(_, now) => s.openedAt <= now && s.walSeq + 1 < TWO64
    case SpillFail => s.walSeq + 1 < TWO64
    case RequeueFail(_) => s.walSeq + 1 < TWO64
    case Crash(reopenedAt) => 0 <= reopenedAt && forall k :: k in s.wal ==> Less(k, KeyAt(reopenedAt, 0))
    case _ => true
  }

  ghost predicate Sane(cfg: Setup, s0: State, ls: seq<Label>)
    requires Legal(cfg, s0, ls)
  {
    ls == [] || (Sane(cfg, s0, ls[..|ls| - 1]) && SaneStep(Exec(cfg, s0, ls[..|ls| - 1]), ls[|ls| - 1]))
  }

  // ----- which keys are in use -----

  /** Left over from before the store was opened. */
  ghost predicate Inherited(k: string, openedAt: int64) {
    Less(k, KeyAt(openedAt, 0))
  }

  /** Made in this session. */
  ghost predicate Made(k: string, upTo: uint64) {
    exists n: uint64, q: uint64 :: q <= upTo && k == KeyText(n, q)
  }

  ghost predicate Owned(k: string, openedAt: int64, upTo: uint64) {
    Inherited(k, openedAt) || Made(k, upTo)
  }


  lemma NewKeyUnmade(k: string, upTo: uint64, n: uint64)
    requires Made(k, upTo) && upTo + 1 < TWO64
    ensures k != KeyText(n, upTo + 1)
  {
    var a: uint64, q: uint64 :| q <= upTo && k == KeyText(a, q);
    if k == KeyText(n, upTo + 1) { KeyInjective(a, q, n, upTo + 1); }
  }

  lemma OpeningBefore(openedAt: int64, now: int64, q: uint64)
    requires 0 <= openedAt <= now && 0 < q
    ensures Less(KeyAt(openedAt, 0), KeyAt(now, q))
  {
    CastValue(openedAt);
    CastValue(now);
    KeyOrder(ToUint64(openedAt), 0, ToUint64(now), q);
  }

  lemma NotBelowItself(k: string, mid: string, key: string)
    requires Less(k, mid) && Less(mid, key)
    ensures k != key
  {
    LessTransitive(k, mid, key);
    LessIrreflexive(k);
  }

  lemma InheritedDiffers(k: string, openedAt: int64, now: int64, q: uint64)
    requires Inherited(k, openedAt) && 0 <= openedAt <= now && 0 < q
    ensures k != KeyAt(now, q)
  {
    OpeningBefore(openedAt, now, q);
    NotBelowItself(k, KeyAt(openedAt, 0), KeyAt(now, q));
  }

  /** The next key differs from every key in use. */
  lemma NextKeyFresh(k: string, openedAt: int64, upTo: uint64, now: int64)
    requires Owned(k, openedAt, upTo) && 0 <= openedAt <= now && upTo + 1 < TWO64
    ensures k != KeyAt(now, NextSeq(upTo))
  {
    if Inherited(k, openedAt) {
      InheritedDiffers(k, openedAt, now, NextSeq(upTo));
    } else {
      NewKeyUnmade(k, upTo, ToUint64(now));
    }
  }

  lemma OwnedGrows(k: string, openedAt: int64, a: uint64, b: uint64)
    requires Owned(k, openedAt, a) && a <= b
    ensures Owned(k, openedAt, b)
  {
    if !Inherited(k, openedAt) {
      var n: uint64, q: uint64 :| q <= a && k == KeyText(n, q);
      assert q <= b;
    }
  }

  lemma NextKeyOwned(openedAt: int64, upTo: uint64, now: int64)
    requires upTo + 1 < TWO64
    ensures Owned(KeyAt(now, NextSeq(upTo)), openedAt, upTo + 1)
  {
    assert Made(KeyText(ToUint64(now), upTo + 1), upTo + 1);
  }

  // ----- keys stay owned -----

  ghost predicate LogOwned(log: Log, openedAt: int64, upTo: uint64) {
    forall k :: k in log ==> Owned(k, openedAt, upTo)
  }

  ghost predicate ReadOwned(read: seq<Entry>, openedAt: int64, upTo: uint64) {
    forall e :: e in read ==> Owned(e.key, openedAt, upTo)
  }

  lemma LogOwnedGrows(log: Log, openedAt: int64, a: uint64, b: uint64)
    requires LogOwned(log, openedAt, a) && a <= b
    ensures LogOwned(log, openedAt, b)
  {
    forall k | k in log
      ensures Owned(k, openedAt, b)
    {
      OwnedGrows(k, openedAt, a, b);
    }
  }

  lemma ReadOwnedGrows(read: seq<Entry>, openedAt: int64, a: uint64, b: uint64)
    requires ReadOwned(read, openedAt, a) && a <= b
    ensures ReadOwned(read, openedAt, b)
  {
    forall e | e in read
      ensures Owned(e.key, openedAt, b)
    {
      OwnedGrows(e.key, openedAt, a, b);
    }
  }

  lemma PutOwned(log: Log, key: string, m: Message, openedAt: int64, upTo: uint64)
    requires LogOwned(log, openedAt, upTo) && Owned(key, openedAt, upTo)
    ensures LogOwned(log[key := m], openedAt, upTo)
  {}

  /** An append in a sane step: a fresh key, owned from then on. */
  lemma AppendOwned(s: State, now: int64, m: Message)
    requires LogOwned(s.wal, s.openedAt, s.walSeq) && 0 <= s.openedAt <= now && s.walSeq + 1 < TWO64
    ensures WalKeyFor(s, now) !in s.wal
    ensures LogOwned(s.wal[WalKeyFor(s, now) := m], s.openedAt, s.walSeq + 1)
  {
    var key := WalKeyFor(s, now);
    if key in s.wal { NextKeyFresh(key, s.openedAt, s.walSeq, now); }
    LogOwnedGrows(s.wal, s.openedAt, s.walSeq, s.walSeq + 1);
    NextKeyOwned(s.openedAt, s.walSeq, now);
    PutOwned(s.wal, key, m, s.openedAt, s.walSeq + 1);
  }

  /** The read entries are owned, and each is stored as read or no longer stored. */
  ghost predicate ReadSafe(s: State, read: seq<Entry>) {
    && ReadOwned(read, s.openedAt, s.walSeq)
    && forall e :: e in read && e.key in s.wal ==> s.wal[e.key] == e.msg
  }

  ghost predicate Unclobbered(s: State) {
    && 0 <= s.openedAt
    && LogOwned(s.wal, s.openedAt, s.walSeq)
    && forall w :: 0 <= w < |s.workers| && s.workers[w].Draining? ==> ReadSafe(s, s.workers[w].read)
  }

  lemma ReadSafeAfterAppend(s: State, t: State, read: seq<Entry>, now: int64, m: Message)
    requires ReadSafe(s, read) && 0 <= s.openedAt <= now && s.walSeq + 1 < TWO64
    requires t.openedAt == s.openedAt && t.walSeq == s.walSeq + 1 && t.wal == s.wal[WalKeyFor(s, now) := m]
    ensures ReadSafe(t, read)
  {
    ReadOwnedGrows(read, s.openedAt, s.walSeq, s.walSeq + 1);
    forall e | e in read && e.key in t.wal
      ensures t.wal[e.key] == e.msg
    {
      NextKeyFresh(e.key, s.openedAt, s.walSeq, now);
    }
  }

  lemma ReadSafeAfterShrink(s: State, t: State, read: seq<Entry>)
    requires ReadSafe(s, read) && t.openedAt == s.openedAt && s.walSeq <= t.walSeq
    requires forall k :: k in t.wal ==> k in s.wal && t.wal[k] == s.wal[k]
    ensures ReadSafe(t, read)
  {
    ReadOwnedGrows(read, s.openedAt, s.walSeq, t.walSeq);
  }

  lemma LogOwnedStep(cfg: Setup, s: State, l: Label)
    requires Unclobbered(s) && Enabled(cfg, s, l) && SaneStep(s, l)
    ensures var t := Next(cfg, s, l); 0 <= t.openedAt && LogOwned(t.wal, t.openedAt, t.walSeq)
  {
    if l.SpillOk? || l.RequeueOk? {
      AppendOwned(s, l.now, if l.SpillOk? then s.intake.msg else s.workers[l.w].batch[s.workers[l.w].next]);
    } else if l.Crash? {
      AllInherited(s.wal, l.reopenedAt);
    } else {
      ShrinkOwned(cfg, s, l);
    }
  }

  lemma AllInherited(log: Log, openedAt: int64)
    requires forall k :: k in log ==> Less(k, KeyAt(openedAt, 0))
    ensures LogOwned(log, openedAt, 0)
  {
    forall k | k in log
      ensures Owned(k, openedAt, 0)
    {
      assert Inherited(k, openedAt);
    }
  }

  lemma ShrinkOwned(cfg: Setup, s: State, l: Label)
    requires LogOwned(s.wal, s.openedAt, s.walSeq) && Enabled(cfg, s, l) && SaneStep(s, l)
    requires !l.SpillOk? && !l.RequeueOk? && !l.Crash?
    ensures LogOwned(Next(cfg, s, l).wal, s.openedAt, Next(cfg, s, l).walSeq)
  {
    LogOwnedGrows(s.wal, s.openedAt, s.walSeq, WalSeqNext(s, l));
    SubsetOwned(s.wal, WalNext(cfg, s, l), s.openedAt, WalSeqNext(s, l));
  }

  lemma SubsetOwned(a: Log, b: Log, openedAt: int64, upTo: uint64)
    requires LogOwned(a, openedAt, upTo) && b.Keys <= a.Keys
    ensures LogOwned(b, openedAt, upTo)
  {}

  lemma NewReadSafe(cfg: Setup, s: State, l: Label)
    requires Unclobbered(s) && Enabled(cfg, s, l) && l.DrainRead?
    ensures WorkerNext(cfg, s, l).Draining? ==> ReadSafe(Next(cfg, s, l), WorkerNext(cfg, s, l).read)
  {
    ReadIsDistinct(s.wal, s.workers[l.w].room);
  }

  /** A read under way stays safe under every step of anyone else. */
  lemma OldReadSafe(cfg: Setup, s: State, l: Label, read: seq<Entry>)
    requires 0 <= s.openedAt && Enabled(cfg, s, l) && SaneStep(s, l) && !l.Crash? && ReadSafe(s, read)
    ensures ReadSafe(Next(cfg, s, l), read)
  {
    var t := Next(cfg, s, l);
    match l
    case SpillOk(now) => ReadSafeAfterAppend(s, t, read, now, s.intake.msg);
    case RequeueOk(w, now) => ReadSafeAfterAppend(s, t, read, now, s.workers[w].batch[s.workers[w].next]);
    case _ =>
      OthersShrink(cfg, s, l);
      ReadSafeAfterShrink(s, t, read);
  }

  /** The other steps of a process only take entries out of the log. */
  lemma OthersShrink(cfg: Setup, s: State, l: Label)
    requires Enabled(cfg, s, l) && SaneStep(s, l) && !l.Crash? && !l.SpillOk? && !l.RequeueOk?
    ensures var t := Next(cfg, s, l);
            && t.openedAt == s.openedAt && s.walSeq <= t.walSeq
            && forall k :: k in t.wal ==> k in s.wal && t.wal[k] == s.wal[k]
  {}

  lemma OnlyDrainReadStartsDraining(cfg: Setup, s: State, l: Label)
    requires Enabled(cfg, s, l) && l.Actor().Some?
    ensures WorkerNext(cfg, s, l).Draining? ==> l.DrainRead?
  {}

  lemma StepKeepsUnclobbered(cfg: Setup, s: State, l: Label)
    requires Unclobbered(s) && Enabled(cfg, s, l) && SaneStep(s, l)
    ensures Unclobbered(Next(cfg, s, l))
  {
    var t := Next(cfg, s, l);
    LogOwnedStep(cfg, s, l);
    forall w | 0 <= w < |t.workers| && t.workers[w].Draining?
      ensures ReadSafe(t, t.workers[w].read)
    {
      if l.Actor() == Some(w) {
        OnlyDrainReadStartsDraining(cfg, s, l);
        NewReadSafe(cfg, s, l);
      } else {
        OldReadSafe(cfg, s, l, s.workers[w].read);
      }
    }
  }

  lemma {:induction false} AlwaysUnclobbered(cfg: Setup, s0: State, ls: seq<Label>)
    requires Init(cfg, s0) && Legal(cfg, s0, ls) && Sane(cfg, s0, ls)
    ensures Unclobbered(Exec(cfg, s0, ls))
  {
    if ls != [] {
      AlwaysUnclobbered(cfg, s0, ls[..|ls| - 1]);
      StepKeepsUnclobbered(cfg, Exec(cfg, s0, ls[..|ls| - 1]), ls[|ls| - 1]);
    }
  }

  // ----- what follows -----

  /** With Appends, requeues and expiries interleaved between its two transactions, a drain removes
      no entry that it did not read with exactly that content. */
  lemma DrainDeletesOnlyWhatItRead(cfg: Setup, s0: State, ls: seq<Label>, l: Label, k: string)
    requires Init(cfg, s0) && Legal(cfg, s0, ls) && Sane(cfg, s0, ls)
    requires var s := Exec(cfg, s0, ls);
             Enabled(cfg, s, l) && l.DrainDelete? && k in s.wal && k !in Next(cfg, s, l).wal
    ensures var s := Exec(cfg, s0, ls); Entry(k, s.wal[k]) in s.workers[l.w].read
  {
    var s := Exec(cfg, s0, ls);
    AlwaysUnclobbered(cfg, s0, ls);
    var read := s.workers[l.w].read;
    assert ReadSafe(s, read);
    assert k in KeysRead(read);
    var e :| e in read && e.key == k;
    assert e == Entry(k, s.wal[k]);
  }

  lemma {:induction false} NothingStray(log: Log, read: seq<Entry>, m: Message)
    requires forall e :: e in read && e.key in log ==> log[e.key] == e.msg
    ensures Stray(log, read, m) == 0
  {
    if read != [] {
      assert read[0] in read;
      NothingStray(log, read[1..], m);
    }
  }

  predicate NamedLoss(l: Label) {
    l.CancelWait? || l.BuryFail? || l.Expire? || l.Crash?
  }

  lemma SaneLossIsNamed(cfg: Setup, s: State, l: Label, m: Message)
    requires Unclobbered(s) && Enabled(cfg, s, l) && SaneStep(s, l) && Lost(cfg, s, l, m) > 0
    ensures NamedLoss(l)
  {
    match l
    case SpillOk(now) => AppendOwned(s, now, s.intake.msg);
    case RequeueOk(w, now) => AppendOwned(s, now, s.workers[w].batch[s.workers[w].next]);
    case DrainDelete(w) =>
      assert ReadSafe(s, s.workers[w].read);
      NothingStray(s.wal, s.workers[w].read, m);
    case _ =>
  }

  lemma {:induction false} SanePrefix(cfg: Setup, s0: State, ls: seq<Label>, i: nat)
    requires Legal(cfg, s0, ls) && Sane(cfg, s0, ls) && i < |ls|
    ensures Legal(cfg, s0, ls[..i]) && Sane(cfg, s0, ls[..i]) && SaneStep(Exec(cfg, s0, ls[..i]), ls[i])
    ensures Enabled(cfg, Exec(cfg, s0, ls[..i]), ls[i])
  {
    if i < |ls| - 1 {
      var init := ls[..|ls| - 1];
      SanePrefix(cfg, s0, init, i);
      assert init[..i] == ls[..i] && init[i] == ls[i];
    }
  }

  /** With a well-behaved clock the list of losses is complete: an acknowledged message is retained
      or the run cancelled a backoff, failed a dead-letter write, expired a WAL entry or crashed,
      at a step that held the message. */
  lemma AckedIsRetainedSane(cfg: Setup, s0: State, ls: seq<Label>, m: Message)
    requires Init(cfg, s0) && Legal(cfg, s0, ls) && Sane(cfg, s0, ls) && Tally(cfg, s0, ls, m).acked > 0
    ensures var s := Exec(cfg, s0, ls);
            || InPipeline(s, m)
            || m.dedupKey in s.table
            || InBucket(s.bucket, m.dedupKey)
            || exists i: nat :: LostAt(cfg, s0, ls, m, i) && NamedLoss(ls[i])
  {
    AckedIsRetainedOrNamedLost(cfg, s0, ls, m);
    if i: nat :| LostAt(cfg, s0, ls, m, i) {
      SanePrefix(cfg, s0, ls, i);
      AlwaysUnclobbered(cfg, s0, ls[..i]);
      SaneLossIsNamed(cfg, Exec(cfg, s0, ls[..i]), ls[i], m);
    }
  }
}
