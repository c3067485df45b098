/** One opened store as a queue: appends, drains, their failures and expiries in any order. */
module WalSession {
  import opened ByteOrder
  import opened Messages
  import opened Numerals
  import opened Wal
  import opened WalKeys

  // ----- key lists with some keys taken out -----

  ghost function Without(ks: seq<string>, out: set<string>): seq<string> {
    if ks == [] then []
    else Without(ks[..|ks| - 1], out) + (if ks[|ks| - 1] in out then [] else [ks[|ks| - 1]])
  }

  lemma WithoutSnoc(ks: seq<string>, key: string, out: set<string>)
    ensures Without(ks + [key], out) == Without(ks, out) + (if key in out then [] else [key])
  {
    assert (ks + [key])[..|ks|] == ks;
  }

  lemma {:induction false} WithoutMembers(ks: seq<string>, out: set<string>)
    ensures Elements(Without(ks, out)) == Elements(ks) - out
  {
    if ks != [] {
      var init, last := ks[..|ks| - 1], ks[|ks| - 1];
      WithoutMembers(init, out);
      assert ks == init + [last];
      SnocElements(init, last);
      SnocElements(Without(init, out), last);
      if last in out { assert Without(init, out) + [] == Without(init, out); }
    }
  }

  lemma {:induction false} WithoutAscends(ks: seq<string>, out: set<string>)
    requires Ascending(ks)
    ensures Ascending(Without(ks, out))
  {
    if ks != [] {
      var init, last := ks[..|ks| - 1], ks[|ks| - 1];
      WithoutAscends(init, out);
      WithoutMembers(init, out);
      BelowLast(ks, Without(init, out));
      if last in out {
        assert Without(init, out) + [] == Without(init, out);
      } else {
        AscendingSnoc(Without(init, out), last);
      }
    }
  }

  lemma BelowLast(ks: seq<string>, some: seq<string>)
    requires Ascending(ks) && ks != [] && Elements(some) <= Elements(ks[..|ks| - 1])
    ensures forall k :: k in some ==> Less(k, ks[|ks| - 1])
  {
    forall k | k in some
      ensures Less(k, ks[|ks| - 1])
    {
      assert k in Elements(ks[..|ks| - 1]);
      var i :| 0 <= i < |ks| - 1 && ks[i] == k;
    }
  }

  lemma {:induction false} WithoutNothing(ks: seq<string>)
    ensures Without(ks, {}) == ks
  {
    if ks != [] {
      WithoutNothing(ks[..|ks| - 1]);
      assert ks == ks[..|ks| - 1] + [ks[|ks| - 1]];
    }
  }

  // ----- whole runs within one opened store -----

  /** An append that fails has spent its sequence number; a drain that fails has done nothing. */
  datatype Op =
    | Append(m: Message, now: int64)
    | AppendFails
    | Drain(limit: nat)
    | DrainFails
    | Expire(key: string)

  /** The store; the keys it held when it was opened and those made since, in that order, with their
      messages; which of them were drained, and which expired; what was handed out. */
  datatype Session = Session(
    log: Log, seq_: uint64, last: int64,
    made: seq<string>, told: Log, drained: seq<string>, expired: set<string>, out: seq<Message>)

  ghost function Opened(log: Log, last: int64): Session {
    Session(log, 0, last, Listing(log.Keys), log, [], {}, [])
  }

  ghost function Step(s: Session, op: Op): Session {
    match op
    case Append(m, now) =>
      var key := KeyAt(now, NextSeq(s.seq_));
      s.(log := s.log[key := m], seq_ := NextSeq(s.seq_), last := now, made := s.made + [key], told := s.told[key := m])
    case AppendFails => s.(seq_ := NextSeq(s.seq_))
    case Drain(limit) =>
      var ks := OldestKeys(s.log, limit);
      s.(log := s.log - Elements(ks), drained := s.drained + ks, out := s.out + MessagesAt(s.log, ks))
    case DrainFails => s
    case Expire(key) => if key in s.log then s.(log := s.log - {key}, expired := s.expired + {key}) else s
  }

  ghost function Run(s: Session, ops: seq<Op>): Session
    decreases |ops|
  {
    if ops == [] then s else Run(Step(s, ops[0]), ops[1..])
  }

  /** The clock never steps back and never reads before 1970. */
  predicate SteadyClock(last: int64, ops: seq<Op>)
    decreases |ops|
  {
    ops == [] ||
    match ops[0]
    case Append(_, now) => 0 <= now && last <= now && SteadyClock(now, ops[1..])
    case _ => SteadyClock(last, ops[1..])
  }

  /** The sequence numbers that the operations spend. */
  function Spends(ops: seq<Op>): nat {
    if ops == [] then 0 else (if ops[0].Append? || ops[0].AppendFails? then 1 else 0) + Spends(ops[1..])
  }

  function Appended(ops: seq<Op>): seq<Message>
    decreases |ops|
  {
    if ops == [] then [] else (if ops[0].Append? then [ops[0].m] else []) + Appended(ops[1..])
  }

  ghost predicate UpTo(log: Log, top: string) {
    forall k :: k in log ==> k == top || Less(k, top)
  }

  /** Every key so far is at or before the last key this session could have made. */
  ghost predicate Ordered(s: Session) {
    0 <= s.last && UpTo(s.told, KeyAt(s.last, s.seq_))
  }

  /** Keys in order, each with its message; stored, drained and expired ones are among them. */
  ghost predicate KeysKept(s: Session) {
    && Ascending(s.made) && s.told.Keys == Elements(s.made)
    && (forall k :: k in s.log ==> k in s.told && s.log[k] == s.told[k])
    && (forall k :: k in s.drained ==> k in s.told)
    && s.expired <= s.told.Keys
  }

  /** Every key is drained, stored or expired, in this line: the drained ones before the stored ones. */
  ghost predicate Line(drained: seq<string>, stored: seq<string>, made: seq<string>, expired: set<string>) {
    drained + stored == Without(made, expired)
  }

  /** What the session keeps. */
  ghost predicate Kept(s: Session) {
    KeysKept(s) && Line(s.drained, Listing(s.log.Keys), s.made, s.expired) && s.out == MessagesAt(s.told, s.drained)
  }

  lemma AboveTop(log: Log, top: string, key: string)
    requires UpTo(log, top) && Less(top, key)
    ensures forall k :: k in log ==> Less(k, key)
  {
    forall k | k in log
      ensures Less(k, key)
    {
      if k != top { LessTransitive(k, top, key); }
    }
  }

  lemma NextKeyIsAbove(last: int64, seq_: uint64, now: int64)
    requires 0 <= last <= now && seq_ + 1 < TWO64
    ensures Less(KeyAt(last, seq_), KeyAt(now, NextSeq(seq_)))
  {
    CastValue(last);
    CastValue(now);
    KeyOrder(ToUint64(last), seq_, ToUint64(now), NextSeq(seq_));
  }

  lemma ListingSnoc(keys: set<string>, key: string)
    requires forall k :: k in keys ==> Less(k, key)
    ensures Listing(keys + {key}) == Listing(keys) + [key]
  {
    assert forall k :: k in Listing(keys) ==> k in Elements(Listing(keys));
    AscendingSnoc(Listing(keys), key);
    SnocElements(Listing(keys), key);
    AscendingUnique(Listing(keys) + [key], Listing(keys + {key}));
  }

  lemma ListingRest(all: seq<string>, n: nat, rest: set<string>)
    requires Ascending(all) && n <= |all| && rest == Elements(all) - Elements(all[..n])
    ensures Listing(rest) == all[n..]
  {
    SplitElements(all, n);
    AscendingUnique(all[n..], Listing(rest));
  }

  lemma LineSnoc(drained: seq<string>, stored: seq<string>, made: seq<string>, expired: set<string>, key: string)
    requires Line(drained, stored, made, expired) && key !in expired
    ensures Line(drained, stored + [key], made + [key], expired)
  {
    WithoutSnoc(made, key, expired);
    assert drained + (stored + [key]) == (drained + stored) + [key];
  }

  lemma LineMoves(drained: seq<string>, stored: seq<string>, made: seq<string>, expired: set<string>, n: nat)
    requires Line(drained, stored, made, expired) && n <= |stored|
    ensures Line(drained + stored[..n], stored[n..], made, expired)
  {
    assert (drained + stored[..n]) + stored[n..] == drained + stored;
  }

  /** A stored key that expires leaves the line where it stood, and no other moves. */
  lemma LineLoses(drained: seq<string>, stored: seq<string>, made: seq<string>, expired: set<string>, key: string)
    requires Line(drained, stored, made, expired) && Ascending(made) && key in stored
    ensures Line(drained, Without(stored, {key}), made, expired + {key})
  {
    WithoutAscends(made, expired);
    WithoutMembers(made, expired);
    WithoutAscends(made, expired + {key});
    WithoutMembers(made, expired + {key});
    OneLess(drained, stored, key);
    AscendingUnique(drained + Without(stored, {key}), Without(made, expired + {key}));
  }

  lemma NewTop(s: Session, key: string)
    requires KeysKept(s) && forall k :: k in s.told ==> Less(k, key)
    ensures key !in s.told && key !in s.expired && Ascending(s.made + [key])
    ensures Listing(s.log.Keys + {key}) == Listing(s.log.Keys) + [key]
  {
    if key in s.told { LessIrreflexive(key); }
    assert forall k :: k in s.made ==> k in Elements(s.made);
    AscendingSnoc(s.made, key);
    ListingSnoc(s.log.Keys, key);
  }

  /** An append of a key above all others. */
  lemma AppendKeeps(s: Session, t: Session, key: string, m: Message)
    requires Kept(s) && forall k :: k in s.told ==> Less(k, key)
    requires t == s.(log := s.log[key := m], seq_ := t.seq_, last := t.last, made := s.made + [key],
                     told := s.told[key := m])
    ensures Kept(t)
  {
    NewTop(s, key);
    AppendKeepsKeys(s, t, key, m);
    AppendKeepsLine(s, t, key, m);
    AppendKeepsOut(s.told, s.drained, key, m);
  }

  lemma AppendKeepsKeys(s: Session, t: Session, key: string, m: Message)
    requires KeysKept(s) && Ascending(s.made + [key])
    requires t.log == s.log[key := m] && t.made == s.made + [key] && t.told == s.told[key := m]
    requires t.drained == s.drained && t.expired == s.expired
    ensures KeysKept(t)
  {
    SnocElements(s.made, key);
  }

  lemma AppendKeepsLine(s: Session, t: Session, key: string, m: Message)
    requires Line(s.drained, Listing(s.log.Keys), s.made, s.expired) && key !in s.expired
    requires Listing(s.log.Keys + {key}) == Listing(s.log.Keys) + [key]
    requires t.log == s.log[key := m] && t.made == s.made + [key] && t.drained == s.drained && t.expired == s.expired
    ensures Line(t.drained, Listing(t.log.Keys), t.made, t.expired)
  {
    assert t.log.Keys == s.log.Keys + {key};
    LineSnoc(s.drained, Listing(s.log.Keys), s.made, s.expired, key);
  }

  lemma AppendKeepsOut(told: Log, drained: seq<string>, key: string, m: Message)
    requires key !in told && forall k :: k in drained ==> k in told
    ensures MessagesAt(told[key := m], drained) == MessagesAt(told, drained)
  {
    MessagesAtAgree(told[key := m], told, drained);
  }

  lemma DrainedKeys(log: Log, limit: nat, all: seq<string>)
    requires all == Listing(log.Keys)
    ensures var n := Min(limit, |log|);
            var ks := OldestKeys(log, limit);
            && n <= |all| && ks == all[..n] && Listing((log - Elements(ks)).Keys) == all[n..]
  {
    var n := Min(limit, |log|);
    assert (log - Elements(all[..n])).Keys == log.Keys - Elements(all[..n]);
    ListingRest(all, n, log.Keys - Elements(all[..n]));
  }

  lemma DrainKeeps(s: Session, limit: nat)
    requires Kept(s)
    ensures Kept(Step(s, Drain(limit)))
  {
    var t := Step(s, Drain(limit));
    var ks := OldestKeys(s.log, limit);
    assert KeysKept(t);
    assert Line(t.drained, Listing(t.log.Keys), t.made, t.expired) by {
      DrainedKeys(s.log, limit, Listing(s.log.Keys));
      LineMoves(s.drained, Listing(s.log.Keys), s.made, s.expired, Min(limit, |s.log|));
    }
    DrainedMessages(s.log, s.told, s.drained, ks);
  }

  lemma DrainedMessages(log: Log, told: Log, drained: seq<string>, ks: seq<string>)
    requires forall k :: k in ks ==> k in log && k in told && log[k] == told[k]
    requires forall k :: k in drained ==> k in told
    ensures forall k :: k in drained + ks ==> k in told
    ensures MessagesAt(told, drained + ks) == MessagesAt(told, drained) + MessagesAt(log, ks)
  {
    MessagesAtAgree(log, told, ks);
    MessagesAtConcat(told, drained, ks);
  }

  lemma ListingWithout(keys: set<string>, key: string)
    ensures Without(Listing(keys), {key}) == Listing(keys - {key})
  {
    WithoutAscends(Listing(keys), {key});
    WithoutMembers(Listing(keys), {key});
    AscendingUnique(Without(Listing(keys), {key}), Listing(keys - {key}));
  }

  lemma ExpireKeeps(s: Session, t: Session, key: string)
    requires Kept(s) && key in s.log
    requires t == s.(log := s.log - {key}, expired := s.expired + {key})
    ensures Kept(t)
  {
    assert Ascending(s.made) && Line(s.drained, Listing(s.log.Keys), s.made, s.expired);
    ExpireKeepsLine(s.log, s.drained, s.made, s.expired, key);
    ExpireKeepsKeys(s, t, key);
  }

  lemma ExpireKeepsLine(log: Log, drained: seq<string>, made: seq<string>, expired: set<string>, key: string)
    requires Line(drained, Listing(log.Keys), made, expired) && Ascending(made) && key in log
    ensures Line(drained, Listing((log - {key}).Keys), made, expired + {key})
  {
    ListedKeysStored(log);
    ListedWithout(log, key);
    LineLoses(drained, Listing(log.Keys), made, expired, key);
  }

  lemma ExpireKeepsKeys(s: Session, t: Session, key: string)
    requires KeysKept(s) && key in s.log
    requires t == s.(log := s.log - {key}, expired := s.expired + {key})
    ensures KeysKept(t)
  {}

  lemma ListedWithout(log: Log, key: string)
    ensures Without(Listing(log.Keys), {key}) == Listing((log - {key}).Keys)
  {
    ListingWithout(log.Keys, key);
    assert (log - {key}).Keys == log.Keys - {key};
  }

  lemma OneLess(front: seq<string>, back: seq<string>, key: string)
    requires Ascending(front + back) && key in back
    ensures Ascending(front + Without(back, {key}))
    ensures Elements(front + Without(back, {key})) == Elements(front + back) - {key}
  {
    HalvesAscend(front, back);
    WithoutAscends(back, {key});
    WithoutMembers(back, {key});
    forall i, j | 0 <= i < |front| && 0 <= j < |Without(back, {key})|
      ensures Less(front[i], Without(back, {key})[j])
    {
      assert Without(back, {key})[j] in Elements(Without(back, {key}));
      assert Without(back, {key})[j] in Elements(back);
      BeforeBack(front, back, front[i], Without(back, {key})[j]);
    }
    ConcatElements(front, back);
    ConcatElements(front, Without(back, {key}));
    if key in front {
      BeforeBack(front, back, key, key);
      LessIrreflexive(key);
    }
  }

  lemma HalvesAscend(front: seq<string>, back: seq<string>)
    requires Ascending(front + back)
    ensures Ascending(front) && Ascending(back)
  {
    forall i, j | 0 <= i < j < |back|
      ensures Less(back[i], back[j])
    {
      assert (front + back)[|front| + i] == back[i] && (front + back)[|front| + j] == back[j];
    }
    forall i, j | 0 <= i < j < |front|
      ensures Less(front[i], front[j])
    {
      assert (front + back)[i] == front[i] && (front + back)[j] == front[j];
    }
  }

  lemma BeforeBack(front: seq<string>, back: seq<string>, a: string, b: string)
    requires Ascending(front + back) && a in front && b in back
    ensures Less(a, b)
  {
    var i :| 0 <= i < |front| && front[i] == a;
    var j :| 0 <= j < |back| && back[j] == b;
    assert (front + back)[i] == a && (front + back)[|front| + j] == b;
  }

  lemma ConcatElements(a: seq<string>, b: seq<string>)
    ensures Elements(a + b) == Elements(a) + Elements(b)
  {
    assert forall k :: k in a + b <==> k in a || k in b;
  }

  lemma StepKeeps(s: Session, op: Op)
    requires Kept(s) && Ordered(s)
    requires op.Append? ==> s.last <= op.now
    requires op.Append? || op.AppendFails? ==> s.seq_ + 1 < TWO64
    ensures Kept(Step(s, op)) && Ordered(Step(s, op))
  {
    match op
    case Append(m, now) =>
      NextKeyIsAbove(s.last, s.seq_, now);
      AboveTop(s.told, KeyAt(s.last, s.seq_), KeyAt(now, NextSeq(s.seq_)));
      AppendKeeps(s, Step(s, op), KeyAt(now, NextSeq(s.seq_)), m);
    case AppendFails =>
      NextKeyIsAbove(s.last, s.seq_, s.last);
      AboveTop(s.told, KeyAt(s.last, s.seq_), KeyAt(s.last, NextSeq(s.seq_)));
    case Drain(limit) => DrainKeeps(s, limit);
    case DrainFails =>
    case Expire(key) => if key in s.log { ExpireKeeps(s, Step(s, op), key); }
  }

  lemma StepCounts(s: Session, op: Op)
    requires op.Append? || op.AppendFails? ==> s.seq_ + 1 < TWO64
    ensures Step(s, op).seq_ == s.seq_ + (if op.Append? || op.AppendFails? then 1 else 0)
    ensures Step(s, op).last == if op.Append? then op.now else s.last
  {
    if op.Append? || op.AppendFails? { assert NextSeq(s.seq_) == s.seq_ + 1; }
  }

  /** The messages of all keys so far, in the order in which the keys were made. */
  ghost function Told(s: Session): seq<Message>
    requires s.told.Keys == Elements(s.made)
  {
    assert forall k :: k in s.made ==> k in Elements(s.made);
    MessagesAt(s.told, s.made)
  }

  lemma ToldGrows(s: Session, t: Session, op: Op, key: string)
    requires s.told.Keys == Elements(s.made) && t.told.Keys == Elements(t.made) && (op.Append? ==> key !in s.told)
    requires t.told == (if op.Append? then s.told[key := op.m] else s.told)
    requires t.made == s.made + (if op.Append? then [key] else [])
    ensures Told(t) == Told(s) + (if op.Append? then [op.m] else [])
  {
    assert forall k :: k in s.made ==> k in Elements(s.made);
    if op.Append? {
      MessagesAtSnoc(s.told, s.made, key, op.m);
    } else {
      assert t.made == s.made;
      assert Told(s) + [] == Told(s);
    }
  }

  lemma KeptTold(s: Session)
    requires Kept(s)
    ensures s.told.Keys == Elements(s.made)
  {}

  lemma ToldOfStep(s: Session, op: Op)
    requires s.told.Keys == Elements(s.made) && Step(s, op).told.Keys == Elements(Step(s, op).made)
    requires op.Append? ==> KeyAt(op.now, NextSeq(s.seq_)) !in s.told
    ensures Told(Step(s, op)) == Told(s) + (if op.Append? then [op.m] else [])
  {
    ToldGrows(s, Step(s, op), op, if op.Append? then KeyAt(op.now, NextSeq(s.seq_)) else "");
  }

  lemma {:induction false} RunKeeps(s: Session, ops: seq<Op>)
    requires Kept(s) && Ordered(s) && SteadyClock(s.last, ops) && s.seq_ + Spends(ops) < TWO64
    ensures var t := Run(s, ops); Kept(t) && Told(t) == Told(s) + Appended(ops)
    decreases |ops|
  {
    if ops == [] {
      assert Told(s) + [] == Told(s);
    } else {
      StepKeeps(s, ops[0]);
      StepCounts(s, ops[0]);
      NewKeyIsNew(s, ops[0]);
      KeptTold(Step(s, ops[0]));
      ToldOfStep(s, ops[0]);
      RunKeeps(Step(s, ops[0]), ops[1..]);
      JoinTold(Told(s), if ops[0].Append? then [ops[0].m] else [], Appended(ops[1..]));
    }
  }

  lemma JoinTold(a: seq<Message>, b: seq<Message>, c: seq<Message>)
    ensures (a + b) + c == a + (b + c)
  {}

  lemma NewKeyIsNew(s: Session, op: Op)
    requires Ordered(s) && op.Append? ==> s.last <= op.now && s.seq_ + 1 < TWO64
    ensures Ordered(s) && op.Append? ==> KeyAt(op.now, NextSeq(s.seq_)) !in s.told
  {
    if Ordered(s) && op.Append? {
      NextKeyIsAbove(s.last, s.seq_, op.now);
      AboveTop(s.told, KeyAt(s.last, s.seq_), KeyAt(op.now, NextSeq(s.seq_)));
      LessIrreflexive(KeyAt(op.now, NextSeq(s.seq_)));
    }
  }

  lemma OpenedKept(log: Log, last: int64)
    ensures Kept(Opened(log, last)) && Told(Opened(log, last)) == Queue(log)
  {
    OpenedLine(Listing(log.Keys));
    ListedKeysStored(log);
  }

  lemma OpenedLine(all: seq<string>)
    ensures Line([], all, all, {})
  {
    WithoutNothing(all);
    assert [] + all == all;
  }

  /** FIFO over every run of one session, with failed appends, failed drains and expiries in any places: what
      was handed out, then what is still stored, is what was stored at open followed by what was appended,
      with the entries that expired taken out and all others in their order. */
  lemma SessionIsFifo(log: Log, last: int64, ops: seq<Op>)
    requires 0 <= last && UpTo(log, KeyAt(last, 0)) && SteadyClock(last, ops) && Spends(ops) < TWO64
    ensures var t := Run(Opened(log, last), ops);
            && Kept(t) && Told(t) == Queue(log) + Appended(ops)
            && (forall k :: k in Without(t.made, t.expired) ==> k in t.told)
            && t.out + Queue(t.log) == MessagesAt(t.told, Without(t.made, t.expired))
  {
    OpenedKept(log, last);
    RunKeeps(Opened(log, last), ops);
    QueueIsRest(Run(Opened(log, last), ops));
  }

  lemma QueueIsRest(t: Session)
    requires Kept(t)
    ensures forall k :: k in Without(t.made, t.expired) ==> k in t.told
    ensures t.out + Queue(t.log) == MessagesAt(t.told, Without(t.made, t.expired))
  {
    ListedKeysStored(t.log);
    MessagesAtAgree(t.log, t.told, Listing(t.log.Keys));
    MessagesAtConcat(t.told, t.drained, Listing(t.log.Keys));
  }

  /** With no expiry that is plain FIFO. */
  lemma PlainFifo(log: Log, last: int64, ops: seq<Op>)
    requires 0 <= last && UpTo(log, KeyAt(last, 0)) && SteadyClock(last, ops) && Spends(ops) < TWO64
    requires Run(Opened(log, last), ops).expired == {}
    ensures var t := Run(Opened(log, last), ops); t.out + Queue(t.log) == Queue(log) + Appended(ops)
  {
    SessionIsFifo(log, last, ops);
    WithoutNothing(Run(Opened(log, last), ops).made);
  }

  /** Across a reopen the clock condition is needed: with the clock still on a stored reading, the
      restarted sequence number makes the same key again and the stored message is gone. */
  lemma ReopenOnSameReadingOverwrites(m1: Message, m2: Message, t: int64)
    requires 0 <= t
    ensures var closed := Step(Opened(map[], t), Append(m1, t));
            var reopened := Step(closed.(seq_ := 0), Append(m2, t));
            closed.log.Values == {m1} && reopened.log.Values == {m2}
  {
    var key := KeyAt(t, 1);
    assert map[key := m1][key := m2] == map[key := m2];
    SingleValue(key, m1);
    SingleValue(key, m2);
  }

  lemma SingleValue(key: string, m: Message)
    ensures map[key := m].Values == {m}
  {
    assert key in map[key := m];
  }

  /** Within a session a clock that steps back puts the later message in front. */
  lemma ClockStepBackReorders(s: Session, m1: Message, m2: Message, t1: int64, t2: int64)
    requires s.log == map[] && s.seq_ == 0 && 0 <= t2 < t1
    ensures Queue(Step(Step(s, Append(m1, t1)), Append(m2, t2)).log) == [m2, m1]
  {
    KeyOrderOfClock(t2, 2, t1, 1);
    BothOrders(KeyAt(t1, 1), m1, KeyAt(t2, 2), m2);
  }

  lemma BothOrders(k1: string, m1: Message, k2: string, m2: Message)
    requires Less(k2, k1)
    ensures Queue(map[][k1 := m1][k2 := m2]) == [m2, m1]
  {
    LessIrreflexive(k1);
    SwapPuts(k1, m1, k2, m2);
    AppendEnqueues(map[], k2, m2);
    AppendEnqueues(map[][k2 := m2], k1, m1);
  }

  lemma SwapPuts(k1: string, m1: Message, k2: string, m2: Message)
    requires k1 != k2
    ensures var none: Log := map[]; none[k1 := m1][k2 := m2] == none[k2 := m2][k1 := m1]
  {}
}
