/** The on-disk overflow log over an abstract sorted key/value store. */
module Wal {
  import opened ByteOrder
  import opened Messages
  import opened Numerals

  /** The live entries: what a reader can still get back. */
  type Log = map<string, Message>

  ghost function MessagesAt(log: Log, ks: seq<string>): (ms: seq<Message>)
    requires forall k :: k in ks ==> k in log
    ensures |ms| == |ks|
  {
    if ks == [] then [] else [log[ks[0]]] + MessagesAt(log, ks[1..])
  }

  lemma ListedKeysStored(log: Log)
    ensures forall k :: k in Listing(log.Keys) <==> k in log
  {
    assert forall k :: k in Listing(log.Keys) <==> k in Elements(Listing(log.Keys));
  }

  /** The log read as a queue, oldest key first. */
  ghost function Queue(log: Log): (q: seq<Message>)
    ensures |q| == |log|
  {
    ListedKeysStored(log);
    MessagesAt(log, Listing(log.Keys))
  }

  function Min(a: nat, b: nat): nat {
    if a < b then a else b
  }

  /** The keys one drain takes. */
  ghost function OldestKeys(log: Log, limit: nat): (ks: seq<string>)
    ensures |ks| == Min(limit, |log|) && (forall k :: k in ks ==> k in log)
  {
    ListedKeysStored(log);
    Listing(log.Keys)[..Min(limit, |log|)]
  }

  /** The keys that one drain takes are as many as there are and fit, in order, and before all others. */
  lemma OldestAre(log: Log, limit: nat)
    ensures var ks := OldestKeys(log, limit);
            && |ks| == (if limit < |log| then limit else |log|)
            && Ascending(ks)
            && forall k, j :: k in ks && j in log && j !in ks ==> Less(k, j)
  {
    OldestBefore(log, Listing(log.Keys), limit);
  }

  lemma OldestBefore(log: Log, all: seq<string>, limit: nat)
    requires all == Listing(log.Keys)
    ensures forall k, j :: k in OldestKeys(log, limit) && j in log && j !in OldestKeys(log, limit) ==> Less(k, j)
  {
    var n := Min(limit, |log|);
    ListedKeysStored(log);
    assert forall x :: 0 <= x < n ==> all[x] in all[..n];
    forall k, j | k in all[..n] && j in log && j !in all[..n]
      ensures Less(k, j)
    {
      var a :| 0 <= a < n && all[a] == k;
      var b :| 0 <= b < |all| && all[b] == j;
    }
  }

  function NextSeq(seq_: uint64): uint64 {
    (seq_ + 1) % TWO64
  }

  // ----- append and drain as queue operations -----

  lemma {:induction false} MessagesAtAgree(a: Log, b: Log, ks: seq<string>)
    requires forall k :: k in ks ==> k in a && k in b && a[k] == b[k]
    ensures MessagesAt(a, ks) == MessagesAt(b, ks)
  {
    if ks != [] { MessagesAtAgree(a, b, ks[1..]); }
  }

  lemma {:induction false} MessagesAtConcat(log: Log, xs: seq<string>, ys: seq<string>)
    requires forall k :: k in xs + ys ==> k in log
    ensures (forall k :: k in xs ==> k in log) && (forall k :: k in ys ==> k in log)
    ensures MessagesAt(log, xs + ys) == MessagesAt(log, xs) + MessagesAt(log, ys)
  {
    assert forall k :: k in xs ==> k in xs + ys;
    assert forall k :: k in ys ==> k in xs + ys;
    if xs == [] {
      assert xs + ys == ys;
    } else {
      assert (xs + ys)[1..] == xs[1..] + ys;
      MessagesAtConcat(log, xs[1..], ys);
    }
  }

  /** Any ascending listing of the stored keys gives the queue. */
  lemma QueueIs(log: Log, ks: seq<string>)
    requires Ascending(ks) && Elements(ks) == log.Keys
    ensures (forall k :: k in ks ==> k in log) && Queue(log) == MessagesAt(log, ks)
  {
    AscendingUnique(ks, Listing(log.Keys));
    ListedKeysStored(log);
  }

  lemma MessagesAtSnoc(log: Log, ks: seq<string>, key: string, m: Message)
    requires (forall k :: k in ks ==> k in log) && key !in ks
    ensures forall k :: k in ks + [key] ==> k in log[key := m]
    ensures MessagesAt(log[key := m], ks + [key]) == MessagesAt(log, ks) + [m]
  {
    var after := log[key := m];
    MessagesAtConcat(after, ks, [key]);
    MessagesAtAgree(after, log, ks);
    assert MessagesAt(after, [key]) == [after[key]] + MessagesAt(after, []);
  }

  lemma AscendingSnoc(ks: seq<string>, key: string)
    requires Ascending(ks) && forall k :: k in ks ==> Less(k, key)
    ensures Ascending(ks + [key]) && key !in ks
  {
    if key in ks { LessIrreflexive(key); }
  }

  /** A key above all stored keys puts its message at the back of the queue. */
  lemma AppendEnqueues(log: Log, key: string, m: Message)
    requires forall k :: k in log ==> Less(k, key)
    ensures Queue(log[key := m]) == Queue(log) + [m]
  {
    var ks := Listing(log.Keys);
    ListedKeysStored(log);
    AppendAfter(log, ks, key, m);
  }

  lemma LastMessage(log: Log, ks: seq<string>)
    requires ks != [] && forall k :: k in ks ==> k in log
    ensures MessagesAt(log, ks)[|ks| - 1] == log[ks[|ks| - 1]]
  {
    var n := |ks| - 1;
    assert ks == ks[..n] + [ks[n]];
    MessagesAtConcat(log, ks[..n], [ks[n]]);
    assert MessagesAt(log, [ks[n]]) == [log[ks[n]]] + MessagesAt(log, []);
  }

  lemma LastKeyIsTop(ks: seq<string>, k: string)
    requires Ascending(ks) && ks != [] && k in ks && k != ks[|ks| - 1]
    ensures Less(k, ks[|ks| - 1])
  {}

  lemma HolderOfNew(log: Log, key: string, m: Message, k: string)
    requires m !in log.Values && k in log[key := m]
    ensures log[key := m][k] == m <==> k == key
  {
    if k in log { assert log[k] in log.Values; }
  }

  /** If the appended message, new to the log, is at the back, its key was above all stored keys. */
  lemma BackMeansTop(log: Log, ks: seq<string>, key: string, m: Message)
    requires m !in log.Values && Ascending(ks) && Elements(ks) == log[key := m].Keys
    requires Queue(log[key := m]) == Queue(log) + [m]
    ensures forall k :: k in log ==> Less(k, key)
  {
    var after := log[key := m];
    var top := ks[|ks| - 1];
    QueueIs(after, ks);
    LastMessage(after, ks);
    assert after[top] == m;
    HolderOfNew(log, key, m, top);
    PutSize(log, key, m);
    forall k | k in log
      ensures Less(k, key)
    {
      assert k in Elements(ks);
      LastKeyIsTop(ks, k);
    }
  }

  lemma PutSize(log: Log, key: string, m: Message)
    ensures |log[key := m]| == |log| + (if key in log then 0 else 1)
  {
    assert log[key := m].Keys == log.Keys + {key};
    assert |log[key := m].Keys| == |log.Keys| + (if key in log.Keys then 0 else 1);
  }

  /** Exactly when an append enqueues: a message new to the log lands at the back of the queue iff its key is
      above every stored key. */
  lemma AppendEnqueuesIff(log: Log, key: string, m: Message)
    requires m !in log.Values
    ensures Queue(log[key := m]) == Queue(log) + [m] <==> forall k :: k in log ==> Less(k, key)
  {
    if Queue(log[key := m]) == Queue(log) + [m] {
      BackMeansTop(log, Listing(log[key := m].Keys), key, m);
    }
    if forall k :: k in log ==> Less(k, key) { AppendEnqueues(log, key, m); }
  }

  lemma AppendAfter(log: Log, ks: seq<string>, key: string, m: Message)
    requires Ascending(ks) && Elements(ks) == log.Keys && forall k :: k in ks ==> Less(k, key)
    ensures Queue(log[key := m]) == Queue(log) + [m]
  {
    AscendingSnoc(ks, key);
    SnocElements(ks, key);
    QueueIs(log, ks);
    QueueIs(log[key := m], ks + [key]);
    MessagesAtSnoc(log, ks, key, m);
  }

  /** Deleting the drained keys takes exactly the front of the queue off it. */
  lemma DrainDequeues(log: Log, limit: nat)
    ensures var ks := OldestKeys(log, limit);
            var n := Min(limit, |log|);
            && MessagesAt(log, ks) == Queue(log)[..n]
            && Queue(log - Elements(ks)) == Queue(log)[n..]
  {
    DropFront(log, Listing(log.Keys), Min(limit, |log|));
  }

  lemma DropFront(log: Log, all: seq<string>, n: nat)
    requires Ascending(all) && Elements(all) == log.Keys && n <= |all| == |log|
    ensures forall k :: k in all[..n] ==> k in log
    ensures MessagesAt(log, all[..n]) == Queue(log)[..n]
    ensures Queue(log - Elements(all[..n])) == Queue(log)[n..]
  {
    var ks, back := all[..n], all[n..];
    assert all == ks + back;
    SplitElements(all, n);
    QueueOfRest(log, log - Elements(ks), back);
    assert Queue(log) == MessagesAt(log, ks) + MessagesAt(log, back) by {
      QueueIs(log, all);
      MessagesAtConcat(log, ks, back);
    }
    Halves(MessagesAt(log, ks), MessagesAt(log, back));
  }

  lemma Halves(a: seq<Message>, b: seq<Message>)
    ensures (a + b)[..|a|] == a && (a + b)[|a|..] == b
  {}

  lemma QueueOfRest(log: Log, rest: Log, back: seq<string>)
    requires Ascending(back) && Elements(back) == rest.Keys <= log.Keys
    requires forall k :: k in rest ==> rest[k] == log[k]
    ensures (forall k :: k in back ==> k in log) && Queue(rest) == MessagesAt(log, back)
  {
    QueueIs(rest, back);
    MessagesAtAgree(rest, log, back);
  }
}
