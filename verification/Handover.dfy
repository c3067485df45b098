/** What a flush that ends in a requeue or a dead-letter leaves in the WAL and in the bucket. */
module Handover {
  import opened DeadLetter
  import opened FlushSpec
  import opened Messages
  import opened Numerals
  import opened WalKeys
  import opened WalStore

  /** The sequence number after `k` increments. */
  function SeqPlus(seq_: uint64, k: nat): uint64 {
    (seq_ + k) % TWO64
  }

  lemma SeqPlusNext(seq_: uint64, k: nat)
    ensures (SeqPlus(seq_, k) + 1) % TWO64 == SeqPlus(seq_, k + 1)
  {}

  lemma SeqPlusDistinct(seq_: uint64, j: nat, k: nat)
    requires j < k < j + TWO64
    ensures SeqPlus(seq_, j) != SeqPlus(seq_, k)
  {}

  lemma {:induction false} LogSeq(env: FlushEnv, batch: seq<Message>, n: nat, v: LogView)
    requires n <= |batch|
    ensures LogRefilled(env, batch, n, v).seq_ == SeqPlus(v.seq_, n)
  {
    if n > 0 {
      LogSeq(env, batch, n - 1, v);
      SeqPlusNext(v.seq_, n - 1);
    }
  }

  lemma LogLast(env: FlushEnv, batch: seq<Message>, n: nat, v: LogView, key: string)
    requires n < |batch| && env.append(n) == AppendFault.NoFault
             && key == KeyAt(env.appendAt(n), SeqPlus(v.seq_, n + 1))
    ensures LogRefilled(env, batch, n + 1, v).log == LogRefilled(env, batch, n, v).log[key := batch[n]]
  {
    LogSeq(env, batch, n, v);
    SeqPlusNext(v.seq_, n);
  }

  lemma OtherKey(a: int64, b: int64, seq_: uint64, j: nat, k: nat)
    requires j < k < j + TWO64
    ensures KeyAt(a, SeqPlus(seq_, j)) != KeyAt(b, SeqPlus(seq_, k))
  {
    SeqPlusDistinct(seq_, j, k);
    if KeyAt(a, SeqPlus(seq_, j)) == KeyAt(b, SeqPlus(seq_, k)) {
      KeyInjective(ToUint64(a), SeqPlus(seq_, j), ToUint64(b), SeqPlus(seq_, k));
    }
  }

  /** Whatever the clock does: a message that a requeue wrote is in the WAL under its own key. */
  lemma {:induction false} RequeuedIsStored(env: FlushEnv, batch: seq<Message>, n: nat, v: LogView, i: nat)
    requires i < n <= |batch| && n <= TWO64 && AllAppended(env, n)
    ensures var log := LogRefilled(env, batch, n, v).log;
            var key := KeyAt(env.appendAt(i), SeqPlus(v.seq_, i + 1));
            key in log && log[key] == batch[i]
  {
    var key := KeyAt(env.appendAt(n - 1), SeqPlus(v.seq_, n));
    LogLast(env, batch, n - 1, v, key);
    if i < n - 1 {
      RequeuedIsStored(env, batch, n - 1, v, i);
      OtherKey(env.appendAt(i), env.appendAt(n - 1), v.seq_, i + 1, n);
    }
  }

  // ----- the sink -----

  /** The writes that reach the upload and spend a sequence number. */
  function Uploads(env: FlushEnv, n: nat): nat {
    if n == 0 then 0 else Uploads(env, n - 1) + (if env.put(n - 1) == MarshalFails then 0 else 1)
  }

  lemma {:induction false} UploadsGrow(env: FlushEnv, m: nat, n: nat)
    requires m <= n
    ensures Uploads(env, m) <= Uploads(env, n) <= Uploads(env, m) + (n - m)
  {
    if m < n { UploadsGrow(env, m, n - 1); }
  }

  lemma WriteSeq(v: SinkView, m: Message, date: string, fault: WriteFault, seq_: uint64, k: nat)
    requires v.seq_ == SeqPlus(seq_, k)
    ensures WriteOne(v, m, date, fault).seq_ == SeqPlus(seq_, if fault == MarshalFails then k else k + 1)
  {
    SeqPlusNext(seq_, k);
  }

  lemma {:induction false} SinkSeq(env: FlushEnv, batch: seq<Message>, n: nat, v: SinkView)
    requires n <= |batch|
    ensures SinkFilled(env, batch, n, v).seq_ == SeqPlus(v.seq_, Uploads(env, n))
  {
    if n > 0 {
      SinkSeq(env, batch, n - 1, v);
      WriteSeq(SinkFilled(env, batch, n - 1, v), batch[n - 1], env.date(n - 1), env.put(n - 1), v.seq_,
               Uploads(env, n - 1));
    }
  }

  /** The key of the i-th message, if its write gets that far. */
  ghost function KeyOfWrite(env: FlushEnv, batch: seq<Message>, v: SinkView, i: nat): string
    requires i < |batch|
  {
    ObjectKey(env.date(i), batch[i], SeqPlus(v.seq_, Uploads(env, i + 1)))
  }

  lemma SinkLast(env: FlushEnv, batch: seq<Message>, n: nat, v: SinkView)
    requires n < |batch|
    ensures SinkFilled(env, batch, n + 1, v).objects ==
            if env.put(n) == WriteFault.NoFault
            then SinkFilled(env, batch, n, v).objects[KeyOfWrite(env, batch, v, n) := batch[n]]
            else SinkFilled(env, batch, n, v).objects
  {
    SinkSeq(env, batch, n, v);
    SeqPlusNext(v.seq_, Uploads(env, n));
  }

  lemma OtherWrite(env: FlushEnv, batch: seq<Message>, v: SinkView, i: nat, j: nat)
    requires i < j < |batch| && j < TWO64 && env.put(j) == WriteFault.NoFault
    ensures KeyOfWrite(env, batch, v, i) != KeyOfWrite(env, batch, v, j)
  {
    UploadsGrow(env, i + 1, j);
    SeqPlusDistinct(v.seq_, Uploads(env, i + 1), Uploads(env, j + 1));
    if KeyOfWrite(env, batch, v, i) == KeyOfWrite(env, batch, v, j) {
      ObjectKeyDetermines(env.date(i), batch[i], SeqPlus(v.seq_, Uploads(env, i + 1)),
                          env.date(j), batch[j], SeqPlus(v.seq_, Uploads(env, j + 1)));
    }
  }

  lemma StaysStored(b: Bucket, key: string, m: Message, other: string, n: Message)
    requires key in b && b[key] == m
    ensures other != key ==> key in b[other := n] && b[other := n][key] == m
  {}

  /** Every message whose write succeeded is in the bucket under its key. */
  lemma {:induction false} WrittenIsStored(env: FlushEnv, batch: seq<Message>, n: nat, v: SinkView, i: nat)
    requires i < n <= |batch| && n <= TWO64 && env.put(i) == WriteFault.NoFault
    ensures var objects := SinkFilled(env, batch, n, v).objects;
            var key := KeyOfWrite(env, batch, v, i);
            key in objects && objects[key] == batch[i]
  {
    SinkLast(env, batch, n - 1, v);
    if i < n - 1 {
      WrittenIsStored(env, batch, n - 1, v, i);
      if env.put(n - 1) == WriteFault.NoFault {
        OtherWrite(env, batch, v, i, n - 1);
        StaysStored(SinkFilled(env, batch, n - 1, v).objects, KeyOfWrite(env, batch, v, i), batch[i],
                    KeyOfWrite(env, batch, v, n - 1), batch[n - 1]);
      }
    }
  }
}
