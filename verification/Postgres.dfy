/** The telemetry table and the batch insert: INSERT ... SELECT ... ON CONFLICT (dedup_key) DO NOTHING. */
module Postgres {
  import opened Messages
  import opened Wrappers

  /** The committed rows by dedup key. */
  type Table = map<string, Message>

  datatype FlushError = SqlState(code: string) | OtherError

  /** SQLSTATE classes 22 (data exception) and 23 (integrity constraint violation). */
  predicate IsPoison(e: FlushError) {
    e.SqlState? && ("22" <= e.code || "23" <= e.code)
  }

  /** The code starts with "22" or "23", character by character. */
  predicate RowFault(e: FlushError) {
    e.SqlState? && |e.code| >= 2 && e.code[0] == '2' && (e.code[1] == '2' || e.code[1] == '3')
  }

  /** Poison is exactly a code of one of these two classes, and never an error without a code. */
  lemma PoisonIsRowFault(e: FlushError)
    ensures IsPoison(e) <==> RowFault(e)
  {}

  function InsertRow(t: Table, m: Message): Table {
    if m.dedupKey in t then t else t[m.dedupKey := m]
  }

  function InsertBatch(t: Table, ms: seq<Message>): Table
    decreases |ms|
  {
    if ms == [] then t else InsertBatch(InsertRow(t, ms[0]), ms[1..])
  }

  function KeysOf(ms: seq<Message>): set<string> {
    set m | m in ms :: m.dedupKey
  }

  /** No committed row is ever changed or removed. */
  ghost predicate Extends(t: Table, u: Table) {
    forall k :: k in t ==> k in u && u[k] == t[k]
  }

  lemma KeysOfCons(ms: seq<Message>)
    requires ms != []
    ensures KeysOf(ms) == {ms[0].dedupKey} + KeysOf(ms[1..])
  {
    assert forall m :: m in ms <==> m == ms[0] || m in ms[1..];
  }

  lemma {:induction false} InsertBatchKeys(t: Table, ms: seq<Message>)
    ensures InsertBatch(t, ms).Keys == t.Keys + KeysOf(ms)
    ensures |t| <= |InsertBatch(t, ms)|
    decreases |ms|
  {
    if ms != [] {
      InsertBatchKeys(InsertRow(t, ms[0]), ms[1..]);
      KeysOfCons(ms);
    }
  }

  function RowsAdded(t: Table, ms: seq<Message>): nat {
    InsertBatchKeys(t, ms);
    |InsertBatch(t, ms)| - |t|
  }

  /** Rows that were there stay as they were; a new row is a message of the batch under its own key. */
  lemma {:induction false} InsertBatchRows(t: Table, ms: seq<Message>)
    ensures Extends(t, InsertBatch(t, ms))
    ensures forall k :: k in InsertBatch(t, ms) && k !in t ==>
                          InsertBatch(t, ms)[k] in ms && InsertBatch(t, ms)[k].dedupKey == k
    decreases |ms|
  {
    if ms != [] { InsertBatchRows(InsertRow(t, ms[0]), ms[1..]); }
  }

  /** Inserting what is already there changes nothing. */
  lemma {:induction false} InsertAbsorbed(t: Table, ms: seq<Message>)
    requires KeysOf(ms) <= t.Keys
    ensures InsertBatch(t, ms) == t
  {
    if ms != [] {
      assert ms[0] in ms;
      assert ms[0].dedupKey in KeysOf(ms);
      assert KeysOf(ms[1..]) <= KeysOf(ms);
      InsertAbsorbed(t, ms[1..]);
    }
  }

  lemma InsertIdempotent(t: Table, ms: seq<Message>)
    ensures InsertBatch(InsertBatch(t, ms), ms) == InsertBatch(t, ms)
  {
    InsertBatchKeys(t, ms);
    InsertAbsorbed(InsertBatch(t, ms), ms);
  }

  lemma {:induction false} InsertBatchSnoc(t: Table, ms: seq<Message>, m: Message)
    ensures InsertBatch(t, ms + [m]) == InsertRow(InsertBatch(t, ms), m)
    decreases |ms|
  {
    if ms == [] {
      assert ms + [m] == [m];
      assert InsertBatch(InsertRow(t, m), []) == InsertRow(t, m);
    } else {
      assert (ms + [m])[1..] == ms[1..] + [m];
      InsertBatchSnoc(InsertRow(t, ms[0]), ms[1..], m);
    }
  }

  // ----- retries with ambiguous commits -----

  /** The table after a series of attempts of one batch; `landed[i]` says whether attempt i took
      effect, whatever its caller was told. */
  function AfterAttempts(t: Table, ms: seq<Message>, landed: seq<bool>): Table
    decreases |landed|
  {
    if landed == [] then t
    else AfterAttempts(if landed[0] then InsertBatch(t, ms) else t, ms, landed[1..])
  }

  /** However many attempts landed, the table is that of one insert, or untouched if none did. */
  lemma {:induction false} RetriesInsertOnce(t: Table, ms: seq<Message>, landed: seq<bool>)
    ensures AfterAttempts(t, ms, landed) == if true in landed then InsertBatch(t, ms) else t
    decreases |landed|
  {
    if landed != [] {
      var t' := if landed[0] then InsertBatch(t, ms) else t;
      RetriesInsertOnce(t', ms, landed[1..]);
      InsertIdempotent(t, ms);
      assert true in landed <==> landed[0] || true in landed[1..];
    }
  }

  // ----- the copier -----

  /** Where one call fails. A failed commit may still have taken effect on the server. */
  datatype CopyEnv =
    | Succeeds
    | BeginFails(e: FlushError)
    | CopyFails(e: FlushError)
    | CopyMiscounts
    | InsertFails(e: FlushError)
    | CommitFails(e: FlushError, landed: bool)
  {
    predicate Landed() { Succeeds? || (CommitFails? && landed) }

    /** What the caller is told; a row count mismatch carries no SQLSTATE. */
    function Error(): FlushError {
      if BeginFails? || CopyFails? || InsertFails? || CommitFails? then e else OtherError
    }
  }

  class Copier {
    var rows: Table

    constructor (t: Table)
      ensures rows == t
    {
      rows := t;
    }

    method CopyMessages(msgs: seq<Message>, env: CopyEnv) returns (r: Result<nat, FlushError>)
      modifies this
      ensures r.Ok? <==> msgs == [] || env.Succeeds?
      ensures rows == if env.Landed() then InsertBatch(old(rows), msgs) else old(rows)
      ensures r.Ok? ==> r.value == |rows| - |old(rows)|
      ensures r.Err? ==> r.error == env.Error()
      ensures r.Ok? ==> rows == InsertBatch(old(rows), msgs)
      ensures msgs != [] && env.CommitFails? ==>
                rows == (if env.landed then InsertBatch(old(rows), msgs) else old(rows)) && r == Err(env.e)
      ensures env.BeginFails? || env.CopyFails? || env.CopyMiscounts? || env.InsertFails? ==> rows == old(rows)
      ensures msgs != [] && env.CopyMiscounts? ==> r == Err(OtherError)
      ensures msgs != [] && (env.BeginFails? || env.CopyFails? || env.InsertFails?) ==> r == Err(env.e)
    {
      if |msgs| == 0 { return Ok(0); }
      if env.BeginFails? { return Err(env.e); }
      if env.CopyFails? { return Err(env.e); }
      if env.CopyMiscounts? { return Err(OtherError); }
      if env.InsertFails? { return Err(env.e); }
      // The rest runs inside the transaction, on rows no one else sees before the commit.
      var tx, affected := rows, 0;
      for i := 0 to |msgs|
        invariant rows == old(rows)
        invariant tx == InsertBatch(rows, msgs[..i])
        invariant affected == |tx| - |rows|
      {
        InsertBatchSnoc(rows, msgs[..i], msgs[i]);
        assert msgs[..i + 1] == msgs[..i] + [msgs[i]];
        if msgs[i].dedupKey !in tx {
          tx := tx[msgs[i].dedupKey := msgs[i]];
          affected := affected + 1;
        }
      }
      assert msgs[..|msgs|] == msgs;
      if env.CommitFails? && !env.landed { return Err(env.e); }
      rows := tx;
      if env.CommitFails? { return Err(env.e); }
      r := Ok(affected);
    }
  }
}
