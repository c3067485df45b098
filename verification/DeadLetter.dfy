/** The dead-letter sink: one object per message under
    dead-letter/{date}/{tenant}/{device}/{nanos}-{seq}.json. */
module DeadLetter {
  import opened Messages
  import opened Numerals
  import opened Topics

  /** The bucket's objects by key; of the envelope only the message is kept. */
  type Bucket = map<string, Message>

  function TenantSegment(m: Message): string {
    if m.tenant == "" then "unknown" else m.tenant
  }

  function DeviceSegment(m: Message): string {
    if m.device == NIL_UUID then "unknown" else UuidText(m.device)
  }

  function NextSinkSeq(seq_: uint64): uint64 {
    (seq_ + 1) % TWO64
  }

  function FileName(nanos: int64, seq_: uint64): string {
    DecInt(nanos) + ("-" + (Dec(seq_) + ".json"))
  }

  function KeyLayout(date: string, m: Message, seq_: uint64): string {
    ("dead-letter/" + date + "/" + TenantSegment(m)) + ("/" + (DeviceSegment(m) + ("/" + FileName(m.receivedAt, seq_))))
  }

  /** The quantifier keeps the text out of proofs that treat keys as names. */
  ghost predicate IsObjectKey(k: string, date: string, m: Message, seq_: uint64) {
    forall n: uint64 :: n == seq_ ==> k == KeyLayout(date, m, n)
  }

  ghost function ObjectKey(date: string, m: Message, seq_: uint64): (k: string)
    ensures IsObjectKey(k, date, m, seq_)
  {
    assert IsObjectKey(KeyLayout(date, m, seq_), date, m, seq_);
    var k :| IsObjectKey(k, date, m, seq_);
    k
  }

  lemma ObjectKeyIs(date: string, m: Message, seq_: uint64)
    ensures ObjectKey(date, m, seq_) == KeyLayout(date, m, seq_)
  {}

  // ----- what a key says -----

  /** The file name spelled out. */
  lemma FileNameIs(nanos: int64, seq_: uint64)
    ensures FileName(nanos, seq_) == DecInt(nanos) + "-" + Dec(seq_) + ".json"
  {
    assert DecInt(nanos) + "-" + Dec(seq_) + ".json" == DecInt(nanos) + ("-" + (Dec(seq_) + ".json"));
  }

  /** A key read segment by segment, for a date and a tenant that are one segment each. */
  lemma ObjectKeySegments(date: string, m: Message, seq_: uint64)
    requires '/' !in date && '/' !in m.tenant
    ensures Split(ObjectKey(date, m, seq_)) ==
            ["dead-letter", date,
             if m.tenant == "" then "unknown" else m.tenant,
             if forall b :: b in m.device ==> b == 0 then "unknown" else UuidText(m.device),
             DecInt(m.receivedAt) + "-" + Dec(seq_) + ".json"]
  {
    var t, d, f := TenantSegment(m), DeviceSegment(m), FileName(m.receivedAt, seq_);
    ObjectKeyIs(date, m, seq_);
    DeviceHasNoSlash(m);
    FileNameHasNoSlash(m.receivedAt, seq_);
    FileNameIs(m.receivedAt, seq_);
    NilIsZeros(m.device);
    FiveSegments("dead-letter", date, t, d, f, d + ("/" + f));
    assert "dead-letter/" == "dead-letter" + "/";
  }

  lemma NilIsZeros(u: Uuid)
    ensures u == NIL_UUID <==> forall b :: b in u ==> b == 0
  {
    if forall b :: b in u ==> b == 0 {
      assert forall i :: 0 <= i < 16 ==> u[i] in u;
    }
  }

  lemma OneMore(x: string, rest: string, parts: seq<string>)
    requires '/' !in x && Split(rest) == parts
    ensures Split(x + "/" + rest) == [x] + parts
  {
    SplitCons(x, rest);
  }

  lemma LastTwo(d: string, e: string, two: string)
    requires '/' !in d && '/' !in e && two == d + ("/" + e)
    ensures Split(two) == [d, e]
  {
    SplitWord(e);
    assert two == d + "/" + e;
    OneMore(d, e, [e]);
  }

  lemma FiveSegments(a: string, b: string, c: string, d: string, e: string, two: string)
    requires '/' !in a && '/' !in b && '/' !in c && '/' !in d && '/' !in e && two == d + ("/" + e)
    ensures Split((a + "/" + b + "/" + c) + ("/" + two)) == [a, b, c, d, e]
  {
    LastTwo(d, e, two);
    ThreeMore(a, b, c, two, [d, e]);
  }

  lemma ThreeMore(a: string, b: string, c: string, rest: string, parts: seq<string>)
    requires '/' !in a && '/' !in b && '/' !in c && Split(rest) == parts
    ensures Split((a + "/" + b + "/" + c) + ("/" + rest)) == [a, b, c] + parts
  {
    OneMore(c, rest, parts);
    OneMore(b, c + "/" + rest, [c] + parts);
    OneMore(a, b + "/" + (c + "/" + rest), [b] + ([c] + parts));
    Nested(a, b, c, rest);
  }

  lemma Nested(a: string, b: string, c: string, rest: string)
    ensures (a + "/" + b + "/" + c) + ("/" + rest) == a + "/" + (b + "/" + (c + "/" + rest))
  {}

  // ----- what a key determines -----

  lemma SeparatorIsLast(a: string, x: string, c: char)
    requires c !in x
    ensures (a + ([c] + x))[|a|] == c
    ensures forall k :: |a| < k < |a| + 1 + |x| ==> (a + ([c] + x))[k] != c
  {
    forall k | |a| < k < |a| + 1 + |x|
      ensures (a + ([c] + x))[k] != c
    {
      assert (a + ([c] + x))[k] == x[k - |a| - 1];
    }
  }

  /** The last occurrence of a separator that the tails do not contain splits both texts alike. */
  lemma LastSeparator(a: string, x: string, b: string, y: string, c: char)
    requires a + ([c] + x) == b + ([c] + y) && c !in x && c !in y
    ensures a == b && x == y
  {
    SeparatorIsLast(a, x, c);
    SeparatorIsLast(b, y, c);
    var s := a + ([c] + x);
    assert s[..|a|] == a && s[..|b|] == b;
    assert s[|a| + 1..] == x && s[|b| + 1..] == y;
  }

  lemma DigitsHaveNo(n: nat, c: char)
    requires !('0' <= c <= '9')
    ensures c !in Dec(n)
  {
    DecIsDecimal(n);
  }

  lemma FileNameInjective(m: int64, i: uint64, n: int64, j: uint64)
    requires FileName(m, i) == FileName(n, j)
    ensures m == n && i == j
  {
    DigitsHaveNo(i, '-');
    DigitsHaveNo(j, '-');
    LastSeparator(DecInt(m), Dec(i) + ".json", DecInt(n), Dec(j) + ".json", '-');
    assert (Dec(i) + ".json")[..|Dec(i)|] == Dec(i) && (Dec(j) + ".json")[..|Dec(j)|] == Dec(j);
    DecIntInjective(m, n);
    DecIntInjective(i, j);
  }

  lemma FileNameHasNoSlash(n: int64, i: uint64)
    ensures '/' !in FileName(n, i)
  {
    DigitsHaveNo(i, '/');
    var magnitude: int := if n < 0 then 0 - n else n;
    DigitsHaveNo(magnitude, '/');
  }

  lemma DeviceHasNoSlash(m: Message)
    ensures '/' !in DeviceSegment(m)
  {
    if m.device != NIL_UUID { UuidTextHasNoSlash(m.device); }
  }

  lemma DeviceSegmentInjective(m: Message, n: Message)
    requires DeviceSegment(m) == DeviceSegment(n)
    ensures m.device == n.device
  {
    if m.device != NIL_UUID && n.device != NIL_UUID { UuidTextInjective(m.device, n.device); }
  }

  /** Whatever the dates and tenants, a key determines the device, the arrival and the sequence number. */
  lemma ObjectKeyDetermines(d1: string, m: Message, i: uint64, d2: string, n: Message, j: uint64)
    requires ObjectKey(d1, m, i) == ObjectKey(d2, n, j)
    ensures m.device == n.device && m.receivedAt == n.receivedAt && i == j
  {
    ObjectKeyIs(d1, m, i);
    ObjectKeyIs(d2, n, j);
    var p, q := "dead-letter/" + d1 + "/" + TenantSegment(m), "dead-letter/" + d2 + "/" + TenantSegment(n);
    var f, g := FileName(m.receivedAt, i), FileName(n.receivedAt, j);
    FileNameHasNoSlash(m.receivedAt, i);
    FileNameHasNoSlash(n.receivedAt, j);
    Regroup(p, DeviceSegment(m), f);
    Regroup(q, DeviceSegment(n), g);
    LastSeparator(p + ("/" + DeviceSegment(m)), f, q + ("/" + DeviceSegment(n)), g, '/');
    DeviceHasNoSlash(m);
    DeviceHasNoSlash(n);
    LastSeparator(p, DeviceSegment(m), q, DeviceSegment(n), '/');
    DeviceSegmentInjective(m, n);
    FileNameInjective(m.receivedAt, i, n.receivedAt, j);
  }

  lemma Regroup(p: string, d: string, f: string)
    ensures p + ("/" + (d + ("/" + f))) == (p + ("/" + d)) + ("/" + f)
  {}

  /** Two messages can only meet under one object key if they share their dedup key. */
  lemma SameObjectSameDedupKey(d1: string, m: Message, i: uint64, d2: string, n: Message, j: uint64)
    requires WellKeyed(m) && WellKeyed(n) && ObjectKey(d1, m, i) == ObjectKey(d2, n, j)
    ensures m.dedupKey == n.dedupKey
  {
    ObjectKeyDetermines(d1, m, i, d2, n, j);
  }

  datatype WriteFault = NoFault | MarshalFails | PutFails

  class Sink {
    var objects: Bucket
    var seq_: uint64
    var written: nat
    var errors: nat

    constructor (stored: Bucket)
      ensures objects == stored && seq_ == 0 && written == errors == 0
    {
      objects, seq_, written, errors := stored, 0, 0, 0;
    }

    /** The sequence number is spent on every upload attempt, not on a failed marshal. */
    method Write(msg: Message, date: string, fault: WriteFault) returns (ok: bool)
      modifies this
      ensures ok <==> fault == NoFault
      ensures seq_ == if fault == MarshalFails then old(seq_) else (old(seq_) + 1) % 0x1_0000_0000_0000_0000
      ensures objects == if ok then old(objects)[ObjectKey(date, msg, seq_) := msg] else old(objects)
      ensures written == old(written) + (if ok then 1 else 0)
      ensures errors == old(errors) + (if ok then 0 else 1)
    {
      if fault == MarshalFails {
        errors := errors + 1;
        return false;
      }
      var key := MakeKey(msg, date);
      if fault == PutFails {
        errors := errors + 1;
        return false;
      }
      objects := objects[key := msg];
      written := written + 1;
      ok := true;
    }

    method MakeKey(msg: Message, date: string) returns (key: string)
      modifies this`seq_
      ensures seq_ == (old(seq_) + 1) % 0x1_0000_0000_0000_0000 && key == ObjectKey(date, msg, seq_)
    {
      var tenant := msg.tenant;
      if tenant == "" { tenant := "unknown"; }
      var device := UuidText(msg.device);
      if msg.device == NIL_UUID { device := "unknown"; }
      seq_ := NextSinkSeq(seq_);
      ObjectKeyIs(date, msg, seq_);
      key := ("dead-letter/" + date + "/" + tenant) + ("/" + (device + ("/" + FileName(msg.receivedAt, seq_))));
    }
  }
}
