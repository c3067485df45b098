/** The row shape that travels through every tier, and its dedup key. */
module Messages {
  import opened Numerals

  type byte = b: int | 0 <= b < 256
  type Uuid = u: seq<byte> | |u| == 16 witness [0, 0, 0, 0, 0, 0, 0, 0, 0, 0, 0, 0, 0, 0, 0, 0]

  const NIL_UUID: Uuid := [0, 0, 0, 0, 0, 0, 0, 0, 0, 0, 0, 0, 0, 0, 0, 0]

  datatype Message = Message(
    tenant: string,
    device: Uuid,
    topic: string,
    payload: seq<byte>,
    receivedAt: int64,
    dedupKey: string)

  /** Go's zero value, left in ring slots after a dequeue. */
  function ZeroMessage(): Message { Message("", NIL_UUID, "", [], 0, "") }

  function HexDigit(d: nat): char
    requires d < 16
  {
    if d < 10 then Digit(d) else (('a' as int) + (d - 10)) as char
  }

  function Hex(bs: seq<byte>): (s: string)
    ensures |s| == 2 * |bs|
  {
    if bs == [] then "" else [HexDigit(bs[0] / 16), HexDigit(bs[0] % 16)] + Hex(bs[1..])
  }

  /** The 36-character lower-case text form, section 4 of RFC 9562. */
  function UuidText(u: Uuid): (s: string)
    ensures |s| == 36
  {
    Hex(u[..4]) + "-" + Hex(u[4..6]) + "-" + Hex(u[6..8]) + "-" + Hex(u[8..10]) + "-" + Hex(u[10..])
  }

  lemma HexDigitInjective(c: nat, d: nat)
    requires c < 16 && d < 16 && HexDigit(c) == HexDigit(d)
    ensures c == d
  {}

  lemma {:induction false} HexInjective(a: seq<byte>, b: seq<byte>)
    requires Hex(a) == Hex(b)
    ensures a == b
  {
    assert |a| == |b|;
    if a != [] {
      assert Hex(a)[0] == Hex(b)[0] && Hex(a)[1] == Hex(b)[1];
      HexDigitInjective(a[0] / 16, b[0] / 16);
      HexDigitInjective(a[0] % 16, b[0] % 16);
      assert Hex(a)[2..] == Hex(a[1..]) && Hex(b)[2..] == Hex(b[1..]);
      HexInjective(a[1..], b[1..]);
      assert a == [a[0]] + a[1..] && b == [b[0]] + b[1..];
    }
  }

  lemma {:induction false} HexHasNoSlash(bs: seq<byte>)
    ensures '/' !in Hex(bs)
  {
    if bs != [] { HexHasNoSlash(bs[1..]); }
  }

  lemma UuidTextHasNoSlash(u: Uuid)
    ensures '/' !in UuidText(u)
  {
    HexHasNoSlash(u[..4]);
    HexHasNoSlash(u[4..6]);
    HexHasNoSlash(u[6..8]);
    HexHasNoSlash(u[8..10]);
    HexHasNoSlash(u[10..]);
  }

  /** Where the five groups of the text form sit. */
  lemma UuidTextGroups(u: Uuid)
    ensures UuidText(u)[..8] == Hex(u[..4]) && UuidText(u)[9..13] == Hex(u[4..6])
    ensures UuidText(u)[14..18] == Hex(u[6..8]) && UuidText(u)[19..23] == Hex(u[8..10])
    ensures UuidText(u)[24..] == Hex(u[10..])
  {}

  lemma UuidTextInjective(u: Uuid, v: Uuid)
    requires UuidText(u) == UuidText(v)
    ensures u == v
  {
    UuidTextGroups(u);
    UuidTextGroups(v);
    HexInjective(u[..4], v[..4]);
    HexInjective(u[4..6], v[4..6]);
    HexInjective(u[6..8], v[6..8]);
    HexInjective(u[8..10], v[8..10]);
    HexInjective(u[10..], v[10..]);
    assert u == u[..4] + u[4..6] + u[6..8] + u[8..10] + u[10..];
    assert v == v[..4] + v[4..6] + v[6..8] + v[8..10] + v[10..];
  }

  // ----- what the texts say, read back -----

  /** The value of a lower-case hexadecimal digit. */
  function HexValue(c: char): int {
    if '0' <= c <= '9' then c as int - '0' as int
    else if 'a' <= c <= 'f' then c as int - 'a' as int + 10
    else -1
  }

  /** Two digits a byte. */
  function ReadHex(s: string): seq<int> {
    if |s| < 2 then [] else [16 * HexValue(s[0]) + HexValue(s[1])] + ReadHex(s[2..])
  }

  lemma HexDigitReads(d: nat)
    requires d < 16
    ensures HexValue(HexDigit(d)) == d
  {}

  lemma {:induction false} HexReads(bs: seq<byte>)
    ensures ReadHex(Hex(bs)) == bs
  {
    if bs != [] {
      HexDigitReads(bs[0] / 16);
      HexDigitReads(bs[0] % 16);
      HexReads(bs[1..]);
      assert Hex(bs)[2..] == Hex(bs[1..]);
      assert bs == [bs[0]] + bs[1..];
    }
  }

  /** The five groups of a UUID's text, read as bytes. */
  function ReadUuid(s: string): seq<int>
    requires |s| == 36
  {
    ReadHex(s[..8]) + ReadHex(s[9..13]) + ReadHex(s[14..18]) + ReadHex(s[19..23]) + ReadHex(s[24..])
  }

  lemma UuidTextReads(u: Uuid)
    ensures ReadUuid(UuidText(u)) == u
    ensures var s := UuidText(u); s[8] == s[13] == s[18] == s[23] == '-'
  {
    UuidTextGroups(u);
    HexReads(u[..4]);
    HexReads(u[4..6]);
    HexReads(u[6..8]);
    HexReads(u[8..10]);
    HexReads(u[10..]);
    assert u == u[..4] + u[4..6] + u[6..8] + u[8..10] + u[10..];
  }

  function MakeDedupKey(device: Uuid, nanos: int64): string {
    UuidText(device) + ":" + DecInt(nanos)
  }

  /** The key is the device's text, a colon and the nanoseconds. */
  lemma DedupKeyReads(device: Uuid, nanos: int64)
    ensures var k := MakeDedupKey(device, nanos);
            |k| > 37 && ReadUuid(k[..36]) == device && k[36] == ':' && ReadInt(k[37..]) == nanos
  {
    UuidTextReads(device);
    DecIntReads(nanos);
    assert MakeDedupKey(device, nanos)[..36] == UuidText(device);
    assert MakeDedupKey(device, nanos)[37..] == DecInt(nanos);
  }

  lemma DedupKeyInjective(d: Uuid, m: int64, e: Uuid, n: int64)
    requires MakeDedupKey(d, m) == MakeDedupKey(e, n)
    ensures d == e && m == n
  {
    assert MakeDedupKey(d, m)[..36] == UuidText(d) && MakeDedupKey(e, n)[..36] == UuidText(e);
    assert MakeDedupKey(d, m)[37..] == DecInt(m) && MakeDedupKey(e, n)[37..] == DecInt(n);
    UuidTextInjective(d, e);
    DecIntInjective(m, n);
  }

  /** A message as the subscriber builds it: its key is the key of its own device and arrival. */
  predicate WellKeyed(m: Message) {
    m.dedupKey == MakeDedupKey(m.device, m.receivedAt)
  }
}
