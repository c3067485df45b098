/** The WAL key codec msg:{nanos:020d}:{seq:020d}. */
module WalKeys {
  import opened ByteOrder
  import opened Numerals

  const KEY_PREFIX := "msg:"
  const KEY_WIDTH: nat := 20

  function Layout(nanos: uint64, seq_: uint64, width: nat): string {
    KEY_PREFIX + (Pad(nanos, width) + (":" + Pad(seq_, width)))
  }

  /** Twenty digits each. The quantifier keeps the digits out of proofs that treat keys as names. */
  ghost predicate IsKeyText(k: string, nanos: uint64, seq_: uint64) {
    forall width: nat :: width == KEY_WIDTH ==> k == Layout(nanos, seq_, width)
  }

  /** The key text for a clock reading already cast to uint64. */
  ghost function KeyText(nanos: uint64, seq_: uint64): (k: string)
    ensures IsKeyText(k, nanos, seq_)
  {
    assert IsKeyText(Layout(nanos, seq_, KEY_WIDTH), nanos, seq_);
    var k :| IsKeyText(k, nanos, seq_);
    k
  }

  lemma KeyTextIs(nanos: uint64, seq_: uint64)
    ensures KeyText(nanos, seq_) == KEY_PREFIX + (Pad(nanos, 20) + (":" + Pad(seq_, 20)))
    ensures |KeyText(nanos, seq_)| == 45
  {
    assert KeyText(nanos, seq_) == Layout(nanos, seq_, KEY_WIDTH);
  }

  ghost function KeyAt(now: int64, seq_: uint64): string {
    KeyText(ToUint64(now), seq_)
  }

  lemma PadInjective(m: nat, n: nat, w: nat)
    requires m < Pow10(w) && n < Pow10(w) && Pad(m, w) == Pad(n, w)
    ensures m == n
  {
    PadIsDecimal(m, w);
    PadIsDecimal(n, w);
  }

  lemma DigitOrder(c: nat, d: nat)
    requires c < 10 && d < 10
    ensures Less([Digit(c)], [Digit(d)]) <==> c < d
  {}

  /** Zero padding is what makes byte order agree with numeric order. */
  lemma {:induction false} PadOrder(m: nat, n: nat, w: nat)
    requires m < Pow10(w) && n < Pow10(w)
    ensures Less(Pad(m, w), Pad(n, w)) <==> m < n
  {
    if w > 0 {
      PadOrder(m / 10, n / 10, w - 1);
      LessConcat(Pad(m / 10, w - 1), [Digit(m % 10)], Pad(n / 10, w - 1), [Digit(n % 10)]);
      DigitOrder(m % 10, n % 10);
      if Pad(m / 10, w - 1) == Pad(n / 10, w - 1) {
        PadInjective(m / 10, n / 10, w - 1);
      }
    }
  }

  /** Byte order of keys is order on (nanos, seq). */
  lemma KeyOrder(n1: uint64, s1: uint64, n2: uint64, s2: uint64)
    ensures Less(KeyText(n1, s1), KeyText(n2, s2)) <==> n1 < n2 || (n1 == n2 && s1 < s2)
  {
    Uint64FitsTwentyDigits();
    KeyTextIs(n1, s1);
    KeyTextIs(n2, s2);
    var x1, x2 := ":" + Pad(s1, 20), ":" + Pad(s2, 20);
    LessIrreflexive(KEY_PREFIX);
    LessConcat(KEY_PREFIX, Pad(n1, 20) + x1, KEY_PREFIX, Pad(n2, 20) + x2);
    LessConcat(Pad(n1, 20), x1, Pad(n2, 20), x2);
    LessIrreflexive(":");
    LessConcat(":", Pad(s1, 20), ":", Pad(s2, 20));
    PadOrder(n1, n2, 20);
    PadOrder(s1, s2, 20);
    if Pad(n1, 20) == Pad(n2, 20) { PadInjective(n1, n2, 20); }
  }

  lemma KeyInjective(n1: uint64, s1: uint64, n2: uint64, s2: uint64)
    requires KeyText(n1, s1) == KeyText(n2, s2)
    ensures n1 == n2 && s1 == s2
  {
    Uint64FitsTwentyDigits();
    KeyParts(n1, s1);
    KeyParts(n2, s2);
    PadInjective(n1, n2, 20);
    PadInjective(s1, s2, 20);
  }

  lemma KeyParts(n: uint64, s: uint64)
    ensures |KeyText(n, s)| == 45
    ensures KeyText(n, s)[4..24] == Pad(n, 20) && KeyText(n, s)[25..] == Pad(s, 20)
  {
    KeyTextIs(n, s);
  }

  /** A key read back: the prefix, twenty digits of nanoseconds, a colon, twenty digits of sequence number. */
  lemma KeyTextReads(n: uint64, s: uint64)
    ensures var k := KeyText(n, s);
            && |k| == 45 && k[..4] == "msg:" && k[24] == ':'
            && AllDigits(k[4..24]) && ValueOf(k[4..24]) == n
            && AllDigits(k[25..]) && ValueOf(k[25..]) == s
  {
    Uint64FitsTwentyDigits();
    KeyTextIs(n, s);
    KeyParts(n, s);
    PadIsDecimal(n, 20);
    PadIsDecimal(s, 20);
  }

  /** writePadded20: fills a fixed buffer from the units upwards. */
  method WritePadded20(n: uint64) returns (text: string)
    ensures text == Pad(n, 20)
  {
    var raw := new char[20];
    var rest: nat := n;
    var i := 19;
    while i >= 0
      invariant -1 <= i <= 19
      invariant Pad(n, 20) == Pad(rest, i + 1) + raw[i + 1..]
    {
      raw[i] := Digit(rest % 10);
      assert raw[i..] == [Digit(rest % 10)] + raw[i + 1..];
      assert Pad(rest, i + 1) + raw[i + 1..] == Pad(rest / 10, i) + ([Digit(rest % 10)] + raw[i + 1..]);
      rest := rest / 10;
      i := i - 1;
    }
    text := raw[..];
  }

  method MakeKey(now: int64, seq_: uint64) returns (key: string)
    ensures key == KeyAt(now, seq_)
  {
    var a := WritePadded20(ToUint64(now));
    var b := WritePadded20(seq_);
    key := KEY_PREFIX + (a + (":" + b));
    KeyTextIs(ToUint64(now), seq_);
  }

  /** What a parsed key means: the int64 that the first twenty digits wrap to. */
  predicate TimeReadable(key: string) {
    && |key| >= 25 && key[..4] == "msg:"
    && forall i :: 4 <= i < 24 ==> '0' <= key[i] <= '9'
  }

  lemma WrapStep(v: int, d: int)
    ensures WrapInt64(WrapInt64(WrapInt64(v) * 10) + d) == WrapInt64(10 * v + d)
  {
    var j := WrapShift(v);
    var k := WrapShift(WrapInt64(v) * 10);
    WrapCongruent(10 * v + d, 10 * j + k);
  }

  lemma WrapShift(v: int) returns (k: int)
    ensures WrapInt64(v) == v + k * TWO64
  {
    k := -(v / TWO64) - (if v % TWO64 < TWO63 then 0 else 1);
  }

  lemma WrapCongruent(v: int, k: int)
    ensures WrapInt64(v + k * TWO64) == WrapInt64(v)
  {
    assert (v + k * TWO64) % TWO64 == v % TWO64;
  }

  lemma ReadableIsDigits(key: string)
    requires |key| >= 25 && KEY_PREFIX <= key
    ensures TimeReadable(key) <==> AllDigits(key[4..24])
  {
    if AllDigits(key[4..24]) {
      forall i | 4 <= i < 24
        ensures '0' <= key[i] <= '9'
      {
        assert key[i] == key[4..24][i - 4];
      }
    }
  }

  lemma ParseStep(digits: string, i: nat)
    requires i < |digits|
    ensures AllDigits(digits[..i + 1]) <==> AllDigits(digits[..i]) && '0' <= digits[i] <= '9'
    ensures WrapInt64(WrapInt64(WrapInt64(ValueOf(digits[..i])) * 10) + (digits[i] as int - '0' as int))
            == WrapInt64(ValueOf(digits[..i + 1]))
  {
    assert digits[..i + 1] == digits[..i] + [digits[i]];
    ValueOfSnoc(digits[..i], digits[i]);
    WrapStep(ValueOf(digits[..i]), digits[i] as int - '0' as int);
    AllDigitsSnoc(digits[..i], digits[i]);
  }

  lemma AllDigitsSnoc(s: string, c: char)
    ensures AllDigits(s + [c]) <==> AllDigits(s) && '0' <= c <= '9'
  {
    assert (s + [c])[|s|] == c;
    if AllDigits(s + [c]) { assert forall i :: 0 <= i < |s| ==> s[i] == (s + [c])[i]; }
  }

  lemma NotAllDigits(s: string, i: nat)
    requires i < |s| && !('0' <= s[i] <= '9')
    ensures !AllDigits(s)
  {}

  /** parseKeyTime: accumulates in int64 arithmetic, so it wraps silently. */
  method ParseKeyTime(key: string) returns (nanos: int64, ok: bool)
    ensures ok <==> TimeReadable(key)
    ensures nanos == if ok then WrapInt64(ValueOf(key[4..24])) else 0
  {
    if |key| < |KEY_PREFIX| + 20 + 1 { return 0, false; }
    if !(KEY_PREFIX <= key) { return 0, false; }
    ReadableIsDigits(key);
    nanos, ok := ParseDigits(key[4..24]);
  }

  method ParseDigits(digits: string) returns (nanos: int64, ok: bool)
    ensures ok <==> AllDigits(digits)
    ensures nanos == if ok then WrapInt64(ValueOf(digits)) else 0
  {
    nanos := 0;
    for i := 0 to |digits|
      invariant AllDigits(digits[..i])
      invariant nanos == WrapInt64(ValueOf(digits[..i]))
    {
      var c := digits[i];
      if c < '0' || c > '9' {
        NotAllDigits(digits, i);
        return 0, false;
      }
      ParseStep(digits, i);
      nanos := WrapInt64(WrapInt64(nanos * 10) + (c as int - '0' as int));
    }
    assert digits[..|digits|] == digits;
    ok := true;
  }

  /** Every key reads back the clock value it was made from, pre-1970 readings included:
      the cast to uint64 and the wrapping parse undo each other. */
  lemma KeyTimeRoundTrip(now: int64, seq_: uint64)
    ensures TimeReadable(KeyAt(now, seq_))
    ensures WrapInt64(ValueOf(KeyAt(now, seq_)[4..24])) == now
  {
    Uint64FitsTwentyDigits();
    KeyTextIs(ToUint64(now), seq_);
    var key := KeyAt(now, seq_);
    assert key[..4] == KEY_PREFIX;
    assert key[4..24] == Pad(ToUint64(now), 20);
    PadIsDecimal(ToUint64(now), 20);
    assert forall i :: 4 <= i < 24 ==> key[i] == key[4..24][i - 4];
    WrapUndoesToUint64(now);
  }

  /** Numeric clock order is key order exactly for clock readings on the same side of 1970;
      a reading before it sorts after every later one. */
  lemma KeyOrderOfClock(t1: int64, s1: uint64, t2: int64, s2: uint64)
    requires t1 < t2
    ensures Less(KeyAt(t1, s1), KeyAt(t2, s2)) <==> (t1 < 0 <==> t2 < 0)
  {
    CastOrder(t1, t2);
    KeyOrder(ToUint64(t1), s1, ToUint64(t2), s2);
  }

  lemma CastOrder(t1: int64, t2: int64)
    requires t1 < t2
    ensures ToUint64(t1) < ToUint64(t2) <==> (t1 < 0 <==> t2 < 0)
    ensures ToUint64(t1) != ToUint64(t2)
  {
    CastValue(t1);
    CastValue(t2);
  }

  lemma CastValue(t: int64)
    ensures ToUint64(t) == if t < 0 then t + TWO64 else t
  {}
}
