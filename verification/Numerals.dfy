/** Machine integers and the decimal texts that the service builds keys from.
    A `char` stands for one byte throughout the project. */
module Numerals {

  const TWO63: int := 0x8000_0000_0000_0000
  const TWO64: int := 0x1_0000_0000_0000_0000

  type int64 = x: int | -TWO63 <= x < TWO63
  type uint64 = x: int | 0 <= x < TWO64

  /** Go's `uint64(n)` on an int64. */
  function ToUint64(n: int64): uint64 {
    n % TWO64
  }

  /** The int64 that two's-complement arithmetic leaves of the integer `n`. */
  function WrapInt64(n: int): int64 {
    var r := n % TWO64;
    if r < TWO63 then r else r - TWO64
  }

  lemma WrapUndoesToUint64(n: int64)
    ensures WrapInt64(ToUint64(n)) == n
  {}

  function Digit(d: nat): (c: char)
    requires d < 10
    ensures '0' <= c <= '9'
  {
    (('0' as int) + d) as char
  }

  ghost predicate AllDigits(s: string) {
    forall i :: 0 <= i < |s| ==> '0' <= s[i] <= '9'
  }

  /** The number a digit string denotes; the last character is the units. */
  function ValueOf(s: string): int {
    if s == "" then 0
    else 10 * ValueOf(s[..|s| - 1]) + (s[|s| - 1] as int - '0' as int)
  }

  lemma ValueOfSnoc(s: string, c: char)
    ensures ValueOf(s + [c]) == 10 * ValueOf(s) + (c as int - '0' as int)
  {
    assert (s + [c])[..|s|] == s;
  }

  /** Shortest decimal text of a natural number (`%d`). */
  function Dec(n: nat): string {
    if n < 10 then [Digit(n)] else Dec(n / 10) + [Digit(n % 10)]
  }

  lemma {:induction false} DecIsDecimal(n: nat)
    ensures Dec(n) != "" && AllDigits(Dec(n)) && ValueOf(Dec(n)) == n
  {
    if n < 10 {
      ValueOfSnoc("", Digit(n));
      assert "" + [Digit(n)] == Dec(n);
    } else {
      DecIsDecimal(n / 10);
      ValueOfSnoc(Dec(n / 10), Digit(n % 10));
    }
  }

  /** Decimal text of a signed integer (`%d`). */
  function DecInt(n: int): string {
    if n < 0 then "-" + Dec(-n) else Dec(n)
  }

  /** Zero is one digit, and no other number starts with one. */
  lemma {:induction false} DecHasNoLeadingZero(n: nat)
    requires n > 0
    ensures Dec(n)[0] != '0'
  {
    if n >= 10 { DecHasNoLeadingZero(n / 10); }
  }

  /** The integer that a decimal text, signed or not, denotes. */
  function ReadInt(s: string): int {
    if s != "" && s[0] == '-' then -ValueOf(s[1..]) else ValueOf(s)
  }

  lemma DecIntReads(n: int)
    ensures ReadInt(DecInt(n)) == n
    ensures DecInt(n) != "" && AllDigits(if n < 0 then DecInt(n)[1..] else DecInt(n))
    ensures n < 0 ==> DecInt(n)[0] == '-' && DecInt(n)[1] != '0'
    ensures n > 0 ==> DecInt(n)[0] != '0'
    ensures n == 0 ==> DecInt(n) == "0"
  {
    var magnitude: nat := if n < 0 then -n else n;
    DecIsDecimal(magnitude);
    if n < 0 { assert DecInt(n)[1..] == Dec(magnitude); }
    if n != 0 { DecHasNoLeadingZero(magnitude); }
  }

  lemma DecIntInjective(m: int, n: int)
    requires DecInt(m) == DecInt(n)
    ensures m == n
  {
    DecIsDecimal(if m < 0 then -m else m);
    DecIsDecimal(if n < 0 then -n else n);
    if m < 0 && n < 0 {
      assert DecInt(m)[1..] == Dec(-m) && DecInt(n)[1..] == Dec(-n);
    } else {
      assert DecInt(m)[0] == DecInt(n)[0];
    }
  }

  function Pow10(w: nat): nat {
    if w == 0 then 1 else 10 * Pow10(w - 1)
  }

  /** The low `w` decimal digits of `n`, zero padded on the left. */
  function Pad(n: nat, w: nat): (s: string)
    ensures |s| == w
  {
    if w == 0 then "" else Pad(n / 10, w - 1) + [Digit(n % 10)]
  }

  lemma {:induction false} PadIsDecimal(n: nat, w: nat)
    requires n < Pow10(w)
    ensures AllDigits(Pad(n, w)) && ValueOf(Pad(n, w)) == n
  {
    if w > 0 {
      PadIsDecimal(n / 10, w - 1);
      ValueOfSnoc(Pad(n / 10, w - 1), Digit(n % 10));
    }
  }

  lemma Uint64FitsTwentyDigits()
    ensures TWO64 < Pow10(20)
  {
    assert Pow10(5) == 100000;
    assert Pow10(10) == 10000000000;
    assert Pow10(15) == 1000000000000000;
    assert Pow10(20) == 100000000000000000000;
  }
}
