/** Decimal text of 64-bit integers: how `last_seen_at_ms` is printed by the Redis client
    and read back by `parseInt64`, with the wrap-around of Go's int64 written out. */
module Decimal {
  import opened Wrappers

  const TWO63 := 0x8000_0000_0000_0000
  const TWO64 := 0x1_0000_0000_0000_0000

  predicate IsInt64(x: int) {
    -TWO63 <= x < TWO63
  }

  /** The int64 that Go arithmetic keeps of the integer `x`. */
  function Wrap(x: int): (w: int)
    ensures IsInt64(w)
  {
    (x + TWO63) % TWO64 - TWO63
  }

  lemma WrapIdentity(x: int)
    requires IsInt64(x)
    ensures Wrap(x) == x
  {
  }

  lemma WrapShift(x: int, k: int)
    ensures Wrap(x + k * TWO64) == Wrap(x)
  {
    var y := x + TWO63;
    var q, r := y / TWO64, y % TWO64;
    assert y + k * TWO64 == (q + k) * TWO64 + r;
    assert (y + k * TWO64) % TWO64 == r;
  }

  /** Wrapping before or after one accumulation step gives the same int64. */
  lemma WrapStep(x: int, c: int)
    ensures Wrap(Wrap(Wrap(x) * 10) + c) == Wrap(x * 10 + c)
  {
    var k := (x + TWO63) / TWO64;
    assert Wrap(x) == x - k * TWO64;
    var y := Wrap(x) * 10;
    assert y == x * 10 + (-10 * k) * TWO64;
    WrapShift(x * 10, -10 * k);
    var j := (x * 10 + TWO63) / TWO64;
    assert Wrap(y) == x * 10 - j * TWO64;
    WrapShift(x * 10 + c, -j);
  }

  lemma WrapNegate(x: int)
    ensures Wrap(-Wrap(x)) == Wrap(-x)
  {
    var k := (x + TWO63) / TWO64;
    assert -Wrap(x) == -x + k * TWO64;
    WrapShift(-x, k);
  }

  predicate IsDigit(c: char) {
    '0' <= c <= '9'
  }

  predicate AllDigits(s: string) {
    forall i | 0 <= i < |s| :: IsDigit(s[i])
  }

  /** The number a digit text denotes; the empty text denotes 0. */
  function Value(s: string): nat
    requires AllDigits(s)
  {
    if s == "" then 0 else Value(s[..|s| - 1]) * 10 + (s[|s| - 1] as int - '0' as int)
  }

  function Digits(n: nat): (s: string)
    ensures s != "" && AllDigits(s)
  {
    (if n < 10 then "" else Digits(n / 10)) + [(n % 10 + '0' as int) as char]
  }

  lemma ValueSnoc(s: string, c: char)
    requires AllDigits(s) && IsDigit(c)
    ensures AllDigits(s + [c]) && Value(s + [c]) == Value(s) * 10 + (c as int - '0' as int)
  {
    assert (s + [c])[..|s|] == s;
  }

  lemma {:induction false} ValueDigits(n: nat)
    ensures Value(Digits(n)) == n
  {
    var c := (n % 10 + '0' as int) as char;
    if n < 10 {
      ValueSnoc("", c);
    } else {
      ValueDigits(n / 10);
      ValueSnoc(Digits(n / 10), c);
    }
  }

  /** strconv.FormatInt(x, 10). */
  function Print(x: int): string {
    if x < 0 then "-" + Digits(-x) else Digits(x)
  }

  /** What `parseInt64` computes: None is its error. An optional minus sign, then digits;
      the digits' value is kept modulo 2^64. */
  function Parse(s: string): Option<int> {
    var neg := s != "" && s[0] == '-';
    var digits := if neg then s[1..] else s;
    if !AllDigits(digits) then None
    else
      var v: int := Value(digits);
      Some(Wrap(if neg then -v else v))
  }

  /** The accumulating loop of `parseInt64`, with every int64 operation wrapped. */
  method ParseInt64(s: string) returns (r: Option<int>)
    ensures r == Parse(s)
  {
    var v, neg, t := 0, false, s;
    if |t| > 0 && t[0] == '-' {
      neg := true;
      t := t[1..];
    }
    for i := 0 to |t|
      invariant AllDigits(t[..i])
      invariant v == Wrap(Value(t[..i]))
    {
      var c := t[i];
      if c < '0' || c > '9' {
        return None;
      }
      assert t[..i + 1][..i] == t[..i];
      WrapStep(Value(t[..i]), c as int - '0' as int);
      v := Wrap(Wrap(v * 10) + (c as int - '0' as int));
    }
    assert t[..|t|] == t;
    if neg {
      WrapNegate(Value(t));
      v := Wrap(-v);
    }
    return Some(v);
  }

  /** Parsing inverts printing on every 64-bit integer, the smallest one included. */
  lemma ParsePrint(x: int)
    requires IsInt64(x)
    ensures Parse(Print(x)) == Some(x)
  {
    WrapIdentity(x);
    if x < 0 {
      ValueDigits(-x);
      ParseSigned(Digits(-x));
    } else {
      ValueDigits(x);
      ParseUnsigned(Digits(x));
    }
  }

  lemma ParseSigned(digits: string)
    requires AllDigits(digits)
    ensures var v: int := Value(digits); Parse("-" + digits) == Some(Wrap(-v))
  {
    assert ("-" + digits)[1..] == digits;
  }

  lemma ParseUnsigned(digits: string)
    requires AllDigits(digits) && digits != ""
    ensures Parse(digits) == Some(Wrap(Value(digits)))
  {
    assert IsDigit(digits[0]);
  }

  lemma {:induction false} PrefixValue(s: string, i: nat)
    requires AllDigits(s) && i <= |s|
    ensures Value(s[..i]) <= Value(s)
    decreases |s| - i
  {
    if i < |s| {
      PrefixValue(s, i + 1);
      assert s[..i + 1][..i] == s[..i];
    } else {
      assert s[..i] == s;
    }
  }

  /** No accumulator value wraps while the magnitude stays below 2^63; at 2^63 exactly the
      last one wraps to the smallest int64, which negation leaves in place. */
  lemma IntermediateValues(s: string, i: nat)
    requires AllDigits(s) && i <= |s|
    ensures Value(s) < TWO63 ==> Wrap(Value(s[..i])) == Value(s[..i])
    ensures Value(s) == TWO63 ==> Wrap(Value(s)) == -TWO63 && Wrap(-Wrap(Value(s))) == -TWO63
  {
    PrefixValue(s, i);
    if Value(s) < TWO63 {
      WrapIdentity(Value(s[..i]));
    }
  }
}
