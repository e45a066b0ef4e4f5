/**
  The cache-busting token every request carries as its `_s` query parameter:
  the whole seconds and the fractional digits of the current time, each in
  lower-case hexadecimal without Python's `0x` prefix, joined by `+`.
  The clock and the `"%.18f"` rendering of the time stay outside: the two
  integers arrive as inputs.
*/
module CacheBuster {
  import opened Wrappers

  /** One reading of the clock, already split at the decimal point. */
  datatype Instant = Instant(seconds: nat, fraction: nat)

  predicate IsHexDigit(c: char) {
    '0' <= c <= '9' || 'a' <= c <= 'f'
  }

  function HexDigit(d: nat): (c: char)
    requires d < 16
    ensures IsHexDigit(c)
  {
    if d < 10 then ('0' as int + d) as char else ('a' as int + d - 10) as char
  }

  function DigitValue(c: char): (d: nat)
    requires IsHexDigit(c)
    ensures d < 16 && HexDigit(d) == c
  {
    if c <= '9' then c as int - '0' as int else c as int - 'a' as int + 10
  }

  /** The digits Python's `hex(n)[2:]` yields: most significant first. */
  function Hex(n: nat): (h: string)
    ensures Canonical(h)
    decreases n
  {
    if n < 16 then [HexDigit(n)] else Hex(n / 16) + [HexDigit(n % 16)]
  }

  /** Non-empty lower-case hex digits with no leading zero (so never `0x…`). */
  predicate Canonical(s: string) {
    && |s| >= 1
    && (forall i :: 0 <= i < |s| ==> IsHexDigit(s[i]))
    && (s[0] == '0' ==> |s| == 1)
  }

  /** Reading hex digits back as a number, as `int(s, 16)` does. */
  function ParseHex(s: string): nat
    requires forall i :: 0 <= i < |s| ==> IsHexDigit(s[i])
  {
    if |s| == 0 then 0 else ParseHex(s[..|s| - 1]) * 16 + DigitValue(s[|s| - 1])
  }

  /** `current_epoch_time_as_hex` for the given clock reading: its first
      `+` separates the hex of the seconds from the hex of the fraction. */
  function Token(t: Instant): (token: string)
    ensures PlusIndex(token) == |Hex(t.seconds)|
    ensures token[..|Hex(t.seconds)|] == Hex(t.seconds)
    ensures token[|Hex(t.seconds)| + 1..] == Hex(t.fraction)
  {
    var a := Hex(t.seconds);
    var token := a + "+" + Hex(t.fraction);
    assert forall j :: 0 <= j < |a| ==> token[j] == a[j] && IsHexDigit(a[j]);
    assert token[|a|] == '+';
    token
  }

  /** Splitting a token at its `+` and reading both halves back. */
  function ParseToken(token: string): Option<Instant> {
    var i := PlusIndex(token);
    if i < 0 then None
    else
      var a, b := token[..i], token[i + 1..];
      if Canonical(a) && Canonical(b) then Some(Instant(ParseHex(a), ParseHex(b))) else None
  }

  /** Index of the first `+`, or -1. */
  function PlusIndex(s: string): (i: int)
    ensures -1 <= i < |s|
    ensures i >= 0 ==> s[i] == '+' && forall j :: 0 <= j < i ==> s[j] != '+'
    ensures i < 0 ==> forall j :: 0 <= j < |s| ==> s[j] != '+'
  {
    if |s| == 0 then -1
    else if s[0] == '+' then 0
    else
      var i := PlusIndex(s[1..]);
      if i < 0 then -1 else i + 1
  }

  function Pow16(k: nat): nat {
    if k == 0 then 1 else 16 * Pow16(k - 1)
  }

  /** Decoding the digits of `n` gives back `n`. */
  lemma {:induction false} ParseHexOfHex(n: nat)
    ensures ParseHex(Hex(n)) == n
  {
    if n >= 16 {
      var h := Hex(n);
      assert h[..|h| - 1] == Hex(n / 16);
      ParseHexOfHex(n / 16);
    }
  }

  /** Every canonical digit string is the rendering of the number it denotes. */
  lemma {:induction false} HexOfParseHex(s: string)
    requires Canonical(s)
    ensures Hex(ParseHex(s)) == s
  {
    if |s| > 1 {
      var p := s[..|s| - 1];
      assert Canonical(p);
      HexOfParseHex(p);
      ParsePositive(p);
      var n := ParseHex(s);
      assert n / 16 == ParseHex(p) && n % 16 == DigitValue(s[|s| - 1]);
      assert s == p + [s[|s| - 1]];
    }
  }

  lemma {:induction false} ParsePositive(s: string)
    requires Canonical(s) && s[0] != '0'
    ensures ParseHex(s) >= 1
  {
    if |s| > 1 {
      ParsePositive(s[..|s| - 1]);
    }
  }

  /** The token decodes to the clock reading it was made from. */
  lemma TokenRoundTrip(t: Instant)
    ensures ParseToken(Token(t)) == Some(t)
  {
    ParseHexOfHex(t.seconds);
    ParseHexOfHex(t.fraction);
  }

  /** Every string that decodes is exactly the token of what it decodes to. */
  lemma ParseTokenExact(token: string, t: Instant)
    requires ParseToken(token) == Some(t)
    ensures token == Token(t)
  {
    var i := PlusIndex(token);
    var a, b := token[..i], token[i + 1..];
    HexOfParseHex(a);
    HexOfParseHex(b);
    assert token == a + "+" + b;
  }

  /** Two different clock readings never give the same token. */
  lemma TokenInjective(t1: Instant, t2: Instant)
    requires t1 != t2
    ensures Token(t1) != Token(t2)
  {
    TokenRoundTrip(t1);
    TokenRoundTrip(t2);
  }

  /** A number below 16^k has at most k hex digits. */
  lemma {:induction false} HexWidth(n: nat, k: nat)
    requires 1 <= k && n < Pow16(k)
    ensures |Hex(n)| <= k
  {
    if n >= 16 {
      assert Pow16(1) == 16;
      HexWidth(n / 16, k - 1);
    }
  }

  /** `"%.18f"` leaves 18 fractional digits, so the second half of the token
      has at most 15 hex digits. */
  lemma FractionWidth(t: Instant)
    requires t.fraction < 1_000_000_000_000_000_000
    ensures |Hex(t.fraction)| <= 15
  {
    assert Pow16(1) == 16;
    assert Pow16(2) == 256;
    assert Pow16(3) == 4096;
    assert Pow16(4) == 65536;
    assert Pow16(5) == 1048576;
    assert Pow16(6) == 16777216;
    assert Pow16(7) == 268435456;
    assert Pow16(8) == 4294967296;
    assert Pow16(9) == 68719476736;
    assert Pow16(10) == 1099511627776;
    assert Pow16(11) == 17592186044416;
    assert Pow16(12) == 281474976710656;
    assert Pow16(13) == 4503599627370496;
    assert Pow16(14) == 72057594037927936;
    assert Pow16(15) == 1152921504606846976;
    HexWidth(t.fraction, 15);
  }
}
