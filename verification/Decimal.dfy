/**
 Decimal numerals: what Rust's `{}` and `{:010}` print for an unsigned integer and
 what `str::parse` accepts.  Playlist URIs, version keys and ring keys are built from these.
 */
module Decimal {
  import opened Wrappers

  const U32_LIMIT: nat := 0x1_0000_0000
  const U64_LIMIT: nat := 0x1_0000_0000_0000_0000

  predicate IsDigit(c: char) {
    '0' <= c <= '9'
  }

  predicate AllDigits(s: string) {
    forall i | 0 <= i < |s| :: IsDigit(s[i])
  }

  function DigitChar(d: nat): (c: char)
    requires d < 10
    ensures IsDigit(c) && DigitValue(c) == d
  {
    ('0' as int + d) as char
  }

  function DigitValue(c: char): nat
    requires IsDigit(c)
  {
    c as int - '0' as int
  }

  /** `{}`: no leading zeros, "0" for zero. */
  function Digits(n: nat): (s: string)
    ensures s != [] && AllDigits(s)
  {
    if n < 10 then [DigitChar(n)] else Digits(n / 10) + [DigitChar(n % 10)]
  }

  /** The number a digit string denotes, leading zeros allowed. */
  function Value(s: string): nat
    requires AllDigits(s)
  {
    if s == [] then 0 else 10 * Value(s[..|s| - 1]) + DigitValue(s[|s| - 1])
  }

  lemma {:induction false} ValueOfDigits(n: nat)
    ensures Value(Digits(n)) == n
  {
    if n < 10 {
      assert Value([]) == 0;
      assert [DigitChar(n)][..0] == [];
    } else {
      ValueOfDigits(n / 10);
      var s := Digits(n);
      assert s[..|s| - 1] == Digits(n / 10);
    }
  }

  /** `str::parse` for an unsigned type: one optional '+', at least one digit, no overflow. */
  function ParseUnsigned(s: string, limit: nat): (r: Option<nat>)
    ensures r.Some? ==> r.value < limit
    ensures forall c | c in s && !IsDigit(c) && c != '+' :: r.None?
  {
    var t := if |s| > 1 && s[0] == '+' then s[1..] else s;
    if t != [] && AllDigits(t) && Value(t) < limit then Some(Value(t)) else None
  }

  /** Digits parse as their value, with a plus sign or without, if it is below the limit; nothing else parses. */
  lemma {:induction false} ParsesIff(s: string, d: string, limit: nat)
    ensures d != [] && AllDigits(d) && (s == d || s == "+" + d) ==>
              ParseUnsigned(s, limit) == if Value(d) < limit then Some(Value(d)) else None
    ensures ParseUnsigned(s, limit).Some? ==>
              (s != [] && AllDigits(s)) || (|s| > 1 && s[0] == '+' && AllDigits(s[1..]))
  {
    hide Value;
    if s == "+" + d { assert s[1..] == d; }
    if s == d && d != [] && AllDigits(d) { assert IsDigit(d[0]); }
  }

  lemma ParsePrinted(n: nat, limit: nat)
    ensures ParseUnsigned(Digits(n), limit) == if n < limit then Some(n) else None
  {
    ValueOfDigits(n);
  }

  function Zeros(k: nat): (s: string)
    ensures |s| == k && AllDigits(s)
  {
    seq(k, _ => '0')
  }

  lemma {:induction false} ValueWithZeros(k: nat, s: string)
    requires AllDigits(s)
    ensures Value(Zeros(k) + s) == Value(s)
    decreases |s|, k
  {
    var t := Zeros(k) + s;
    if s != [] {
      ValueWithZeros(k, s[..|s| - 1]);
      assert t[..|t| - 1] == Zeros(k) + s[..|s| - 1];
    } else if k > 0 {
      ValueWithZeros(k - 1, s);
      assert t[..|t| - 1] == Zeros(k - 1) + s;
    }
  }

  /** `{:010}`: zero-padded to ten digits, longer numbers printed in full. */
  function Padded(n: nat): (s: string)
    ensures AllDigits(s) && |s| >= 10
  {
    var d := Digits(n);
    if |d| < 10 then Zeros(10 - |d|) + d else d
  }

  lemma ValueOfPadded(n: nat)
    ensures Value(Padded(n)) == n
  {
    ValueOfDigits(n);
    var d := Digits(n);
    if |d| < 10 {
      ValueWithZeros(10 - |d|, d);
    }
  }

  /** Strict lexicographic order, the order in which etcd ranges its keys. */
  predicate Lex(a: string, b: string) {
    b != [] && (a == [] || a[0] < b[0] || (a[0] == b[0] && Lex(a[1..], b[1..])))
  }

  lemma {:induction false} LexPrefix(p: string, a: string, b: string)
    ensures Lex(p + a, p + b) <==> Lex(a, b)
  {
    if p == [] {
      assert p + a == a && p + b == b;
    } else {
      LexPrefix(p[1..], a, b);
      assert (p + a)[1..] == p[1..] + a && (p + b)[1..] == p[1..] + b;
    }
  }

  lemma {:induction false} LexSnoc(a: string, b: string, c: char, d: char)
    requires |a| == |b|
    ensures Lex(a + [c], b + [d]) <==> Lex(a, b) || (a == b && c < d)
  {
    if a == [] {
      assert !Lex([c][1..], [d][1..]);
      assert a + [c] == [c] && b + [d] == [d];
    } else {
      LexSnoc(a[1..], b[1..], c, d);
      assert (a + [c])[1..] == a[1..] + [c] && (b + [d])[1..] == b[1..] + [d];
      assert a == [a[0]] + a[1..] && b == [b[0]] + b[1..];
    }
  }

  /** Digit strings of one length compare as text exactly as they compare as numbers. */
  lemma {:induction false} LexIsNumeric(a: string, b: string)
    requires |a| == |b| && AllDigits(a) && AllDigits(b)
    ensures Lex(a, b) <==> Value(a) < Value(b)
    ensures a == b <==> Value(a) == Value(b)
  {
    if a != [] {
      var n := |a| - 1;
      LexIsNumeric(a[..n], b[..n]);
      LexSnoc(a[..n], b[..n], a[n], b[n]);
      assert a == a[..n] + [a[n]] && b == b[..n] + [b[n]];
    }
  }
}
