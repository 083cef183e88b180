/** Option, for the source's "absent" and "failed to parse" results. */
module Options {
  datatype Option<+T> = None | Some(value: T)
}

/** Decimal rendering of 64-bit integers (config.go, sandbox.go) and its inverse, strconv.Atoi. */
module Decimal {
  import opened Options

  const MIN_INT64: int := -0x8000_0000_0000_0000
  const MAX_INT64: int := 0x7fff_ffff_ffff_ffff

  type int64 = n: int | MIN_INT64 <= n <= MAX_INT64

  /** Two's complement negation: the minimum is its own negation. */
  function Negate(n: int64): int64 {
    if n == MIN_INT64 then n else -n
  }

  predicate IsDigit(c: char) { '0' <= c <= '9' }

  predicate AllDigits(s: string) { forall i :: 0 <= i < |s| ==> IsDigit(s[i]) }

  function Digit(d: nat): (c: char)
    requires d < 10
    ensures IsDigit(c)
  {
    '0' + d as char
  }

  /** The number that a digit string denotes. */
  function Value(s: string): nat
    requires AllDigits(s)
  {
    if s == [] then 0 else Value(s[..|s| - 1]) * 10 + (s[|s| - 1] as int - '0' as int)
  }

  function Digits(n: nat): string {
    if n < 10 then [Digit(n)] else Digits(n / 10) + [Digit(n % 10)]
  }

  lemma {:induction false} DigitsDenote(n: nat)
    ensures Digits(n) != [] && AllDigits(Digits(n)) && Value(Digits(n)) == n
    ensures Digits(n)[0] == '0' ==> n == 0
    ensures n == 0 ==> Digits(n) == "0"
  {
    if n >= 10 {
      DigitsDenote(n / 10);
      assert Digits(n)[..|Digits(n)| - 1] == Digits(n / 10);
    } else {
      assert Value(Digits(n)[..0]) == 0;
    }
  }

  function Render(n: int): string {
    if n < 0 then "-" + Digits(-n) else Digits(n)
  }

  /** strconv.Atoi: an optional sign, then digits only, within the 64-bit range. */
  function Atoi(s: string): Option<int> {
    var negative := s != [] && s[0] == '-';
    var digits := if s != [] && (s[0] == '-' || s[0] == '+') then s[1..] else s;
    if digits == [] || !AllDigits(digits) then None
    else
      var n: int := if negative then -(Value(digits) as int) else Value(digits);
      if MIN_INT64 <= n <= MAX_INT64 then Some(n) else None
  }

  /** Decimal text in shortest form: no plus sign, no leading zero, no "-0". */
  predicate IsCanonical(s: string) {
    var digits := if s != [] && s[0] == '-' then s[1..] else s;
    && digits != [] && AllDigits(digits)
    && (digits[0] == '0' ==> s == "0")
  }

  lemma {:induction false} ValueOfLeadingDigit(s: string)
    requires s != [] && AllDigits(s)
    ensures s[0] != '0' ==> Value(s) > 0
  {
    if |s| > 1 {
      ValueOfLeadingDigit(s[..|s| - 1]);
    }
  }

  lemma {:induction false} DigitsOfValue(s: string)
    requires s != [] && AllDigits(s) && (s[0] == '0' ==> |s| == 1)
    ensures Digits(Value(s)) == s
  {
    var last := |s| - 1;
    if last > 0 {
      var (v, d) := (Value(s[..last]), s[last] as int - '0' as int);
      ValueOfLeadingDigit(s[..last]);
      assert Digits(v) == s[..last] by { DigitsOfValue(s[..last]); }
      assert Value(s) / 10 == v && Value(s) % 10 == d;
      assert Digit(d) == s[last];
      assert s == s[..last] + [s[last]];
    }
  }

  /** Rendering is canonical and parses back. */
  lemma RenderParses(n: int64)
    ensures IsCanonical(Render(n)) && Atoi(Render(n)) == Some(n as int)
  {
    var k: int := n;
    DigitsDenote(if k < 0 then -k else k);
    if k < 0 {
      assert Render(n)[1..] == Digits(-k);
    }
  }

  /** No other canonical text parses to the same number. */
  lemma RenderIsUnique(n: int64, s: string)
    requires IsCanonical(s) && Atoi(s) == Some(n as int)
    ensures s == Render(n)
  {
    if s[0] == '-' {
      ValueOfLeadingDigit(s[1..]);
      DigitsOfValue(s[1..]);
      assert s == "-" + s[1..];
    } else {
      DigitsOfValue(s);
    }
  }

  /** Powers of ten bound how far the digit loop can go. */
  function Pow10(k: nat): nat {
    if k == 0 then 1 else 10 * Pow10(k - 1)
  }

  /** What the digit loop writes before the digits of `m`, the part still to be rendered. */
  function Leading(m: int): string {
    if m > 0 then Digits(m) else ""
  }

  lemma LeadingStep(m: nat, tail: string)
    requires m > 0
    ensures Leading(m) + tail == Leading(m / 10) + ([Digit(m % 10)] + tail)
  {
    assert Leading(m) == Leading(m / 10) + [Digit(m % 10)];
  }

  /** The text the digit loop leaves in its buffer; the minimum wraps and leaves only its sign. */
  function ItoaText(n: int64): string {
    if n == MIN_INT64 then "-" else Render(n)
  }

  /** The rendering parses back, and is canonical, exactly above the minimum. */
  lemma ItoaRoundTrip(n: int64)
    ensures Atoi(ItoaText(n)) == Some(n as int) <==> n != MIN_INT64
    ensures IsCanonical(ItoaText(n)) <==> n != MIN_INT64
  {
    RenderParses(n);
  }

  lemma Pow10Step(m: nat, k: nat)
    requires 0 < m < Pow10(k)
    ensures k >= 1 && m / 10 < Pow10(k - 1)
  {
  }

  lemma DigitsFit(n: int64)
    ensures n < Pow10(19)
  {
    assert Pow10(5) == 100_000;
    assert Pow10(10) == 10_000_000_000;
    assert Pow10(15) == 1_000_000_000_000_000;
  }

  /** Stores one byte in front of the text already written. */
  method Put(buf: array<char>, i: nat, c: char)
    requires i < buf.Length
    modifies buf
    ensures buf[i..] == [c] + old(buf[i + 1..])
  {
    buf[i] := c;
  }

  /** Fills the buffer backwards with the digits of `start`; leaves room for a sign. */
  method WriteDigits(buf: array<char>, start: int64) returns (i: nat)
    requires buf.Length == 20
    modifies buf
    ensures 1 <= i <= buf.Length && buf[i..] == Leading(start)
  {
    DigitsFit(start);
    var m: int := start;
    i := buf.Length;
    while m > 0
      invariant 1 <= i <= buf.Length
      invariant m < Pow10(i - 1)
      invariant Leading(start) == Leading(m) + buf[i..]
    {
      LeadingStep(m, buf[i..]);
      Pow10Step(m, i - 1);
      i := i - 1;
      Put(buf, i, Digit(m % 10));
      m := m / 10;
    }
  }

  /** The digit loop over a fixed 20-byte buffer: no index leaves it, whatever the number. */
  method Itoa(n: int64) returns (r: string)
    ensures r == ItoaText(n)
  {
    if n == 0 {
      return "0";
    }
    var neg := n < 0;
    var m := if neg then Negate(n) else n;
    var buf := new char[20];
    var i := WriteDigits(buf, m);
    if neg {
      i := i - 1;
      Put(buf, i, '-');
    }
    r := buf[i..];
  }
}
