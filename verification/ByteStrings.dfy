/** Bytes, and the UTF-8 form in which Go strings hold text. */
module ByteStrings {

  type Byte = b: int | 0 <= b < 256

  type Bytes = seq<Byte>

  function Utf8Char(c: char): Bytes {
    var n := c as int;
    if n < 0x80 then [n]
    else if n < 0x800 then [0xC0 + n / 0x40, 0x80 + n % 0x40]
    else if n < 0x10000 then [0xE0 + n / 0x1000, 0x80 + n / 0x40 % 0x40, 0x80 + n % 0x40]
    else [0xF0 + n / 0x40000, 0x80 + n / 0x1000 % 0x40, 0x80 + n / 0x40 % 0x40, 0x80 + n % 0x40]
  }

  function Utf8(s: string): Bytes {
    if s == "" then [] else Utf8(s[..|s| - 1]) + Utf8Char(s[|s| - 1])
  }

  /** The bytes of two texts in a row do not show where the first one ends. */
  lemma {:induction false} Utf8Concat(a: string, b: string)
    ensures Utf8(a + b) == Utf8(a) + Utf8(b)
  {
    hide Utf8Char;
    if b == "" {
      assert a + b == a;
    } else {
      var last := |b| - 1;
      assert (a + b)[..|a + b| - 1] == a + b[..last];
      Utf8Concat(a, b[..last]);
    }
  }

  // Decoding, after RFC 3629, section 3.

  /** How many bytes a character takes, by its first one; 0 for a byte that starts none. */
  function Utf8Width(lead: Byte): nat {
    if lead < 0x80 then 1
    else if 0xC0 <= lead < 0xE0 then 2
    else if 0xE0 <= lead < 0xF0 then 3
    else if 0xF0 <= lead < 0xF8 then 4
    else 0
  }

  /** The number a form carries: the free bits of its first byte, then six bits of each further one. */
  function Utf8Number(form: Bytes): nat
    requires form != []
  {
    var lead := form[0] as int;
    if |form| == 1 then lead
    else Continued(lead % (if |form| == 2 then 0x20 else if |form| == 3 then 0x10 else 0x08), form[1..])
  }

  function Continued(high: nat, more: Bytes): nat
    decreases |more|
  {
    if more == [] then high else Continued(high * 0x40 + more[0] as int % 0x40, more[1..])
  }

  /** The numbers of the characters in a text, up to anything that is not a form. */
  function Utf8Numbers(bytes: Bytes): seq<nat> {
    if bytes == [] then []
    else
      var width := Utf8Width(bytes[0]);
      if width == 0 || |bytes| < width then [] else [Utf8Number(bytes[..width])] + Utf8Numbers(bytes[width..])
  }

  /** A continuation byte adds the six bits it was made from. */
  lemma SixMoreBits(n: nat, more: Bytes)
    requires more != [] && more[0] as int == 0x80 + n % 0x40
    ensures Continued(n / 0x40, more) == Continued(n, more[1..])
  {
  }

  lemma TwoBytes(n: nat)
    requires n < 0x800
    ensures Utf8Number([0xC0 + n / 0x40, 0x80 + n % 0x40]) == n
  {
    SixMoreBits(n, [0x80 + n % 0x40]);
  }

  lemma ThreeBytes(n: nat)
    requires n < 0x10000
    ensures Utf8Number([0xE0 + n / 0x1000, 0x80 + n / 0x40 % 0x40, 0x80 + n % 0x40]) == n
  {
    var more: Bytes := [0x80 + n / 0x40 % 0x40, 0x80 + n % 0x40];
    assert n / 0x40 / 0x40 == n / 0x1000;
    SixMoreBits(n / 0x40, more);
    SixMoreBits(n, more[1..]);
    hide Continued;
    LeadingBits(n / 0x1000);
    ContinuedEnd(n);
    assert more[1..][1..] == [];
    var form: Bytes := [0xE0 + n / 0x1000, 0x80 + n / 0x40 % 0x40, 0x80 + n % 0x40];
    assert form[1..] == more;
  }

  lemma FourBytes(n: nat)
    requires n < 0x200000
    ensures Utf8Number([0xF0 + n / 0x40000, 0x80 + n / 0x1000 % 0x40, 0x80 + n / 0x40 % 0x40, 0x80 + n % 0x40]) == n
  {
    var more: Bytes := [0x80 + n / 0x1000 % 0x40, 0x80 + n / 0x40 % 0x40, 0x80 + n % 0x40];
    assert n / 0x1000 / 0x40 == n / 0x40000 && n / 0x40 / 0x40 == n / 0x1000;
    SixMoreBits(n / 0x1000, more);
    SixMoreBits(n / 0x40, more[1..]);
    SixMoreBits(n, more[2..]);
    hide Continued;
    LeadingBits(n / 0x40000);
    ContinuedEnd(n);
    assert more[1..][1..] == more[2..] && more[2..][1..] == [];
    var form: Bytes := [0xF0 + n / 0x40000, 0x80 + n / 0x1000 % 0x40, 0x80 + n / 0x40 % 0x40, 0x80 + n % 0x40];
    assert form[1..] == more;
  }

  lemma LeadingBits(n: nat)
    ensures n < 0x10 ==> (0xE0 + n) % 0x10 == n
    ensures n < 0x08 ==> (0xF0 + n) % 0x08 == n
  {
  }

  lemma ContinuedEnd(n: nat)
    ensures Continued(n, []) == n
  {
  }

  lemma Utf8CharDecodes(c: char)
    ensures var form := Utf8Char(c); form != [] && Utf8Width(form[0]) == |form| && Utf8Number(form) == c as int
  {
    var n := c as int;
    if 0x80 <= n < 0x800 {
      TwoBytes(n);
    } else if 0x800 <= n < 0x10000 {
      ThreeBytes(n);
    } else if 0x10000 <= n {
      FourBytes(n);
    }
    hide Utf8Number;
  }

  lemma Utf8Front(s: string)
    requires s != ""
    ensures Utf8(s) == Utf8Char(s[0]) + Utf8(s[1..])
  {
    hide Utf8Char;
    Utf8Concat(s[..1], s[1..]);
    assert s == s[..1] + s[1..];
    assert Utf8(s[..1]) == Utf8(s[..1][..0]) + Utf8Char(s[0]);
  }

  lemma NumbersFront(c: char, rest: Bytes)
    ensures Utf8Numbers(Utf8Char(c) + rest) == [c as int] + Utf8Numbers(rest)
  {
    Utf8CharDecodes(c);
    var form := Utf8Char(c);
    hide Utf8Char, Utf8Number, Utf8Width;
    assert (form + rest)[..|form|] == form && (form + rest)[|form|..] == rest;
  }

  /** Decoding gives every text back, so different texts never have the same bytes. */
  lemma {:induction false} Utf8Decodes(s: string)
    ensures |Utf8Numbers(Utf8(s))| == |s|
    ensures forall i :: 0 <= i < |s| ==> Utf8Numbers(Utf8(s))[i] == s[i] as int
  {
    if s != "" {
      var numbers := Utf8Numbers(Utf8(s[1..]));
      Utf8Decodes(s[1..]);
      Utf8Front(s);
      NumbersFront(s[0], Utf8(s[1..]));
      hide *;
      forall i | 0 < i < |s| ensures ([s[0] as int] + numbers)[i] == s[i] as int {
        assert s[i] == s[1..][i - 1];
      }
    }
  }
}
