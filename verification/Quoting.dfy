/** Reading quoted text back, as strconv.Unquote does with the escapes that strconv.Quote writes. */
module Quoting {
  import opened Options
  import opened Strings

  function HexDigit(c: char): Option<nat> {
    if '0' <= c <= '9' then Some((c - '0') as nat)
    else if 'a' <= c <= 'f' then Some(10 + (c - 'a') as nat)
    else if 'A' <= c <= 'F' then Some(10 + (c - 'A') as nat)
    else None
  }

  /** The value of hexadecimal text, the last digit counting least. */
  function HexValue(s: string): Option<nat> {
    if s == "" then Some(0)
    else
      var (before, last) := (HexValue(s[..|s| - 1]), HexDigit(s[|s| - 1]));
      if before.Some? && last.Some? then Some(16 * before.value + last.value) else None
  }

  function CharOf(value: Option<nat>): Option<char> {
    if value.Some? && (value.value < 0xD800 || 0xE000 <= value.value < 0x110000) then Some(value.value as char)
    else None
  }

  datatype Token = Token(first: char, rest: string)

  function HexToken(s: string, width: nat): Option<Token> {
    if |s| < width then None
    else
      var c := CharOf(HexValue(s[..width]));
      if c == None then None else Some(Token(c.value, s[width..]))
  }

  /** One character and what follows it. */
  function UnquoteChar(s: string): Option<Token> {
    if s == "" || s[0] == '"' || s[0] == '\n' then None
    else if s[0] != '\\' then Some(Token(s[0], s[1..]))
    else if |s| == 1 then None
    else
      match s[1]
      case '"' => Some(Token('"', s[2..]))
      case '\\' => Some(Token('\\', s[2..]))
      case 'a' => Some(Token(7 as char, s[2..]))
      case 'b' => Some(Token(8 as char, s[2..]))
      case 't' => Some(Token('\t', s[2..]))
      case 'n' => Some(Token('\n', s[2..]))
      case 'v' => Some(Token(11 as char, s[2..]))
      case 'f' => Some(Token(12 as char, s[2..]))
      case 'r' => Some(Token('\r', s[2..]))
      case 'x' => HexToken(s[2..], 2)
      case 'u' => HexToken(s[2..], 4)
      case 'U' => HexToken(s[2..], 8)
      case _ => None
  }

  function UnquoteBody(s: string): Option<string>
    decreases |s|
  {
    if s == "" then Some("")
    else
      var t := UnquoteChar(s);
      if t == None || |t.value.rest| >= |s| then None
      else
        var rest := UnquoteBody(t.value.rest);
        if rest == None then None else Some([t.value.first] + rest.value)
  }

  function Unquote(s: string): Option<string> {
    if |s| < 2 || s[0] != '"' || s[|s| - 1] != '"' then None else UnquoteBody(s[1..|s| - 1])
  }

  function Power16(n: nat): nat { if n == 0 then 1 else 16 * Power16(n - 1) }

  lemma {:induction false} HexValueOfHex(n: nat, width: nat)
    requires n < Power16(width)
    ensures HexValue(Hex(n, width)) == Some(n)
  {
    if width > 0 {
      HexValueOfHex(n / 16, width - 1);
      var s := Hex(n, width);
      assert s[..|s| - 1] == Hex(n / 16, width - 1);
      assert HexDigit(HexLower(n % 16)) == Some(n % 16);
    }
  }

  lemma HexTokenOfHex(c: char, width: nat, tail: string)
    requires c as int < Power16(width)
    ensures HexToken(Hex(c as int, width) + tail, width) == Some(Token(c, tail))
  {
    HexValueOfHex(c as int, width);
    HexFacts(c as int, width);
    hide HexValue, Hex;
    var s := Hex(c as int, width) + tail;
    assert s[..width] == Hex(c as int, width) && s[width..] == tail;
  }

  lemma Widths()
    ensures Power16(2) == 0x100 && Power16(4) == 0x10000 && Power16(8) == 0x1_0000_0000
  {
    assert Power16(4) == 16 * (16 * Power16(2));
    assert Power16(6) == 16 * (16 * Power16(4));
  }

  /** Each escape names its character. */
  lemma UnquoteOfQuoteChar(isPrint: PrintTable, c: char, tail: string)
    requires IsPrintTable(isPrint)
    ensures UnquoteChar(QuoteChar(isPrint, c) + tail) == Some(Token(c, tail))
  {
    Widths();
    hide Power16, HexToken, Hex;
    var n := c as int;
    var s := QuoteChar(isPrint, c) + tail;
    if NeedsEscape(isPrint, c) {
      if c != '"' && c != '\\' && (n < 7 || 13 < n) {
        var width := if n < 0x20 || n == 0x7F then 2 else if n < 0x10000 then 4 else 8;
        assert s[2..] == Hex(n, width) + tail;
        HexTokenOfHex(c, width, tail);
      } else {
        assert s[2..] == tail;
      }
    } else {
      assert s[1..] == tail;
    }
  }

  /** The quoted characters of a text, read from the front. */
  lemma {:induction false} QuoteBodyFront(isPrint: PrintTable, s: string)
    requires s != ""
    ensures QuoteBody(isPrint, s) == QuoteChar(isPrint, s[0]) + QuoteBody(isPrint, s[1..])
  {
    hide QuoteChar;
    var last := |s| - 1;
    if last == 0 {
      assert s == "" + [s[0]] && s[1..] == "" && s[..0] == "";
      assert QuoteBody(isPrint, s) == "" + QuoteChar(isPrint, s[0]);
    } else {
      QuoteBodyFront(isPrint, s[..last]);
      assert s[..last][1..] == s[1..][..last - 1] && s[1..][last - 1] == s[last];
    }
  }

  lemma {:induction false} UnquoteOfBody(isPrint: PrintTable, s: string)
    requires IsPrintTable(isPrint)
    ensures UnquoteBody(QuoteBody(isPrint, s)) == Some(s)
  {
    if s != "" {
      hide UnquoteChar, QuoteChar;
      UnquoteOfBody(isPrint, s[1..]);
      QuoteBodyFront(isPrint, s);
      QuoteCharFacts(isPrint, s[0]);
      UnquoteOfQuoteChar(isPrint, s[0], QuoteBody(isPrint, s[1..]));
      assert s == [s[0]] + s[1..];
    }
  }

  /** Quoted text always reads back, so that different values never print alike. */
  lemma UnquoteOfQuote(isPrint: PrintTable, s: string)
    requires IsPrintTable(isPrint)
    ensures Unquote(Quote(isPrint, s)) == Some(s)
  {
    hide QuoteBody, UnquoteBody;
    UnquoteOfBody(isPrint, s);
    var q := Quote(isPrint, s);
    assert q[1..|q| - 1] == QuoteBody(isPrint, s);
  }
}
