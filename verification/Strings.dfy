/** The text functions of the Go library that the Dockerfile parser and printer use. */
module Strings {
  import opened ByteStrings

  /** unicode.IsSpace. */
  predicate IsSpace(c: char) {
    var n := c as int;
    || 9 <= n <= 13 || n == 0x20 || n == 0x85 || n == 0xA0 || n == 0x1680
    || 0x2000 <= n <= 0x200A || n == 0x2028 || n == 0x2029 || n == 0x202F || n == 0x205F || n == 0x3000
  }

  predicate NoSpace(s: string) { forall i :: 0 <= i < |s| ==> !IsSpace(s[i]) }

  predicate NoChar(s: string, c: char) { forall i :: 0 <= i < |s| ==> s[i] != c }

  predicate Trimmed(s: string) { s == "" || (!IsSpace(s[0]) && !IsSpace(s[|s| - 1])) }

  function TrimLeft(s: string): string {
    if s != "" && IsSpace(s[0]) then TrimLeft(s[1..]) else s
  }

  function TrimRight(s: string): string {
    if s != "" && IsSpace(s[|s| - 1]) then TrimRight(s[..|s| - 1]) else s
  }

  /** strings.TrimSpace. */
  function TrimSpace(s: string): string { TrimRight(TrimLeft(s)) }

  lemma TrimOfTrimmed(s: string)
    requires Trimmed(s)
    ensures TrimSpace(s) == s
  {
  }

  lemma {:induction false} TrimLeftFacts(s: string)
    ensures TrimLeft(s) == "" || !IsSpace(TrimLeft(s)[0])
    ensures forall c :: NoChar(s, c) ==> NoChar(TrimLeft(s), c)
  {
    if s != "" && IsSpace(s[0]) {
      TrimLeftFacts(s[1..]);
    }
  }

  lemma {:induction false} TrimRightFacts(s: string)
    ensures TrimRight(s) <= s
    ensures TrimRight(s) == "" || !IsSpace(TrimRight(s)[|TrimRight(s)| - 1])
  {
    if s != "" && IsSpace(s[|s| - 1]) {
      TrimRightFacts(s[..|s| - 1]);
    }
  }

  /** Trimming always gives trimmed text, and adds no character. */
  lemma TrimIsTrimmed(s: string)
    ensures Trimmed(TrimSpace(s))
    ensures forall c :: NoChar(s, c) ==> NoChar(TrimSpace(s), c)
  {
    TrimLeftFacts(s);
    TrimRightFacts(TrimLeft(s));
  }

  lemma {:induction false} TrimAddedSpace(s: string, space: string)
    requires |space| == 1 && IsSpace(space[0])
    ensures TrimSpace(s + space) == TrimSpace(s)
  {
    TrimLeftAddedSpace(s, space);
    var left := TrimLeft(s);
    if left != "" {
      assert (left + space)[..|left + space| - 1] == left;
    }
  }

  lemma {:induction false} TrimLeftAddedSpace(s: string, space: string)
    requires |space| == 1 && IsSpace(space[0])
    ensures TrimLeft(s + space) == if TrimLeft(s) == "" then "" else TrimLeft(s) + space
  {
    if s == "" {
      assert s + space == space && space[1..] == "";
    } else if IsSpace(s[0]) {
      TrimLeftAddedSpace(s[1..], space);
      assert (s + space)[1..] == s[1..] + space;
    }
  }

  /** The text up to the first whitespace. */
  function FirstField(s: string): (f: string)
    ensures f <= s && NoSpace(f)
  {
    if s == "" || IsSpace(s[0]) then "" else [s[0]] + FirstField(s[1..])
  }

  /** strings.Fields. */
  function Fields(s: string): (r: seq<string>)
    decreases |s|
  {
    TrimLeftShrinks(s);
    var t := TrimLeft(s);
    if t == "" then []
    else [FirstField(t)] + Fields(t[|FirstField(t)|..])
  }

  lemma {:induction false} TrimLeftShrinks(s: string)
    ensures |TrimLeft(s)| <= |s|
    ensures TrimLeft(s) != "" ==> FirstField(TrimLeft(s)) != ""
  {
    if s != "" && IsSpace(s[0]) {
      TrimLeftShrinks(s[1..]);
    }
  }

  lemma {:induction false} FirstFieldOf(a: string, tail: string)
    requires NoSpace(a) && (tail == "" || IsSpace(tail[0]))
    ensures FirstField(a + tail) == a
  {
    if a == "" {
      assert a + tail == tail;
    } else {
      FirstFieldOf(a[1..], tail);
      assert (a + tail)[1..] == a[1..] + tail;
    }
  }

  lemma {:induction false} FieldsOfOne(a: string)
    requires NoSpace(a) && a != ""
    ensures Fields(a) == [a]
  {
    FirstFieldOf(a, "");
    assert a + "" == a && a[|a|..] == "";
    assert Fields("") == [];
  }

  lemma FieldsOfTwo(a: string, b: string)
    requires NoSpace(a) && a != "" && NoSpace(b) && b != ""
    ensures Fields(a + " " + b) == [a, b]
  {
    var text := a + " " + b;
    assert text == a + (" " + b);
    FirstFieldOf(a, " " + b);
    assert TrimLeft(text) == text;
    assert text[|a|..] == " " + b;
    FieldsOfOne(b);
    assert (" " + b)[1..] == b && TrimLeft(" " + b) == TrimLeft(b) == b;
    assert Fields(" " + b) == Fields(b);
  }

  lemma {:induction false} FieldsHaveNoSpace(s: string)
    ensures forall i :: 0 <= i < |Fields(s)| ==> NoSpace(Fields(s)[i]) && Fields(s)[i] != ""
    decreases |s|
  {
    TrimLeftShrinks(s);
    var t := TrimLeft(s);
    if t != "" {
      FieldsHaveNoSpace(t[|FirstField(t)|..]);
    }
  }

  /** unicode.ToUpper, as far as it can produce an ASCII letter: two letters beyond ASCII do. */
  function UpperChar(c: char): char {
    if 'a' <= c <= 'z' then 'A' + (c - 'a')
    else if c as int == 0x131 then 'I'
    else if c as int == 0x17F then 'S'
    else c
  }

  function Upper(s: string): string {
    if s == "" then "" else [UpperChar(s[0])] + Upper(s[1..])
  }

  /** strings.IndexByte, with the length for "absent". */
  function Index(s: string, c: char): (i: nat)
    ensures i <= |s| && NoChar(s[..i], c) && (i < |s| ==> s[i] == c)
  {
    if s == "" || s[0] == c then 0
    else
      var rest := Index(s[1..], c);
      assert s[..rest + 1] == [s[0]] + s[1..][..rest];
      rest + 1
  }

  /** strings.Trim with one cut character. */
  function TrimChar(s: string, c: char): string {
    TrimCharRight(TrimCharLeft(s, c), c)
  }

  function TrimCharLeft(s: string, c: char): string {
    if s != "" && s[0] == c then TrimCharLeft(s[1..], c) else s
  }

  function TrimCharRight(s: string, c: char): string {
    if s != "" && s[|s| - 1] == c then TrimCharRight(s[..|s| - 1], c) else s
  }

  /** Length in UTF-8. */
  function ByteLength(s: string): nat {
    if s == "" then 0 else |Utf8Char(s[0])| + ByteLength(s[1..])
  }

  /**
   * Which characters strconv.IsPrint accepts: beyond ASCII that is a large table, kept open here. The
   * only printable whitespace is the ASCII space.
   */
  ghost predicate IsPrintTable(p: char -> bool) {
    forall c: char :: (c as int < 0x80 ==> p(c) == (' ' <= c <= '~')) && (IsSpace(c) && c != ' ' ==> !p(c))
  }

  type PrintTable = char -> bool

  function HexLower(n: nat): char
    requires n < 16
  {
    if n < 10 then '0' + n as char else 'a' + (n - 10) as char
  }

  function Hex(n: nat, width: nat): string {
    if width == 0 then "" else Hex(n / 16, width - 1) + [HexLower(n % 16)]
  }

  predicate NeedsEscape(isPrint: PrintTable, c: char) { c == '"' || c == '\\' || !isPrint(c) }

  /** One character of strconv.Quote. */
  function QuoteChar(isPrint: PrintTable, c: char): string {
    var n := c as int;
    if c == '"' || c == '\\' then ['\\', c]
    else if isPrint(c) then [c]
    else if n == 7 then "\\a"
    else if n == 8 then "\\b"
    else if n == 12 then "\\f"
    else if n == 10 then "\\n"
    else if n == 13 then "\\r"
    else if n == 9 then "\\t"
    else if n == 11 then "\\v"
    else if n < 0x20 || n == 0x7F then "\\x" + Hex(n, 2)
    else if n < 0x10000 then "\\u" + Hex(n, 4)
    else "\\U" + Hex(n, 8)
  }

  function QuoteBody(isPrint: PrintTable, s: string): string {
    if s == "" then "" else QuoteBody(isPrint, s[..|s| - 1]) + QuoteChar(isPrint, s[|s| - 1])
  }

  /** strconv.Quote, the %q verb. */
  function Quote(isPrint: PrintTable, s: string): string {
    "\"" + QuoteBody(isPrint, s) + "\""
  }

  lemma HexFacts(n: nat, width: nat)
    ensures |Hex(n, width)| == width
    ensures NoSpace(Hex(n, width)) && NoChar(Hex(n, width), '"')
  {
  }

  lemma QuoteCharFacts(isPrint: PrintTable, c: char)
    requires IsPrintTable(isPrint)
    ensures var q := QuoteChar(isPrint, c);
      && q != ""
      && (NeedsEscape(isPrint, c) ==> |q| >= 2 && q[0] == '\\')
      && (!NeedsEscape(isPrint, c) ==> q == [c])
      && (c != ' ' ==> NoSpace(q))
      && NoChar(q, '\n')
      && (q[|q| - 1] == '"' ==> c == '"' && q == "\\\"")
  {
    HexFacts(c as int, 2);
    HexFacts(c as int, 4);
    HexFacts(c as int, 8);
  }

  predicate NeedsNoEscape(isPrint: PrintTable, s: string) {
    forall i :: 0 <= i < |s| ==> !NeedsEscape(isPrint, s[i])
  }

  lemma NoEscapeSnoc(isPrint: PrintTable, s: string)
    requires s != ""
    ensures NeedsNoEscape(isPrint, s) <==>
      NeedsNoEscape(isPrint, s[..|s| - 1]) && !NeedsEscape(isPrint, s[|s| - 1])
  {
    hide NeedsEscape;
    var before := s[..|s| - 1];
    forall i | 0 <= i < |before| ensures s[i] == before[i] {}
  }

  lemma NoCharConcat(a: string, b: string, c: char)
    requires NoChar(a, c) && NoChar(b, c)
    ensures NoChar(a + b, c)
  {
  }

  lemma NoSpaceConcat(a: string, b: string)
    requires NoSpace(a) && NoSpace(b)
    ensures NoSpace(a + b)
  {
    hide IsSpace;
  }

  /** Quoting keeps a text on one line. */
  lemma {:induction false} QuoteBodyOneLine(isPrint: PrintTable, s: string)
    requires IsPrintTable(isPrint)
    ensures NoChar(QuoteBody(isPrint, s), '\n')
  {
    if s != "" {
      var last := |s| - 1;
      QuoteBodyOneLine(isPrint, s[..last]);
      QuoteCharFacts(isPrint, s[last]);
      hide QuoteChar, NeedsEscape, IsPrintTable, NoSpace, NoChar;
      NoCharConcat(QuoteBody(isPrint, s[..last]), QuoteChar(isPrint, s[last]), '\n');
    }
  }

  /** Without spaces, a quoted text is one token: other whitespace is escaped. */
  lemma {:induction false} QuoteBodyOneToken(isPrint: PrintTable, s: string)
    requires IsPrintTable(isPrint) && NoChar(s, ' ')
    ensures NoSpace(QuoteBody(isPrint, s))
  {
    if s != "" {
      var last := |s| - 1;
      assert s[last] != ' ' && NoChar(s[..last], ' ');
      hide NoChar;
      QuoteBodyOneToken(isPrint, s[..last]);
      QuoteCharFacts(isPrint, s[last]);
      hide QuoteChar, NeedsEscape, IsPrintTable, NoSpace;
      NoSpaceConcat(QuoteBody(isPrint, s[..last]), QuoteChar(isPrint, s[last]));
    }
  }

  /** A quoted text does not begin with a bare quote. */
  lemma {:induction false} QuoteBodyStart(isPrint: PrintTable, s: string)
    requires IsPrintTable(isPrint) && s != ""
    ensures QuoteBody(isPrint, s) != "" && QuoteBody(isPrint, s)[0] != '"'
  {
    var last := |s| - 1;
    if last > 0 {
      QuoteBodyStart(isPrint, s[..last]);
    } else {
      assert s[..last] == "";
      QuoteCharFacts(isPrint, s[last]);
      hide QuoteChar, IsPrintTable, NoSpace, NoChar;
      assert QuoteBody(isPrint, s) == "" + QuoteChar(isPrint, s[last]);
    }
  }

  /** What quoting can put into a line. */
  lemma QuoteBodyText(isPrint: PrintTable, s: string)
    requires IsPrintTable(isPrint)
    ensures NoChar(QuoteBody(isPrint, s), '\n')
    ensures NoChar(s, ' ') ==> NoSpace(QuoteBody(isPrint, s))
    ensures s != "" ==> QuoteBody(isPrint, s) != "" && QuoteBody(isPrint, s)[0] != '"'
  {
    hide *;
    QuoteBodyOneLine(isPrint, s);
    if NoChar(s, ' ') {
      QuoteBodyOneToken(isPrint, s);
    }
    if s != "" {
      QuoteBodyStart(isPrint, s);
    }
  }

  /** Quoting lengthens a text exactly when it escapes something. */
  lemma {:induction false} QuoteBodyLength(isPrint: PrintTable, s: string)
    requires IsPrintTable(isPrint)
    ensures |QuoteBody(isPrint, s)| >= |s|
    ensures NeedsNoEscape(isPrint, s) ==> QuoteBody(isPrint, s) == s
    ensures !NeedsNoEscape(isPrint, s) ==> |QuoteBody(isPrint, s)| > |s|
  {
    hide QuoteChar, NeedsEscape, NoSpace, NoChar, IsPrintTable;
    if s != "" {
      var last := |s| - 1;
      QuoteBodyLength(isPrint, s[..last]);
      QuoteCharFacts(isPrint, s[last]);
      NoEscapeSnoc(isPrint, s);
      hide NeedsNoEscape;
      assert s == s[..last] + [s[last]];
    }
  }

  /** Trimming '"' from both ends of a body in quotes. */
  lemma TrimQuotedBody(body: string)
    requires body != "" && body[0] != '"'
    ensures TrimChar("\"" + body + "\"", '"') == TrimCharRight(body, '"')
  {
    var quoted := "\"" + body + "\"";
    assert quoted[1..] == body + "\"";
    assert TrimCharLeft(quoted, '"') == body + "\"";
    assert (body + "\"")[..|body|] == body;
  }

  /** Trimming the quotes of a quoted text gives the text back exactly when nothing had to be escaped. */
  lemma TrimOfQuote(isPrint: PrintTable, s: string)
    requires IsPrintTable(isPrint)
    ensures TrimChar(Quote(isPrint, s), '"') == s <==> NeedsNoEscape(isPrint, s)
  {
    if s == "" {
      assert Quote(isPrint, s)[1..] == "\"" && "\""[1..] == "";
      assert TrimCharLeft("\"", '"') == TrimCharLeft("", '"') == "";
      assert TrimCharLeft(Quote(isPrint, s), '"') == TrimCharLeft("\"", '"');
    } else {
      QuoteBodyText(isPrint, s);
      QuoteBodyLength(isPrint, s);
      TrimQuotedBody(QuoteBody(isPrint, s));
      TrimBodyRight(isPrint, s);
    }
  }

  lemma TrimEscapedQuote(before: string, q: string)
    requires q != "" && (q[|q| - 1] == '"' ==> q == "\\\"")
    ensures q[|q| - 1] != '"' ==> TrimCharRight(before + q, '"') == before + q
    ensures q[|q| - 1] == '"' ==> TrimCharRight(before + q, '"') == before + "\\"
  {
    var body := before + q;
    if q[|q| - 1] == '"' {
      assert body[..|body| - 1] == before + "\\";
    }
  }

  lemma {:induction false} TrimBodyRight(isPrint: PrintTable, s: string)
    requires IsPrintTable(isPrint)
    requires s != ""
    ensures var (body, kept) := (QuoteBody(isPrint, s), TrimCharRight(QuoteBody(isPrint, s), '"'));
      || kept == body
      || (s[|s| - 1] == '"' && kept != "" && kept[|kept| - 1] == '\\')
  {
    var last := |s| - 1;
    QuoteCharFacts(isPrint, s[last]);
    hide QuoteChar, NeedsEscape, NeedsNoEscape, NoSpace, NoChar, IsPrintTable;
    var q, before := QuoteChar(isPrint, s[last]), QuoteBody(isPrint, s[..last]);
    assert QuoteBody(isPrint, s) == before + q;
    hide QuoteBody, TrimCharRight;
    TrimEscapedQuote(before, q);
    if q[|q| - 1] == '"' {
      var kept := before + "\\";
      assert kept[|kept| - 1] == '\\';
    }
  }
}
