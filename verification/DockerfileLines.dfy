/** What single Dockerfile lines mean and print as, written out without the parser's and printer's own functions. */
module DockerfileLines {
  import opened ByteStrings
  import opened Options
  import opened Strings
  import opened Dockerfile
  import opened DockerfilePrinter
  import L = DockerfileLaws
  import Sequences
  import TB = TemplateBuilder

  /** Whitespace only. */
  predicate Blank(s: string) { forall i :: 0 <= i < |s| ==> IsSpace(s[i]) }

  /** Trimming takes whitespace off both ends, and all of it. */
  lemma {:induction false} TrimSpaceExactly(before: string, s: string, after: string)
    requires Blank(before) && Trimmed(s) && Blank(after)
    ensures TrimSpace(before + s + after) == s
    decreases |before|, |after|
  {
    if before != "" {
      assert (before + s + after)[1..] == before[1..] + s + after;
      TrimSpaceExactly(before[1..], s, after);
    } else if after != "" {
      var last := |after| - 1;
      assert before + s + after == (s + after[..last]) + [after[last]];
      assert before + s + after[..last] == s + after[..last];
      TrimAddedSpace(s + after[..last], [after[last]]);
      TrimSpaceExactly("", s, after[..last]);
    } else {
      assert before + s + after == s;
      TrimOfTrimmed(s);
    }
  }

  /** `words[0]` and so on, each after its gap, and the last gap at the end. */
  function Woven(gaps: seq<string>, words: seq<string>): string
    requires |gaps| == |words| + 1
  {
    if words == [] then gaps[0] else gaps[0] + words[0] + Woven(gaps[1..], words[1..])
  }

  /** The fields of a text are its words, whatever the whitespace around and between them. */
  lemma {:induction false} FieldsExactly(gaps: seq<string>, words: seq<string>)
    requires |gaps| == |words| + 1
    requires forall i :: 0 <= i < |gaps| ==> Blank(gaps[i]) && (0 < i < |words| ==> gaps[i] != "")
    requires forall i :: 0 <= i < |words| ==> words[i] != "" && NoSpace(words[i])
    ensures Fields(Woven(gaps, words)) == words
  {
    if words == [] {
      TrimLeftBlank(gaps[0], "");
      assert gaps[0] + "" == gaps[0];
    } else {
      var (text, rest) := (Woven(gaps, words), Woven(gaps[1..], words[1..]));
      FieldsExactly(gaps[1..], words[1..]);
      assert text == gaps[0] + (words[0] + rest);
      TrimLeftBlank(gaps[0], words[0] + rest);
      assert rest == "" || IsSpace(rest[0]) by {
        if |words| == 1 {
          assert words[1..] == [];
        }
      }
      FirstFieldOf(words[0], rest);
      hide Woven, Blank, NoSpace;
      assert (words[0] + rest)[|words[0]|..] == rest;
      TrimLeftShrinks(text);
    }
  }

  lemma {:induction false} TrimLeftBlank(before: string, s: string)
    requires Blank(before) && (s == "" || !IsSpace(s[0]))
    ensures TrimLeft(before + s) == s
  {
    if before == "" {
      assert before + s == s;
    } else {
      assert (before + s)[1..] == before[1..] + s;
      TrimLeftBlank(before[1..], s);
    }
  }

  /** Cutting a character off both ends leaves nothing of it there and everything between. */
  lemma {:induction false} TrimCharExactly(before: nat, s: string, after: nat, c: char)
    requires s == "" || (s[0] != c && s[|s| - 1] != c)
    ensures TrimChar(Copies(c, before) + s + Copies(c, after), c) == s
    decreases before, after
  {
    var text := Copies(c, before) + s + Copies(c, after);
    if before > 0 {
      assert text[0] == c && text[1..] == Copies(c, before - 1) + s + Copies(c, after);
      TrimCharExactly(before - 1, s, after, c);
    } else if s == "" {
      TrimCharAll(c, after);
      assert text == Copies(c, after);
    } else {
      assert TrimCharLeft(text, c) == text;
      TrimCharTail(s, c, after);
      assert text == s + Copies(c, after);
    }
  }

  function Copies(c: char, n: nat): string { seq(n, _ => c) }

  lemma {:induction false} TrimCharAll(c: char, n: nat)
    ensures TrimCharLeft(Copies(c, n), c) == ""
  {
    if n > 0 {
      TrimCharAll(c, n - 1);
      assert Copies(c, n)[1..] == Copies(c, n - 1);
    }
  }

  lemma {:induction false} TrimCharTail(s: string, c: char, n: nat)
    requires s != "" && s[|s| - 1] != c
    ensures TrimCharRight(s + Copies(c, n), c) == s
  {
    if n > 0 {
      TrimCharTail(s, c, n - 1);
      var text := s + Copies(c, n);
      assert text[|text| - 1] == c && text[..|text| - 1] == s + Copies(c, n - 1);
    } else {
      assert s + Copies(c, n) == s;
    }
  }

  /** One letter of a keyword, in either case; two letters beyond ASCII also become I and S. */
  predicate SpellsLetter(c: char, k: char) {
    || c == k
    || c as int == k as int + 32
    || (k == 'I' && c as int == 0x131)
    || (k == 'S' && c as int == 0x17F)
  }

  predicate Spells(word: string, keyword: string) {
    |word| == |keyword| && forall i :: 0 <= i < |word| ==> SpellsLetter(word[i], keyword[i])
  }

  lemma {:induction false} UpperSpells(word: string, keyword: string)
    requires L.Capitals(keyword) || keyword == ""
    ensures Upper(word) == keyword <==> Spells(word, keyword)
  {
    if word != "" && keyword != "" {
      UpperSpells(word[1..], keyword[1..]);
      assert Upper(word) == [UpperChar(word[0])] + Upper(word[1..]);
      assert keyword == [keyword[0]] + keyword[1..];
      assert Spells(word, keyword) <==> SpellsLetter(word[0], keyword[0]) && Spells(word[1..], keyword[1..]) by {
        forall i | 0 <= i < |word| && |word| == |keyword| && Spells(word[1..], keyword[1..]) && i > 0
          ensures SpellsLetter(word[i], keyword[i])
        {
          assert SpellsLetter(word[1..][i - 1], keyword[1..][i - 1]);
        }
      }
    }
  }

  /**
   * A line that is neither empty nor a comment makes the call of its first word, in any case, with the
   * trimmed rest after one space or tab; every other word is ignored, and so is a COPY with one operand.
   */
  lemma LineMeans(line: string, word: string, after: string)
    requires word != "" && word[0] != '#' && ' ' !in word && '\t' !in word
    requires TrimSpace(line) in [word + " " + after, word + "\t" + after] || (TrimSpace(line) == word && after == "")
    ensures var (calls, arg) := (LineCalls(line), TrimSpace(after));
      && (Spells(word, "FROM") ==> calls == [TB.DockerfileFrom(arg)])
      && (Spells(word, "RUN") ==> calls == [TB.RunAs(arg, "")])
      && (Spells(word, "COPY") ==>
            calls == if |Fields(arg)| < 2 then []
                     else [TB.CopyFiles(Fields(arg)[0], Fields(arg)[1], TB.CopyOptions("", "", None, None))])
      && (Spells(word, "WORKDIR") ==> calls == [TB.SetWorkdir(arg)])
      && (Spells(word, "USER") ==> calls == [TB.SetUser(arg)])
      && (Spells(word, "ENV") ==> calls == if EnvLine(arg) == map[] then [] else [TB.SetEnvs(EnvLine(arg), [])])
      && ((forall k :: k in ["FROM", "RUN", "COPY", "WORKDIR", "USER", "ENV"] ==> !Spells(word, k)) ==> calls == [])
  {
    SplitAtWord(TrimSpace(line), word, after);
    hide SplitInstruction, Upper, Spells, TrimSpace, Fields, EnvLine;
    assert LineCalls(line) == InstructionCalls(Upper(word), TrimSpace(after));
    hide LineCalls;
    UpperSpells(word, "FROM");
    UpperSpells(word, "RUN");
    UpperSpells(word, "COPY");
    UpperSpells(word, "WORKDIR");
    UpperSpells(word, "USER");
    UpperSpells(word, "ENV");
  }

  lemma SplitAtWord(text: string, word: string, after: string)
    requires word != "" && ' ' !in word && '\t' !in word
    requires text in [word + " " + after, word + "\t" + after] || (text == word && after == "")
    ensures SplitInstruction(text) == (word, TrimSpace(after)) && text != "" && text[0] == word[0]
  {
    hide TrimSpace;
    var i := |word|;
    if text == word && after == "" {
      L.SeparatorAfter(word, "");
      assert word + "" == word;
      TrimOfTrimmed("");
    } else {
      var tail := text[i..];
      assert text == word + tail && text[..i] == word && text[i + 1..] == after;
      L.SeparatorAfter(word, tail);
    }
  }

  /** An empty line and a comment make no call. */
  lemma CommentIgnored(line: string)
    requires TrimSpace(line) == "" || TrimSpace(line)[0] == '#'
    ensures LineCalls(line) == []
  {
  }

  /** Where the first '=' of an ENV token stands. */
  ghost predicate IsPair(token: string, key: string, text: string) {
    key != "" && '=' !in key && token == key + "=" + text
  }

  /**
   * The last token with a key decides its value, which loses its outer quotes; tokens without '=' or with
   * nothing before it are skipped.
   */
  lemma {:induction false} EnvTokensExactly(tokens: seq<string>, key: string)
    ensures key in EnvTokens(tokens) <==> exists i, text :: 0 <= i < |tokens| && IsPair(tokens[i], key, text)
    ensures forall i, text ::
      0 <= i < |tokens| && IsPair(tokens[i], key, text) && (forall j, t :: i < j < |tokens| ==> !IsPair(tokens[j], key, t))
      ==> key in EnvTokens(tokens) && EnvTokens(tokens)[key] == TrimChar(text, '"')
  {
    if tokens != [] {
      var n := |tokens| - 1;
      var before := tokens[..n];
      EnvTokensExactly(before, key);
      EnvTokenExactly(EnvTokens(before), tokens[n], key);
      hide EnvToken, IsPair, TrimChar;
      if i, text :| 0 <= i < n && IsPair(before[i], key, text) {
        assert IsPair(tokens[i], key, text);
      }
      forall i, text | 0 <= i < |tokens| && IsPair(tokens[i], key, text)
                       && (forall j, t :: i < j < |tokens| ==> !IsPair(tokens[j], key, t))
        ensures key in EnvTokens(tokens) && EnvTokens(tokens)[key] == TrimChar(text, '"')
      {
        if i < n {
          assert IsPair(before[i], key, text);
          assert forall j, t :: i < j < |before| ==> !IsPair(before[j], key, t);
        }
      }
    }
  }

  lemma EnvTokenExactly(envs: map<string, string>, token: string, key: string)
    ensures var r := EnvToken(envs, token);
      && (forall text :: IsPair(token, key, text) ==> key in r && r[key] == TrimChar(text, '"'))
      && ((forall text :: !IsPair(token, key, text)) ==>
            (key in r <==> key in envs) && (key in r ==> r[key] == envs[key]))
  {
    hide TrimChar;
    var eq := Index(token, '=');
    forall text | IsPair(token, key, text) ensures eq == |key| && token[..eq] == key && token[eq + 1..] == text {
      L.IndexAfter(key, "=" + text, '=');
      assert token == key + ("=" + text);
    }
    if 0 < eq < |token| && token[..eq] == key {
      assert IsPair(token, key, token[eq + 1..]);
    }
  }

  lemma {:induction false} ByteLengthIsUtf8(s: string)
    ensures ByteLength(s) == |Utf8(s)|
  {
    hide Utf8Char;
    if s != "" {
      ByteLengthIsUtf8(s[1..]);
      Utf8Front(s);
    }
  }

  /** The scanner gives up exactly at lines of 65536 bytes or more. */
  lemma TooLongExactly(line: string)
    ensures TooLong(line) <==> |Utf8(line)| >= 65536
  {
    ByteLengthIsUtf8(line);
  }

  predicate EndsLine(s: string) { s != "" && s[|s| - 1] == '\n' }

  /** The printed text: the base line, and one piece for each instruction in order. */
  lemma PrintsExactly(isPrint: PrintTable, s: TB.State) returns (pieces: seq<string>)
    requires AllWellFormed(s.instructions)
    ensures |pieces| == |s.instructions|
    ensures forall i :: 0 <= i < |pieces| ==>
      var (ins, piece) := (s.instructions[i], pieces[i]);
      && (ins.kind.Run? ==> piece == "RUN " + ins.args[0] + "\n")
      && (ins.kind.Copy? ==> piece == "COPY " + (ins.args[0] + " " + ins.args[1]) + "\n")
      && (ins.kind.Workdir? ==> piece == "WORKDIR " + ins.args[0] + "\n")
      && (ins.kind.Env? ==> piece == "ENV " + (ins.args[0] + "=" + Quote(isPrint, ins.args[1])) + "\n")
      && (ins.kind.Expose? ==> piece == "EXPOSE " + ins.args[0] + "\n")
      && (ins.kind.Entrypoint? ==> piece == "ENTRYPOINT " + ins.args[0] + "\n")
      && (ins.kind.User? ==> piece == "")
      && (ins.kind.Raw? ==> piece == ins.args[0] + (if EndsLine(ins.args[0]) then "" else "\n"))
    ensures s.baseTemplate != "" ==> Print(isPrint, s) == None
    ensures s.baseTemplate == "" && s.baseImage != "" ==>
      (Print(isPrint, s) == Some("FROM " + s.baseImage + "\n" + Sequences.Flatten(pieces)))
    ensures s.baseTemplate == "" && s.baseImage == "" ==> Print(isPrint, s) == Some(Sequences.Flatten(pieces))
  {
    pieces := PrintedInTurn(isPrint, s.instructions);
    hide Quote, PrintInstructions, Sequences.Flatten;
    assert "" + Sequences.Flatten(pieces) == Sequences.Flatten(pieces);
  }

  lemma {:induction false} PrintedInTurn(isPrint: PrintTable, all: seq<TB.Instruction>) returns (pieces: seq<string>)
    ensures |pieces| == |all|
    ensures forall i :: 0 <= i < |all| ==> pieces[i] == PrintInstruction(isPrint, all[i])
    ensures PrintInstructions(isPrint, all) == Sequences.Flatten(pieces)
  {
    hide PrintInstruction;
    if all == [] {
      pieces := [];
    } else {
      var n := |all| - 1;
      pieces := PrintedInTurn(isPrint, all[..n]);
      var last := PrintInstruction(isPrint, all[n]);
      Sequences.FlattenSnoc(pieces, last);
      pieces := pieces + [last];
    }
  }
}
