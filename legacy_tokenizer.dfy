/** The command tokenizer of the legacy terminal front end (`parseCommand` in Legacy/main.cpp):
    a single pass over the line with three states, no regular expression. */
module LegacyTokenizer {
  import opened Text

  datatype Mode = Normal | InDoubleQuotes | InSingleQuotes

  /** The scanner's state after some prefix of the line: the tokens pushed so far,
      the token being built, and the quoting state. */
  datatype Scan = Scan(args: seq<string>, token: string, mode: Mode)

  const Start := Scan([], [], Normal)

  /** One character of the scan. A closing quote always pushes the token, even an empty one;
      in normal state whitespace pushes a non-empty token and quote characters only switch state. */
  function Step(st: Scan, c: char): Scan {
    match st.mode
    case InDoubleQuotes =>
      if c == '"' then Scan(st.args + [st.token], [], Normal) else st.(token := st.token + [c])
    case InSingleQuotes =>
      if c == '\'' then Scan(st.args + [st.token], [], Normal) else st.(token := st.token + [c])
    case Normal =>
      if IsAsciiSpace(c) then
        (if st.token != [] then Scan(st.args + [st.token], [], Normal) else st)
      else if c == '"' then st.(mode := InDoubleQuotes)
      else if c == '\'' then st.(mode := InSingleQuotes)
      else st.(token := st.token + [c])
  }

  function Run(st: Scan, s: string): Scan
    decreases |s|
  {
    if s == [] then st else Run(Step(st, s[0]), s[1..])
  }

  /** End of input: a non-empty unfinished token is pushed, whatever the quoting state. */
  function Flush(st: Scan): seq<string> {
    if st.token != [] then st.args + [st.token] else st.args
  }

  function Tokens(input: string): seq<string> {
    Flush(Run(Start, input))
  }

  function ModeOf(inDoubleQuotes: bool, inSingleQuotes: bool): Mode {
    if inDoubleQuotes then InDoubleQuotes else if inSingleQuotes then InSingleQuotes else Normal
  }

  /** `parseCommand`: the loop over the characters with the two quote flags. */
  method ParseCommand(input: string) returns (args: seq<string>)
    ensures args == Tokens(input)
  {
    args := [];
    var token: string := [];
    var inDoubleQuotes, inSingleQuotes := false, false;
    var i := 0;
    while i < |input|
      invariant 0 <= i <= |input|
      invariant !(inDoubleQuotes && inSingleQuotes)
      invariant Run(Scan(args, token, ModeOf(inDoubleQuotes, inSingleQuotes)), input[i..])
                == Run(Start, input)
    {
      var c := input[i];
      ghost var before := Scan(args, token, ModeOf(inDoubleQuotes, inSingleQuotes));
      if inDoubleQuotes {
        if c == '"' {
          inDoubleQuotes := false;
          args := args + [token];
          token := [];
        } else {
          token := token + [c];
        }
      } else if inSingleQuotes {
        if c == '\'' {
          inSingleQuotes := false;
          args := args + [token];
          token := [];
        } else {
          token := token + [c];
        }
      } else {
        if IsAsciiSpace(c) {
          if token != [] {
            args := args + [token];
            token := [];
          }
        } else if c == '"' {
          inDoubleQuotes := true;
        } else if c == '\'' {
          inSingleQuotes := true;
        } else {
          token := token + [c];
        }
      }
      assert Scan(args, token, ModeOf(inDoubleQuotes, inSingleQuotes)) == Step(before, c);
      assert input[i..][1..] == input[i + 1..];
      i := i + 1;
    }
    if token != [] {
      args := args + [token];
    }
  }

  lemma {:induction false} RunAppend(st: Scan, s: string, t: string)
    ensures Run(st, s + t) == Run(Run(st, s), t)
    decreases |s|
  {
    if s == [] {
      assert s + t == t;
    } else {
      assert (s + t)[1..] == s[1..] + t;
      RunAppend(Step(st, s[0]), s[1..], t);
    }
  }

  /** Inside double quotes every character but `"` is stored, whitespace and `'` included. */
  lemma {:induction false} InsideDoubleQuotes(args: seq<string>, token: string, body: string)
    requires '"' !in body
    ensures Run(Scan(args, token, InDoubleQuotes), body) == Scan(args, token + body, InDoubleQuotes)
    decreases |body|
  {
    if body == [] {
      assert token + body == token;
    } else {
      assert body[0] in body;
      assert '"' !in body[1..] by {
        forall k | 0 <= k < |body[1..]| ensures body[1..][k] != '"' {
          assert body[1..][k] == body[k + 1];
        }
      }
      InsideDoubleQuotes(args, token + [body[0]], body[1..]);
      assert (token + [body[0]]) + body[1..] == token + body;
    }
  }

  /** Inside single quotes every character but `'` is stored. */
  lemma {:induction false} InsideSingleQuotes(args: seq<string>, token: string, body: string)
    requires '\'' !in body
    ensures Run(Scan(args, token, InSingleQuotes), body) == Scan(args, token + body, InSingleQuotes)
    decreases |body|
  {
    if body == [] {
      assert token + body == token;
    } else {
      assert body[0] in body;
      assert '\'' !in body[1..] by {
        forall k | 0 <= k < |body[1..]| ensures body[1..][k] != '\'' {
          assert body[1..][k] == body[k + 1];
        }
      }
      InsideSingleQuotes(args, token + [body[0]], body[1..]);
      assert (token + [body[0]]) + body[1..] == token + body;
    }
  }

  /** A closing quote always emits the token, even an empty one, and returns to normal state. */
  lemma ClosingQuoteEmits(args: seq<string>, token: string, body: string)
    ensures '"' !in body ==>
      Run(Scan(args, token, InDoubleQuotes), body + "\"") == Scan(args + [token + body], [], Normal)
    ensures '\'' !in body ==>
      Run(Scan(args, token, InSingleQuotes), body + "'") == Scan(args + [token + body], [], Normal)
  {
    if '"' !in body {
      RunAppend(Scan(args, token, InDoubleQuotes), body, "\"");
      InsideDoubleQuotes(args, token, body);
    }
    if '\'' !in body {
      RunAppend(Scan(args, token, InSingleQuotes), body, "'");
      InsideSingleQuotes(args, token, body);
    }
  }

  /** Text right before an opening quote joins the quoted token: `T"body"` and `T'body'` push
      `T + body`. */
  lemma QuotedGroupJoinsPrefix(args: seq<string>, token: string, q: char, body: string)
    requires q == '"' || q == '\''
    requires q !in body
    ensures Run(Scan(args, token, Normal), [q] + body + [q]) == Scan(args + [token + body], [], Normal)
  {
    assert ([q] + body + [q])[1..] == body + [q];
    ClosingQuoteEmits(args, token, body);
  }

  /** An unterminated quote flushes what it accumulated, but only when that is non-empty. */
  lemma UnterminatedQuoteFlushes(args: seq<string>, token: string, body: string)
    ensures '"' !in body ==>
      Flush(Run(Scan(args, token, InDoubleQuotes), body))
        == if token + body != [] then args + [token + body] else args
    ensures '\'' !in body ==>
      Flush(Run(Scan(args, token, InSingleQuotes), body))
        == if token + body != [] then args + [token + body] else args
  {
    if '"' !in body {
      InsideDoubleQuotes(args, token, body);
    }
    if '\'' !in body {
      InsideSingleQuotes(args, token, body);
    }
  }

  predicate QuoteFree(s: string) {
    '"' !in s && '\'' !in s
  }

  lemma QuoteFreeTail(s: string)
    requires s != [] && QuoteFree(s)
    ensures s[0] != '"' && s[0] != '\'' && QuoteFree(s[1..])
  {
    assert s[0] in s;
    forall k | 0 <= k < |s[1..]| ensures s[1..][k] != '"' && s[1..][k] != '\'' {
      assert s[1..][k] == s[k + 1];
    }
  }

  lemma NoSpaceExtended(token: string, c: char)
    requires NoAsciiSpace(token) && !IsAsciiSpace(c)
    ensures NoAsciiSpace(token + [c])
  {
    forall k | 0 <= k < |token + [c]| ensures !IsAsciiSpace((token + [c])[k]) {
      if k < |token| { assert (token + [c])[k] == token[k]; }
    }
  }

  lemma {:induction false} NormalRunIsWords(args: seq<string>, token: string, s: string)
    requires NoAsciiSpace(token) && QuoteFree(s)
    ensures Flush(Run(Scan(args, token, Normal), s))
            == args + (if token == [] then Words(s) else Words(token + s))
    decreases |s|, 1
  {
    if s == [] {
      if token != [] {
        WordsAfterRun(token, s);
      }
    } else if IsAsciiSpace(s[0]) {
      NormalRunAtSpace(args, token, s);
    } else {
      NormalRunAtChar(args, token, s);
    }
  }

  /** A space in normal state ends the token being built, if any. */
  lemma {:induction false} NormalRunAtSpace(args: seq<string>, token: string, s: string)
    requires NoAsciiSpace(token) && QuoteFree(s) && s != [] && IsAsciiSpace(s[0])
    ensures Flush(Run(Scan(args, token, Normal), s))
            == args + (if token == [] then Words(s) else Words(token + s))
    decreases |s|, 0
  {
    QuoteFreeTail(s);
    var st := Scan(args, token, Normal);
    var next := if token != [] then Scan(args + [token], [], Normal) else st;
    assert Step(st, s[0]) == next;
    assert Run(st, s) == Run(next, s[1..]);
    NormalRunIsWords(next.args, [], s[1..]);
    if token == [] {
      assert Words(s) == Words(s[1..]);
    } else {
      WordsAfterRun(token, s);
      assert next.args + Words(s[1..]) == args + ([token] + Words(s[1..]));
    }
  }

  /** Any other character in normal state is stored in the token. */
  lemma {:induction false} NormalRunAtChar(args: seq<string>, token: string, s: string)
    requires NoAsciiSpace(token) && QuoteFree(s) && s != [] && !IsAsciiSpace(s[0])
    ensures Flush(Run(Scan(args, token, Normal), s))
            == args + (if token == [] then Words(s) else Words(token + s))
    decreases |s|, 0
  {
    var c := s[0];
    QuoteFreeTail(s);
    assert Step(Scan(args, token, Normal), c) == Scan(args, token + [c], Normal);
    NoSpaceExtended(token, c);
    NormalRunIsWords(args, token + [c], s[1..]);
    if token == [] {
      assert token + [c] + s[1..] == s;
    } else {
      WordsAfterRunGlued(token, s);
    }
  }

  /** With no quote characters, the tokens are exactly the words of the line. */
  lemma QuoteFreeIsWords(s: string)
    requires QuoteFree(s)
    ensures Tokens(s) == Words(s)
  {
    NormalRunIsWords([], [], s);
  }

  /** Empty or whitespace-only input yields no tokens. */
  lemma BlankHasNoTokens(s: string)
    requires AllAsciiSpace(s)
    ensures Tokens(s) == []
  {
    assert QuoteFree(s) by {
      forall k | 0 <= k < |s| ensures s[k] != '"' && s[k] != '\'' {
        assert IsAsciiSpace(s[k]);
      }
    }
    QuoteFreeIsWords(s);
    WordsOfBlank(s);
  }

  lemma RunOne(st: Scan, c: char)
    ensures Run(st, [c]) == Step(st, c)
  {
    assert [c][1..] == [];
  }

  /** Ordinary characters in normal state are stored in the token. */
  lemma {:induction false} PlainCharsJoinToken(args: seq<string>, token: string, t: string)
    requires NoAsciiSpace(t) && QuoteFree(t)
    ensures Run(Scan(args, token, Normal), t) == Scan(args, token + t, Normal)
    decreases |t|
  {
    if t == [] {
      assert token + t == token;
    } else {
      assert t[0] in t;
      assert NoAsciiSpace(t[1..]) && QuoteFree(t[1..]) by {
        forall k | 0 <= k < |t[1..]| ensures t[1..][k] == t[k + 1] {}
        assert forall k :: 0 <= k < |t[1..]| ==> t[1..][k] in t;
      }
      PlainCharsJoinToken(args, token + [t[0]], t[1..]);
      assert (token + [t[0]]) + t[1..] == token + t;
    }
  }

  lemma RunStartAThenSpace()
    ensures Run(Start, "a ") == Scan(["a"], [], Normal)
  {
    PlainCharsJoinToken([], [], "a");
    assert [] + "a" == "a";
    RunAppend(Start, "a", " ");
    RunOne(Scan([], "a", Normal), ' ');
    assert "a" + " " == "a ";
  }

  lemma RunStartDoubleGroup()
    ensures Run(Start, "a \"b c\" ") == Scan(["a", "b c"], [], Normal)
  {
    RunStartAThenSpace();
    RunAppend(Start, "a ", "\"" + "b c" + "\"");
    QuotedGroupJoinsPrefix(["a"], [], '"', "b c");
    assert [] + "b c" == "b c";
    assert "a " + ("\"" + "b c" + "\"") == "a \"b c\"";
    RunAppend(Start, "a \"b c\"", " ");
    RunOne(Scan(["a", "b c"], [], Normal), ' ');
    assert "a \"b c\"" + " " == "a \"b c\" ";
  }

  /** `a "b c" 'd e'` gives `[a, b c, d e]`. */
  lemma ExampleMixedQuotes(line: string)
    requires line == "a \"b c\" 'd e'"
    ensures Tokens(line) == ["a", "b c", "d e"]
  {
    var prefix, group := "a \"b c\" ", "'" + "d e" + "'";
    assert prefix + group == line;
    RunStartDoubleGroup();
    RunAppend(Start, prefix, group);
    QuotedGroupJoinsPrefix(["a", "b c"], [], '\'', "d e");
    assert [] + "d e" == "d e";
    assert Run(Start, line) == Scan(["a", "b c", "d e"], [], Normal);
  }

  /** Text right before an opening quote joins the quoted token: `ab"cd"` gives `[abcd]`. */
  lemma ExamplePrefixJoins()
    ensures Tokens("ab\"cd\"") == ["abcd"]
  {
    PlainCharsJoinToken([], [], "ab");
    assert [] + "ab" == "ab" && "ab" + "cd" == "abcd";
    QuotedGroupJoinsPrefix([], "ab", '"', "cd");
    RunAppend(Start, "ab", "\"" + "cd" + "\"");
    assert "ab" + ("\"" + "cd" + "\"") == "ab\"cd\"";
  }

  /** An unterminated quote: `a "b` gives `[a, b]`, and `a "` gives `[a]`. */
  lemma ExampleUnterminated()
    ensures Tokens("a \"b") == ["a", "b"]
    ensures Tokens("a \"") == ["a"]
  {
    PlainCharsJoinToken([], [], "a");
    assert [] + "a" == "a" && [] + "b" == "b";
    RunAppend(Start, "a", " ");
    RunOne(Scan([], "a", Normal), ' ');
    assert "a" + " " == "a ";
    assert Run(Start, "a ") == Scan(["a"], [], Normal);
    RunAppend(Start, "a ", "\"");
    RunOne(Scan(["a"], [], Normal), '"');
    assert "a " + "\"" == "a \"";
    assert Run(Start, "a \"") == Scan(["a"], [], InDoubleQuotes);
    RunAppend(Start, "a \"", "b");
    InsideDoubleQuotes(["a"], [], "b");
    assert "a \"" + "b" == "a \"b";
  }

  /** A pair of quotes with nothing between them still gives a token: `""` gives `[""]`. */
  lemma ExampleEmptyQuotes()
    ensures Tokens("\"\"") == [""]
  {
    QuotedGroupJoinsPrefix([], [], '"', "");
    assert "\"" + "" + "\"" == "\"\"";
  }
}
