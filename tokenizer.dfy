/** The command tokenizer of the current dashboard (`parseCommand` in main.cpp): the matches of
    the regular expression `"[^"]*"|'[^']*'|\S+`, taken left to right, each stripped of one pair
    of enclosing quotes. The regular expression is modelled as the scanner it amounts to. */
module Tokenizer {
  import opened Text
  import LegacyTokenizer

  /** Index of the first `q` in `s`, or `|s|` when there is none. */
  function IndexOf(s: string, q: char): (n: nat)
    ensures n <= |s|
    ensures q !in s[..n]
    ensures n < |s| ==> s[n] == q
  {
    if s == [] || s[0] == q then 0 else 1 + IndexOf(s[1..], q)
  }

  /** Length of the match found at the start of `s` (which is not whitespace): the first
      alternative that matches wins, so a quote with a matching quote further on takes everything
      up to that quote, whitespace included; otherwise the longest run of non-whitespace. */
  function MatchLength(s: string): (n: nat)
    requires s != [] && !IsAsciiSpace(s[0])
    ensures 1 <= n <= |s|
  {
    if s[0] == '"' && IndexOf(s[1..], '"') < |s| - 1 then IndexOf(s[1..], '"') + 2
    else if s[0] == '\'' && IndexOf(s[1..], '\'') < |s| - 1 then IndexOf(s[1..], '\'') + 2
    else RunLength(s)
  }

  /** A match that both starts and ends with the same quote loses them (`mid(1, length - 2)`,
      which gives the empty string for a lone quote character). */
  function Unquote(m: string): string {
    if m != [] && ((m[0] == '"' && m[|m| - 1] == '"') || (m[0] == '\'' && m[|m| - 1] == '\'')) then
      (if |m| >= 2 then m[1..|m| - 1] else "")
    else m
  }

  function Tokens(s: string): seq<string>
    decreases |s|, 1
  {
    if s == [] then []
    else if IsAsciiSpace(s[0]) then Tokens(s[1..])
    else MatchedTokens(s)
  }

  /** The tokens of a line that starts with a match: that match, then the tokens after it. */
  function MatchedTokens(s: string): seq<string>
    requires s != [] && !IsAsciiSpace(s[0])
    decreases |s|, 0
  {
    var n := MatchLength(s);
    [Unquote(s[..n])] + Tokens(s[n..])
  }

  /** The regular-expression engine's search for the match starting at `pos`. */
  method MatchAt(s: string, pos: nat) returns (n: nat)
    requires pos < |s| && !IsAsciiSpace(s[pos])
    ensures n == MatchLength(s[pos..])
  {
    ghost var t := s[pos..];
    var c := s[pos];
    if c == '"' || c == '\'' {
      var j := pos + 1;
      while j < |s| && s[j] != c
        invariant pos + 1 <= j <= |s|
        invariant c !in s[pos + 1..j]
      {
        j := j + 1;
      }
      assert t[1..][..j - pos - 1] == s[pos + 1..j];
      assert j - pos - 1 == IndexOf(t[1..], c) by {
        IndexOfUnique(t[1..], c, j - pos - 1);
      }
      if j < |s| {
        return j - pos + 1;
      }
    }
    var k := pos;
    while k < |s| && !IsAsciiSpace(s[k])
      invariant pos <= k <= |s|
      invariant forall i :: pos <= i < k ==> !IsAsciiSpace(s[i])
    {
      k := k + 1;
    }
    ghost var run := t[..k - pos];
    assert NoAsciiSpace(run) by {
      forall i | 0 <= i < |run| ensures !IsAsciiSpace(run[i]) {
        assert run[i] == s[pos + i];
      }
    }
    RunLengthUnique(t, k - pos);
    n := k - pos;
  }

  lemma {:induction false} IndexOfUnique(s: string, q: char, n: nat)
    requires n <= |s| && q !in s[..n] && (n < |s| ==> s[n] == q)
    ensures IndexOf(s, q) == n
    decreases n
  {
    if n > 0 {
      assert s[0] in s[..n];
      assert s[1..][..n - 1] == s[1..n];
      assert forall x :: x in s[1..n] ==> x in s[..n];
      IndexOfUnique(s[1..], q, n - 1);
    }
  }

  lemma {:induction false} RunLengthUnique(s: string, n: nat)
    requires n <= |s| && NoAsciiSpace(s[..n]) && (n < |s| ==> IsAsciiSpace(s[n]))
    ensures RunLength(s) == n
    decreases n
  {
    if n > 0 {
      assert s[..n][0] == s[0];
      assert s[1..][..n - 1] == s[1..n];
      var u := s[1..][..n - 1];
      assert NoAsciiSpace(u) by {
        forall i | 0 <= i < |u| ensures !IsAsciiSpace(u[i]) {
          assert u[i] == s[..n][i + 1];
        }
      }
      RunLengthUnique(s[1..], n - 1);
    }
  }

  /** Skipping whitespace: no alternative of the expression matches at a whitespace character. */
  lemma TokensAtSpace(s: string, pos: nat)
    requires pos < |s| && IsAsciiSpace(s[pos])
    ensures Tokens(s[pos..]) == Tokens(s[pos + 1..])
  {
    assert s[pos..][1..] == s[pos + 1..];
  }

  lemma TokensAtMatch(s: string, pos: nat, n: nat)
    requires pos < |s| && !IsAsciiSpace(s[pos])
    requires n == MatchLength(s[pos..])
    ensures Tokens(s[pos..]) == [Unquote(s[pos..pos + n])] + Tokens(s[pos + n..])
  {
    assert s[pos..][..n] == s[pos..pos + n];
    assert s[pos..][n..] == s[pos + n..];
  }

  /** The stripping of one match: a match that starts and ends with the same quote loses them. */
  method StripQuotes(matched: string) returns (arg: string)
    requires matched != []
    ensures arg == Unquote(matched)
  {
    arg := matched;
    if (arg[0] == '"' && arg[|arg| - 1] == '"') || (arg[0] == '\'' && arg[|arg| - 1] == '\'') {
      arg := if |arg| >= 2 then arg[1..|arg| - 1] else "";
    }
  }

  /** `parseCommand`: the global-match loop, stripping each match's enclosing quotes. */
  method ParseCommand(input: string) returns (args: seq<string>)
    ensures args == Tokens(input)
  {
    args := [];
    var pos := 0;
    while pos < |input|
      invariant 0 <= pos <= |input|
      invariant args + Tokens(input[pos..]) == Tokens(input)
    {
      if IsAsciiSpace(input[pos]) {
        TokensAtSpace(input, pos);
        assert args + Tokens(input[pos + 1..]) == Tokens(input);
        pos := pos + 1;
      } else {
        var n := MatchAt(input, pos);
        var arg := StripQuotes(input[pos..pos + n]);
        TokensAtMatch(input, pos, n);
        assert (args + [arg]) + Tokens(input[pos + n..]) == Tokens(input);
        args := args + [arg];
        pos := pos + n;
      }
    }
    assert input[|input|..] == [];
  }

  lemma {:induction false} QuoteFreeIsWords(s: string)
    requires LegacyTokenizer.QuoteFree(s)
    ensures Tokens(s) == Words(s)
    decreases |s|
  {
    if s != [] {
      assert s[0] in s;
      if IsAsciiSpace(s[0]) {
        assert forall x :: x in s[1..] ==> x in s;
        QuoteFreeIsWords(s[1..]);
      } else {
        var n := MatchLength(s);
        assert n == RunLength(s);
        assert forall x :: x in s[n..] ==> x in s;
        QuoteFreeIsWords(s[n..]);
      }
    }
  }

  /** A complete `"…"` (or `'…'`) group is one token with the quotes removed, whitespace kept. */
  lemma QuotedGroupStripped(q: char, body: string, rest: string)
    requires q == '"' || q == '\''
    requires q !in body
    ensures Tokens([q] + body + [q] + rest) == [body] + Tokens(rest)
  {
    var s := [q] + body + [q] + rest;
    assert s[1..] == body + [q] + rest;
    assert (body + [q] + rest)[..|body|] == body;
    IndexOfUnique(s[1..], q, |body|);
    assert MatchLength(s) == |body| + 2;
    assert s[..|body| + 2] == [q] + body + [q];
    assert s[|body| + 2..] == rest;
    assert Unquote([q] + body + [q]) == body;
  }

  /** An unterminated quote is not a group: the `\S+` alternative keeps it verbatim
      (a lone quote character becomes the empty token). */
  lemma UnterminatedKept(word: string)
    requires NoAsciiSpace(word) && '"' !in word
    ensures word != [] ==> Tokens("\"" + word) == ["\"" + word]
    ensures word == [] ==> Tokens("\"" + word) == [""]
  {
    var s := "\"" + word;
    assert s[1..] == word;
    assert s[0] == '"';
    assert IndexOf(s[1..], '"') == |word|;
    assert NoAsciiSpace(s) by {
      forall i | 0 <= i < |s| ensures !IsAsciiSpace(s[i]) {
        if i > 0 { assert s[i] == word[i - 1]; }
      }
    }
    RunLengthUnique(s, |s|);
    assert s[..|s|] == s;
    assert s[|s|..] == [];
    assert Tokens(s) == [Unquote(s)] + Tokens([]);
    if word != [] {
      assert word[|word| - 1] in word;
      assert s[|s| - 1] == word[|word| - 1];
    }
  }

  /** Every line that is not blank once trimmed yields at least one token, so the first
      token that `processCommand` reads always exists when the Return handler calls it. */
  lemma TrimmedNonBlankHasTokens(s: string)
    requires Trim(s) != []
    ensures |Tokens(Trim(s))| >= 1
  {
    var t := Trim(s);
    AsciiSpaceIsQtSpace(t[0]);
  }

  /** A word that does not open with a quote, ended by whitespace or by the end of the line, is
      one token. */
  lemma WordToken(w: string, rest: string)
    requires w != [] && NoAsciiSpace(w) && w[0] != '"' && w[0] != '\''
    requires rest == [] || IsAsciiSpace(rest[0])
    ensures Tokens(w + rest) == [w] + Tokens(rest)
  {
    var s := w + rest;
    assert s[..|w|] == w && s[|w|..] == rest;
    RunLengthUnique(s, |w|);
  }

  lemma SpaceSkipped(c: char, rest: string)
    requires IsAsciiSpace(c)
    ensures Tokens([c] + rest) == Tokens(rest)
  {
    assert ([c] + rest)[1..] == rest;
  }

  lemma ExampleSingleQuoted(r: string)
    requires r == " 'd e'"
    ensures Tokens(r) == ["d e"]
  {
    assert r == [' '] + (['\''] + "d e" + ['\''] + []);
    SpaceSkipped(' ', ['\''] + "d e" + ['\''] + []);
    QuotedGroupStripped('\'', "d e", []);
  }

  lemma ExampleDoubleQuoted(r: string)
    requires r == "\"b c\" 'd e'"
    ensures Tokens(r) == ["b c", "d e"]
  {
    assert r == ['"'] + "b c" + ['"'] + " 'd e'";
    QuotedGroupStripped('"', "b c", " 'd e'");
    ExampleSingleQuoted(" 'd e'");
  }

  lemma ExampleMixedQuotes(line: string)
    requires line == "a \"b c\" 'd e'"
    ensures Tokens(line) == ["a", "b c", "d e"]
  {
    var quoted := "\"b c\" 'd e'";
    assert line == "a" + ([' '] + quoted);
    WordToken("a", [' '] + quoted);
    SpaceSkipped(' ', quoted);
    ExampleDoubleQuoted(quoted);
  }

  /** A word, a space, then an unterminated quote. */
  lemma WordThenQuote(line: string, word: string)
    requires line == "a" + ([' '] + ("\"" + word))
    ensures Tokens(line) == ["a"] + Tokens("\"" + word)
  {
    WordToken("a", [' '] + ("\"" + word));
    SpaceSkipped(' ', "\"" + word);
  }

  lemma ExampleUnterminated(line1: string, line2: string)
    requires line1 == "a \"b" && line2 == "a \""
    ensures Tokens(line1) == ["a", "\"b"]
    ensures Tokens(line2) == ["a", ""]
  {
    ExampleOpenQuoteWord(line1);
    ExampleLoneQuote(line2);
  }

  lemma ExampleOpenQuoteWord(line: string)
    requires line == "a \"b"
    ensures Tokens(line) == ["a", "\"b"]
  {
    var quoted := "\"" + "b";
    assert quoted == "\"b";
    assert line == "a" + ([' '] + quoted);
    WordThenQuote(line, "b");
    UnterminatedKept("b");
  }

  lemma ExampleLoneQuote(line: string)
    requires line == "a \""
    ensures Tokens(line) == ["a", ""]
  {
    assert line == "a" + ([' '] + ("\"" + ""));
    WordThenQuote(line, "");
    UnterminatedKept("");
  }

  /** The two tokenizers part ways on quotes glued to text and on unterminated quotes. */
  lemma DiffersFromLegacy(glued: string, open: string)
    requires glued == "ab\"cd\"" && open == "a \"b"
    ensures Tokens(glued) == ["ab\"cd\""] && LegacyTokenizer.Tokens(glued) == ["abcd"]
    ensures Tokens(open) == ["a", "\"b"] && LegacyTokenizer.Tokens(open) == ["a", "b"]
  {
    RunLengthUnique(glued, |glued|);
    assert glued[..|glued|] == glued && glued[|glued|..] == [];
    LegacyTokenizer.ExamplePrefixJoins();
    ExampleUnterminated(open, "a \"");
    LegacyTokenizer.ExampleUnterminated();
  }
}
