/** Character classes and small string helpers shared by both versions of the dashboard. */
module Text {

  /** Whitespace as C's `isspace` sees it in the "C" locale, which is also the set
      that a `\s` of a QRegularExpression built without Unicode properties matches:
      space, tab, newline, vertical tab, form feed, carriage return. */
  predicate IsAsciiSpace(c: char) {
    c == ' ' || ('\t' <= c <= '\r')
  }

  /** Whitespace as `QChar::isSpace` sees it, the test behind `QString::trimmed`:
      the ASCII controls 9..13, NEL, and the Unicode separators (categories Zs, Zl, Zp). */
  predicate IsQtSpace(c: char) {
    IsAsciiSpace(c) || c == '\U{85}' || c == '\U{A0}' || c == '\U{1680}'
    || ('\U{2000}' <= c <= '\U{200A}') || c == '\U{2028}' || c == '\U{2029}'
    || c == '\U{202F}' || c == '\U{205F}' || c == '\U{3000}'
  }

  lemma AsciiSpaceIsQtSpace(c: char)
    ensures IsAsciiSpace(c) ==> IsQtSpace(c)
  {
  }

  /** C's `isprint` in the "C" locale: the bytes 32..126. */
  predicate IsPrint(c: char) {
    ' ' <= c <= '~'
  }

  predicate NoAsciiSpace(s: string) {
    forall i :: 0 <= i < |s| ==> !IsAsciiSpace(s[i])
  }

  predicate AllAsciiSpace(s: string) {
    forall i :: 0 <= i < |s| ==> IsAsciiSpace(s[i])
  }

  /** Length of the longest prefix of `s` holding no ASCII whitespace. */
  function RunLength(s: string): (n: nat)
    ensures n <= |s|
    ensures NoAsciiSpace(s[..n])
    ensures n < |s| ==> IsAsciiSpace(s[n])
  {
    if s == [] || IsAsciiSpace(s[0]) then 0 else 1 + RunLength(s[1..])
  }

  /** The words of `s`: its maximal non-empty runs of non-whitespace characters, in order.
      This is the reference both tokenizers are compared with on input without quotes. */
  function Words(s: string): seq<string>
    decreases |s|
  {
    if s == [] then []
    else if IsAsciiSpace(s[0]) then Words(s[1..])
    else
      var n := RunLength(s);
      [s[..n]] + Words(s[n..])
  }

  lemma {:induction false} WordsAreRuns(s: string)
    ensures forall w :: w in Words(s) ==> w != [] && NoAsciiSpace(w)
    decreases |s|
  {
    if s == [] {
    } else if IsAsciiSpace(s[0]) {
      WordsAreRuns(s[1..]);
    } else {
      WordsAreRuns(s[RunLength(s)..]);
    }
  }

  lemma {:induction false} WordsOfBlank(s: string)
    requires AllAsciiSpace(s)
    ensures Words(s) == []
    decreases |s|
  {
    if s != [] {
      WordsOfBlank(s[1..]);
    }
  }

  /** A run of non-whitespace characters followed by more text glues onto the first word. */
  lemma RunLengthAppend(t: string, s: string)
    requires NoAsciiSpace(t)
    ensures RunLength(t + s) == |t| + RunLength(s)
    decreases |t|
  {
    if t != [] {
      assert (t + s)[0] == t[0] && !IsAsciiSpace(t[0]);
      assert (t + s)[1..] == t[1..] + s;
      assert NoAsciiSpace(t[1..]) by {
        forall i | 0 <= i < |t[1..]| ensures !IsAsciiSpace(t[1..][i]) {
          assert t[1..][i] == t[i + 1];
        }
      }
      RunLengthAppend(t[1..], s);
    } else {
      assert t + s == s;
    }
  }

  /** Words of a non-empty run `t` followed by `s`: `t` joins the first word of `s`
      when `s` starts with a non-space. */
  lemma WordsAfterRun(t: string, s: string)
    requires t != [] && NoAsciiSpace(t)
    ensures s == [] ==> Words(t + s) == [t]
    ensures s != [] && IsAsciiSpace(s[0]) ==> Words(t + s) == [t] + Words(s[1..])
  {
    RunLengthAppend(t, s);
    var n := RunLength(t + s);
    if s == [] {
      assert t + s == t;
      assert t[n..] == [];
    } else if IsAsciiSpace(s[0]) {
      assert RunLength(s) == 0;
      assert (t + s)[..n] == t;
      assert (t + s)[n..] == s;
    }
  }

  lemma WordsAfterRunGlued(t: string, s: string)
    requires t != [] && NoAsciiSpace(t)
    requires s != [] && !IsAsciiSpace(s[0])
    ensures Words(t + s) == Words((t + [s[0]]) + s[1..])
  {
    assert t + s == (t + [s[0]]) + s[1..];
  }

  /** `QString::trimmed`: `s` without its leading and trailing `QChar::isSpace` characters. */
  function Trim(s: string): (r: string)
    ensures |r| <= |s|
    ensures r != [] ==> !IsQtSpace(r[0]) && !IsQtSpace(r[|r| - 1])
  {
    TrimEnd(TrimStart(s))
  }

  function TrimStart(s: string): (r: string)
    ensures |r| <= |s|
    ensures r != [] ==> !IsQtSpace(r[0])
  {
    if s == [] || !IsQtSpace(s[0]) then s else TrimStart(s[1..])
  }

  function TrimEnd(s: string): (r: string)
    ensures |r| <= |s|
    ensures r != [] ==> !IsQtSpace(r[|r| - 1])
    ensures s != [] && !IsQtSpace(s[0]) ==> r != [] && r[0] == s[0]
  {
    if s == [] || !IsQtSpace(s[|s| - 1]) then s else TrimEnd(s[..|s| - 1])
  }

  /** `TrimStart` keeps a suffix of the line. */
  lemma {:induction false} TrimStartIsSuffix(s: string)
    ensures TrimStart(s) == s[|s| - |TrimStart(s)|..]
    decreases |s|
  {
    if s != [] && IsQtSpace(s[0]) {
      TrimStartIsSuffix(s[1..]);
    }
  }

  /** `TrimEnd` keeps a prefix of the line and drops only whitespace after it. */
  lemma {:induction false} TrimEndIsPrefix(s: string)
    ensures TrimEnd(s) == s[..|TrimEnd(s)|]
    ensures forall k :: |TrimEnd(s)| <= k < |s| ==> IsQtSpace(s[k])
    decreases |s|
  {
    if s != [] && IsQtSpace(s[|s| - 1]) {
      var t := s[..|s| - 1];
      TrimEndIsPrefix(t);
      assert t[..|TrimEnd(t)|] == s[..|TrimEnd(t)|];
      forall k | |TrimEnd(s)| <= k < |s| ensures IsQtSpace(s[k]) {
        if k < |s| - 1 {
          assert s[k] == t[k];
        }
      }
    }
  }

  /** The characters `TrimStart` drops are all whitespace. */
  lemma {:induction false} TrimStartDropsSpaces(s: string)
    ensures forall i :: 0 <= i < |s| - |TrimStart(s)| ==> IsQtSpace(s[i])
    decreases |s|
  {
    if s != [] && IsQtSpace(s[0]) {
      TrimStartDropsSpaces(s[1..]);
      forall i | 0 <= i < |s| - |TrimStart(s)| ensures IsQtSpace(s[i]) {
        if i > 0 {
          assert s[i] == s[1..][i - 1];
        }
      }
    }
  }

  /** `TrimEnd` leaves nothing exactly when every character is whitespace. */
  lemma {:induction false} TrimEndBlank(s: string)
    ensures TrimEnd(s) == [] <==> forall i :: 0 <= i < |s| ==> IsQtSpace(s[i])
    decreases |s|
  {
    if s != [] && IsQtSpace(s[|s| - 1]) {
      var t := s[..|s| - 1];
      TrimEndBlank(t);
      assert (forall i :: 0 <= i < |s| ==> IsQtSpace(s[i])) <==> (forall i :: 0 <= i < |t| ==> IsQtSpace(t[i])) by {
        forall i | 0 <= i < |t| ensures t[i] == s[i] {}
      }
    }
  }

  /** A line trims to nothing exactly when every character is whitespace in Qt's sense. */
  lemma TrimBlank(s: string)
    ensures Trim(s) == [] <==> forall i :: 0 <= i < |s| ==> IsQtSpace(s[i])
  {
    var r := TrimStart(s);
    TrimStartIsSuffix(s);
    TrimStartDropsSpaces(s);
    TrimEndBlank(r);
    forall i | 0 <= i < |r| ensures r[i] == s[|s| - |r| + i] {}
  }

  /** `QString::trimmed` keeps the middle of the line: a contiguous stretch of it, with only
      whitespace before it and only whitespace after it. */
  lemma TrimKeepsMiddle(s: string)
    ensures var a := |s| - |TrimStart(s)|;
      a + |Trim(s)| <= |s| && Trim(s) == s[a..a + |Trim(s)|] &&
      (forall k :: 0 <= k < a ==> IsQtSpace(s[k])) &&
      (forall k :: a + |Trim(s)| <= k < |s| ==> IsQtSpace(s[k]))
  {
    TrimStartIsSuffix(s);
    TrimStartDropsSpaces(s);
    TrimEndIsPrefix(TrimStart(s));
    MiddleOf(s, TrimStart(s), Trim(s));
  }

  /** A prefix `r` of a suffix `u` of `s` is the stretch of `s` from `|s| - |u|`. */
  lemma MiddleOf(s: string, u: string, r: string)
    requires |u| <= |s| && u == s[|s| - |u|..]
    requires |r| <= |u| && r == u[..|r|]
    requires forall k :: |r| <= k < |u| ==> IsQtSpace(u[k])
    ensures var a := |s| - |u|;
      a + |r| <= |s| && r == s[a..a + |r|] &&
      (forall k :: a + |r| <= k < |s| ==> IsQtSpace(s[k]))
  {
    var a := |s| - |u|;
    assert r == s[a..a + |r|];
    forall k | a + |r| <= k < |s| ensures IsQtSpace(s[k]) {
      assert s[k] == u[k - a];
    }
  }

  /** One row of a log panel: a blank padding row, or a log line with its 1-based number. */
  datatype LogRow = Blank | Numbered(number: nat, text: string)

  function Blanks(n: nat): (r: seq<LogRow>)
    ensures |r| == n && forall i :: 0 <= i < n ==> r[i] == Blank
  {
    seq(n, _ => Blank)
  }

  function Min(a: int, b: int): int { if a < b then a else b }

  function Max(a: int, b: int): int { if a < b then b else a }

  /** `n` space characters. */
  function Spaces(n: nat): (r: string)
    ensures |r| == n && forall i :: 0 <= i < n ==> r[i] == ' '
  {
    seq(n, _ => ' ')
  }

  function DigitChar(d: nat): (c: char)
    requires d < 10
    ensures '0' <= c <= '9'
  {
    ('0' as int + d) as char
  }

  predicate IsDigits(s: string) {
    forall i :: 0 <= i < |s| ==> '0' <= s[i] <= '9'
  }

  /** The number a string of decimal digits denotes, most significant digit first. */
  function DecimalValue(s: string): nat
    requires IsDigits(s)
  {
    if s == [] then 0
    else 10 * DecimalValue(s[..|s| - 1]) + (s[|s| - 1] as int - '0' as int)
  }

  /** Decimal digits of `n`, without leading zeros ("0" for zero). */
  function NatToString(n: nat): (r: string)
    ensures |r| >= 1
    ensures forall i :: 0 <= i < |r| ==> '0' <= r[i] <= '9'
    ensures |r| > 1 ==> r[0] != '0'
  {
    if n < 10 then [DigitChar(n)] else NatToString(n / 10) + [DigitChar(n % 10)]
  }

  /** Decimal text of an integer, as `QString::arg(int)` writes it: a minus sign for negatives. */
  function IntToString(i: int): (r: string)
    ensures |r| >= 1
    ensures i < 0 <==> r[0] == '-'
  {
    if i < 0 then "-" + NatToString(-i) else NatToString(i)
  }

  /** The digits `NatToString` writes denote `n`. */
  lemma {:induction false} NatToStringValue(n: nat)
    ensures IsDigits(NatToString(n)) && DecimalValue(NatToString(n)) == n
    decreases n
  {
    if n >= 10 {
      NatToStringValue(n / 10);
      var r := NatToString(n);
      assert r[..|r| - 1] == NatToString(n / 10);
    }
  }

  /** The text of an integer is its sign followed by the decimal digits of its magnitude. */
  lemma IntToStringValue(i: int)
    ensures var r := IntToString(i);
      if i < 0 then r[0] == '-' && IsDigits(r[1..]) && DecimalValue(r[1..]) == -i
      else IsDigits(r) && DecimalValue(r) == i
  {
    if i < 0 {
      var digits := NatToString(-i);
      NatToStringValue(-i);
      assert IntToString(i) == "-" + digits;
      assert ("-" + digits)[1..] == digits;
    } else {
      NatToStringValue(i);
    }
  }
}
