/** The legacy terminal front end (Legacy/main.cpp): the log window with its two scroll
    offsets, the byte-by-byte key handling of the main loop, and the worker that reports
    every submitted command as invalid. */
module LegacyConsole {
  import opened Text

  /** `std::size_t` arithmetic wraps modulo 2^64. */
  const SIZE_MODULUS: int := 0x1_0000_0000_0000_0000

  /** The line with its first `left` characters removed, or empty when it is not longer than `left`. */
  function Clip(line: string, left: nat): (r: string)
    ensures |r| == if |line| > left then |line| - left else 0
    ensures line == line[..|line| - |r|] + r
  {
    if |line| > left then line[left..] else ""
  }

  /** The rows the main loop prints for the log panel, `maxLogRows` being the terminal height
      less the header, prompt and divider (negative on a tiny terminal). */
  function LogWindow(logs: seq<string>, away: nat, left: nat, maxLogRows: int): seq<LogRow> {
    var size := |logs|;
    var toShow := Min(size, maxLogRows);
    var start := Max(0, size - toShow - away);
    var shown := Max(0, Min(start + toShow, size) - start);
    Blanks(maxLogRows - toShow) + Lines(logs, start, shown, left)
  }

  /** `count` numbered, clipped lines of `logs` from index `start` on. */
  function Lines(logs: seq<string>, start: nat, count: nat, left: nat): (r: seq<LogRow>)
    requires count == 0 || start + count <= |logs|
    ensures |r| == count
    ensures forall k :: 0 <= k < count ==> r[k] == Numbered(start + k + 1, Clip(logs[start + k], left))
  {
    seq(count, k requires 0 <= k < count => Numbered(start + k + 1, Clip(logs[start + k], left)))
  }

  /** With a non-negative row count the window is exactly `maxLogRows` rows: blanks on top,
      then `min(size, maxLogRows)` numbered lines. While the view is in range
      (`away <= size - toShow`) the lines are the ones ending `away` lines above the last,
      each numbered by its 1-based index and clipped by `left`. */
  lemma WindowShape(logs: seq<string>, away: nat, left: nat, maxLogRows: int)
    requires maxLogRows >= 0
    ensures var w := LogWindow(logs, away, left, maxLogRows);
            var toShow := Min(|logs|, maxLogRows);
            && |w| == maxLogRows
            && (forall r :: 0 <= r < maxLogRows - toShow ==> w[r] == Blank)
            && (away <= |logs| - toShow ==>
                 forall r :: maxLogRows - toShow <= r < maxLogRows ==>
                   var i := |logs| - maxLogRows - away + r;
                   w[r] == Numbered(i + 1, Clip(logs[i], left)))
  {
  }

  /** The bottom row of an in-range window is the line `size - 1 - away`. */
  lemma WindowBottomLine(logs: seq<string>, away: nat, left: nat, maxLogRows: int)
    requires 0 < maxLogRows && 0 < |logs|
    requires away <= |logs| - Min(|logs|, maxLogRows)
    ensures var w := LogWindow(logs, away, left, maxLogRows);
            |w| == maxLogRows
            && w[maxLogRows - 1] == Numbered(|logs| - away, Clip(logs[|logs| - 1 - away], left))
  {
    WindowShape(logs, away, left, maxLogRows);
    var toShow := Min(|logs|, maxLogRows);
  }

  /** When the log fits on screen the vertical offset has no effect on what is shown. */
  lemma ShortLogIgnoresOffset(logs: seq<string>, a1: nat, a2: nat, left: nat, maxLogRows: int)
    requires |logs| <= maxLogRows
    ensures LogWindow(logs, a1, left, maxLogRows) == LogWindow(logs, a2, left, maxLogRows)
  {
  }

  /** The top-padding loop of the log panel. */
  method BlankRows(n: int) returns (rows: seq<LogRow>)
    requires n >= 0
    ensures rows == Blanks(n)
  {
    rows := [];
    var i := 0;
    while i < n
      invariant 0 <= i <= n
      invariant rows == Blanks(i)
    {
      rows := rows + [Blank];
      i := i + 1;
    }
  }

  /** The printing loop of the log panel: lines `start` up to `end`, or to the last line when
      the log ends first. */
  method NumberedLines(logs: seq<string>, start: nat, end: int, left: nat) returns (rows: seq<LogRow>)
    ensures rows == Lines(logs, start, Max(0, Min(end, |logs|) - start), left)
  {
    rows := [];
    var i := start;
    while i < end && i < |logs|
      invariant start <= i
      invariant i <= Max(start, Min(end, |logs|))
      invariant rows == Lines(logs, start, i - start, left)
    {
      assert Lines(logs, start, i + 1 - start, left)
             == Lines(logs, start, i - start, left) + [Numbered(i + 1, Clip(logs[i], left))];
      rows := rows + [Numbered(i + 1, Clip(logs[i], left))];
      i := i + 1;
    }
  }

  /** The keys of the main loop, as decoded from the bytes `read` returns. */
  datatype Key = Enter | Erase | Type(c: char) | Up | Down | Right | Left

  /** The arrow key named by the two bytes after ESC: only `[` followed by A, B, C or D is one. */
  function EscapeKey(a: char, b: char): seq<Key> {
    if a != '[' then []
    else if b == 'A' then [Up]
    else if b == 'B' then [Down]
    else if b == 'C' then [Right]
    else if b == 'D' then [Left]
    else []
  }

  /** The keys the main loop sees in a stream of bytes: newline is Enter, DEL and BS erase,
      ESC consumes the next two bytes (or as many as there are), a printable byte is typed,
      anything else is dropped. */
  function Decode(bytes: seq<char>): seq<Key>
    decreases |bytes|
  {
    if bytes == [] then []
    else
      var c := bytes[0];
      if c == '\n' then [Enter] + Decode(bytes[1..])
      else if c == 127 as char || c == 8 as char then [Erase] + Decode(bytes[1..])
      else if c == 27 as char then
        (if |bytes| >= 3 then EscapeKey(bytes[1], bytes[2]) + Decode(bytes[3..]) else [])
      else if IsPrint(c) then [Type(c)] + Decode(bytes[1..])
      else Decode(bytes[1..])
  }

  /** Only printable characters are ever typed into the input line. */
  lemma {:induction false} DecodeTypesPrintable(bytes: seq<char>)
    ensures forall k :: k in Decode(bytes) && k.Type? ==> IsPrint(k.c)
    decreases |bytes|
  {
    if bytes != [] {
      if bytes[0] == 27 as char {
        if |bytes| >= 3 {
          DecodeTypesPrintable(bytes[3..]);
        }
      } else {
        DecodeTypesPrintable(bytes[1..]);
      }
    }
  }

  lemma DecodeArrows(rest: seq<char>)
    ensures Decode([27 as char, '[', 'A'] + rest) == [Up] + Decode(rest)
    ensures Decode([27 as char, '[', 'B'] + rest) == [Down] + Decode(rest)
    ensures Decode([27 as char, '[', 'C'] + rest) == [Right] + Decode(rest)
    ensures Decode([27 as char, '[', 'D'] + rest) == [Left] + Decode(rest)
  {
    assert ([27 as char, '[', 'A'] + rest)[3..] == rest;
    assert ([27 as char, '[', 'B'] + rest)[3..] == rest;
    assert ([27 as char, '[', 'C'] + rest)[3..] == rest;
    assert ([27 as char, '[', 'D'] + rest)[3..] == rest;
  }

  /** The legacy `processCommand`: it recognises no command at all. */
  function ProcessCommand(input: string): (valid: bool)
    ensures !valid
  {
    false
  }

  /** The lines the worker appends for a submitted line. */
  function WorkerLines(input: string): (lines: seq<string>)
    ensures ProcessCommand(input) ==> lines == []
    ensures !ProcessCommand(input) ==> lines == ["Invalid command: " + input]
  {
    if ProcessCommand(input) then [] else ["Invalid command: " + input]
  }

  /** The main loop's state: the globals `logs`, `positionAway`, `logScrolledLeft` and the local `input`. */
  datatype Terminal = Terminal(logs: seq<string>, away: nat, left: nat, input: string)

  /** The ArrowUp guard `positionAway < logs.size() - maxLogRows`, evaluated in `size_t`. */
  predicate UpAllowed(away: nat, size: nat, maxLogRows: int) {
    away < (size - maxLogRows) % SIZE_MODULUS
  }

  /** One key of the main loop; the worker's line is appended in the same step. */
  function Press(t: Terminal, k: Key, maxLogRows: int): Terminal {
    match k
    case Enter =>
      if t.input == [] then t
      else Terminal(t.logs + ["> " + t.input] + WorkerLines(t.input), 0, 0, [])
    case Erase =>
      if t.input == [] then t else t.(input := t.input[..|t.input| - 1])
    case Type(c) => t.(input := t.input + [c])
    case Up => if UpAllowed(t.away, |t.logs|, maxLogRows) then t.(away := t.away + 1) else t
    case Down => if t.away > 0 then t.(away := t.away - 1) else t
    case Right => t.(left := t.left + 1)
    case Left => if t.left > 0 then t.(left := t.left - 1) else t
  }

  function PressAll(t: Terminal, keys: seq<Key>, maxLogRows: int): Terminal
    decreases |keys|
  {
    if keys == [] then t else PressAll(Press(t, keys[0], maxLogRows), keys[1..], maxLogRows)
  }

  /** Enter on a non-empty line logs `> line` and the worker's verdict, clears the line and
      scrolls fully back down and left; on an empty line it does nothing. */
  lemma EnterSubmits(t: Terminal, maxLogRows: int)
    ensures t.input == [] ==> Press(t, Enter, maxLogRows) == t
    ensures t.input != [] ==>
      Press(t, Enter, maxLogRows)
        == Terminal(t.logs + ["> " + t.input, "Invalid command: " + t.input], 0, 0, [])
  {
  }

  /** Typing a character and erasing it gives back the same state. */
  lemma TypeThenErase(t: Terminal, c: char, maxLogRows: int)
    ensures Press(Press(t, Type(c), maxLogRows), Erase, maxLogRows) == t
  {
    assert (t.input + [c])[..|t.input|] == t.input;
  }

  /** Erase removes exactly the last character, and only when there is one. */
  lemma EraseRemovesLast(t: Terminal, maxLogRows: int)
    ensures var t' := Press(t, Erase, maxLogRows);
            t'.logs == t.logs && t'.away == t.away && t'.left == t.left
            && (t.input == [] ==> t'.input == [])
            && (t.input != [] ==> t'.input + [t.input[|t.input| - 1]] == t.input)
  {
  }

  /** Scroll keys move one offset by one and touch nothing else; Down and Left stop at 0. */
  lemma ScrollKeys(t: Terminal, maxLogRows: int)
    ensures Press(t, Right, maxLogRows) == t.(left := t.left + 1)
    ensures Press(t, Left, maxLogRows) == t.(left := if t.left == 0 then 0 else t.left - 1)
    ensures Press(t, Down, maxLogRows) == t.(away := if t.away == 0 then 0 else t.away - 1)
    ensures Press(t, Up, maxLogRows).logs == t.logs && Press(t, Up, maxLogRows).input == t.input
    ensures Press(t, Up, maxLogRows).left == t.left
  {
  }

  /** With at least a screenful of lines, Up moves the view only while lines remain hidden above. */
  lemma UpOnFullLog(t: Terminal, maxLogRows: int)
    requires 0 <= maxLogRows <= |t.logs| < SIZE_MODULUS
    ensures Press(t, Up, maxLogRows).away
            == if t.away < |t.logs| - maxLogRows then t.away + 1 else t.away
  {
  }

  /** When the log is shorter than the screen the `size_t` subtraction wraps, so Up keeps
      incrementing the offset (the window is unaffected, see ShortLogIgnoresOffset). */
  lemma UpWrapsOnShortLog(t: Terminal, maxLogRows: int)
    requires 0 <= |t.logs| < maxLogRows
    requires t.away + maxLogRows - |t.logs| < SIZE_MODULUS
    ensures Press(t, Up, maxLogRows).away == t.away + 1
  {
  }

  /** The scroll range invariant: with a screenful of lines, the offset never exceeds the
      number of hidden lines, whatever keys are pressed. */
  predicate InRange(t: Terminal, maxLogRows: int) {
    0 <= maxLogRows <= |t.logs| && t.away <= |t.logs| - maxLogRows
  }

  lemma InRangeKept(t: Terminal, k: Key, maxLogRows: int)
    requires InRange(t, maxLogRows)
    ensures InRange(Press(t, k, maxLogRows), maxLogRows)
  {
    var hidden := |t.logs| - maxLogRows;
    assert hidden % SIZE_MODULUS <= hidden;
  }

  lemma {:induction false} InRangeKeptAll(t: Terminal, keys: seq<Key>, maxLogRows: int)
    requires InRange(t, maxLogRows)
    ensures InRange(PressAll(t, keys, maxLogRows), maxLogRows)
    decreases |keys|
  {
    if keys != [] {
      InRangeKept(t, keys[0], maxLogRows);
      InRangeKeptAll(Press(t, keys[0], maxLogRows), keys[1..], maxLogRows);
    }
  }

  class LegacyTerminal {
    var logs: seq<string>
    var positionAway: nat
    var logScrolledLeft: nat
    var input: string

    function State(): Terminal
      reads this
    {
      Terminal(logs, positionAway, logScrolledLeft, input)
    }

    constructor ()
      ensures State() == Terminal([], 0, 0, [])
    {
      logs, positionAway, logScrolledLeft, input := [], 0, 0, [];
    }

    /** The log panel of one frame, printed row by row. */
    method Window(maxLogRows: int) returns (rows: seq<LogRow>)
      ensures rows == LogWindow(logs, positionAway, logScrolledLeft, maxLogRows)
    {
      var size := |logs|;
      var toShow := if size < maxLogRows then size else maxLogRows;
      var start := if size - toShow - positionAway > 0 then size - toShow - positionAway else 0;
      var topPadding := maxLogRows - toShow;
      var padding := BlankRows(topPadding);
      var lines := NumberedLines(logs, start, start + toShow, logScrolledLeft);
      rows := padding + lines;
    }

    /** The worker thread, run to completion: log the verdict on the submitted line. */
    method Worker(line: string)
      modifies this
      ensures logs == old(logs) + WorkerLines(line)
      ensures positionAway == old(positionAway) && logScrolledLeft == old(logScrolledLeft)
      ensures input == old(input)
    {
      var valid := ProcessCommand(line);
      if !valid {
        logs := logs + ["Invalid command: " + line];
      }
    }

    /** One key of the main loop. */
    method PressKey(k: Key, maxLogRows: int)
      modifies this
      ensures State() == Press(old(State()), k, maxLogRows)
    {
      match k
      case Enter =>
        if input != [] {
          logs := logs + ["> " + input];
          var line := input;
          input := [];
          positionAway := 0;
          logScrolledLeft := 0;
          Worker(line);
        }
      case Erase =>
        if input != [] {
          input := input[..|input| - 1];
        }
      case Type(c) =>
        input := input + [c];
      case Up =>
        if positionAway < (|logs| - maxLogRows) % SIZE_MODULUS {
          positionAway := positionAway + 1;
        }
      case Down =>
        if positionAway > 0 {
          positionAway := positionAway - 1;
        }
      case Right =>
        logScrolledLeft := logScrolledLeft + 1;
      case Left =>
        if logScrolledLeft > 0 {
          logScrolledLeft := logScrolledLeft - 1;
        }
    }

    /** The main loop over the bytes typed at the keyboard. */
    method Feed(bytes: seq<char>, maxLogRows: int)
      modifies this
      ensures State() == PressAll(old(State()), Decode(bytes), maxLogRows)
    {
      var keys := Decode(bytes);
      var i := 0;
      while i < |keys|
        invariant 0 <= i <= |keys|
        invariant PressAll(State(), keys[i..], maxLogRows) == PressAll(old(State()), keys, maxLogRows)
      {
        assert keys[i..][1..] == keys[i + 1..];
        PressKey(keys[i], maxLogRows);
        i := i + 1;
      }
    }
  }
}
