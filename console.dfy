/** The console of the current dashboard (main.cpp): the log with its pinned scroll position and
    four-row window, the command dispatcher, the keyboard event handler, and the global state
    they share, including the signal history that the graph trims. */
module Console {
  import opened Text
  import Tokenizer
  import Graph

  const VISIBLE_LOG_LINES: nat := 4

  /** `std::size_t` arithmetic wraps modulo 2^64. */
  const SIZE_MODULUS: int := 0x1_0000_0000_0000_0000

  /** The log lines and how many lines the view is scrolled up from the bottom. */
  datatype LogView = LogView(output: seq<string>, away: nat)

  /** `log`: one more line at the end; a scrolled view moves up with it so it shows the same lines. */
  function Logged(v: LogView, line: string): (r: LogView)
    ensures |r.output| == |v.output| + 1 && r.output[..|v.output|] == v.output
    ensures r.output[|v.output|] == line
    ensures r.away == if v.away == 0 then 0 else v.away + 1
  {
    LogView(v.output + [line], if v.away != 0 then v.away + 1 else 0)
  }

  function LoggedAll(v: LogView, lines: seq<string>): LogView
    decreases |lines|
  {
    if lines == [] then v else LoggedAll(Logged(v, lines[0]), lines[1..])
  }

  /** Logging several lines appends them in order and bumps a scrolled view by their number. */
  lemma {:induction false} LoggedAllAppends(v: LogView, lines: seq<string>)
    ensures LoggedAll(v, lines).output == v.output + lines
    ensures LoggedAll(v, lines).away == if v.away == 0 then 0 else v.away + |lines|
    decreases |lines|
  {
    if lines != [] {
      LoggedAllAppends(Logged(v, lines[0]), lines[1..]);
      assert v.output + lines == (v.output + [lines[0]]) + lines[1..];
    }
  }

  lemma {:induction false} LoggedAllSnoc(v: LogView, lines: seq<string>, line: string)
    ensures LoggedAll(v, lines + [line]) == Logged(LoggedAll(v, lines), line)
    decreases |lines|
  {
    if lines == [] {
      assert [] + [line] == [line];
      LoggedOne(v, line);
    } else {
      assert (lines + [line])[1..] == lines[1..] + [line];
      LoggedAllSnoc(Logged(v, lines[0]), lines[1..], line);
    }
  }

  lemma LoggedOne(v: LogView, line: string)
    ensures LoggedAll(v, [line]) == Logged(v, line)
  {
    assert [line][1..] == [];
  }

  /** `log(indent, s)`: four spaces per indent level, then `s`. */
  function Indented(indent: nat, line: string): (r: string)
    ensures |r| == 4 * indent + |line| && r[4 * indent..] == line
    ensures forall i :: 0 <= i < 4 * indent ==> r[i] == ' '
  {
    Spaces(4 * indent) + line
  }

  // ---------------------------------------------------------------- the log window

  function WindowStart(n: nat): nat {
    if n > VISIBLE_LOG_LINES then n - VISIBLE_LOG_LINES else 0
  }

  /** The window's loop reads only lines that exist: the offset is at most the number of lines,
      or the log is empty and the loop's bounds coincide. */
  predicate WindowDefined(v: LogView) {
    |v.output| < SIZE_MODULUS && (v.away <= |v.output| || v.output == [])
  }

  /** The numbered lines the window's loop produces: indices from `start - away` up to
      `size - away`, both computed in `size_t`. */
  function Shown(v: LogView): (r: seq<LogRow>)
    requires WindowDefined(v)
    ensures |r| <= VISIBLE_LOG_LINES
  {
    var n := |v.output|;
    var first := (WindowStart(n) - v.away) % SIZE_MODULUS;
    var end := (n - v.away) % SIZE_MODULUS;
    if first < end then
      WindowBounds(v);
      NumberedLines(v.output, first, end)
    else []
  }

  /** Lines `first` to `end - 1`, each numbered from 1. */
  function NumberedLines(lines: seq<string>, first: nat, end: nat): (r: seq<LogRow>)
    requires first <= end <= |lines|
    ensures |r| == end - first
    ensures forall k :: 0 <= k < end - first ==> r[k] == Numbered(first + k + 1, lines[first + k])
  {
    seq(end - first, k requires 0 <= k < end - first => Numbered(first + k + 1, lines[first + k]))
  }

  /** The window's loop: appends the numbered lines one at a time. */
  method NumberLines(lines: seq<string>, first: nat, end: nat) returns (rows: seq<LogRow>)
    requires first <= end <= |lines|
    ensures rows == NumberedLines(lines, first, end)
  {
    rows := [];
    var i := first;
    while i < end
      invariant first <= i <= end
      invariant rows == NumberedLines(lines, first, i)
    {
      rows := rows + [Numbered(i + 1, lines[i])];
      i := i + 1;
    }
  }

  /** The window's padding loop: blank rows on top until there are four. */
  method PadWindow(shown: seq<LogRow>) returns (rows: seq<LogRow>)
    requires |shown| <= VISIBLE_LOG_LINES
    ensures rows == Blanks(VISIBLE_LOG_LINES - |shown|) + shown
  {
    rows := shown;
    while |rows| < VISIBLE_LOG_LINES
      invariant |shown| <= |rows| <= VISIBLE_LOG_LINES
      invariant rows == Blanks(|rows| - |shown|) + shown
    {
      rows := [Blank] + rows;
    }
  }

  /** The loop runs only when the offset is within `start`; otherwise the wrapped lower bound
      lies above the upper one. */
  lemma WindowBounds(v: LogView)
    requires WindowDefined(v)
    ensures var n := |v.output|;
      var first := (WindowStart(n) - v.away) % SIZE_MODULUS;
      var end := (n - v.away) % SIZE_MODULUS;
      first < end ==> v.away <= WindowStart(n) && first == WindowStart(n) - v.away && end == n - v.away
  {
    var n := |v.output|;
    if n > 0 && v.away > WindowStart(n) {
      assert (WindowStart(n) - v.away) % SIZE_MODULUS == WindowStart(n) - v.away + SIZE_MODULUS;
      assert (n - v.away) % SIZE_MODULUS == n - v.away;
    }
  }

  /** The four log rows of a frame: blanks on top of the shown lines. */
  function WindowOf(v: LogView): (rows: seq<LogRow>)
    requires WindowDefined(v)
    ensures |rows| == VISIBLE_LOG_LINES
  {
    Blanks(VISIBLE_LOG_LINES - |Shown(v)|) + Shown(v)
  }

  /** A full log scrolled within range shows lines `N-4-p` through `N-1-p`, numbered from 1. */
  lemma WindowOfFullLog(v: LogView)
    requires |v.output| < SIZE_MODULUS
    requires VISIBLE_LOG_LINES <= |v.output| && v.away <= |v.output| - VISIBLE_LOG_LINES
    ensures forall r :: 0 <= r < VISIBLE_LOG_LINES ==>
      var i := |v.output| - VISIBLE_LOG_LINES - v.away + r;
      WindowOf(v)[r] == Numbered(i + 1, v.output[i])
  {
    assert |Shown(v)| == VISIBLE_LOG_LINES;
  }

  /** A log shorter than the window, unscrolled, shows all its lines under blank rows. */
  lemma WindowOfShortLog(v: LogView)
    requires |v.output| < VISIBLE_LOG_LINES && v.away == 0
    ensures var pad := VISIBLE_LOG_LINES - |v.output|;
      (forall r :: 0 <= r < pad ==> WindowOf(v)[r] == Blank) &&
      (forall r :: pad <= r < VISIBLE_LOG_LINES ==> WindowOf(v)[r] == Numbered(r - pad + 1, v.output[r - pad]))
  {
    assert |Shown(v)| == |v.output|;
  }

  /** Scrolled above the first line (possible on a short log, see `ScrollUp`), the window is blank. */
  lemma WindowAboveTop(v: LogView)
    requires WindowDefined(v) && v.away > WindowStart(|v.output|)
    ensures WindowOf(v) == Blanks(VISIBLE_LOG_LINES)
  {
    WindowBounds(v);
    assert Shown(v) == [];
    assert Blanks(VISIBLE_LOG_LINES) + [] == Blanks(VISIBLE_LOG_LINES);
  }

  /** The invariant the handlers keep: either following the bottom, or scrolled within range. */
  predicate Pinned(v: LogView) {
    v.away == 0 || v.away + VISIBLE_LOG_LINES <= |v.output|
  }

  lemma PinnedIsDefined(v: LogView)
    requires Pinned(v) && |v.output| < SIZE_MODULUS
    ensures WindowDefined(v)
  {
  }

  /** A scrolled view stays put while lines are logged. */
  lemma WindowStaysPinned(v: LogView, line: string)
    requires Pinned(v) && v.away > 0 && |v.output| + 1 < SIZE_MODULUS
    ensures Pinned(Logged(v, line)) && WindowDefined(Logged(v, line))
    ensures WindowOf(Logged(v, line)) == WindowOf(v)
  {
    var w := Logged(v, line);
    var n := |v.output|;
    assert WindowStart(n) - v.away == WindowStart(n + 1) - w.away;
    assert |Shown(v)| == VISIBLE_LOG_LINES == |Shown(w)|;
    forall k | 0 <= k < VISIBLE_LOG_LINES
      ensures Shown(w)[k] == Shown(v)[k]
    {
      assert w.output[WindowStart(n) - v.away + k] == v.output[WindowStart(n) - v.away + k];
    }
  }

  lemma {:induction false} WindowStaysPinnedAll(v: LogView, lines: seq<string>)
    requires Pinned(v) && v.away > 0 && |v.output| + |lines| < SIZE_MODULUS
    ensures Pinned(LoggedAll(v, lines)) && WindowDefined(LoggedAll(v, lines))
    ensures WindowOf(LoggedAll(v, lines)) == WindowOf(v)
    decreases |lines|
  {
    if lines != [] {
      WindowStaysPinned(v, lines[0]);
      WindowStaysPinnedAll(Logged(v, lines[0]), lines[1..]);
    }
  }

  // ---------------------------------------------------------------- commands

  /** The calls `processCommand` makes into the driver. */
  datatype DeviceCall =
    | NoCall
    | PowerOn
    | PowerOff
    | Connect(ssid: string, password: string)
    | Associate(ssid: string, password: string)
    | Disassociate(ssid: string)

  /** What running one command does: whether its action exists, the lines it logs, the driver
      call it makes, and whether it stops the program. */
  datatype Outcome = Outcome(valid: bool, lines: seq<string>, call: DeviceCall, exits: bool)

  /** The actions of the command table, by the first token. */
  datatype Action = Help | Exit | Echo | Power | ConnectAction | AssociateAction | DisassociateAction | Unknown

  function ActionOf(word: string): (a: Action)
    ensures a == Unknown <==> word !in {"help", "exit", "e", "echo", "power", "connect", "associate", "disassociate"}
    ensures a == Exit <==> word == "exit" || word == "e"
    ensures a == Power <==> word == "power"
  {
    if word == "help" then Help
    else if word == "exit" || word == "e" then Exit
    else if word == "echo" then Echo
    else if word == "power" then Power
    else if word == "connect" then ConnectAction
    else if word == "associate" then AssociateAction
    else if word == "disassociate" then DisassociateAction
    else Unknown
  }

  predicate KnownAction(word: string) {
    word in {"help", "exit", "e", "echo", "power", "connect", "associate", "disassociate"}
  }

  const USAGE_HEADING: string := "Usage:"
  const USAGE_HELP: string := "help                                Print this help message"
  const USAGE_EXIT: string := "exit/e                              Peacefully exit my tool"
  const USAGE_POWER: string := "power [status]                      Turn WiFi on or off. 'status' can be 'on' or 'off'."
  const USAGE_CONNECT: string := "connect [ssid] [password]           Connect to a WiFi network."
  const USAGE_ASSOCIATE: string := "associate [ssid] [password]         Associate a WiFi network."
  const USAGE_DISASSOCIATE: string := "disassociate [ssid]                 Disassociate a WiFi network."

  const FAREWELL: string := "Thanks for stopping by!"
  const BAD_POWER_STATE: string := "State must be 'on' or 'off'."
  const POWER_NEEDS_ARGUMENT: string := "Command 'power' needs 1 argument."

  /** `usage`: a heading, then one indented line per command. */
  function UsageLines(): (r: seq<string>)
    ensures |r| == 7 && r[0] == USAGE_HEADING
    ensures forall k :: 1 <= k < 7 ==> |r[k]| > 4 && r[k][..4] == "    "
  {
    [USAGE_HEADING, Indented(1, USAGE_HELP), Indented(1, USAGE_EXIT), Indented(1, USAGE_POWER),
     Indented(1, USAGE_CONNECT), Indented(1, USAGE_ASSOCIATE), Indented(1, USAGE_DISASSOCIATE)]
  }

  function EchoLine(extra: int): string {
    "Received command of 'echo' with " + IntToString(extra) + " extra arguments"
  }

  function PowerLine(status: string, result: int): string {
    "Power turned " + status + " with status " + IntToString(result) + "."
  }

  function ConnectLine(ssid: string, password: string): string {
    "Connecting to network '" + ssid + "' with password '" + password + "'..."
  }

  function AssociateLine(ssid: string, password: string): string {
    "Associating network '" + ssid + "' with password '" + password + "'..."
  }

  function DisassociateLine(ssid: string): string {
    "Disassociating network '" + ssid + "'..."
  }

  /** What `processCommand` may be given: a first token exists, and `power` has its argument
      (`command[1]` is read whenever there are at most two tokens). */
  predicate Dispatchable(command: seq<string>) {
    |command| >= 1 && !(command[0] == "power" && |command| == 1)
  }

  function PowerOutcome(command: seq<string>, powerResult: int): Outcome
    requires |command| >= 2
  {
    if |command| <= 2 then
      var status := command[1];
      if status == "on" then Outcome(true, [PowerLine(status, powerResult)], PowerOn, false)
      else if status == "off" then Outcome(true, [PowerLine(status, powerResult)], PowerOff, false)
      else Outcome(true, [BAD_POWER_STATE], NoCall, false)
    else Outcome(true, [POWER_NEEDS_ARGUMENT], NoCall, false)
  }

  /** `processCommand` on the tokens of the trimmed line; `powerResult` is what `power_on` or
      `power_off` returns when called. */
  function Dispatch(command: seq<string>, powerResult: int): (out: Outcome)
    requires Dispatchable(command)
  {
    match ActionOf(command[0])
    case Help => Outcome(true, UsageLines(), NoCall, false)
    case Exit => Outcome(true, [FAREWELL], NoCall, true)
    case Echo => Outcome(true, [EchoLine(|command| - 1)], NoCall, false)
    case Power => PowerOutcome(command, powerResult)
    case ConnectAction =>
      if |command| >= 3 then Outcome(true, [ConnectLine(command[1], command[2])], Connect(command[1], command[2]), false)
      else Outcome(true, [], NoCall, false)
    case AssociateAction =>
      if |command| >= 3 then Outcome(true, [AssociateLine(command[1], command[2])], Associate(command[1], command[2]), false)
      else Outcome(true, [], NoCall, false)
    case DisassociateAction =>
      if |command| >= 2 then Outcome(true, [DisassociateLine(command[1])], Disassociate(command[1]), false)
      else Outcome(true, [], NoCall, false)
    case Unknown => Outcome(false, [], NoCall, false)
  }

  /** A command is valid exactly when its first token is a known action, it exits exactly on
      `exit` or `e`, and an invalid one logs nothing and calls nothing. */
  lemma DispatchVerdict(command: seq<string>, powerResult: int)
    requires Dispatchable(command)
    ensures var out := Dispatch(command, powerResult);
      (out.valid <==> KnownAction(command[0])) &&
      (out.exits <==> command[0] == "exit" || command[0] == "e") &&
      (!out.valid ==> out.lines == [] && out.call == NoCall)
  {
  }

  /** A driver call is made only once its arguments are there, and carries exactly them. */
  lemma DeviceCallsNeedArguments(command: seq<string>, powerResult: int)
    requires Dispatchable(command)
    ensures var call := Dispatch(command, powerResult).call;
      (call == PowerOn <==> command == ["power", "on"]) &&
      (call == PowerOff <==> command == ["power", "off"]) &&
      (call.Connect? <==> command[0] == "connect" && |command| >= 3) &&
      (call.Associate? <==> command[0] == "associate" && |command| >= 3) &&
      (call.Disassociate? <==> command[0] == "disassociate" && |command| >= 2) &&
      (call.Connect? || call.Associate? ==> call.ssid == command[1] && call.password == command[2]) &&
      (call.Disassociate? ==> call.ssid == command[1])
  {
    if command[0] == "power" && |command| == 2 {
      assert command == ["power", command[1]];
    }
  }

  /** The argument-count errors: `power` with extra arguments says so; `connect`, `associate`
      and `disassociate` without enough of them log nothing and call nothing. */
  lemma ArgumentCountErrors(command: seq<string>, powerResult: int)
    requires Dispatchable(command)
    ensures command[0] == "power" && |command| > 2 ==>
      Dispatch(command, powerResult) == Outcome(true, [POWER_NEEDS_ARGUMENT], NoCall, false)
    ensures command[0] == "power" && |command| == 2 && command[1] != "on" && command[1] != "off" ==>
      Dispatch(command, powerResult) == Outcome(true, [BAD_POWER_STATE], NoCall, false)
    ensures (command[0] == "connect" || command[0] == "associate") && |command| < 3 ==>
      Dispatch(command, powerResult) == Outcome(true, [], NoCall, false)
    ensures command[0] == "disassociate" && |command| < 2 ==>
      Dispatch(command, powerResult) == Outcome(true, [], NoCall, false)
  {
  }

  /** Every known command logs one line, except `help` (seven) and a device command that lacks
      arguments (none). */
  lemma LinesPerCommand(command: seq<string>, powerResult: int)
    requires Dispatchable(command) && KnownAction(command[0])
    ensures var out := Dispatch(command, powerResult);
      |out.lines| == if command[0] == "help" then 7
                     else if (command[0] == "connect" || command[0] == "associate") && |command| < 3 then 0
                     else if command[0] == "disassociate" && |command| < 2 then 0
                     else 1
  {
  }

  // ---------------------------------------------------------------- events

  /** The console state the event handler changes: the log view, the input line and the flag
      the refresher thread polls. */
  datatype Dash = Dash(view: LogView, input: string, running: bool)

  /** The tokens `processCommand` reads from a line. */
  function Command(input: string): seq<string> {
    Tokenizer.Tokens(Trim(input))
  }

  /** What Return may be given: a blank line, or one whose tokens `processCommand` can read. */
  predicate Submittable(input: string) {
    Trim(input) == [] || Dispatchable(Command(input))
  }

  /** The state after a non-blank line has been run with outcome `out`. */
  function Reported(d: Dash, out: Outcome): Dash {
    var echoed := LoggedAll(Logged(d.view, "> " + d.input), out.lines);
    var reported := if out.valid then echoed else Logged(echoed, "Invalid command: " + d.input);
    Dash(LogView(reported.output, 0), "", d.running && !out.exits)
  }

  /** Return: a blank line is ignored; otherwise the line is echoed, run, reported as invalid
      when its action is unknown, and cleared, and the view jumps to the bottom. */
  function Submit(d: Dash, powerResult: int): Dash
    requires Submittable(d.input)
  {
    if Trim(d.input) == [] then d else Reported(d, Dispatch(Command(d.input), powerResult))
  }

  function SubmitCall(d: Dash, powerResult: int): DeviceCall
    requires Submittable(d.input)
  {
    if Trim(d.input) == [] then NoCall else Dispatch(Command(d.input), powerResult).call
  }

  /** A non-blank line is reported with the outcome of its dispatch. */
  lemma SubmitIsReported(d: Dash, powerResult: int)
    requires Submittable(d.input) && Trim(d.input) != []
    ensures var out := Dispatch(Command(d.input), powerResult);
      Submit(d, powerResult) == Reported(d, out) && SubmitCall(d, powerResult) == out.call
  {
  }

  lemma SubmitBlankIsIgnored(d: Dash, powerResult: int)
    requires Trim(d.input) == []
    ensures Submit(d, powerResult) == d && SubmitCall(d, powerResult) == NoCall
  {
  }

  lemma ReportedLogs(d: Dash, out: Outcome)
    ensures var e := Reported(d, out);
      e.view.output == d.view.output + ["> " + d.input] + out.lines +
                       (if out.valid then [] else ["Invalid command: " + d.input]) &&
      e.view.away == 0 && e.input == "" && e.running == (d.running && !out.exits)
  {
    LoggedAllAppends(Logged(d.view, "> " + d.input), out.lines);
  }

  /** Return on a non-blank line logs `"> " + line`, the command's lines, and for an unknown
      action `"Invalid command: " + line`; the input is cleared and the view is at the bottom. */
  lemma SubmitLogs(d: Dash, powerResult: int)
    requires Trim(d.input) != [] && Submittable(d.input)
    ensures var out := Dispatch(Command(d.input), powerResult);
      var e := Submit(d, powerResult);
      e.view.output == d.view.output + ["> " + d.input] + out.lines +
                       (if out.valid then [] else ["Invalid command: " + d.input]) &&
      e.view.away == 0 && e.input == "" && e.running == (d.running && !out.exits)
  {
    ReportedLogs(d, Dispatch(Command(d.input), powerResult));
  }

  /** An unknown action adds exactly two lines: the echo and the invalid-command report. */
  lemma SubmitUnknownAction(d: Dash, powerResult: int)
    requires Trim(d.input) != [] && Submittable(d.input)
    requires !KnownAction(Command(d.input)[0])
    ensures Submit(d, powerResult).view.output == d.view.output + ["> " + d.input, "Invalid command: " + d.input]
    ensures SubmitCall(d, powerResult) == NoCall
  {
    var out := Outcome(false, [], NoCall, false);
    UnknownIsInvalid(Command(d.input), powerResult);
    SubmitIsReported(d, powerResult);
    ReportedLogs(d, out);
    AppendPair(d.view.output, "> " + d.input, "Invalid command: " + d.input);
  }

  lemma AppendPair<T>(s: seq<T>, a: T, b: T)
    ensures s + [a] + [] + [b] == s + [a, b]
  {
    assert (s + [a] + [] + [b])[|s| + 1] == b;
  }

  /** An unknown action is reported as invalid and does nothing else. */
  lemma UnknownIsInvalid(command: seq<string>, powerResult: int)
    requires Dispatchable(command) && !KnownAction(command[0])
    ensures Dispatch(command, powerResult) == Outcome(false, [], NoCall, false)
  {
  }

  /** ArrowUp as written: the bound `size - 4` is computed in `size_t`, so on a log of fewer than
      four lines it wraps to nearly 2^64 and does not stop the increment. */
  function ScrollUp(v: LogView): LogView {
    if v.away < (|v.output| - VISIBLE_LOG_LINES) % SIZE_MODULUS then v.(away := v.away + 1) else v
  }

  /** ArrowUp as evidently intended: scroll only while a hidden line remains above the window. */
  function ScrollUpIntended(v: LogView): LogView {
    if |v.output| >= VISIBLE_LOG_LINES && v.away < |v.output| - VISIBLE_LOG_LINES then v.(away := v.away + 1) else v
  }

  function ScrollDown(v: LogView): LogView {
    if v.away > 0 then v.(away := v.away - 1) else v
  }

  /** The keyboard events the handler distinguishes; `Edit` is any event the input field turns
      into a new input line. */
  datatype Event = Return | ArrowUp | ArrowDown | Edit(text: string)

  function Step(d: Dash, e: Event, powerResult: int): Dash
    requires e == Return ==> Submittable(d.input)
  {
    match e
    case Return => Submit(d, powerResult)
    case ArrowUp => d.(view := ScrollUp(d.view))
    case ArrowDown => d.(view := ScrollDown(d.view))
    case Edit(text) => d.(input := text)
  }

  /** On a log with at least four lines the written guard is the intended one. */
  lemma ScrollUpOnFullLog(v: LogView)
    requires VISIBLE_LOG_LINES <= |v.output| < SIZE_MODULUS
    ensures ScrollUp(v) == ScrollUpIntended(v)
  {
  }

  /** Every event keeps the view pinned, provided ArrowUp comes on a log of at least four lines. */
  lemma StepKeepsPinned(d: Dash, e: Event, powerResult: int)
    requires Pinned(d.view) && |d.view.output| < SIZE_MODULUS
    requires e == Return ==> Submittable(d.input)
    requires e == ArrowUp ==> |d.view.output| >= VISIBLE_LOG_LINES
    ensures Pinned(Step(d, e, powerResult).view)
  {
  }

  /** The intended guard keeps the view pinned on every log. */
  lemma IntendedScrollKeepsPinned(v: LogView)
    requires Pinned(v)
    ensures Pinned(ScrollUpIntended(v))
  {
  }

  /** The event handler with the intended ArrowUp guard. */
  function StepIntended(d: Dash, e: Event, powerResult: int): Dash
    requires e == Return ==> Submittable(d.input)
  {
    if e == ArrowUp then d.(view := ScrollUpIntended(d.view)) else Step(d, e, powerResult)
  }

  /** With the intended guard every event keeps the view pinned, on logs of any length. */
  lemma IntendedStepKeepsPinned(d: Dash, e: Event, powerResult: int)
    requires Pinned(d.view)
    requires e == Return ==> Submittable(d.input)
    ensures Pinned(StepIntended(d, e, powerResult).view)
  {
  }

  /** The two handlers differ only on a log shorter than the window. */
  lemma StepsAgreeOnFullLog(d: Dash, e: Event, powerResult: int)
    requires VISIBLE_LOG_LINES <= |d.view.output| < SIZE_MODULUS
    requires e == Return ==> Submittable(d.input)
    ensures StepIntended(d, e, powerResult) == Step(d, e, powerResult)
  {
  }

  /** With two lines logged, three ArrowUps take the offset past the number of lines, and the next
      frame's window loop would read outside `output`. */
  lemma ShortLogScrollOverrun(v: LogView)
    requires |v.output| == 2 && v.away == 0
    ensures ScrollUp(ScrollUp(ScrollUp(v))).away == 3
    ensures !WindowDefined(ScrollUp(ScrollUp(ScrollUp(v))))
    ensures ScrollUpIntended(ScrollUpIntended(ScrollUpIntended(v))) == v
  {
    assert (|v.output| - VISIBLE_LOG_LINES) % SIZE_MODULUS == SIZE_MODULUS - 2;
  }

  // ---------------------------------------------------------------- the global state

  /** The globals of main.cpp that the console and the graph share, with `input_str`, the local
      of `main` that the event handler captures by reference. */
  class Dashboard {
    var output: seq<string>
    var positionAway: nat
    var inputStr: string
    var running: bool
    var signalStrengths: seq<int>

    function View(): LogView
      reads this
    {
      LogView(output, positionAway)
    }

    function State(): Dash
      reads this
    {
      Dash(View(), inputStr, running)
    }

    constructor ()
      ensures State() == Dash(LogView([], 0), "", false) && signalStrengths == []
    {
      output := [];
      positionAway := 0;
      inputStr := "";
      running := false;
      signalStrengths := [];
    }

    method Log(line: string)
      modifies this
      ensures View() == Logged(old(View()), line)
      ensures inputStr == old(inputStr) && running == old(running) && signalStrengths == old(signalStrengths)
    {
      if positionAway != 0 {
        positionAway := positionAway + 1;
      }
      output := output + [line];
    }

    method LogIndented(indent: nat, line: string)
      modifies this
      ensures View() == Logged(old(View()), Indented(indent, line))
      ensures inputStr == old(inputStr) && running == old(running) && signalStrengths == old(signalStrengths)
    {
      var spaces := Spaces(indent * 4);
      Log(spaces + line);
    }

    method Usage()
      modifies this
      ensures View() == LoggedAll(old(View()), UsageLines())
      ensures inputStr == old(inputStr) && running == old(running) && signalStrengths == old(signalStrengths)
    {
      ghost var v := View();
      Log(USAGE_HEADING);
      LoggedOne(v, USAGE_HEADING);
      ghost var lines := [USAGE_HEADING];
      lines := LogNext(v, lines, USAGE_HELP);
      lines := LogNext(v, lines, USAGE_EXIT);
      lines := LogNext(v, lines, USAGE_POWER);
      lines := LogNext(v, lines, USAGE_CONNECT);
      lines := LogNext(v, lines, USAGE_ASSOCIATE);
      lines := LogNext(v, lines, USAGE_DISASSOCIATE);
      assert lines == UsageLines();
    }

    /** One indented usage line more, on a log that already holds `lines` since `v`. */
    method LogNext(ghost v: LogView, ghost lines: seq<string>, line: string) returns (ghost more: seq<string>)
      requires View() == LoggedAll(v, lines)
      modifies this
      ensures more == lines + [Indented(1, line)] && View() == LoggedAll(v, more)
      ensures inputStr == old(inputStr) && running == old(running) && signalStrengths == old(signalStrengths)
    {
      LogIndented(1, line);
      more := lines + [Indented(1, line)];
      LoggedAllSnoc(v, lines, Indented(1, line));
    }

    /** `processCommand`: tokenize the trimmed line, then act on the first token. */
    method ProcessCommand(input: string, powerResult: int) returns (valid: bool, call: DeviceCall)
      requires Dispatchable(Command(input))
      modifies this
      ensures var out := Dispatch(Command(input), powerResult);
        valid == out.valid && call == out.call && View() == LoggedAll(old(View()), out.lines) &&
        running == (old(running) && !out.exits)
      ensures inputStr == old(inputStr) && signalStrengths == old(signalStrengths)
    {
      var command := Tokenizer.ParseCommand(Trim(input));
      valid, call := RunCommand(command, powerResult);
    }

    /** The body of `processCommand` once the line is tokenized. */
    method RunCommand(command: seq<string>, powerResult: int) returns (valid: bool, call: DeviceCall)
      requires Dispatchable(command)
      modifies this
      ensures var out := Dispatch(command, powerResult);
        valid == out.valid && call == out.call && View() == LoggedAll(old(View()), out.lines) &&
        running == (old(running) && !out.exits)
      ensures inputStr == old(inputStr) && signalStrengths == old(signalStrengths)
    {
      var action := command[0];
      ghost var v := View();
      ghost var act := ActionOf(action);
      ghost var out := Dispatch(command, powerResult);
      valid := true;
      call := NoCall;
      if action == "help" {
        assert act == Help && out == Outcome(true, UsageLines(), NoCall, false);
        Usage();
      } else if action == "exit" || action == "e" {
        assert act == Exit && out == Outcome(true, [FAREWELL], NoCall, true);
        Log(FAREWELL);
        LoggedOne(v, FAREWELL);
        running := false;
      } else if action == "echo" {
        assert act == Echo && out == Outcome(true, [EchoLine(|command| - 1)], NoCall, false);
        Log(EchoLine(|command| - 1));
        LoggedOne(v, EchoLine(|command| - 1));
      } else if action == "power" {
        assert act == Power && out == PowerOutcome(command, powerResult);
        call := PowerCommand(command, powerResult);
      } else {
        valid, call := RunNetworkCommand(command, powerResult);
      }
    }

    /** The remaining branches of `processCommand`: the three network commands, which need their
        arguments, and an unknown action. */
    method RunNetworkCommand(command: seq<string>, powerResult: int) returns (valid: bool, call: DeviceCall)
      requires |command| >= 1 && command[0] !in {"help", "exit", "e", "echo", "power"}
      modifies this
      ensures var out := Dispatch(command, powerResult);
        valid == out.valid && call == out.call && View() == LoggedAll(old(View()), out.lines) &&
        running == (old(running) && !out.exits)
      ensures inputStr == old(inputStr) && signalStrengths == old(signalStrengths)
    {
      var action := command[0];
      ghost var v := View();
      ghost var act := ActionOf(action);
      ghost var out := Dispatch(command, powerResult);
      valid := true;
      call := NoCall;
      if action == "connect" {
        assert act == ConnectAction;
        if |command| >= 3 {
          var ssid := command[1];
          var password := command[2];
          call := Connect(ssid, password);
          Log(ConnectLine(ssid, password));
          LoggedOne(v, ConnectLine(ssid, password));
        }
      } else if action == "associate" {
        assert act == AssociateAction;
        if |command| >= 3 {
          var ssid := command[1];
          var password := command[2];
          call := Associate(ssid, password);
          Log(AssociateLine(ssid, password));
          LoggedOne(v, AssociateLine(ssid, password));
        }
      } else if action == "disassociate" {
        assert act == DisassociateAction;
        if |command| >= 2 {
          var ssid := command[1];
          call := Disassociate(ssid);
          Log(DisassociateLine(ssid));
          LoggedOne(v, DisassociateLine(ssid));
        }
      } else {
        assert act == Unknown && out == Outcome(false, [], NoCall, false);
        valid := false;
      }
    }

    /** The `power` branch of `processCommand`. */
    method PowerCommand(command: seq<string>, powerResult: int) returns (call: DeviceCall)
      requires |command| >= 2
      modifies this
      ensures var out := PowerOutcome(command, powerResult);
        call == out.call && View() == LoggedAll(old(View()), out.lines)
      ensures inputStr == old(inputStr) && running == old(running) && signalStrengths == old(signalStrengths)
    {
      ghost var v := View();
      call := NoCall;
      if |command| <= 2 {
        var status := command[1];
        if status == "on" {
          call := PowerOn;
        } else if status == "off" {
          call := PowerOff;
        } else {
          Log(BAD_POWER_STATE);
          LoggedOne(v, BAD_POWER_STATE);
          return;
        }
        Log(PowerLine(status, powerResult));
        LoggedOne(v, PowerLine(status, powerResult));
      } else {
        Log(POWER_NEEDS_ARGUMENT);
        LoggedOne(v, POWER_NEEDS_ARGUMENT);
      }
    }

    /** The `CatchEvent` handler. */
    method OnEvent(e: Event, powerResult: int) returns (call: DeviceCall)
      requires e == Return ==> Submittable(inputStr)
      modifies this
      ensures State() == Step(old(State()), e, powerResult)
      ensures call == if e == Return then SubmitCall(old(State()), powerResult) else NoCall
      ensures signalStrengths == old(signalStrengths)
    {
      call := NoCall;
      match e
      case Return =>
        if Trim(inputStr) != [] {
          SubmitIsReported(State(), powerResult);
          call := SubmitLine(powerResult);
        }
      case ArrowUp =>
        if positionAway < (|output| - VISIBLE_LOG_LINES) % SIZE_MODULUS {
          positionAway := positionAway + 1;
        }
      case ArrowDown =>
        if positionAway > 0 {
          positionAway := positionAway - 1;
        }
      case Edit(text) =>
        inputStr := text;
    }

    /** The Return branch of the event handler on a non-blank line: the line is echoed, run,
        reported as invalid when its action is unknown, and cleared, and the view jumps to the
        bottom. */
    method SubmitLine(powerResult: int) returns (call: DeviceCall)
      requires Trim(inputStr) != [] && Dispatchable(Command(inputStr))
      modifies this
      ensures State() == Reported(old(State()), Dispatch(Command(old(inputStr)), powerResult))
      ensures call == Dispatch(Command(old(inputStr)), powerResult).call
      ensures signalStrengths == old(signalStrengths)
    {
      var line := inputStr;
      Log("> " + line);
      var valid;
      valid, call := ProcessCommand(line, powerResult);
      if !valid {
        Log("Invalid command: " + line);
      }
      inputStr, positionAway := "", 0;
    }

    /** The log rows of a frame: the numbering loop over `size_t` indices, then the padding. */
    method Window() returns (rows: seq<LogRow>)
      requires WindowDefined(View())
      ensures rows == WindowOf(View())
    {
      var n := |output|;
      var start := if n > VISIBLE_LOG_LINES then n - VISIBLE_LOG_LINES else 0;
      var first := (start - positionAway) % SIZE_MODULUS;
      var end := (n - positionAway) % SIZE_MODULUS;
      ghost var v := View();
      assert start == WindowStart(|v.output|) && n - positionAway == |v.output| - v.away;
      WindowBounds(v);
      var shown := [];
      if first < end {
        shown := NumberLines(output, first, end);
        assert shown == Shown(v);
      } else {
        assert Shown(v) == [];
      }
      rows := PadWindow(shown);
    }

    /** A sample of the signal strength, taken when the sampling interval has passed. */
    method Sample(rssi: int)
      modifies this
      ensures signalStrengths == old(signalStrengths) + [rssi]
      ensures State() == old(State())
    {
      signalStrengths := signalStrengths + [rssi];
    }

    /** `makeGraph`: trims the global history to what fits, then fills `width` columns with the
        scaled samples, right-aligned, two columns per sample. */
    method MakeGraph(width: int, height: int) returns (scaled: seq<int>)
      requires width >= 0
      requires signalStrengths == [] || width >= 2
      requires Graph.Representable(Graph.Retained(signalStrengths, width), height)
      modifies this
      ensures signalStrengths == Graph.Retained(old(signalStrengths), width)
      ensures scaled == Graph.Raster(old(signalStrengths), width, height)
      ensures State() == old(State())
    {
      var kept;
      kept, scaled := Graph.Draw(signalStrengths, width, height);
      signalStrengths := kept;
    }
  }
}
