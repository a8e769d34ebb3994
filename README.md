# ItlwmCLI dashboard logic in Dafny

ItlwmCLI is a terminal dashboard for the itlwm Intel Wi-Fi driver on macOS. It has two front ends:

- the current one (`main.cpp`), built with Qt and FTXUI;
- the legacy one (`Legacy/main.cpp`), a raw-terminal loop.

Once the terminal, Qt and driver calls are set aside, what is left is the logic of both front ends, and this project models it:

- **Tokenizers.** The legacy three-state quote scanner (`LegacyTokenizer`). The current one matches the regular expression `"[^"]*"|'[^']*'|\S+` and then strips the enclosing quotes (`Tokenizer`). `Text` holds the character classes and `QString::trimmed`.
- **The log.** The log with its pinned scroll position, the four-row window and the `CatchEvent` keyboard handler (`Console`). The class `Console.Dashboard` holds the globals `output`, `positionAway`, `running` and `signalStrengths`, together with `input_str`, a local of `main` that the event handler captures by reference; its methods change them in place.
- **Command dispatch.** `processCommand` picks an action from the first token, checks the argument counts and chooses the lines to log. The driver calls (`power_on`, `connect_network`, …) become a `DeviceCall` value, and what `power_on`/`power_off` return becomes a parameter.
- **Device state.** The polled buffers of one frame, the power-off cascade that zeroes them, the sort by signal strength and the numbered, padded network panel (`Device`). `Device.DeviceState` holds the C buffers as arrays.
- **Signal labels.** The classification of RSSI readings and the labels of the stats panel (`Signal`).
- **The graph.** The signal-history raster of `makeGraph`: truncation, scaling and right-aligned two-column bars (`Graph`, plus `Console.Dashboard.MakeGraph`, which overwrites the history).
- **One frame.** The renderer's body for one frame, in its order: window, polls, cascade, stage, sort, panel and sample (`Frame`).
- **The legacy front end.** The log window with vertical and horizontal scroll, the byte-level key decoding, the key state machine and the worker that reports every command as invalid (`LegacyConsole`).

Each loop of the source is a method with loop invariants. Each method is proved against a function that specifies it, and the properties are lemmas about those functions. The C++ `size_t` arithmetic is written out modulo 2^64, and `int` division truncates toward zero (`Graph.Quot`). Undefined behaviour of the source becomes a precondition of the member that would trigger it:

- `command[1]` read when `power` has no argument;
- the window loop reading past `output`;
- `abs(INT_MIN)`;
- signed overflow in `makeGraph`;
- `min_element` on an empty vector.

## Model

| member | source | states |
|---|---|---|
| Text.Trim | main.cpp:141 | `QString::trimmed`: the result is no longer than the line and neither starts nor ends with whitespace in Qt's sense |
| Text.TrimBlank | main.cpp:141 | the trimmed line is empty exactly when every character is whitespace in Qt's sense |
| Text.AsciiSpaceIsQtSpace | main.cpp:112 | every character `\s`/`isspace` treats as whitespace is also whitespace to `QChar::isSpace`, so a trimmed non-blank line starts with a token |
| Text.WordsAreRuns | Legacy/main.cpp:71-75 | every word is a non-empty run without whitespace |
| Text.WordsOfBlank | Legacy/main.cpp:71-75 | a line that is all whitespace has no words |
| Text.TrimKeepsMiddle | main.cpp:141 | `QString::trimmed` returns a contiguous middle part of the line, and everything removed before and after it is whitespace in Qt's sense |
| Text.IntToString | main.cpp:152 | decimal text of an `int` as `QString::arg` writes it: non-empty, with a leading minus exactly for negatives |
| Text.NatToStringValue | main.cpp:152 | the decimal text of a natural number is all digits and reads back as that number |
| Text.IntToStringValue | main.cpp:152 | the text of a negative `int` is a minus followed by digits reading back as its magnitude; that of any other is digits reading back as the number |
| LegacyTokenizer.Step | Legacy/main.cpp:51-84 | one character of the scan in each of the three quoting states; the lemmas `InsideDoubleQuotes`, `InsideSingleQuotes`, `ClosingQuoteEmits` and `PlainCharsJoinToken` state its cases |
| LegacyTokenizer.Tokens | Legacy/main.cpp:44-88 | the scan over the whole line followed by the final flush; `ParseCommand` is proved equal to it and `QuoteFreeIsWords` relates it to whitespace-separated words |
| LegacyTokenizer.ParseCommand | Legacy/main.cpp:44-88 | the character loop with the two quote flags returns exactly the tokens of the scanner specification `Tokens` |
| LegacyTokenizer.QuoteFreeIsWords | Legacy/main.cpp:70-83 | on a line without quote characters the tokens are exactly the maximal whitespace-free runs, in order |
| LegacyTokenizer.BlankHasNoTokens | Legacy/main.cpp:44-88 | empty or whitespace-only input gives no tokens |
| LegacyTokenizer.InsideDoubleQuotes | Legacy/main.cpp:54-61 | inside double quotes every character except `"` is stored, whitespace and `'` included |
| LegacyTokenizer.InsideSingleQuotes | Legacy/main.cpp:62-69 | inside single quotes every character except `'` is stored |
| LegacyTokenizer.ClosingQuoteEmits | Legacy/main.cpp:55-58 | a closing quote always pushes the token, even an empty one, and returns to normal mode |
| LegacyTokenizer.QuotedGroupJoinsPrefix | Legacy/main.cpp:76-83 | text just before an opening quote joins the quoted token: `T"body"` and `T'body'` both push `T + body` |
| LegacyTokenizer.UnterminatedQuoteFlushes | Legacy/main.cpp:86 | an unterminated quote pushes what it gathered only when that is non-empty |
| LegacyTokenizer.PlainCharsJoinToken | Legacy/main.cpp:80-82 | ordinary characters in normal mode are appended to the token |
| LegacyTokenizer.RunAppend | Legacy/main.cpp:51-84 | scanning `s + t` is scanning `s` and then `t` |
| LegacyTokenizer.ExampleMixedQuotes | Legacy/main.cpp:44-88 | `a "b c" 'd e'` gives `[a, b c, d e]` |
| LegacyTokenizer.ExamplePrefixJoins | Legacy/main.cpp:76-83 | `ab"cd"` gives `[abcd]` |
| LegacyTokenizer.ExampleUnterminated | Legacy/main.cpp:86 | `a "b` gives `[a, b]` and `a "` gives `[a]` |
| LegacyTokenizer.ExampleEmptyQuotes | Legacy/main.cpp:55-58 | `""` gives `[""]` |
| Tokenizer.Tokens | main.cpp:110-128 | the tokens of the global match: each match at the next non-space position, with its quotes stripped; `ParseCommand` is proved equal to it and `QuoteFreeIsWords` relates it to whitespace-separated words |
| Tokenizer.MatchLength | main.cpp:112 | the length of the leftmost alternative of the expression matching at a non-space position: between 1 and the rest of the line |
| Tokenizer.Unquote | main.cpp:119-121 | `mid(1, length - 2)` on a match that starts and ends with the same quote; `StripQuotes` states both cases |
| Tokenizer.ParseCommand | main.cpp:110-128 | the global-match loop with quote stripping returns exactly the scanner specification `Tokens` |
| Tokenizer.MatchAt | main.cpp:112-117 | the match found at a non-space position has the length the leftmost alternative of the expression gives |
| Tokenizer.StripQuotes | main.cpp:119-121 | a match that starts and ends with the same quote loses both, any other match is kept as it is |
| Tokenizer.IndexOf | main.cpp:112 | position of the first occurrence of a quote: nothing before it is that quote, and it is one when inside the string |
| Tokenizer.QuoteFreeIsWords | main.cpp:110-128 | on a line without quote characters the tokens are its whitespace-separated words |
| Tokenizer.QuotedGroupStripped | main.cpp:119-121 | a complete `"…"` or `'…'` group is one token without its quotes, inner whitespace kept |
| Tokenizer.UnterminatedKept | main.cpp:119-121 | an unterminated `"word` stays verbatim, and a lone `"` becomes the empty token |
| Tokenizer.WordToken | main.cpp:112-125 | an unquoted word followed by whitespace or the end of the line is one token, verbatim |
| Tokenizer.TrimmedNonBlankHasTokens | main.cpp:141-142 | a line that is not blank once trimmed has at least one token, so `command[0]` exists |
| Tokenizer.ExampleMixedQuotes | main.cpp:110-128 | `a "b c" 'd e'` gives `[a, b c, d e]` |
| Tokenizer.ExampleUnterminated | main.cpp:110-128 | `a "b` gives `[a, "b]` and `a "` gives `[a, ""]` |
| Tokenizer.DiffersFromLegacy | main.cpp:110-128 | the two tokenizers disagree on `ab"cd"` and on `a "b` |
| Console.Logged | main.cpp:100-103 | `log` appends one line at the end, keeps the earlier lines, and bumps a non-zero offset by one |
| Console.LoggedAllAppends | main.cpp:100-103 | logging several lines appends them in order and bumps a non-zero offset by their number |
| Console.LoggedAllSnoc | main.cpp:100-103 | logging a batch and then one more line is logging the longer batch |
| Console.Indented | main.cpp:105-108 | `log(indent, s)` logs `4 * indent` spaces followed by `s` |
| Console.WindowOf | main.cpp:247-256 | the window always has exactly four rows |
| Console.NumberLines | main.cpp:249-251 | the window loop yields lines `first` to `end - 1`, numbered from 1 |
| Console.PadWindow | main.cpp:254-256 | the padding loop puts blank rows on top until there are four |
| Console.WindowBounds | main.cpp:247-249 | the `size_t` window loop runs only when the offset is at most `start`, and then over `start - p` to `N - p` |
| Console.WindowOfFullLog | main.cpp:247-256 | with N ≥ 4 lines and p ≤ N − 4 the window shows lines N−4−p to N−1−p in order, each numbered by its 1-based index |
| Console.WindowOfShortLog | main.cpp:247-256 | an unscrolled log of fewer than four lines shows all its lines under blank rows |
| Console.WindowAboveTop | main.cpp:247-256 | an offset beyond `start` that still reads no missing line shows four blank rows |
| Console.PinnedIsDefined | main.cpp:249 | a pinned view (at the bottom, or scrolled within range) never makes the window read past the log |
| Console.WindowStaysPinned | main.cpp:100-103 | a scrolled view shows the same four lines after a line is logged |
| Console.WindowStaysPinnedAll | main.cpp:100-103 | the same after any number of logged lines |
| Console.PowerOutcome | main.cpp:153-170 | the `power` branch's outcome; `ArgumentCountErrors` and `DeviceCallsNeedArguments` state its error lines and calls |
| Console.Dispatch | main.cpp:140-198 | the outcome of `processCommand`: validity, logged lines, driver call and exit; `DispatchVerdict`, `LinesPerCommand` and `DeviceCallsNeedArguments` state its properties |
| Console.ActionOf | main.cpp:142-195 | each of the eight command words picks its action and every other word is unknown |
| Console.UsageLines | main.cpp:130-138 | `usage` logs a heading and six lines indented by four spaces |
| Console.DispatchVerdict | main.cpp:140-198 | a command is valid exactly when its first token is a known action, it exits exactly on `exit`/`e`, and an invalid one logs nothing and calls nothing |
| Console.DeviceCallsNeedArguments | main.cpp:153-192 | a driver call is made exactly when its arguments are present, and carries exactly the tokens given |
| Console.ArgumentCountErrors | main.cpp:153-192 | `power` with extra arguments logs "needs 1 argument"; a bad power state logs the state error; `connect`/`associate` with fewer than two arguments and `disassociate` with none log and call nothing |
| Console.LinesPerCommand | main.cpp:140-198 | each known command logs one line, except `help` (seven) and a device command missing its arguments (none) |
| Console.SubmitBlankIsIgnored | main.cpp:379 | Return on a line that is blank once trimmed changes nothing and calls nothing |
| Console.ReportedLogs | main.cpp:380-384 | after a command, the log gains `"> " + line`, the command's lines and, for an unknown action, `"Invalid command: " + line`; the input is cleared and the view returns to the bottom |
| Console.SubmitLogs | main.cpp:378-385 | Return on a non-blank line has that effect, with the lines the dispatcher chooses |
| Console.SubmitUnknownAction | main.cpp:193-194 | an unknown action adds exactly the echo and the invalid-command line, and calls nothing |
| Console.UnknownIsInvalid | main.cpp:193-194 | any first token that names no action makes the command invalid, logging and calling nothing |
| Console.Reported | main.cpp:380-385 | the state after a non-blank line has run; `ReportedLogs` states the lines it adds, the cleared input and the offset reset |
| Console.Submit | main.cpp:378-385 | Return: a blank line is ignored, any other is reported; `SubmitBlankIsIgnored` and `SubmitLogs` state both cases |
| Console.ScrollUp | main.cpp:386-389 | ArrowUp with its `size_t` guard; `ScrollUpOnFullLog` and `ShortLogScrollOverrun` compare it with the intended guard |
| Console.ScrollDown | main.cpp:390-393 | ArrowDown, stopping at the bottom; `StepKeepsPinned` shows it keeps the view pinned |
| Console.Step | main.cpp:377-398 | the handler's effect on each event; `StepKeepsPinned` and `StepsAgreeOnFullLog` state its invariant and its agreement with the intended handler |
| Console.ScrollUpOnFullLog | main.cpp:386-389 | on a log of at least four lines the `size_t` ArrowUp guard is the intended one |
| Console.StepKeepsPinned | main.cpp:377-398 | every event keeps the view pinned, provided ArrowUp comes on a log of at least four lines |
| Console.IntendedScrollKeepsPinned | main.cpp:386-389 | the intended ArrowUp keeps the view pinned on every log |
| Console.IntendedStepKeepsPinned | main.cpp:377-398 | with the intended guard every event keeps the view pinned, on logs of any length |
| Console.StepsAgreeOnFullLog | main.cpp:377-398 | the handler as written and the intended one agree on every log of at least four lines |
| Console.ShortLogScrollOverrun | main.cpp:387 | with two lines logged, three ArrowUps take the offset to 3, past the log, so the next window would read outside it; the intended guard stays put |
| Console.Dashboard.constructor | main.cpp:23-26 | the globals start with an empty log, no offset, `running` false and no samples, and the input line (main.cpp:239) starts empty |
| Console.Dashboard.Log | main.cpp:100-103 | the new log view is `Logged` of the old one, and nothing else changes |
| Console.Dashboard.LogIndented | main.cpp:105-108 | logs the indented line and nothing else |
| Console.Dashboard.Usage | main.cpp:130-138 | logs the seven usage lines in order |
| Console.Dashboard.ProcessCommand | main.cpp:140-198 | tokenizes the trimmed line; its validity, driver call, logged lines and running flag are those of `Dispatch` |
| Console.Dashboard.RunCommand | main.cpp:142-197 | the if-chain over the first token has the effect `Dispatch` specifies |
| Console.Dashboard.RunNetworkCommand | main.cpp:171-195 | the `connect`, `associate` and `disassociate` branches and the fallthrough for an unknown word have the effect `Dispatch` specifies |
| Console.Dashboard.PowerCommand | main.cpp:153-170 | the `power` branch: calls the driver only for `on`/`off` and logs the matching line |
| Console.Dashboard.OnEvent | main.cpp:377-398 | the handler's new state is `Step` of the old one; the driver call is made only on Return |
| Console.Dashboard.SubmitLine | main.cpp:380-385 | Return on a non-blank line: the new state is the old one reported with the dispatcher's outcome (echo, the command's lines, the invalid-command line, cleared input, view at the bottom), and the driver call is the dispatcher's |
| Console.Dashboard.Window | main.cpp:245-256 | the rows built by the two loops are exactly `WindowOf` the current view |
| Console.Dashboard.Sample | main.cpp:312-315 | appends one sample to the history and changes nothing else |
| Console.Dashboard.MakeGraph | main.cpp:317-346 | the history becomes its retained suffix and the columns are `Raster` of the old history; the console is untouched |
| Signal.RssiToStage | main.cpp:52-61 | unavailable exactly when invalid or 0; otherwise by the magnitude: 1–50 excellent, 51–60 good, 61–70 fair, above 70 poor |
| Signal.StageDependsOnMagnitude | main.cpp:54 | a reading and its negation get the same stage |
| Signal.StageMonotone | main.cpp:56-60 | a weaker reading never gets a better stage |
| Signal.StageBoundaries | main.cpp:56-60 | −50 is excellent and −51 good; −60 good and −61 fair; −70 fair and −71 poor |
| Signal.StageLabel | main.cpp:63-71 | the label of each stage; `StageLabelInjective` proves the five labels distinct |
| Signal.StageLabelInjective | main.cpp:63-71 | every stage has its own label |
| Signal.StateLabel | main.cpp:73-84 | "Unavailable" when invalid, "Unknown" for any state above 4 |
| Signal.StateLabelsDistinct | main.cpp:76-81 | states 0–4 get five distinct labels, none of them "Unknown" or "Unavailable" |
| Signal.PhyModeLabel | main.cpp:86-98 | "Mode Unavailable" when invalid, "Unknown Mode" for a mode outside the six |
| Signal.PhyModeLabelInjective | main.cpp:89-96 | the seven modes get distinct labels, none of them "Mode Unavailable" |
| Device.CString | main.cpp:293 | the C string in a buffer: the bytes before the first NUL, or the whole buffer when it has none |
| Device.Cascade | main.cpp:266-279 | with the power unknown or off, the SSID, BSSID, platform, network list and station are zeroed, the count and 802.11 state become 0, and the power state and availability flags are kept; with the power on nothing changes |
| Device.CascadeIdempotent | main.cpp:266-279 | clearing twice is clearing once |
| Device.PoweredDownIsUnavailable | main.cpp:266-283 | with the power off the RSSI read is 0 and the stage is unavailable |
| Device.Stronger | main.cpp:200-202 | `compareNetworkStrength`; `StrongerIsStrictWeakOrder` proves it is the strict weak order `std::sort` needs |
| Device.StrongerIsStrictWeakOrder | main.cpp:200-202 | the comparator is irreflexive and transitive, and so is its incomparability, as `std::sort` requires |
| Device.Kept | main.cpp:291-294 | the skipping loop keeps only entries whose SSID buffer is not all zero |
| Device.KeptMembers | main.cpp:291-294 | an entry is kept exactly when it is listed and its SSID is not all zero |
| Device.KeptSorted | main.cpp:286-294 | skipping entries keeps the strength order |
| Device.Padded | main.cpp:304-306 | the panel is padded with empty rows to at least 20, keeping the entries in front |
| Device.RowsNumbered | main.cpp:288-301 | the kept entries are numbered consecutively from 1, with no gaps |
| Device.Rows | main.cpp:288-302 | the rows the scan loop adds; `RowsNumbered` and `PanelShape` state their numbering and contents |
| Device.Panel | main.cpp:285-306 | the panel of a frame; `PanelShape` and `PoweredDownPanelEmpty` state its shape |
| Device.ScanRows | main.cpp:288-302 | the loop over the first `count` entries yields exactly the numbered rows of the kept entries |
| Device.PadRows | main.cpp:304-306 | the padding loop yields exactly `Padded` of the rows |
| Device.PanelShape | main.cpp:285-306 | the panel has `max(20, k)` rows: kept entry `i` numbered `i + 1`, marked locked when it has an RSN protocol and connected when the SSID is known and equal, then empty rows |
| Device.PoweredDownPanelEmpty | main.cpp:266-306 | with the power off the panel is twenty empty rows |
| Device.DeviceState.constructor | main.cpp:230-236 | fresh, distinct buffers: the SSID and BSSID buffers zeroed, the power off and the 802.11 state 0; the `new` records hold the given contents, because `new` without an initialiser promises none |
| Device.DeviceState.Refresh | main.cpp:258-264 | after the seven getters the state is exactly what they returned, in the same buffers |
| Device.DeviceState.ApplyPowerCascade | main.cpp:266-279 | the new state is `Cascade` of the old one |
| Device.DeviceState.SortNetworks | main.cpp:286 | the first `count` entries end sorted by ascending magnitude of RSSI, as a permutation of themselves; the rest of the buffer is unchanged |
| Device.DeviceState.Insert | main.cpp:286 | one insertion step: the sorted prefix grows by one, as a permutation |
| Device.DeviceState.NetworkRows | main.cpp:285-306 | the rows built by the loop over `amount` and the padding loop are exactly `Panel` of the sorted entries |
| Graph.Retained | main.cpp:322-325 | the kept samples are the latest `min(n, width / 2)` of the history, and fit the width |
| Graph.SeqMin | main.cpp:327 | `min_element`: a sample no larger than any other |
| Graph.SeqMax | main.cpp:328 | `max_element`: a sample no smaller than any other |
| Graph.Top | main.cpp:329 | the top of the scale lies above the minimum, and is the maximum unless all samples are equal |
| Graph.Quot | main.cpp:336 | C++ `int` division, truncating toward zero |
| Graph.BarHeight | main.cpp:336 | the scaled height of one sample; `RasterBounded`, `ExtremesSpanScale` and `BarsMonotone` state its range and order |
| Graph.Column | main.cpp:331-343 | one column of the raster; `BarsLayout` states which sample fills it |
| Graph.Bars | main.cpp:331-343 | the raster of the kept samples, exactly `width` columns long |
| Graph.Raster | main.cpp:317-346 | the result always has exactly `width` entries |
| Graph.RasterBounded | main.cpp:336 | every column lies in `[0, height]` |
| Graph.EmptyRasterFlat | main.cpp:319 | an empty history gives all zeros |
| Graph.ConstantRasterFlat | main.cpp:329 | a constant history gives all zeros, through the `max = min + 1` guard |
| Graph.BarsLayout | main.cpp:331-343 | columns before `width − 2k` are 0, and sample `i` fills columns `width − 2k + 2i` and `width − 2k + 2i + 1` |
| Graph.RasterLayout | main.cpp:317-346 | a non-empty history keeps at least one sample once the width is at least one bar |
| Graph.OlderSamplesIgnored | main.cpp:322-325 | once the recent samples fill the width, older ones make no difference |
| Graph.ExtremesSpanScale | main.cpp:336 | the minimum sample draws height 0 and the maximum the full height |
| Graph.BarsMonotone | main.cpp:336 | a stronger sample never draws a lower bar |
| Graph.FillColumns | main.cpp:334-343 | the nested loops leave exactly the bars of the kept samples in the array |
| Graph.BarColumns | main.cpp:331-341 | both columns of kept sample `i`, right of the padding, hold its scaled height |
| Graph.Draw | main.cpp:318-345 | the body of `makeGraph`: the history it keeps is `Retained` and the columns are exactly `Raster` of the history |
| Frame.PowerLabel | main.cpp:357 | "On", "Off" or "Unavailable", each exactly in its case |
| Frame.StatsOf | main.cpp:266-283 | with the power off, the stage is unavailable, the RSSI 0, the state "Idle (Default)" when available; with it on, the polled values are shown as they are |
| Frame.PoweredDownFrame | main.cpp:266-306 | with the power off a frame shows no signal, samples 0 and lists twenty empty rows |
| Frame.RenderFrame | main.cpp:243-315 | one frame: the window of the old log, the stats of the cascaded poll, a sorted permutation of its entries in the panel, and one sample when due |
| LegacyConsole.Clip | Legacy/main.cpp:142 | a line with its first `left` characters removed, or empty when it is not longer |
| LegacyConsole.Lines | Legacy/main.cpp:142 | the printed lines, each numbered by its 1-based index and clipped |
| LegacyConsole.BlankRows | Legacy/main.cpp:141 | the padding loop prints exactly `n` blank rows |
| LegacyConsole.NumberedLines | Legacy/main.cpp:142 | the printing loop yields the lines from `start` up to `end` or the end of the log, numbered and clipped |
| LegacyConsole.WindowShape | Legacy/main.cpp:136-142 | with `maxLogRows ≥ 0` the window has exactly `maxLogRows` rows, blank on top; in range, they are the lines ending `positionAway` lines above the last |
| LegacyConsole.WindowBottomLine | Legacy/main.cpp:136-142 | the bottom row of an in-range window is line `size − 1 − positionAway`, numbered `size − positionAway` |
| LegacyConsole.ShortLogIgnoresOffset | Legacy/main.cpp:137-138 | when the log fits on screen the vertical offset changes nothing |
| LegacyConsole.LogWindow | Legacy/main.cpp:136-142 | the rows of the log panel; `WindowShape`, `WindowBottomLine` and `ShortLogIgnoresOffset` state their shape |
| LegacyConsole.Decode | Legacy/main.cpp:147-190 | the keys a byte stream is read as; `DecodeTypesPrintable` and `DecodeArrows` state its cases |
| LegacyConsole.DecodeTypesPrintable | Legacy/main.cpp:188-189 | only printable characters are ever typed into the input line |
| LegacyConsole.DecodeArrows | Legacy/main.cpp:166-186 | ESC `[` A, B, C and D are Up, Down, Right and Left |
| LegacyConsole.ProcessCommand | Legacy/main.cpp:90-92 | the legacy `processCommand` recognises nothing |
| LegacyConsole.WorkerLines | Legacy/main.cpp:94-100 | the worker logs `"Invalid command: " + line` exactly when the command is not valid |
| LegacyConsole.EnterSubmits | Legacy/main.cpp:148-163 | Enter on a non-empty line logs `> line` and the worker's verdict, clears the line and resets both offsets; on an empty line it does nothing |
| LegacyConsole.TypeThenErase | Legacy/main.cpp:164-190 | typing a character and erasing it gives back the same state |
| LegacyConsole.EraseRemovesLast | Legacy/main.cpp:164-165 | Backspace removes exactly the last character when there is one, and touches nothing else |
| LegacyConsole.ScrollKeys | Legacy/main.cpp:172-183 | Right increments with no bound, Left and Down stop at 0, and Up changes only the vertical offset |
| LegacyConsole.UpOnFullLog | Legacy/main.cpp:173 | with a screenful of lines, Up moves only while lines remain hidden above |
| LegacyConsole.UpWrapsOnShortLog | Legacy/main.cpp:173 | on a log shorter than the screen the `size_t` subtraction wraps and Up keeps incrementing |
| LegacyConsole.UpAllowed | Legacy/main.cpp:173 | the Up guard in `size_t`; `UpOnFullLog` and `UpWrapsOnShortLog` state where it holds |
| LegacyConsole.Press | Legacy/main.cpp:148-190 | one key of the main loop; `EnterSubmits`, `TypeThenErase`, `EraseRemovesLast`, `ScrollKeys` and `InRangeKept` state its cases |
| LegacyConsole.InRangeKept | Legacy/main.cpp:147-190 | with a screenful of lines, no key takes the offset past the hidden lines |
| LegacyConsole.InRangeKeptAll | Legacy/main.cpp:147-190 | the same for any sequence of keys |
| LegacyConsole.LegacyTerminal.constructor | Legacy/main.cpp:19-21 | the main loop starts with no log, no offsets and an empty input |
| LegacyConsole.LegacyTerminal.Window | Legacy/main.cpp:136-142 | the rows the two printing loops produce are exactly `LogWindow` of the state |
| LegacyConsole.LegacyTerminal.Worker | Legacy/main.cpp:94-100 | appends the worker's lines and nothing else |
| LegacyConsole.LegacyTerminal.PressKey | Legacy/main.cpp:147-190 | the new state is `Press` of the old one |
| LegacyConsole.LegacyTerminal.Feed | Legacy/main.cpp:126-191 | the state after a stream of bytes is that of pressing the keys they decode to, in order |

## Left out

- FTXUI rendering and layout (`Renderer`, `vbox`, borders, `graph()`, `Terminal::Size`): a UI library outside the core. The window and network panel are modelled as rows, not text elements.
- The text of each row (`QString::arg`, `leftJustified(4)`, `setw(4)`): rows carry their number and content instead.
- `QString::arg` re-scanning substituted text that itself contains `%1`: not modelled. The logged lines are plain concatenations.
- The `Input` component's own editing: any event it turns into a new input line is `Edit(text)`.
- Qt settings files and `QCoreApplication`: file I/O.
- Threads: the refresher thread and `screen.Exit`/`join` (the exit command only clears `running`), and the legacy `pthread_create` worker. The worker runs to completion within the Enter step.
- Clocks: the 200 ms sampling check is the `sampleDue` input of `Frame.RenderFrame`, and `sleep_for`/`usleep` are left out.
- The driver API of `Api.h`: getters are the `polled` snapshot and commands are `DeviceCall` values. What `power_on`/`power_off` return is a parameter.
- Terminal plumbing (`termios`, `fcntl`, `ioctl`, ANSI codes): keys are a byte sequence decoded by `LegacyConsole.Decode`, and the row count `maxLogRows` is a parameter.
- `vsprintf`-based `format`/`print` in the legacy front end: plain concatenation.
- Device.DeviceState.SortNetworks: `std::sort` is modelled by an insertion sort. The contract states only what `std::sort` promises (sorted and a permutation), so the order among equal magnitudes is left open.
- Frame.RenderFrame: does not call `makeGraph`. FTXUI calls it with sizes chosen by the layout, so that call is `Console.Dashboard.MakeGraph` on its own.
- Frame.StatsOf: the phy-mode line is not included. The numeric values of `itl_phy_mode` are not visible, so the raw `op_mode` cannot be mapped to `Signal.PhyMode`.
- `strcmp` on an SSID buffer with no NUL: the comparison stops at the end of the buffer (`Device.SameCString`).
- Overflow of `positionAway` (`int`) after about 2^31 ArrowUps is not modelled, nor that of the legacy `positionAway` and `logScrolledLeft` (`int`, Legacy/main.cpp:174 and 179): the model's offsets are unbounded `nat`s, so Right increments without bound.
- Graph.Raster: the scale runs from the minimum to the maximum of the retained samples only, no sample value is treated specially, and the truncation in `makeGraph` is the only bound on the history.
- Console.Dashboard.MakeGraph: signed 32-bit overflow is undefined behaviour, so the method requires every intermediate value to fit in 32 bits (`Graph.Representable`). It also requires a width of at least one bar when the history is non-empty, because `min_element` of an empty vector is dereferenced otherwise.

## Findings

| source | as written | input that shows it | evidently intended | confidence | as-written member | corrected member |
|---|---|---|---|---|---|---|
| main.cpp:387 with the window loop at main.cpp:249-251 | the ArrowUp guard `positionAway < output.size() - VISIBLE_LOG_LINES` is computed in `size_t`, so on a log of fewer than four lines it wraps to nearly 2^64 and never stops the increment; once the offset exceeds the number of lines, the next frame's window loop reads `output` out of range | two lines logged, then three ArrowUps: the offset is 3 and the window loop runs from index 2^64 − 3 | scroll only while a hidden line remains above the window, i.e. never on a log of at most four lines | not executed | Console.ShortLogScrollOverrun | Console.IntendedStepKeepsPinned |
