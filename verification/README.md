# LogStream line interpreter, modelled in Dafny

This project models the log-stream console of the Electric Imp development extension.
The console class is `LogStream` in `src/logstream.js`. A device or agent log line arrives
from the cloud as one string. The class does three things with it:

- classifies its category through a fixed ten-entry table;
- reports `ERROR:` lines to the diagnostic collection, and resets that collection when a
  fresh deploy is announced;
- renders the line as `timestamp [Tag] body` on the output channel. References of the form
  `agent_code:N` or `device_code:N` in the body become clickable `file:line:0` links.

The model is split into six modules:

- `Wrappers`: `Option`, and `Completion`, which records whether a JavaScript call returned
  normally or threw.
- `JsText`: the JavaScript string primitives the class relies on.
  - The character classes of a flag-less regular expression: `.`, `\s`, `\b`, `[0-9a-f]`,
    `\d` and `[a-z.]`. `.` excludes the four line terminators; `\s` is the full ECMAScript
    white-space and line-terminator set.
  - `indexOf`.
  - `String.prototype.replace` with a string pattern. This includes the `$$`, `$&`,
    `` $` `` and `$'` patterns of the replacement text.
  - `parseInt(…, 10)` on a digit string, and the decimal rendering of a number in a
    template literal.
- `Patterns`: the five regular expressions of the class, as matching problems.
  - `Feasible(g, s, p, a)` says that pattern `g` can match `s` starting at `p`, with its
    first greedy `(.*)` ending at `a`.
  - `Match` searches for the leftmost start and, at that start, the greedy end. It is
    proved to return exactly the match JavaScript's backtracking reports (`IsMatch`), and
    to return `None` exactly when no split is feasible.
  - The remaining quantifiers of each pattern are forced, and are lemmas: the run
    `[a-z.]+` is maximal, and the second `(.*)` runs to the end of the line.
  - The reload pattern `.*(Downloading new code).*(program storage used)` is decided by a
    one-pass scan, proved equivalent to the existence of a match.
- `Classifier`: `getTypeInfo`, `getTypeString` and `getTypeStringColorized`.
- `Interpreter`: `replaceFileNameToLink`, `getLogStreamLogMessage` and `getErrorMessage`.
  The diagnostic object is passed in as an `Env`:
  - `pre` is tri-state (undefined / defined but falsy / an object), because the link
    rewriter tests its truthiness but the error extractor tests `=== undefined`;
  - the sources `getSource` knows, each with its file and its `getErrorLocation` map;
  - the flat-mode source paths;
  - `path.join` and `path.dirname`, as uninterpreted functions.
- `Stream`: the class itself. Its fields are the stream id, whether the output channel
  exists, the pause flag, and the sequence of calls it has made on the diagnostic object
  and the output channel (`Effect`).
  - `logMsg` is proved against `LineDispatch`, the specification of one unpaused line.
    `LineDispatch` is `DispatchOf` applied to the outcome of `getErrorMessage`, the reload
    test, whether the channel exists, and the outcome of `getLogStreamLogMessage`. The
    `Dispatch…` lemmas state what `DispatchOf` does with those four.
  - `logState`, `isOpened`, `pauseLogOutput` and the stream-creation callback are modelled
    with it.

Behaviours of the code that are kept as written:

- The mapped-mode link rewrite replaces the FIRST occurrence of the literal `kind:N` text.
  That may be an earlier, longer reference: in `agent_code:12 agent_code:1` the `agent_code:1`
  inside `agent_code:12` is rewritten (`Interpreter.LinkReplacesEarlierPrefix`).
- The link's line comes from `getErrorLocation(N - 1)`, and `:0` is appended after the
  whole message, not after the link.
- `getErrorMessage` takes the line digits from the LAST `:digits` of the error text, which
  need not belong to the named source.
- A falsy but defined `diagnostic.pre` switches links to flat mode, yet still lets errors
  be extracted.
- `isOpened()` returns `logStreamID && outputChannel`. An empty-string stream id makes it
  return `""`, which is not `undefined`, so the pause toggle still flips.
- `device-error` is rendered with `colors.bgBlack.white`: white text on a black background.
- A line that matches the log grammar but whose category is not one of the ten tokens makes
  `getTypeString(undefined)` throw, which ends `logMsg` before the line is output.
- The category of a parsed line can never be `IDE.log`, because `[a-z.]+` has no capital
  letters. That table entry is unreachable from a log line (`Patterns.CategoryIsLowerRun`).

## Model

| member | source | states |
|---|---|---|
| JsText.IndexOf | src/logstream.js:159-160 | `indexOf` finds the first occurrence of the pattern, and is `-1` (None) exactly when there is none |
| JsText.SubstitutionLiteral | src/logstream.js:185 | a replacement string without `$` is inserted verbatim by `replace` |
| JsText.ReplaceFirst | src/logstream.js:180-187 | `replace` with a string pattern: a string without the pattern comes back unchanged; otherwise the text before the first occurrence and the text after it are kept (what goes between is stated by `ReplaceFirstSpec`) |
| JsText.ReplaceFirstSpec | src/logstream.js:180 | `replace` with a string pattern swaps only the first occurrence: prefix, replacement, then the rest unchanged |
| JsText.ReplaceFirstAbsent | src/logstream.js:185 | `replace` leaves a string without the pattern unchanged |
| JsText.ParseDecimal | src/logstream.js:177 | `parseInt(d, 10)` of a digit string is below `10^|d|`, and at least `10^(|d|-1)` when there is no leading zero |
| JsText.DecimalRoundTrip | src/logstream.js:177 | `parseInt` of a rendered natural number gives that number back |
| Patterns.Match | src/logstream.js:194-195 | the reported split is feasible, no earlier start is feasible, and at that start no later greedy end is; None exactly when no split is feasible |
| Patterns.CategoryEndForced | src/logstream.js:194 | the `[a-z.]+` group can only end where its maximal run ends |
| Patterns.CategoryIsLowerRun | src/logstream.js:194 | the captured category is a non-empty run of `[a-z.]` and is never `IDE.log` |
| Patterns.SourceRefIsLast | src/logstream.js:166-167 | on a one-line message, the reference pattern matches from 0 and captures the last `kind:digits` reference; it fails exactly when there is none |
| Patterns.SourceRefAt | src/logstream.js:166-167 | a last reference at `a` is exactly what the reference pattern reports |
| Patterns.ColonDigitsIsLast | src/logstream.js:216-217 | on a one-line error text, `(.*):(\d+)` captures the last `:` followed by a digit, with its full digit run; it fails exactly when there is none |
| Patterns.CapturesAreSingleLine | src/logstream.js:209 | the captured error text contains no line terminator |
| Patterns.ReloadMatches | src/logstream.js:250-251 | the one-pass scan holds exactly when `Downloading new code` occurs, followed (without overlap) by `program storage used`, on one line |
| Classifier.GetTypeInfo | src/logstream.js:50-102 | undefined exactly for strings outside the ten tokens; each token maps to a known class with a non-empty name |
| Classifier.ClassIdentifiesToken | src/logstream.js:50-102 | the class name identifies the token it came from: the table is injective |
| Classifier.EveryClassHasToken | src/logstream.js:50-102 | every class name of the renderers is produced by some token: the table is onto |
| Classifier.GetTypeString | src/logstream.js:104-129 | undefined exactly for unknown classes; otherwise `[name]`, with one trailing space exactly for the agent classes |
| Classifier.GetTypeStringColorized | src/logstream.js:131-156 | undefined exactly for unknown classes; otherwise `[name]` with no trailing space |
| Classifier.PlainAndColoredAgree | src/logstream.js:104-156 | both renderers know the same classes and give the same text, apart from the agent padding |
| Classifier.ErrorsHaveBackground | src/logstream.js:131-156 | the two error classes, and only they, get a background colour |
| Classifier.TableTagsRender | src/logstream.js:104-129 | no token of the table falls to the renderers' `default` branch |
| Interpreter.ReplaceFileNameToLink | src/logstream.js:158-191 | a message naming neither kind is returned as is; in flat mode a message naming one always ends with `:0`; any message it changes ends with `:0`. `LinkFlatAgent`, `LinkFlatDevice`, `LinkMapped` and `LinkMappedUnresolved` state the exact result of each branch |
| Interpreter.MappedLink | src/logstream.js:165-180 | with no `kind:digits` reference anywhere the message is unchanged; any change ends with `:0`. The link target (`LinkTarget`, lines 177-178) is stated by `LinkMapped` and `LinkMappedExample` |
| Interpreter.FlatLink | src/logstream.js:183-188 | the flat rewrite always ends with `:0`; which occurrence it replaces is stated by `LinkFlatAgent` and `LinkFlatDevice` |
| Interpreter.LinkWithoutReference | src/logstream.js:158-163 | a message naming neither `agent_code` nor `device_code` is returned unchanged |
| Interpreter.LinkFlatAgent | src/logstream.js:183-185 | with `pre` falsy, the first `agent_code` becomes the agent path and `:0` is appended |
| Interpreter.LinkFlatDevice | src/logstream.js:186-187 | with `pre` falsy and no `agent_code`, the first `device_code` becomes the device path and `:0` is appended |
| Interpreter.LinkMappedUnresolved | src/logstream.js:165-175 | with `pre` an object, the message is unchanged when there is no reference or the last reference's kind has no source |
| Interpreter.LinkMapped | src/logstream.js:165-181 | with `pre` an object, the first occurrence of the last reference's `kind:N` becomes `join(dirname(file), path):line`, where the location is looked up at `N - 1`, and `:0` is appended |
| Interpreter.LinkMappedBranch | src/logstream.js:158-167 | with `pre` an object and a reference found by the pattern, the mapped branch is the one taken |
| Interpreter.MappedLinkFirst | src/logstream.js:172-180 | in the mapped branch, the first occurrence of the literal `kind:N` gives way to the link target and `:0` is appended |
| Interpreter.LinkMappedExample | src/logstream.js:177-180 | `agent_code:42`, mapped at 41 to line 10 of `main.tut`, becomes `<joined path>:10:0` |
| Interpreter.LinkReplacesEarlierPrefix | src/logstream.js:180 | in `agent_code:12 agent_code:1` the literal replace rewrites the prefix of the first reference |
| Interpreter.GetLogStreamLogMessage | src/logstream.js:193-206 | a line outside the grammar is returned as is; a parsed line throws exactly when its category is not a token, and otherwise starts with `ts [` (the exact text is stated by `RenderMatched`) |
| Interpreter.RenderPassesThrough | src/logstream.js:193-199 | a line outside the log grammar is returned unchanged |
| Interpreter.RenderMatched | src/logstream.js:200-205 | a parsed line becomes `ts [Name] link-rewritten body` (with the agent padding); it throws exactly when the category is not a token |
| Interpreter.GetErrorMessage | src/logstream.js:208-233 | a record or a throw needs an `ERROR:` match and a defined `pre`; a record names a known source, that source's file and a decimal line |
| Interpreter.ErrorFromText | src/logstream.js:215-232 | no record exactly when the error text names neither kind; a record's source is the kind `ErrorKind` picks, with its file and a decimal line |
| Interpreter.ErrorNeedsGrammarAndPre | src/logstream.js:208-213 | no report without an `ERROR:` line or with `pre` undefined |
| Interpreter.ErrorKind | src/logstream.js:218-230 | the named kind is `agent_code` when the text contains it, else `device_code` when it contains that, else none |
| Interpreter.ErrorExtracted | src/logstream.js:215-232 | no report when no kind is named; a throw when the kind has no source or there is no `:digits`; otherwise the kind, its file and the last `:digits` |
| Stream.LineDispatch | src/logstream.js:235-257 | a throw from `getErrorMessage` makes no call; `logMsg` completes exactly when the channel exists and neither `getErrorMessage` nor `getLogStreamLogMessage` threw |
| Stream.DispatchOf | src/logstream.js:240-256 | a thrown error makes no call; the line completes exactly when nothing threw and the channel exists, and then its last call is the output |
| Stream.DispatchOrder | src/logstream.js:235-257 | one line makes at most one call of each kind, in the order error report, reset, output |
| Stream.DispatchReportsError | src/logstream.js:240-243 | an error is reported exactly when `getErrorMessage` returned a record, and it is that record |
| Stream.DispatchClears | src/logstream.js:250-254 | the diagnostics are reset exactly when the reload test holds and `getErrorMessage` did not throw |
| Stream.DispatchAppends | src/logstream.js:256 | the line is output, last, exactly when nothing threw and the channel exists, as `getLogStreamLogMessage` rendered it |
| Stream.StateDispatch | src/logstream.js:259-273 | with `doNotPrintState` set nothing is output; with it cleared, the message alone is output unless paused |
| Stream.PauseAfterToggle | src/logstream.js:391-398 | the pause flag changes exactly when `isOpened()` is not undefined |
| Stream.ToggleTwiceRestores | src/logstream.js:391-398 | two toggles restore the pause flag |
| Stream.LogStream.constructor | src/logstream.js:42-48 | a new stream has no id, no channel, is not paused, and has made no calls |
| Stream.LogStream.StreamCreated | src/logstream.js:312-314 | after creation the id and channel are set and `isOpened()` is no longer undefined |
| Stream.LogStream.IsOpened | src/logstream.js:275-277 | undefined exactly when there is no id, or a non-empty id without a channel |
| Stream.LogStream.LogMsg | src/logstream.js:235-257 | paused: no call; otherwise exactly the calls of `LineDispatch` are appended, and the method completes exactly when the specification does |
| Stream.LogStream.DispatchLine | src/logstream.js:240-256 | step by step, the calls appended and the completion are those of `DispatchOf` on the three outcomes |
| Stream.LogStream.LogState | src/logstream.js:259-273 | no call is ever made |
| Stream.LogStream.PauseLogOutput | src/logstream.js:391-398 | the new pause flag is `PauseAfterToggle` of the old one: flipped when the channel is open, unchanged without an id |

## Left out

- The VS Code user interface is not modelled: output-channel creation, `showErrorMessage`,
  the device-ID prompt (`promptDeviceID`) and `clearLogOutput`. The output channel is
  reduced to whether it exists, and `appendLine` to an `AppendLine` effect.
- The cloud API and authentication are not modelled: `addDevice`, `removeDevice`,
  `impAddDevice`, `logStreams.create`, token handling and the `devices` set. Only the
  success callback of `logStreams.create` (`StreamCreated`) is modelled.
- `strftime('%Y-%m-%d %H:%M:%S%z')` depends on the clock. The timestamp is a parameter `ts`.
- The ANSI escape codes of the `colors` library are not modelled. A colour is a `Style` value.
- `path.join`, `path.dirname`, `Workspace.Data.getSourcesPathsSync`, `diagnostic.getSource`
  and `getErrorLocation` are outside the class. They are parameters of `Env`: uninterpreted
  functions, or a map with data. Exceptions these collaborators could raise are not modelled.
- `Stream.LogStream.LogMsg`: the diagnostic object is an immutable `Env` parameter, so any
  change to `pre` or to the sources between two lines is not captured.
- `Interpreter.LinkTarget`: `parseInt` is exact here, whereas JavaScript loses precision for
  numbers above 2^53. `getErrorLocation` returns an integer line.
- JavaScript strings are sequences of UTF-16 code units. Here they are sequences of Dafny
  characters, so a character outside the Basic Multilingual Plane counts as one position,
  not two.
- `Interpreter.LinkFlatAgent`, `Interpreter.LinkFlatDevice`, `Interpreter.LinkMapped`:
  stated for a replacement text without `$`. The function itself models the `$` patterns
  of `replace`, and `JsText.SubstitutionLiteral` covers the `$`-free case.
- `Interpreter.LinkMapped`, `Interpreter.LinkMappedUnresolved`, `Patterns.SourceRefIsLast`,
  `Patterns.ColonDigitsIsLast`: stated for text without line terminators, where `.*` spans
  the whole text. Every body the log grammar captures is such a text. `Patterns.Match`
  covers every input.
