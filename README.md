# Agent pipeline: a verified model

The agent pages share one controller, `BaseAgent` in `js/shared-agent.js`, and one
utility object, `AgentUtils`. This project models and verifies two pieces of them.

- **The CSV reader** `AgentUtils.parseCSV`. The text is trimmed and split into lines.
  The first line's trimmed comma-separated fields are the headers. Every later line
  becomes a row that maps each header to the trimmed field at the same position, or
  to `undefined` when the line is too short.
- **The staged run of `BaseAgent`.** `handleFileSelect` accepts a `.csv` file. A
  separate load step parses the file's text. `startProcessing` is guarded against
  re-entry and against missing data. The run then goes through two phases:
  - `runPipeline`: for each step in turn, the step icon becomes active, the step's
    scripted log messages are emitted with their delays, the run waits 800 ms, and
    then the icon is completed and the connector filled.
  - After a 500 ms wait, `showResults` runs: the results section is shown, the
    metrics hook is called, the insight cards are staggered by 300 ms, and the charts
    hook is called.

The optional tier choice of `AgentUtils.formatCurrency` is modelled as well. So is the
demand-forecasting agent's configuration, used as a concrete instance.

## Modules

| Module | File | What it models |
|---|---|---|
| `Wrappers` | `wrappers.dfy` | `Option`: JavaScript's `undefined` and `null` |
| `JsString` | `js_string.dfy` | `trim` (the ECMAScript white-space set), `split` on one character, `endsWith` |
| `Csv` | `csv.dfy` | The reader as a method with its loops (`ParseCsv`, `BuildTable`, `BuildRow`), proved equal to the specification function `Parse`, plus lemmas about `Parse` |
| `Currency` | `currency.dfy` | The tier chosen by `formatCurrency` |
| `Pipeline` | `pipeline.dfy` | A run as values: the event sequence it produces (`RunTrace`), the log entries it appends (`PipelineLog`), and lemmas about both |
| `Agent` | `agent.dfy` | `class BaseAgent`, described below |
| `Scenarios` | `scenarios.dfy` | The demand-forecasting configuration, and what a run with it produces |

`class BaseAgent` holds the agent's state as fields:
- `csvData`, `isProcessing` and `currentStep`;
- the live `log`;
- the status and results flags;
- two arrays: the stage icons' classes (`stageMarks`) and the connectors' classes (`connectorDone`);
- `trace`, the sequence of observable events.

Each handler is a method whose postcondition gives its whole new state. In particular, `StartProcessing` adds exactly `RunTrace` to `trace` and exactly `PipelineLog` to `log`. The lemmas in `Pipeline` about those two functions then apply to the class:
- the order of the stage marks;
- the delay total;
- the log contents;
- status and results coming after all stage work;
- the charts hook being called once, as the last event.

A page is described by the optional elements it has. The type is `Pipeline.Page`:
- whether there is a live log;
- how many step icons and how many connectors there are;
- whether there is a status indicator;
- whether there is a results section;
- how many insight cards there are.

The source checks each of these before using it.

## Model

| member | source | states |
|---|---|---|
| `JsString.Trim` | js/shared-agent.js:64 | The trimmed string is no longer than the input. It neither starts nor ends with white space. It is empty exactly when the input is all white space. |
| `JsString.TrimIsUnique` | js/shared-agent.js:64 | Take any slice with only white space before and after it and no white space at either end. That slice is the trimmed string. |
| `JsString.TrimIdempotent` | js/shared-agent.js:65 | Trimming twice gives the same string as trimming once. |
| `JsString.Split` | js/shared-agent.js:64-65 | A split has at least one part, and no part contains the separator. |
| `JsString.JoinSplit` | js/shared-agent.js:64 | Joining the parts of a split with the separator gives the original string. |
| `JsString.SplitJoin` | js/shared-agent.js:68 | Join separator-free parts and split the result: you get the same parts back. |
| `JsString.SplitCount` | js/shared-agent.js:64 | A split has one more part than the string has separators. |
| `JsString.EndsWithIff` | js/shared-agent.js:115 | `endsWith(".csv")` holds exactly when the name is some string followed by `.csv`. |
| `Csv.TrimAll` | js/shared-agent.js:68 | Every field is trimmed, position by position. |
| `Csv.BuildRow` | js/shared-agent.js:69-72 | The `forEach` loop builds `RowOf(headers, values)`, assigning header by header in index order. |
| `Csv.BuildTable` | js/shared-agent.js:65-75 | The headers are the first line's trimmed fields. There is one row per later line, and row r comes from line r + 1. |
| `Csv.ParseCsv` | js/shared-agent.js:63-76 | The reader returns `Parse(text)`. Its headers come from the first line of the trimmed text. It has one row fewer than there are lines. |
| `Csv.TableOfPointwise` | js/shared-agent.js:66-75 | A table with the reader's headers, row count and rows equals `TableOf(lines)`. |
| `Csv.RowCount` | js/shared-agent.js:64-67 | There are as many rows as line feeds in the trimmed text. |
| `Csv.FillRowKeys` | js/shared-agent.js:70-72 | A row's keys are exactly the header names. |
| `Csv.FillRowLastWins` | js/shared-agent.js:70-72 | A duplicated header maps to the field at its last position: later assignments overwrite earlier ones. |
| `Csv.RowOfSpec` | js/shared-agent.js:69-72 | A row's keys are the headers. Each header maps to its field, or to `undefined` past the end of the line, taken at the header's last occurrence. |
| `Csv.FillRowIgnoresExtraFields` | js/shared-agent.js:70-72 | Fields beyond the header count do not change the row. |
| `Csv.ParseBlank` | js/shared-agent.js:63-65 | Empty or all-white-space input reads as the single empty header and no rows. |
| `Csv.FieldsOfThree` | js/shared-agent.js:65 | Three one-character, non-blank, comma-free values joined by commas split back into those three fields. |
| `Csv.LinesOfTwo` | js/shared-agent.js:64 | Two newline-free lines joined by a line feed, with no white space at the outer ends, split back into those two lines. |
| `Csv.RowOfThree` | js/shared-agent.js:69-72 | A row over three headers is the three assignments `row[hs[j]] = vs[j]`, made in index order, so a repeated header keeps its later field. |
| `Csv.ParseThreeByThree` | js/shared-agent.js:63-76 | A three-field header line plus a three-field data line reads as those headers and the one row that pairs them. |
| `Csv.ParseExample` | js/shared-agent.js:63-76 | `"a,b,c\n1,2,3"` reads as headers `a, b, c` and the single row `{a: "1", b: "2", c: "3"}`. |
| `Currency.TierOf` | js/shared-agent.js:17-25 | The chosen tier's band contains the amount: at least one unit of the tier (except plain rupees), and below one unit of the next larger tier. |
| `Currency.ScaledBelowHundred` | js/shared-agent.js:20-23 | Shown in lakh or thousand, the scaled amount lies in [1, 100). |
| `Currency.TierMonotone` | js/shared-agent.js:18-24 | A larger amount never gets a smaller tier. |
| `Pipeline.DelayOf` | js/shared-agent.js:171 | `msg.delay \|\| 400`: never 0. A missing or zero delay becomes 400, and any other value is kept. |
| `Pipeline.StageMessages` | js/shared-agent.js:169 | A message is kept exactly when it is one of the input's messages and its step is the requested one. The result is no longer than the input. |
| `Pipeline.StageMessagesAppend` | js/shared-agent.js:169 | Filtering commutes with concatenation. |
| `Pipeline.StageMessagesPrefixStep` | js/shared-agent.js:169 | Scanning the messages in declared order, each one is appended to the kept messages exactly when its step is the requested one. So the filter keeps the declared order. |
| `Pipeline.Entries` | js/shared-agent.js:172 | One log entry per message. Entry k carries message k's tag and text. |
| `Pipeline.ScriptIsPermutation` | js/shared-agent.js:158-173 | The messages a run of n stages emits are a permutation of the messages whose step lies in [0, n). |
| `Pipeline.ScriptCountAndDelays` | js/shared-agent.js:169-171 | The run emits as many messages as there are in range, with the same delay total. |
| `Pipeline.ScriptIsSorted` | js/shared-agent.js:158-170 | Emitted messages have steps in [0, n) and appear in non-decreasing step order. A message with its step outside [0, n) is never emitted. |
| `Pipeline.InRangeStep` | js/shared-agent.js:169 | The messages for n + 1 stages are, as a multiset, those for n stages plus stage n's. |
| `Pipeline.SumDelaysAppend` | js/shared-agent.js:171 | The delay total of two message lists together is the sum of their totals. |
| `Pipeline.MessageTraceFacts` | js/shared-agent.js:170-173 | A stage's message loop waits each message's `delay \|\| 400` and marks no stage or connector. |
| `Pipeline.StageTraceDelay` | js/shared-agent.js:170-176 | One stage waits its messages' delays and then 800 ms. |
| `Pipeline.StageTraceMarks` | js/shared-agent.js:160-182 | One stage is marked active and then completed, exactly when its icon exists. |
| `Pipeline.StageTraceConnectors` | js/shared-agent.js:185-187 | One stage fills its connector exactly when the connector exists. |
| `Pipeline.StagesDelay` | js/shared-agent.js:158-188 | The stage loop waits the emitted messages' delays plus 800 ms per stage. |
| `Pipeline.StagesMarks` | js/shared-agent.js:158-182 | See below. |
| `Pipeline.StagesConnectors` | js/shared-agent.js:184-187 | The connector marks are connector 0, 1, ..., in order, as far as connectors exist. |
| `Pipeline.InsightTraceSpec` | js/shared-agent.js:223-226 | Exactly one reveal per card, and card j's reveal is scheduled at j * 300 ms. |
| `Pipeline.TailMembers` | js/shared-agent.js:191-217 | After the loop, the status is set exactly when the indicator exists and the results are shown exactly when the section exists. The metrics hook is always called. |
| `Pipeline.RunLog` | js/shared-agent.js:158-173 | A run appends one log entry per in-range message, or none without a live log. |
| `Pipeline.RunDelay` | js/shared-agent.js:145-176 | A run waits Σ(delay \|\| 400) + 800·n + 500 ms in all. |
| `Pipeline.RunMarks` | js/shared-agent.js:145-187 | A whole run's stage marks are the alternating sequence, and its connector marks are 0 .. k - 1 in order. |
| `Pipeline.StagesWork` | js/shared-agent.js:158-188 | The stage loop never sets the status and does nothing that `showResults` does. |
| `Pipeline.RunOrder` | js/shared-agent.js:144-149 | Every log line, stage mark and connector mark of a run comes before the status update and before everything `showResults` does. |
| `Pipeline.ChartsOnceAtEnd` | js/shared-agent.js:229-231 | `createCharts` is called exactly once per run, as its last event. |
| `Pipeline.RunFinishing` | js/shared-agent.js:190-217 | A run sets the status exactly when the indicator exists, shows results exactly when the section exists, and always calls the metrics hook. |
| `Pipeline.ConnectorFollowsStage` | js/shared-agent.js:176-187 | When stage i's icon and connector exist, connector i is filled immediately after stage i completes. |
| `Agent.Activate` | js/shared-agent.js:163-166 | Icon i, when it exists, gains `active` and keeps `completed`. No other icon changes. |
| `Agent.CompleteAt` | js/shared-agent.js:177-182 | Icon i, when it exists, loses `active` and gains `completed`. No other icon changes. |
| `Agent.FillAt` | js/shared-agent.js:185-187 | Connector i, when it exists, becomes completed. No other connector changes. |
| `Agent.CompletedUpTo` | js/shared-agent.js:158-182 | After n stages, icons 0 .. n - 1 are completed and not active. The others are as before. |
| `Agent.FilledUpTo` | js/shared-agent.js:158-188 | After n stages, connectors 0 .. n - 1 are completed. The others are as before. |
| `Agent.CompletedStep` | js/shared-agent.js:158-182 | Completing icon n on top of the first n completed icons gives the first n + 1. |
| `Agent.FilledStep` | js/shared-agent.js:184-188 | Filling connector n on top of the first n filled connectors gives the first n + 1. |
| `Agent.BaseAgent.constructor` | js/shared-agent.js:81-99 | A missing `steps` or `logMessages` becomes empty. `currentStep` is 0, nothing is processing or loaded, and `csvData` is null. No mark, log entry or event exists yet. |
| `Agent.BaseAgent.HandleFileSelect` | js/shared-agent.js:113-130 | A file whose name ends in `.csv` sets the label, the loaded classes and the button's `show`, and starts a read of its text. Anything else, including no file, changes nothing. `csvData` is never touched here. |
| `Agent.BaseAgent.FileLoaded` | js/shared-agent.js:124-127 | A completed read sets `csvData` to `Parse` of that file's text, replacing any earlier table. Nothing else changes. |
| `Agent.BaseAgent.AwaitDelay` | js/shared-agent.js:53-55 | An await of `delay(ms)` records exactly `Delay(ms)` and changes nothing else. |
| `Agent.BaseAgent.AddLogEntry` | js/shared-agent.js:199-211 | The log gains exactly one entry at its end, with earlier entries unchanged. Without a live log it is a no-op. |
| `Agent.BaseAgent.EmitMessage` | js/shared-agent.js:171-172 | One message: wait `delay \|\| 400`, then log it. |
| `Agent.BaseAgent.LogStageMessages` | js/shared-agent.js:169-173 | The inner loop adds the stage's filtered messages, in declared order, to the trace and to the log. |
| `Agent.BaseAgent.OpenStage` | js/shared-agent.js:160-166 | Icon i becomes active when it exists. No other icon changes and no connector changes. |
| `Agent.BaseAgent.CloseStage` | js/shared-agent.js:177-187 | Icon i is completed and then connector i is filled, each only when it exists. |
| `Agent.BaseAgent.RunStage` | js/shared-agent.js:159-187 | One loop iteration adds exactly `StageTrace` to the trace and the stage's entries to the log, and completes icon i and connector i. |
| `Agent.BaseAgent.AdvanceStage` | js/shared-agent.js:158-188 | Running stage i extends the state after stages 0 .. i - 1 to the state after stages 0 .. i. |
| `Agent.BaseAgent.RunStages` | js/shared-agent.js:158-188 | The loop adds `StagesTrace` and `PipelineLog` for every step, and completes the first `steps.length` icons and connectors. Nothing else changes. |
| `Agent.BaseAgent.RunPipeline` | js/shared-agent.js:154-197 | As `RunStages`, followed by the status update when the indicator exists. |
| `Agent.BaseAgent.ScheduleInsights` | js/shared-agent.js:223-226 | The trace gains the reveal for each card k at k * 300 ms. |
| `Agent.BaseAgent.ShowResults` | js/shared-agent.js:213-232 | Adds exactly `ResultsTrace`: the results (when the section exists), the metrics hook, the reveals, and the charts hook. |
| `Agent.BaseAgent.StartProcessing` | js/shared-agent.js:132-152 | See below. |
| `Scenarios.InRangeAll` | js/shared-agent.js:158-169 | When all steps lie in [0, n), every message is in range. |
| `Scenarios.StageOrderedScript` | js/shared-agent.js:158-173 | See below. |
| `Scenarios.DemandStageFacts` | js/demand-forecasting-agent.js:18-38 | Each of the six blocks of the demand-forecasting script belongs to one step. Block delays are 1050, 1250, 1350, 1250, 1850 and 1200 ms. |
| `Scenarios.DemandScriptShape` | js/demand-forecasting-agent.js:18-38 | The script is listed stage by stage. See below. |
| `Scenarios.DemandRun` | js/demand-forecasting-agent.js:8-39 | See below. |
| `Scenarios.DemandSession` | js/demand-forecasting-agent.js:6-39 | See below. |

The rows marked "See below" state the following.

- **`Pipeline.StagesMarks`**: stages are marked active and then completed exactly once each, in strictly increasing order (active 0, completed 0, active 1, ...). This holds as far as icons exist.
- **`Agent.BaseAgent.StartProcessing`** is a complete no-op when `isProcessing` is set or `csvData` is null. The no-op covers every field, both arrays and the trace. Otherwise:
  - the trace gains exactly `RunTrace` and the log exactly `PipelineLog`;
  - the button is disabled and the processing section shown;
  - the status and results are set as their elements allow;
  - icons and connectors 0 .. `steps.length - 1` are completed;
  - `isProcessing` is false at the end, having been kept true by every part of the run;
  - `currentStep` is never changed.
- **`Scenarios.StageOrderedScript`**: when messages are listed stage by stage (block i holding step i's messages), all of them are in range and the run emits them exactly in declared order.
- **`Scenarios.DemandScriptShape`**: whatever the texts, all 19 messages are in range for six steps, emitted in declared order, and their delays total 7950 ms.
- **`Scenarios.DemandRun`**: the demand-forecasting run logs its 19 messages in declared order when there is a live log, and none otherwise. It waits 13250 ms in all.
- **`Scenarios.DemandSession`** covers a whole session: a new agent, a file chosen, its read completing, one click.
  - For a `.csv` name, the table is `Parse(text)`, the trace is `RunTrace`, and the log holds 19 entries (with a live log), over 13250 ms of delays.
  - For any other name, nothing is loaded, logged or traced.

## Left out

- How the page is rendered: `innerHTML` texts, the button's label, the status styles, `scrollIntoView`, `scrollTop`, the log entry's markup and its lower-cased tag class. These are state flags and events only.
- Step labels. The icon and the label get the same classes, and only the icon's are modelled.
- Which steps have an icon. The model gives icons to the first `stepIcons` steps. A page whose step element i lacks an icon while step i + 1 has one is not expressible.
- The log timestamp (`getTimestamp`). It reads the wall clock.
- `animateValue`, `formatFileSize`, `random` and the `toFixed` digits of `formatCurrency`. They use floating point, easing, `Math.log` and `Math.random`.
- `console.log` on load.
- The listeners registered by `init()`. The handlers are modelled as methods called directly.
- Elements the source dereferences without a check: the file label, the upload section, the process button and the processing section. They are assumed present; where they are missing the source throws.
- Interleaving at `await`s. A run is one atomic step: a click or a completed read during a run's waits is not modelled.
  - Reads that complete in any order are modelled (`FileLoaded(k)`).
- Pipeline.RunLog: states only the count of new entries. The content (the stage-by-stage concatenation of the filtered messages) is given by `PipelineLog` in the ensures of `Agent.BaseAgent.RunPipeline` and `Agent.BaseAgent.StartProcessing`.
- Timer semantics. The insight reveals and delays are recorded as scheduled, not performed. `setTimeout`'s clamping of negative or huge delays is not modelled.
- `animateMetrics` and `createCharts`. The base class's empty hooks are recorded as events. Subclass overrides drive Chart.js, a foreign library. The `typeof this.createCharts === 'function'` test always holds for a `BaseAgent`.
- Field types. A message's `step` is an integer and its `delay` an optional integer. A string, fractional or `NaN` value cannot be expressed.
- Object-key corner cases. A row is a map, so the special key `__proto__` and JavaScript's ordering of integer-like keys are not modelled.
- String representation. Strings are sequences of Unicode scalar values rather than UTF-16 code units. For `trim`, for `split` on `,` or line feed, and for `endsWith`, the two agree on well-formed text.
- The seven other `*-agent.js` configurations. The demand-forecasting one stands for them, and their chart data is Chart.js input.
