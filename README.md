# signalflow-cli, modelled in Dafny

signalflow-cli is a console client for SignalFx SignalFlow analytics. It runs
a streaming computation and shows the stream of computation messages in one
of three ways:

- as a live terminal dashboard with one sparkline per time series and the
  latest events (`LiveOutputDisplay` in `live.py`, and its older variant
  `SignalFlowCli.live_stream` in `__init__.py`);
- as CSV lines (`csvflow.stream`);
- as a graph, which is not part of this model.

Every dashboard line names its time series with `utils.timeseries_repr`. The
interactive prompt (`prompt.py`) expands the user's time parameters, completes
`.`-commands and `!`-file names, and changes settings.

The model has one Dafny module per concern:

| file | module | models |
|---|---|---|
| `wrappers.dfy` | `Wrappers` | `Option` and `Result` |
| `text.dfy` | `Text` | ASCII lower-casing, `str.join`, Python string order and `sorted` |
| `series_repr.dfy` | `SeriesRepr` | `utils.timeseries_repr` |
| `sparklines.dfy` | `Sparklines` | the ten-slot sparkline buffers and the glyph mapping, with the glyph ramps of both dashboards |
| `messages.dfy` | `Messages` | computation messages, the computation handle, and the terminal output as a trace |
| `live.dfy` | `Live` | `LiveOutputDisplay` and `live.stream` |
| `cli.dfy` | `Cli` | `SignalFlowCli` (the older dashboard) |
| `csvflow.dfy` | `CsvFlow` | `csvflow.stream` and `_emit` |
| `prompt.dfy` | `Prompt` | `process_params`, the completers, `set_param`, and the output choice |

State that the source changes in place is modelled with classes:

- `LiveOutputDisplay` holds `sparks`, `events` and the output trace.
- `SignalFlowCli` holds `sparks` and the output trace.
- `RowWriter` is the `StringIO` buffer.
- `Session` holds the prompt's `params`.
- `Computation` counts `close()` calls and holds the client's `last_logical_ts`.

Each state-changing method is proved against a pure function:

- `Sparklines.Ticked`, `Recorded`, `RecordedAll` and `Advanced` specify the buffer updates.
- `Live.Step` and `Live.Run` specify the live dashboard's message loop.
- `Cli.CliRun` specifies the old dashboard's message loop.
- `CsvFlow.CsvRun` specifies the CSV sink.

The properties of the source are proved about those functions.

The terminal is modelled as a sequence of `Out` items: printed lines, status
texts, and cursor moves up and down. Only line counts and cursor moves are
modelled, not the text of the escape sequences.

Behaviour of the code worth noting:

- `live.py` tests `minimum == maximum` before anything else (`live.py:54-55`).
  A window with one distinct value, or with no values at all, therefore draws
  the flat glyph `▃` in every slot, empty slots included. The old dashboard
  draws a blank in every slot of such a window (`__init__.py:56-59`).
- The CSV header is written once, but each data row re-reads
  `get_known_tsids()` (`csvflow.py:62`). A series that appears later therefore
  adds a column to the later rows instead of an empty cell. Rows are as wide as
  the header exactly when the set of known series does not change
  (`CsvFlow.CsvStableWidth`).
- The series name joins the dimension values only, with `.`, and not
  `key=value` pairs (`utils.py:57`).
- At the end of a session the live dashboard moves the cursor down
  `len(sparks) + len(events) + 2` lines (`live.py:165`). This is not the height
  of the last redraw.
- The old dashboard reads `logical_timestamp_ms` from every message that is
  not an Event (`__init__.py:86`). Any other message kind raises there
  (`Cause.NoTimestamp`), so unknown kinds are not ignored.
- The CSV sink drops JobStart and JobProgress messages. It writes no status
  channel for them (`csvflow.py:49-50`).

## Model

| member | source | states |
|---|---|---|
| Text.LowerChar | signalflowcli/utils.py:51 | an upper-case ASCII letter maps to the lower-case letter at the same position of the alphabet and every other character is unchanged, which is exact for the `_sf_` prefix test |
| Text.Lower | signalflowcli/utils.py:51 | lower-casing keeps the length of the string |
| Text.JoinPair | signalflowcli/utils.py:60 | joining two parts puts the separator between them |
| Text.LexLeTotal | signalflowcli/utils.py:57 | Python's string order relates any two strings |
| Text.LexLeAntisymmetric | signalflowcli/utils.py:57 | two strings that are each at most the other are equal |
| Text.LexLeTransitive | signalflowcli/utils.py:57 | the string order is transitive |
| Text.Insert | signalflowcli/utils.py:57 | inserting into a sorted list keeps it sorted and adds exactly that element |
| Text.Sort | signalflowcli/utils.py:57 | `sorted` returns a sorted permutation of its input |
| Text.SortedHeadFirst | signalflowcli/utils.py:57 | the first element of a sorted list is at most every element |
| Text.SortedUnique | signalflowcli/utils.py:57 | two sorted lists with the same elements are equal |
| Text.SortDeterminedByMultiset | signalflowcli/utils.py:57 | `sorted` depends only on which keys there are, not on their order |
| SeriesRepr.Candidates | signalflowcli/utils.py:41-48 | metric series try `sf_metric` then `sf_originatingMetric`, event series try `sf_eventType` then `sf_originatingEventType`, and any other `sf_type` has no candidates |
| SeriesRepr.FirstUsable | signalflowcli/utils.py:50-53 | finds the first candidate that is present and not generated, and no earlier candidate qualifies |
| SeriesRepr.Primary | signalflowcli/utils.py:50-53 | there is a primary name exactly when some candidate is present and not generated |
| SeriesRepr.Without | signalflowcli/utils.py:55-56 | the filter removes exactly the dropped keys and keeps every other key with its multiplicity |
| SeriesRepr.DimensionKeys | signalflowcli/utils.py:10-57 | the dimension keys are sorted, contain no bookkeeping dimension, and are exactly the other keys of `sf_key` |
| SeriesRepr.LookupAll | signalflowcli/utils.py:57 | looking up every key succeeds exactly when all are present and gives their values in order; a missing key raises KeyError for a key that is missing |
| SeriesRepr.DimensionName | signalflowcli/utils.py:55-58 | the dimension part succeeds exactly when every dimension key has a value, and joins those values in sorted key order; otherwise it raises for a missing dimension key |
| SeriesRepr.Compose | signalflowcli/utils.py:60 | `filter(None, ...)` drops an empty part: primary and dimensions are joined with `/` only when both are non-empty |
| SeriesRepr.Unlabelled | signalflowcli/utils.py:41-60 | the unlabelled name raises the unknown-type error exactly when `sf_type` is neither metric nor event |
| SeriesRepr.Repr | signalflowcli/utils.py:25-67 | `None` is returned exactly for falsy metadata, and the unknown-type error is raised exactly for truthy metadata of another type |
| SeriesRepr.DisplayName | signalflowcli/live.py:77 | `timeseries_repr(...) or ''` fails exactly when the repr raises, and is empty for falsy metadata |
| SeriesRepr.GeneratedMetricFallsBack | signalflowcli/utils.py:50-53 | a generated `sf_metric` falls back to a usable `sf_originatingMetric`, which then starts the name |
| SeriesRepr.GeneratedMetricExample | signalflowcli/utils.py:41-60 | a concrete series whose `sf_metric` is `_sf_generated` is named after its originating metric `cpu.util` |
| SeriesRepr.DimensionKeysOrderFree | signalflowcli/utils.py:55-57 | the dimension keys do not depend on the order of `sf_key` |
| SeriesRepr.ReprIgnoresBookkeeping | signalflowcli/utils.py:10-57 | adding bookkeeping dimensions to `sf_key` does not change the name |
| SeriesRepr.ReprKeyOrderFree | signalflowcli/utils.py:55-57 | the name does not depend on the order of `sf_key` |
| SeriesRepr.LookupAllAgree | signalflowcli/utils.py:57 | the dimension lookup depends only on the looked-up keys |
| SeriesRepr.FirstUsableAgree | signalflowcli/utils.py:50-53 | the candidate search depends only on the candidate fields |
| SeriesRepr.DimensionNameIgnoresLabel | signalflowcli/utils.py:55-58 | the stream label does not influence the dimension part |
| SeriesRepr.UnlabelledIgnoresLabel | signalflowcli/utils.py:41-60 | the stream label does not influence the unlabelled name |
| SeriesRepr.UnlabelledCongruent | signalflowcli/utils.py:41-60 | the unlabelled name depends only on the type, the primary names and the dimension part |
| SeriesRepr.ReprLabelPrefix | signalflowcli/utils.py:62-67 | setting `sf_streamLabel` to a non-empty label prefixes the unlabelled name with `label: `, leaves errors unchanged, and an empty label adds nothing |
| Sparklines.Blank | signalflowcli/live.py:35 | a new buffer has ten empty slots |
| Sparklines.Shifted | signalflowcli/live.py:41 | a tick keeps the length, shifts every slot one to the left and empties the last |
| Sparklines.WithLast | signalflowcli/live.py:36 | recording sets the last slot and keeps the others |
| Sparklines.Ticked | signalflowcli/live.py:38-41 | ticking keeps the tracked series, keeps buffers well formed, shifts each buffer and empties its last slot |
| Sparklines.Recorded | signalflowcli/live.py:32-36 | recording adds the series if needed, with empty earlier slots for a new series, sets only its last slot, and leaves every other series unchanged |
| Sparklines.RecordedAll | signalflowcli/live.py:153-154 | recording a message's values sets the last slot of exactly the series it carries and leaves the others unchanged |
| Sparklines.RecordedAllStep | signalflowcli/live.py:153-154 | recording the values one at a time, in any order, gives the same buffers |
| Sparklines.Advanced | signalflowcli/live.py:151-154 | after a Data message every buffer is shifted, carried series end with their new value, others end empty, and new series start empty |
| Sparklines.Values | signalflowcli/live.py:49 | `filter(None, spark)` keeps exactly the present non-zero values |
| Sparklines.MinOf | signalflowcli/live.py:51 | the minimum is a value and at most every value |
| Sparklines.MaxOf | signalflowcli/live.py:50 | the maximum is a value and at least every value |
| Sparklines.Scale | signalflowcli/live.py:58-59 | the scaled offset lies between 0 and the ramp size, the minimum maps to 0 and the maximum to the top |
| Sparklines.ScaleBounds | signalflowcli/live.py:58-59 | `k*(v-min)/(max-min)` lies in `0..k`, and is `k` at the maximum |
| Sparklines.ScaleMonotone | signalflowcli/live.py:58-59 | the scaling keeps the order of values |
| Sparklines.TickIndex | signalflowcli/live.py:53-59 | every tick index selects a glyph of the ramp |
| Sparklines.Glyphs | signalflowcli/live.py:61-63 | a sparkline has one glyph per slot, each taken from the ramp |
| Sparklines.GlyphsDegenerate | signalflowcli/live.py:54-55 | a window with fewer than two distinct values draws the flat glyph in every slot |
| Sparklines.GlyphsScaled | signalflowcli/__init__.py:55-59 | otherwise an empty or zero slot is blank, a value maps to `1 + (ramp-2)*(v-min) div (max-min)`, the maximum to the last glyph and the minimum to glyph 1 |
| Sparklines.TickIndexFormula | signalflowcli/live.py:57-59 | outside the degenerate case a present non-zero value of the window gets the index `1 + (len(ticks)-2)*(v-min) div (max-min)` |
| Sparklines.ToTickIndexScaled | signalflowcli/__init__.py:55-57 | `to_tick_index` of a non-zero value between a smaller minimum and the maximum is `1 + (len(ticks)-2)*(v-min) div (max-min)` |
| Sparklines.TickIndexMonotone | signalflowcli/live.py:58-59 | larger non-zero values never get lower glyphs |
| Sparklines.LiveStyleGlyphs | signalflowcli/live.py:19-59 | with the live ramp a degenerate window is all `▃`, other values get glyphs 1 to 6, and the maximum gets `▇` |
| Sparklines.CliStyleGlyphs | signalflowcli/__init__.py:22-59 | with the old ramp a degenerate window is blank, other values get glyphs 1 to 8, and the maximum gets `█` |
| Messages.Computation.Deliver | signalflowcli/live.py:67-133 | the client's `last_logical_ts` becomes the timestamp of a Data message and is otherwise unchanged |
| Messages.Computation.Close | signalflowcli/live.py:166 | closing is counted |
| Live.Pushed | signalflowcli/live.py:156-160 | the new event comes first, the others follow in order, and the oldest is dropped when five are kept |
| Live.PushedFull | signalflowcli/live.py:157-160 | with five events kept, the insert is the new event followed by the four newest old ones |
| Live.Step | signalflowcli/live.py:139-161 | JobStart, JobProgress and unknown kinds change nothing; Data advances the buffers and the last timestamp; Event pushes the event; buffers stay well formed and at most five events are kept |
| Live.Run | signalflowcli/live.py:139-163 | the message loop keeps the state valid, never forgets a series, and never keeps fewer events |
| Live.RunWithoutRedraws | signalflowcli/live.py:142-148 | a stream of messages that trigger no redraw leaves the dashboard unchanged |
| Live.SeriesLines | signalflowcli/live.py:74-86 | one line per series in the drawing order |
| Live.EventLines | signalflowcli/live.py:103-125 | one line per kept event, newest first |
| Live.RunStaysStopped | signalflowcli/live.py:139-163 | once a redraw has raised, later messages are not handled |
| Live.LiveOutputDisplay.AddToSpark | signalflowcli/live.py:32-36 | updates the buffers as `Recorded` |
| Live.LiveOutputDisplay.TickSparks | signalflowcli/live.py:38-41 | the loop over the series updates the buffers as `Ticked` |
| Live.LiveOutputDisplay.RecordValues | signalflowcli/live.py:153-154 | the loop over the message's values updates the buffers as `RecordedAll` |
| Live.LiveOutputDisplay.InsertEvent | signalflowcli/live.py:157-160 | pop and insert update the events as `Pushed` |
| Live.LiveOutputDisplay.RenderLatestData | signalflowcli/live.py:65-88 | succeeds exactly when every series name can be computed, then prints the header and one line per series, each series once, and reports `len(sparks) + 1` lines |
| Live.LiveOutputDisplay.RenderLatestEvents | signalflowcli/live.py:90-127 | prints a blank line, the title and one line per event, and reports `2 + len(events)` lines |
| Live.LiveOutputDisplay.Render | signalflowcli/live.py:129-137 | a redraw fails exactly when there is data and a name raises; otherwise it prints only lines and then moves the cursor up by exactly the number of lines it printed |
| Live.LiveOutputDisplay.Handle | signalflowcli/live.py:141-161 | one loop iteration updates the state as `Step`, reports JobStart and progress, and redraws after Data and Event messages |
| Live.LiveOutputDisplay.Stream | signalflowcli/live.py:139-166 | the final state is that of `Run`; the session raises exactly when a redraw or the client raised; the computation is closed exactly once on every path; the cursor finally moves down `len(sparks)+len(events)+2` lines |
| Live.StreamComputation | signalflowcli/live.py:169-199 | a failed request prints a failure and streams nothing; otherwise the session runs, the computation is closed once, and the output ends with the `Oops` message exactly when a redraw or the client raised |
| Cli.CliRun | signalflowcli/__init__.py:81-108 | the old loop keeps buffers well formed and never forgets a series |
| Cli.CliRunSkipsEvents | signalflowcli/__init__.py:82-84 | Event messages leave the buffers untouched |
| Cli.CliRunStaysStopped | signalflowcli/__init__.py:80-114 | once a message has raised, later messages are not handled |
| Cli.CliSeriesLines | signalflowcli/__init__.py:98-106 | one line per series, with its client-side name, its nine-glyph sparkline and its last slot |
| Cli.SignalFlowCli.AddToSpark | signalflowcli/__init__.py:41-44 | updates the buffers as `Recorded` |
| Cli.SignalFlowCli.TickSparks | signalflowcli/__init__.py:46-48 | updates the buffers as `Ticked` |
| Cli.SignalFlowCli.RecordValues | signalflowcli/__init__.py:95-96 | updates the buffers as `RecordedAll` |
| Cli.SignalFlowCli.DrawSeries | signalflowcli/__init__.py:98-106 | prints exactly one line per series, each series once |
| Cli.SignalFlowCli.DrawData | signalflowcli/__init__.py:86-108 | prints the header, ticks and records, prints the series, and moves the cursor up by `len(sparks)+1`, exactly the lines printed |
| Cli.SignalFlowCli.Handle | signalflowcli/__init__.py:81-108 | Data is drawn, Event is skipped, and any other kind raises before printing |
| Cli.SignalFlowCli.LiveStream | signalflowcli/__init__.py:63-114 | a failed request prints a failure and returns; otherwise the session raises exactly when a message or the client raised, the cursor finally moves down `len(sparks)+1`, the buffers are cleared and the computation is closed exactly once |
| CsvFlow.Collect | signalflowcli/csvflow.py:55-56 | the name list succeeds exactly when every name does, with one entry per series in order, and otherwise raises the first error |
| CsvFlow.ColumnCells | signalflowcli/csvflow.py:55-56 | one header cell per known series |
| CsvFlow.Header | signalflowcli/csvflow.py:53-56 | the header is `timestamp` followed by one name per known series, and fails exactly when a name raises |
| CsvFlow.DataRow | signalflowcli/csvflow.py:61-63 | a row is the logical timestamp followed by each known series' value, or `''` when the message lacks it |
| CsvFlow.BuildHeader | signalflowcli/csvflow.py:53-56 | builds exactly `Header` |
| CsvFlow.CollectAbort | signalflowcli/csvflow.py:55-56 | once an element raises, the whole list raises the same error |
| CsvFlow.BuildRow | signalflowcli/csvflow.py:61-63 | appending field by field builds exactly `DataRow` |
| CsvFlow.DataCount | signalflowcli/csvflow.py:48-50 | counts Data messages; zero exactly when there are none |
| CsvFlow.CsvRun | signalflowcli/csvflow.py:46-64 | without a naming error the sink has written its header exactly when some Data arrived, writes `1 + #Data` lines after the first Data message, and every Data message ends with its own row |
| CsvFlow.CsvRunIgnoresOthers | signalflowcli/csvflow.py:48-50 | a stream without Data messages writes nothing |
| CsvFlow.CsvHeaderOnce | signalflowcli/csvflow.py:46-57 | exactly one line, the first, starts with `timestamp`, and the header is written exactly when a line is |
| CsvFlow.CsvStableWidth | signalflowcli/csvflow.py:59-63 | when the known series do not change, the first line is their header and every line has `1 +` as many cells as there are series |
| CsvFlow.CsvRunPrefix | signalflowcli/csvflow.py:48-64 | the sink only appends: the rows written after the first messages stay the first rows of the whole stream |
| CsvFlow.CsvHeaderAtFirstData | signalflowcli/csvflow.py:53-57 | without a naming error, the first line is the header of the series known when the first Data message arrives, in that order |
| CsvFlow.CsvRowOfData | signalflowcli/csvflow.py:61-64 | every Data message handled before any naming error has its own row, right after the header and the rows of the Data messages before it |
| CsvFlow.CsvRunStaysFailed | signalflowcli/csvflow.py:47-68 | once a name has raised, later messages change nothing |
| CsvFlow.RowWriter.Emit | signalflowcli/csvflow.py:31-36 | the line is what the buffer holds with the new row, and the buffer is empty afterwards |
| CsvFlow.Stream | signalflowcli/csvflow.py:15-68 | a failed request prints the error and yields nothing; otherwise every yielded line holds exactly one row, the rows are those of `CsvRun`, the stream raises exactly when a name or the client raised, and the computation is closed exactly once |
| Prompt.ProcessParams | signalflowcli/prompt.py:115-129 | the result has the input keys minus `output`, a missing `output` raises, falsy values pass through, truthy `start`/`stop` are parsed, truthy `resolution`/`max_delay` are parsed after `=`, and other keys pass through |
| Prompt.SliceTo | signalflowcli/prompt.py:43 | Python's `s[:n]` is a prefix of `s`, with a negative end counted from the back and a large end clamped |
| Prompt.Matching | signalflowcli/prompt.py:41-44 | only options with the typed text as prefix are offered, each starting at minus the cursor position |
| Prompt.MatchingComplete | signalflowcli/prompt.py:41-44 | every option with the typed text as prefix is offered |
| Prompt.MatchingExactly | signalflowcli/prompt.py:41-44 | an option is offered exactly when the typed text is a prefix of it |
| Prompt.OptionCompletions | signalflowcli/prompt.py:36-44 | the completer offers exactly the options that start with the text before the cursor, each replacing that text |
| Prompt.MatchingInOrder | signalflowcli/prompt.py:41-44 | completions come in option order |
| Prompt.MatchingEverything | signalflowcli/prompt.py:41-44 | with nothing typed, every option is offered, in order |
| Prompt.Offset | signalflowcli/prompt.py:52-54 | `_offset` drops the first characters and moves the cursor back by as many |
| Prompt.PromptCompletions | signalflowcli/prompt.py:56-63 | `!` lines complete paths after the `!`, `.` lines complete options after the `.`, and other lines offer nothing |
| Prompt.DotCompletions | signalflowcli/prompt.py:38-63 | on a `.` line with the cursor after the dot, exactly the options starting with the typed text are offered, each replacing it |
| Prompt.DotCompletionsAtLineStart | signalflowcli/prompt.py:40-54 | with the cursor before the dot, the offset cursor is -1 and completions start one character after the cursor |
| Prompt.SplitCommand | signalflowcli/prompt.py:179 | `split(' ', 1)` gives a name without spaces and, only when there is a space, the rest as the value |
| Prompt.OutputFormat | signalflowcli/prompt.py:195 | an unset or empty output format is `live`, and a set one is kept |
| Prompt.SinkFor | signalflowcli/prompt.py:195-207 | the output format selects the live, csv or graph sink, and any other format is reported as unknown |
| Prompt.Session.SetParam | signalflowcli/prompt.py:144-148 | an unknown name is reported and changes nothing; a known name sets only that entry |
| Prompt.Session.Dot | signalflowcli/prompt.py:177-181 | `.` alone changes nothing; `.<name> [value]` sets the parameter when it exists |

## Left out

- The network, authentication and the SignalFlow client are not modelled.
  This covers `flow.execute`, `prompt_for_token`, `find_session_token`, the
  token file, and the old dashboard's `_flow` and its `close`. A computation is
  a `Computation` handle over a fixed message sequence, a metadata oracle, and
  a close counter. A failed request is a null handle.
- `StreamEnd` stands for how the client's iteration ends. A KeyboardInterrupt
  is modelled only at message boundaries.
- Generator laziness is not modelled. `CsvFlow.Stream` consumes every
  message, as `map(print, data)` does.
- The following are not modelled as text: terminal escape sequences, colours,
  dates, time zones, `tslib.render_delta`, the `{:.2f}` and `{:>10d}` value
  formatting, and the banner and `pprint` output of the prompt loop. Lines are
  abstract `Line` values.
- `Live.LiveOutputDisplay.RenderLatestEvents` keeps only the line count of the
  event block. It leaves out the JSON decoding of event properties and the
  failures that decoding or a missing `incidentId` can raise
  (`live.py:98-125`).
- Floating-point sample values are not modelled: values are integers. Python's
  floor division agrees with Dafny's on the non-negative operands of the tick
  formula.
- The csv module's quoting (`QUOTE_NONNUMERIC`) and `strip()` are not
  modelled. A CSV line is the list of rows written to the buffer.
- `tslib.parse_to_timestamp` is the parameter `parse` of
  `Prompt.ProcessParams`. Its own failures are not modelled.
- prompt_toolkit's `PathCompleter` is the parameter `paths` of
  `Prompt.PromptCompletions`.
- prompt_toolkit may refuse a completion with a positive start position. That
  check is not modelled: `Prompt.DotCompletionsAtLineStart` only shows when
  such a completion arises.
- The interactive `prompt` loop, `main`, argparse, `tzaction.py`, `graph.py`
  and `setup.py` are not part of this model.
- `Sparklines.TickIndexMonotone` orders only non-zero values. A zero value is
  drawn blank whatever its rank, because `filter(None, ...)` and `if not v`
  treat 0 as absent.
- `Sparklines.LiveStyleGlyphs` and `Sparklines.CliStyleGlyphs` only bound the
  glyph of a non-maximum value. The exact index of every value is stated by
  `Sparklines.GlyphsScaled`, whose contract they instantiate.
