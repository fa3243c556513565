# STARKAI core, modelled in Dafny

STARKAI is a Python assistant made of several small, sequential components.
This project models their bookkeeping and text logic and proves what each one
promises:

- **Code fixer** (`core/fixer.py`). It covers:
  - the line checks of the Python, JavaScript and common analyzers;
  - the per-language fixers, which split the content on `'\n'`, rewrite lines by index and join them again;
  - `_apply_fixes`, which chains those fixers;
  - severity priorities and the ranked fix suggestions;
  - `fix_file`, its history of fixes, and the totals of `fix_project`.
- **System monitor** (`core/system_hooks.py`). It covers:
  - the on/off flag;
  - the two logs, each bounded at 1000 entries;
  - the process sweep that diffs two snapshots, and the file sweep;
  - file tracking;
  - the top-N summaries built from the logs.
- **Hardware helper** (`core/hardware_helper.py`). It covers:
  - the registry of connected devices and its id scheme;
  - disconnecting one device or all of them;
  - command and raw-data writes and reads, and the device listing;
  - device profiles with their defaults.
- **Voice interface** (`interface/voice.py`). It covers:
  - the `enabled`/`listening` flags, which keep the invariant "listening implies enabled";
  - the lower-cased command table, kept in registration order;
  - wake-word stripping and first-match dispatch.
- **Intelligence collector** (`core/intel_collector.py`). It covers:
  - the keyword sentiment counter;
  - the cache key scheme of the three collectors;
  - the export filter and the status.
- **Personality** (`core/personality.py`). It covers the mood thresholds, the interaction counter, the reply lists and the response format.
- **Language-model engine** (`core/llm_engine.py`). It covers the keyword fallback reply, the system prompt, the analysis fallback and the status flags.

Everything outside the process becomes an input. That includes the serial port, psutil readings, the file system, network clients, `ast.parse`, callbacks, JSON parsing and clocks. Each method or function takes what that thing produced as a parameter. `random.choice` becomes a nondeterministic choice from its list, or a `pick` index in a pure function.

Python's own behaviour is modelled explicitly where it matters:

- A dict keeps insertion order. Module `PyDict` models it as a key sequence plus a map.
- `str.strip` strips the white-space characters Python's `str.isspace` accepts.
- `x in s` on strings is substring search.
- `s.replace(w, "")` removes every occurrence of `w`. An empty `w` leaves `s` unchanged.
- A negative list index counts from the end. An index too negative raises `IndexError`.
- `sorted(..., reverse=True)` is a stable sort.
- `deque(maxlen=1000)` drops its oldest entry when it is full.
- Floats are `real`.

Modules:

- `Text`: string helpers.
- `PyDict`: the ordered dict.
- `Ranking`: stable descending sort and top-N.
- `FixerAnalysis`, `FixerRewrite`, `Fixer`: the code fixer.
- `SystemHooks`: the system monitor.
- `Hardware`: the hardware helper.
- `Voice`: the voice interface.
- `Intel`: the intelligence collector.
- `Personality`: the personality.
- `LlmEngine`: the language-model engine.

## Model

| member | source | states |
|---|---|---|
| FixerAnalysis.ScanLines | core/fixer.py:180-198 | The `enumerate(lines, 1)` loop builds exactly `Scanned`: each line's issues in order, numbered from 1 |
| FixerAnalysis.AnalyzePython | core/fixer.py:145-198 | The Python analysis is the `ast` issues (an input) followed by the line-check scan of the split content |
| FixerAnalysis.AnalyzeJavascript | core/fixer.py:200-223 | The JavaScript analysis is the scan of the split content with the semicolon and `var` checks |
| FixerAnalysis.AnalyzeCommonIssues | core/fixer.py:225-255 | The common analysis is the scan with the TODO, FIXME and hard-coded-secret checks |
| FixerAnalysis.AnalyzeFile | core/fixer.py:132-143 | The per-language analysis followed by the common one; other languages get only the common one |
| FixerAnalysis.ChecksNumbered | core/fixer.py:180-198 | Each line check reports issues only for the line number it is given |
| FixerAnalysis.ScannedIssue | core/fixer.py:180-198 | An issue is reported iff its line lies in 1..number of lines and the check fires on that line |
| FixerAnalysis.ReportedLinesValid | core/fixer.py:132-143 | Every issue the analysis reports names a line of the content |
| FixerAnalysis.PythonLineRules | core/fixer.py:181-196 | `long_line` iff the line is longer than 100; `trailing_whitespace` iff it ends in a space or a tab |
| FixerAnalysis.JavascriptLineRules | core/fixer.py:204-221 | `missing_semicolon` iff the semicolon condition holds; `use_var` iff `var ` occurs in the line |
| FixerAnalysis.JavascriptIssuesOfLine | core/fixer.py:204-221 | For one line, the two JavaScript issues are reported exactly when their conditions hold |
| FixerAnalysis.MissingSemicolonMeaning | core/fixer.py:206-207 | The semicolon rule holds iff the stripped line is non-empty, is not a `//` comment, does not end in `;`, `{` or `}`, and the line has a statement keyword |
| FixerAnalysis.OpenStatementAtEnd | core/fixer.py:206 | On a string ending in a non-space, the end-of-line regular expression only looks at the last character |
| FixerAnalysis.CommonLineRules | core/fixer.py:229-253 | `todo_comment`, `fixme_comment` and `hardcoded_secret` are each reported iff the line has the marker or the pattern |
| FixerAnalysis.MarkersIgnoreCase | core/fixer.py:233-243 | TODO and FIXME detection gives the same answer on the lower- and upper-cased line |
| FixerAnalysis.SecretHasAssignment | core/fixer.py:247 | A line flagged as a hard-coded secret contains `=` |
| FixerAnalysis.SecretPosition | core/fixer.py:247 | A `re.search` match of the secret pattern starts at some position of the line |
| FixerRewrite.Target | core/fixer.py:279-281 | `lines[line_num]` after the guard: skipped iff the index is at least the line count, `IndexError` iff it is below minus the count, else the Python position it denotes |
| FixerRewrite.EditAll | core/fixer.py:277-287 | The rewriting loop keeps the number of lines and keeps lines free of newlines |
| FixerRewrite.FixNamedLines | core/fixer.py:274-288 | The shared loop of the imports and semicolon fixers computes `LinesFixed` |
| FixerRewrite.FailedIff | core/fixer.py:279-281 | A fixer raises exactly when some issue of its kind points more than the line count below the first line |
| FixerRewrite.EditAllEffect | core/fixer.py:277-287 | Each line ends up as its original edited once per issue naming it; one fix is recorded per issue of the kind in range, in order |
| FixerRewrite.HitsPositive | core/fixer.py:277-282 | A line is written iff some issue of the fixer's kind names it |
| FixerRewrite.LinesFixedKeepsLineCount | core/fixer.py:275-288 | Unless it raised, the fixer's output has exactly as many lines as its input |
| FixerRewrite.FixPythonImports | core/fixer.py:272-288 | `_fix_python_imports` is the shared loop with the blanking edit on `unused_import` issues |
| FixerRewrite.ImportsBlankExactly | core/fixer.py:277-288 | Exactly the lines named by an in-range `unused_import` issue become empty; every other line and other issue types are left alone |
| FixerRewrite.FixJsSyntax | core/fixer.py:316-332 | `_fix_js_syntax` is the shared loop with the right-strip-and-`;` edit on `missing_semicolon` issues |
| FixerRewrite.JsSemicolonAppended | core/fixer.py:321-332 | A line named once becomes its right-stripped form plus `;`; lines named by none are unchanged; the line count is kept |
| FixerRewrite.JsFixesReportedLines | core/fixer.py:200-223 | With its own analysis, the JavaScript fixer never raises and appends `;` to exactly the lines the semicolon rule fires on |
| FixerRewrite.FixPythonStyle | core/fixer.py:295-309 | `_fix_python_style` computes `StyleFixed` and ignores the issues it is given |
| FixerRewrite.StyleFixedLines | core/fixer.py:298-309 | After the style fix the line count is kept, no line ends in a space or a tab, and a line changes iff it ended in one |
| FixerRewrite.StyleRecordsMeaning | core/fixer.py:300-307 | One fix record per changed line, with its 1-based number, in increasing line order |
| FixerRewrite.StyleIdempotent | core/fixer.py:295-309 | Applying the style fix twice gives the same content as once, and the second application records nothing |
| FixerRewrite.RunStep | core/fixer.py:29-40 | Running one listed fixer gives `StepResult`; the syntax, security and JavaScript-style fixers are the identity with no fixes |
| FixerRewrite.ApplyFixes | core/fixer.py:257-270 | `_apply_fixes` threads the content through the language's fixers in list order, skipping one that raises |
| FixerRewrite.PipelineAppend | core/fixer.py:257-270 | Running two fixer lists in turn is running their concatenation, with the fix lists concatenated |
| FixerRewrite.PipelineKeepsLineCount | core/fixer.py:257-270 | The chained fixers keep the line count, so issue line numbers stay valid from one fixer to the next |
| FixerRewrite.ApplyFixesOutcome | core/fixer.py:257-270 | Line count kept; for Python no resulting line ends in a space or a tab; a language without fixers gets its content back with no fixes |
| Fixer.LookUp | core/fixer.py:18-27 | A table lookup finds a value iff the key is in the table, and the value found is paired with that key |
| Fixer.Priority | core/fixer.py:420-427 | error gives 3, warning 2, info 1, anything else 0 |
| Fixer.SuggestionsFor | core/fixer.py:401-413 | One suggestion per issue, in the issues' order |
| Fixer.BuildSuggestions | core/fixer.py:401-413 | The loop that builds the suggestions computes `SuggestionsFor` |
| Fixer.GetFixSuggestions | core/fixer.py:385-418 | Nothing for a missing file or an unsupported type; the error entry when reading fails; otherwise the suggestions sorted by priority, highest first, as a stable permutation |
| Fixer.SuggestionFields | core/fixer.py:403-413 | `auto_fixable` is true exactly for `trailing_whitespace`, `unused_import` and `missing_semicolon`; the priority is the severity's |
| Fixer.FixOutcomeFacts | core/fixer.py:44-97 | `fixed` only when the content changed; the backup path is the file path plus `.backup`; the line count is kept; for Python no line ends in a space or a tab; languages without fixers give `no_changes_needed` |
| Fixer.CodeFixer.FixFile | core/fixer.py:44-97 | The result of `fix_file`, and one history entry for every call that does not end in an error |
| Fixer.CodeFixer.FixSelected | core/fixer.py:115-120 | A file the walk selects gets the `fix_file` outcome, which is never a missing-file or unsupported-type error, and adds a history entry unless it is an error |
| Fixer.CodeFixer.VisitFile | core/fixer.py:115-120 | A file gets a result iff the walk selects it; the results and the history grow by exactly what it reports |
| Fixer.CodeFixer.FixProject | core/fixer.py:99-130 | No result and no history change for a missing directory; otherwise the per-file results are the outcomes of the selected files in walk order, the history grows by one entry per result that is not an error, and the totals add up what the results report |
| Fixer.ProjectResultsFacts | core/fixer.py:115-122 | At most one result per file found, and the only error a result can carry is a processing failure |
| Fixer.HistoryOfFacts | core/fixer.py:44-97 | The history holds one entry per result that is not an error, naming that result's file |
| Fixer.CodeFixer.GetStatus | core/fixer.py:429-439 | The language names, the history size, its last five entries, and four Python and two JavaScript fixers |
| Ranking.SortDescFacts | core/fixer.py:415 | `sorted(..., reverse=True)` is ordered, a permutation, and stable for every key value |
| Ranking.SortDescSorted | core/fixer.py:415 | The sorted list has non-increasing keys |
| Ranking.SortDescPermutes | core/fixer.py:415 | The sorted list holds exactly the elements given, with their multiplicities |
| Ranking.SortDescStable | core/fixer.py:415 | Elements with equal keys keep their original relative order |
| Ranking.TopN | core/system_hooks.py:244-254 | `sorted(...)[:n]` has `min(n, len)` elements from the input, in descending order, and none left out ranks above one taken |
| SystemHooks.Keep | core/system_hooks.py:28-29 | A bounded log holds at most 1000 entries: the newest ones |
| SystemHooks.BoundedAppend | core/system_hooks.py:28-29 | Appending below capacity adds the entry; appending at capacity drops the oldest one |
| SystemHooks.AppendKeeps | core/system_hooks.py:28-29 | Appending to a bounded log keeps the newest 1000 of everything ever appended |
| SystemHooks.LogProcesses | core/system_hooks.py:145-163 | Logs one event per pid of the set, each pid once, into the bounded log |
| SystemHooks.LogProcessChanges | core/system_hooks.py:145-161 | One start event for each pid that appeared, then one termination event for each pid that went, each listed once, appended to the bounded log |
| SystemHooks.SweepFiles | core/system_hooks.py:168-189 | One event per tracked file, each file once; exactly the files that still exist stay tracked |
| SystemHooks.CountNames | core/system_hooks.py:302-305 | The counting loop builds `Tally` |
| SystemHooks.TallyValid | core/system_hooks.py:302-305 | The counts form a well-formed dict: distinct keys, exactly the names it maps |
| SystemHooks.TallyCounts | core/system_hooks.py:302-305 | A name is counted iff it occurs and is non-empty, and its count is its number of occurrences |
| SystemHooks.MostFrequentFacts | core/system_hooks.py:302-318 | At most 10 entries, each with its true count, in descending count order, and none of the names left out has a higher count than one listed |
| SystemHooks.Last | core/system_hooks.py:260 | `list(log)[-n:]`: the last `min(n, len)` entries |
| SystemHooks.SystemMonitor.constructor | core/system_hooks.py:23-32 | Inactive, nothing tracked, empty logs, no statistics, interval 5 |
| SystemHooks.SystemMonitor.StartMonitoring | core/system_hooks.py:34-50 | Afterwards monitoring is active; all else is unchanged, so it is a no-op when already active |
| SystemHooks.SystemMonitor.StopMonitoring | core/system_hooks.py:52-64 | Afterwards monitoring is inactive; all else is unchanged, so it is a no-op when already inactive |
| SystemHooks.SystemMonitor.CollectSystemStats | core/system_hooks.py:76-119 | Statistics become present only with psutil and a successful reading; nothing else changes |
| SystemHooks.SystemMonitor.MonitorProcesses | core/system_hooks.py:121-166 | Logs one `process_started` per new pid and one `process_terminated` per vanished pid; tracked processes become the snapshot |
| SystemHooks.SystemMonitor.MonitorFileSystem | core/system_hooks.py:168-189 | One event per tracked file; deleted files are no longer tracked; existing files remain tracked |
| SystemHooks.SystemMonitor.TrackFile | core/system_hooks.py:191-193 | Adds the path to the tracked files |
| SystemHooks.SystemMonitor.UntrackFile | core/system_hooks.py:195-197 | Removes the path; a no-op when it is absent |
| SystemHooks.SystemMonitor.AnalyzeUsagePatterns | core/system_hooks.py:293-320 | The ten most frequent process names and file paths of the logs, with their counts |
| SystemHooks.SystemMonitor.GetProcessSummary | core/system_hooks.py:238-264 | The psutil error without psutil; the exception's error iff two or more processes are tracked and one of them has a missing percentage, which `sorted` cannot compare; otherwise the process count, the top five by CPU and by memory, and the last ten events |
| SystemHooks.SystemMonitor.GetStatus | core/system_hooks.py:322-335 | The flags and sizes of the monitor; both log sizes are at most 1000 |
| Hardware.DeviceIdInjective | core/hardware_helper.py:76 | Distinct numbers give distinct device ids |
| Hardware.RegisterAsWritten | core/hardware_helper.py:76-83 | As written: the device goes under `device_<size>`, and the map grows iff that id was free |
| Hardware.RegisterAfterDisconnectOverwrites | core/hardware_helper.py:76-83 | After two connects and a disconnect of `device_0`, a third connect overwrites `device_1` |
| Hardware.FreshIndex | core/hardware_helper.py:76 | The first index, from the starting point up, whose id is not taken |
| Hardware.Drain | core/hardware_helper.py:121-125 | The read loop concatenates the chunks read |
| Text.StripSlice | core/hardware_helper.py:129 | `strip()` cuts a contiguous slice out of the text |
| Hardware.Reply | core/hardware_helper.py:129 | "OK" for an empty read; otherwise the response stripped of surrounding white space |
| Hardware.CommandOutcome | core/hardware_helper.py:107-133 | No reply iff the id is unknown, the write fails, or the flush or read after it fails |
| Hardware.AnyOnPort | core/hardware_helper.py:184-188 | True iff some connected device is on that port |
| Hardware.WithDefaults | core/hardware_helper.py:250-257 | Missing profile fields default to "Unknown Device", "generic", no commands, 9600 baud and no init sequence |
| Hardware.HardwareHelper.constructor | core/hardware_helper.py:22-25 | No devices, no profiles, auto-reconnect on |
| Hardware.HardwareHelper.ScanPorts | core/hardware_helper.py:42-58 | The ports found, or none without pyserial |
| Hardware.HardwareHelper.ConnectDevice | core/hardware_helper.py:60-90 | Succeeds iff pyserial is present and the port opens; the device is stored under an id not in use, so the map grows by exactly one; the id is `device_<size>` whenever that one is free, and otherwise the first free index above the size; the id is appended to the connection order |
| Hardware.HardwareHelper.DisconnectDevice | core/hardware_helper.py:92-105 | False and nothing changes for an unknown id or a failed close; otherwise exactly that id is removed |
| Hardware.HardwareHelper.DisconnectAll | core/hardware_helper.py:222-226 | Only devices whose close fails remain, unchanged and in their old connection order, so the map is empty when every close succeeds |
| Hardware.KeysStep | core/hardware_helper.py:222-226 | Each device visited is dropped from the connection order iff its port closes; the kept devices stay ahead of those not yet visited, in order |
| Hardware.HardwareHelper.SendCommand | core/hardware_helper.py:107-133 | None and no effect for an unknown id or a failed write; otherwise `command + "\n"` is written; a failure after the write returns None with the devices unchanged, and otherwise the activity time is updated and the reply returned |
| Hardware.HardwareHelper.SendRawData | core/hardware_helper.py:135-152 | False and no effect for an unknown id or a failed write; otherwise the bytes are written; a failed flush then gives false with the devices unchanged, and otherwise true with the activity time updated |
| Hardware.HardwareHelper.ReadData | core/hardware_helper.py:154-178 | None and no effect for an unknown id or a failed read; otherwise the stripped text, or None when nothing was read |
| Hardware.HardwareHelper.ListDevices | core/hardware_helper.py:180-196 | One line per scanned port, "Connected" iff some device is on it, then one "(Active)" line per device in connection order |
| Hardware.HardwareHelper.CreateDeviceProfile | core/hardware_helper.py:248-257 | Stores the profile with its defaults, replacing any earlier one |
| Hardware.HardwareHelper.ExecuteDeviceProfile | core/hardware_helper.py:259-271 | None and no effect without a profile or the action; otherwise as `send_command` with the mapped command: it is written whenever the device is known and the write succeeds, a later failure leaves the devices unchanged, and on success only the device's last-activity time changes, with the connection order kept |
| Hardware.HardwareHelper.GetStatus | core/hardware_helper.py:273-283 | The flags, the device and profile counts, and the ports |
| Voice.FirstMatch | interface/voice.py:88-90 | The index of the first command contained in the text, or -1 iff none is |
| Voice.Respond | interface/voice.py:79-98 | None when disabled or without the wake word; otherwise the first registered command contained in the stripped text handles it, else "Voice command received: " plus the text |
| Voice.RespondIgnoresCase | interface/voice.py:84 | An utterance gets the same response upper- or lower-cased |
| Voice.VoiceInterface.constructor | interface/voice.py:13-19 | Disabled, not listening, no libraries, no commands, wake word "starkai" |
| Voice.VoiceInterface.Initialize | interface/voice.py:21-39 | Each library found switches its flag on |
| Voice.VoiceInterface.EnableVoice | interface/voice.py:41-49 | Enables and returns true iff both libraries are available; otherwise nothing changes |
| Voice.VoiceInterface.DisableVoice | interface/voice.py:51-55 | Clears both `enabled` and `listening` |
| Voice.VoiceInterface.StartListening | interface/voice.py:57-67 | Sets `listening` only when enabled, keeping "listening implies enabled" |
| Voice.VoiceInterface.StopListening | interface/voice.py:69-72 | Clears `listening` |
| Voice.VoiceInterface.RegisterVoiceCommand | interface/voice.py:74-77 | Stores the callback under the lower-cased command, replacing an earlier one in place or appending a new key |
| Voice.VoiceInterface.ProcessVoiceInput | interface/voice.py:79-98 | The loop over the command table computes `Respond` |
| Voice.VoiceInterface.SetVoiceSettings | interface/voice.py:110-120 | Stores the wake word lower-cased and routes `enabled` to enabling or disabling |
| Voice.VoiceInterface.GetVoiceStatus | interface/voice.py:122-132 | The flags, the wake word and the registered commands in order |
| Intel.ToneOf | core/intel_collector.py:244-249 | Positive iff a positive keyword occurs; negative iff none does and a negative one does; matched on the lower-cased text |
| Intel.ToneIgnoresCase | core/intel_collector.py:245 | A text gets the same tone upper- or lower-cased |
| Intel.TonesPartition | core/intel_collector.py:244-255 | Each text is counted exactly once: the three counts add up to the number of texts |
| Intel.AnalyzeSentiment | core/intel_collector.py:232-257 | (0, 0, 1) for no texts; otherwise each ratio is its count over the total, all non-negative, summing to 1 |
| Intel.KeysWith | core/intel_collector.py:288-291 | Keeps exactly the keys containing the type, at most as many as given, and without duplicates |
| Intel.KeysWithAppend | core/intel_collector.py:288-291 | The filter keeps cache order: filtering joined key runs joins the filtered runs |
| Intel.KeysWithSnoc | core/intel_collector.py:288-291 | A key added at the end of the cache is exported, at the end, exactly when it contains the type |
| Intel.ExportSelection | core/intel_collector.py:284-291 | "all" exports the whole cache; any other type exactly the entries whose key contains it |
| Intel.ExportBySource | core/intel_collector.py:284-291 | Data stored by a collector is exported under that collector's type |
| Intel.IntelligenceCollector.constructor | core/intel_collector.py:35-40 | No client connected and an empty cache |
| Intel.IntelligenceCollector.Initialize | core/intel_collector.py:51-119 | A client connects when its library is present and its creation succeeds |
| Intel.IntelligenceCollector.CollectRedditData | core/intel_collector.py:121-148 | Without a client or on an exception: empty and no effect; otherwise the posts are cached under `reddit_<name>` |
| Intel.IntelligenceCollector.CollectTwitterData | core/intel_collector.py:150-183 | Without a client, on an exception or with no tweets: empty and no effect; otherwise the tweets are cached under `twitter_<query>` |
| Intel.IntelligenceCollector.CollectGitHubData | core/intel_collector.py:185-230 | Without a client or on an exception: empty and no effect; otherwise the data is cached under `github_<repo>` |
| Intel.IntelligenceCollector.ExportData | core/intel_collector.py:284-298 | Exports `ExportSelection` of the cache |
| Intel.IntelligenceCollector.GetStatus | core/intel_collector.py:300-312 | The connection flags, the available sources, and `cached_datasets` equal to the number of cache keys |
| Personality.RepliesFor | core/personality.py:31-82 | The list for the context, chosen by success for code fixes and system scans; unknown contexts get the general list |
| Personality.MoodFor | core/personality.py:100-107 | Confident iff above 0.8; sarcastic iff in (0.5, 0.8]; annoyed iff at most 0.5 |
| Personality.FormatResponse | core/personality.py:96-98 | The prefix (default `[STARK]`), one space, then the message |
| Personality.StarkPersonality.constructor | core/personality.py:12-14 | Mood "confident", no interactions |
| Personality.StarkPersonality.GetGreeting | core/personality.py:16-25 | One of the greetings; nothing changes |
| Personality.StarkPersonality.GetSarcasticComment | core/personality.py:84-94 | One of the comments; nothing changes |
| Personality.StarkPersonality.GetResponse | core/personality.py:27-82 | The count goes up by exactly 1, whatever the context, and the reply is from the context's list |
| Personality.StarkPersonality.AdjustMood | core/personality.py:100-107 | The mood becomes `MoodFor` of the rate |
| Text.AnyIn | core/llm_engine.py:93-96 | True iff some word is a substring of the text (also the keyword test of `analyze_sentiment`) |
| LlmEngine.FallbackResponse | core/llm_engine.py:84-99 | The greeting reply if "hello", "hi" or "hey" occurs in the lower-cased prompt; else the help reply if "help", "what" or "how" does; else a canned reply |
| LlmEngine.FallbackIgnoresCase | core/llm_engine.py:93-96 | A prompt gets the same fallback reply upper- or lower-cased |
| LlmEngine.GreetingInsideWord | core/llm_engine.py:93-94 | Keywords match inside words: "What is this?" gets the greeting reply |
| LlmEngine.SystemPrompt | core/llm_engine.py:74-82 | The base prompt, plus a space and the persona's prompt when there is a persona |
| LlmEngine.PromptUsed | core/llm_engine.py:54-55 | The caller's prompt without a persona, the persona-styled prompt with one |
| LlmEngine.GenerateResponse | core/llm_engine.py:51-72 | The stripped model reply when a client answered, else the fallback reply for the prompt as the persona left it |
| LlmEngine.Indented | core/llm_engine.py:103-111 | The lines joined by a newline and the eight-space indent: the result starts with the first line, and each further line follows the indent |
| LlmEngine.AnalysisPrompt | core/llm_engine.py:103-111 | The analysis prompt opens with a newline, the eight-space indent and "Analyze this" followed by the language |
| LlmEngine.AnalyzeCode | core/llm_engine.py:101-122 | The parsed reply to the analysis prompt, or the fixed fallback analysis when the reply is not JSON |
| LlmEngine.AnalyzeThisGreets | core/llm_engine.py:93-104 | Any prompt opening like the analysis prompt mentions a greeting word, since "this" holds "hi" |
| LlmEngine.OfflineAnalysisIsGreeting | core/llm_engine.py:84-113 | With no persona and no model answer, the analysis prompt always gets the greeting reply, since "this" holds "hi"; the analysis is then the fixed fallback unless the greeting parses |
| LlmEngine.GetStatus | core/llm_engine.py:124-130 | Each flag is true iff its collaborator is present |

## Left out

- `ast.parse` analysis in `_analyze_python` (core/fixer.py:149-178) is an input. Its `unused_import` test fires only when a dotted name is written with spaces or a line break (`import os . path`), since otherwise the import line itself contains the imported name.
- The hard-coded-secret pattern is modelled as written, but case-insensitive matching covers ASCII letters only.
- Reading and writing files, `.backup` creation, the `rglob` walk and `Path` arithmetic in `fix_file`/`fix_project` are not modelled. The file system is given as inputs.
- In `fix_project`, the `suffix == '.backup'` test is dead: a `.backup` file never has a supported suffix.
- `generate_patch` (difflib) and `run_linter` (subprocess) are foreign calls. Neither is modelled.
- Issue descriptions, fix messages and the `ast` details of an issue are not modelled. Issues carry type, line and severity; fixes carry type and line.
- FixerAnalysis.AnalyzePython: the `SyntaxError` path of `ast.parse` is part of the given `ast` issues.
- The monitor thread, `threading.Event`, the wait loop and the exceptions of `_monitoring_loop` (core/system_hooks.py:32-74) are not modelled, as they are concurrency.
- psutil percentages and `os.stat` readings are opaque inputs. `os.path.abspath` is the identity.
- `track_directory`, `get_system_info`, `get_file_activity` and `export_logs` are not modelled. They are directory walks, system queries and file output.
- SystemHooks.SystemMonitor.CollectSystemStats: records only whether statistics are present, not the readings.
- SystemHooks.LogProcesses, SystemHooks.LogProcessChanges and SystemHooks.SweepFiles: Python iterates a set or dict in an order the model leaves open. The order chosen is a ghost result.
- Serial I/O: `time.sleep`, the `time.time()` timing loops and port opening are not modelled. Their results are parameters and timestamps are opaque integers.
- `monitor_devices`, `initialize` and `_auto_connect_known_devices` (core/hardware_helper.py:27-40, 198-246) are not modelled. They are I/O-driven scans.
- Bytes read are given as text chunks. A byte-decoding error is not modelled on its own: it is a read that raised (`readOk` false).
- `speak_text`, `test_voice_system` and the commented-out continuous listener (interface/voice.py:100-197) are not modelled. They do speech I/O, or are not code at all.
- Case mapping is ASCII only. Python's full Unicode `lower()`/`upper()` is not modelled.
- The `_init_*` credential logic of the collector is a "client created" input. The client calls themselves are parameters.
- `get_trending_topics` and the file writing of `export_data` are not modelled.
- Record shaping (field selection and `selftext[:500]`) is not modelled. A record is opaque text.
- Intel.ExportSelection: the substring filter is modelled as written, so a type also matches another collector's keys that contain it, such as a Twitter query containing "reddit".
- The persona collaborator is abstract. `apply_personality` and `get_system_prompt`, which `core/llm_engine.py` calls, do not exist on `StarkPersonality`. The engine takes the persona's prompt as data, and with a persona the styled prompt (`styled`) is a parameter.
- The OpenAI call and JSON parsing are parameters.
- Console output (`print` calls throughout the core) is not modelled.
- `interface/cli.py`, `main.py`, `setup.py` and the tests are not part of this model.

## Findings

| source | as written | input that shows it | evidently intended | confidence | as-written member | corrected member |
|---|---|---|---|---|---|---|
| core/hardware_helper.py:76-83 | a new device gets the id `device_<number of connected devices>` | connect A and B (`device_0`, `device_1`), disconnect `device_0`, connect C: C gets `device_1`, overwriting B, which is lost without being closed | each connection gets an id not in use, so the registry grows by one | not executed | Hardware.RegisterAsWritten, Hardware.RegisterAfterDisconnectOverwrites | Hardware.HardwareHelper.ConnectDevice |
