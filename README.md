# Code-quality pipeline core, modelled in Dafny

This project models the core of a code-quality analysis app written in
Python: the ingestor that collects source files, the two payload builders
that cut files into analysis units, and the workflow that runs five
analysis passes per payload with retries and merges their findings into one
report. `AgentPayloadBuilder`, `RagPayloadBuilder`, `Ingestor` and
`AgentRunner` each model one source file; `Seqs`, `PyText` and `Payloads`
hold what they share. The loops of the source are methods proved equal to a
specification function. The properties the code
promises are proved as lemmas about those functions.

| module | file | models |
|---|---|---|
| `Seqs` | `seqs.dfy` | `ConcatMap`: the "loop and extend a list" shape shared by every loop, with its lemmas |
| `PyText` | `pytext.dfy` | the Python builtins the code relies on: `splitlines`, `"\n".join`, `strip`, `lower`, slicing, `in` on strings, basename, suffix, `splitext` |
| `Payloads` | `payloads.dfy` | the payload record both builders emit, and the file inputs (`is_file`, `read_text` outcome) |
| `AgentPayloadBuilder` | `agent_payload_builder.dfy` | `builder/agent_payload_builder.py` |
| `RagPayloadBuilder` | `rag_payload_builder.dfy` | `builder/rag_payload_builder.py` |
| `Ingestor` | `ingestor.dfy` | `ingestion/ingestor.py`: the filter, `ingest_file`, `ingest_folder` over an `os.walk` stack, `ingest_github_repo` |
| `AgentRunner` | `agent_runner.dfy` | the live workflow of `app.py`: `safe_run`, `run_all_agents`, the dispatch loop and the merge loop |

Foreign calls appear as inputs:
- The parsers (`ast.parse`, `esprima.parseModule` and `esprima.parseScript`) are functions from the file text to a parse result, which is either a syntax error or the top-level nodes with their line spans.
- `astor.dump_tree` output is an opaque string.
- File reads are the outcome of `read_text`: the text, or the exception's class name and message.
- A folder is the tree of entries `os.walk` would list.
- A clone is its outcome: the cloned tree, or nothing.
- A pass's model call is a `Backend`. It maps (pass name, batch, attempt number) to a decoded JSON value or to a raised message.

Behaviours of the code worth knowing, which the model follows:
- A successful parse without top-level definitions gives a whole-file unit only when the text is not blank. A blank file gives no unit.
- The merge does not check finding severities. A list result is extended into the report. A truthy non-list result is appended. A falsy result is dropped.
- A unit's line count is `end - start + 1` as the parser reports it, with no positivity check. Its text is the joined line slice. With '\n' as the only line boundary, that slice is a verbatim piece of the file when the span lies within the file's lines, which `LineSpanIsVerbatim` states. Python's `splitlines` also breaks at other characters (see "## Left out"), so in the source the slice can be other lines than the parser's span.
- `safe_run` also sleeps after the last rate-limited attempt before giving up. So a pass that is always rate-limited makes `retries` attempts and `retries` waits.

## Model

| member | source | states |
|---|---|---|
| PyText.LowerNormalises | builder/agent_payload_builder.py:24 | after `lower()` no upper-case ASCII letter is left, each upper-case letter became a lower-case one, every other character is unchanged, and lowering again changes nothing |
| PyText.LinesCount | builder/agent_payload_builder.py:53 | `len(code.splitlines())` is the number of '\n' plus one when the text is non-empty and does not end in '\n' |
| PyText.LinesHaveNoNewline | builder/agent_payload_builder.py:78 | no line produced by `splitlines` contains a line terminator |
| PyText.JoinLinesOfLines | builder/agent_payload_builder.py:78 | `"\n".join(s.splitlines())` gives back `s`, less a final '\n' |
| PyText.JoinedLeadingLinesArePrefix | builder/agent_payload_builder.py:78 | joining the first `m` lines gives a prefix of the text, and the lemma returns the remainder |
| PyText.JoinedLineRangeIsContained | builder/agent_payload_builder.py:142 | joining any contiguous run of lines gives a substring of the text (`in`) |
| PyText.SliceOfLineSpan | builder/agent_payload_builder.py:78 | `lines[start-1:end]` with `1 <= start <= end <= len(lines)` picks exactly `end - start + 1` consecutive lines |
| PyText.SuffixAndExtension | ingestion/ingestor.py:122-123 | a non-empty `Path.suffix` or `splitext` extension is the name's last '.' and its tail. The two agree when both are non-empty |
| PyText.SuffixAndExtensionDiffer | ingestion/ingestor.py:122-123 | they can differ: "a." has the extension "." and no suffix, "..x" has the suffix ".x" and no extension |
| AgentPayloadBuilder.LineSpanIsVerbatim | builder/agent_payload_builder.py:78 | a declaration's text is the join of exactly its `end - start + 1` lines, and it occurs verbatim in the file |
| AgentPayloadBuilder.PythonPayload | builder/agent_payload_builder.py:62-107 | the method returns what the specification function `PythonPayloads` gives for the parse outcome |
| AgentPayloadBuilder.PyDeclsAreTheDefinitions | builder/agent_payload_builder.py:73-74 | the units come from exactly the top-level class, function and async-function statements; nested ones are not walked |
| AgentPayloadBuilder.PyBodyRecordsPerDefinition | builder/agent_payload_builder.py:73-94 | one record per top-level definition, in body order: the i-th record is the i-th definition's |
| AgentPayloadBuilder.PyDeclRecordContents | builder/agent_payload_builder.py:75-94 | a definition's record has its type label, its name, `end_lineno` defaulting to `lineno`, a line count of `end - start + 1`, `.py`, its dump, and the verbatim text of its lines when in range |
| AgentPayloadBuilder.PythonParseFailure | builder/agent_payload_builder.py:63-69 | a syntax error yields exactly one whole-file record built by `FileFallback` (`_create_file_fallback_payload`), with "Python parse error: " plus the message, and no dump |
| AgentPayloadBuilder.PythonNoDefinitions | builder/agent_payload_builder.py:96-105 | a parse without definitions yields nothing for a blank file, or else one whole-file record with the module dump and no parse error |
| AgentPayloadBuilder.PythonWithDefinitions | builder/agent_payload_builder.py:96-107 | with at least one definition, no whole-file record is added |
| AgentPayloadBuilder.ClassifyJsNode | builder/agent_payload_builder.py:124-137 | the node-type/name computation equals the specification `ClassifyJs` |
| AgentPayloadBuilder.JsPayload | builder/agent_payload_builder.py:112-162 | the method returns what `JsPayloads` gives: the module parse when it succeeds, else the script parse, else the fallback |
| AgentPayloadBuilder.ScanDeclaratorsNamesLast | builder/agent_payload_builder.py:132-137 | the component type is set exactly when some declarator is function-valued. The name comes from the last such declarator that binds one, or is "<anonymous>" |
| AgentPayloadBuilder.JsStmtContribution | builder/agent_payload_builder.py:123-150 | each top-level node gives at most one record. Function and class declarations always give one. A variable declaration gives one exactly when it has a function initialiser, named as `ScanDeclarators` names it. Any other node gives none |
| AgentPayloadBuilder.JsBodyRecordsHaveNoParseError | builder/agent_payload_builder.py:143-150 | declaration records carry the file's path, `.js`, no parse error and no dump |
| AgentPayloadBuilder.JsFallbackOnlyWhenBothParsesFail | builder/agent_payload_builder.py:113-120 | a "JS parse error: " record, built by `FileFallback` (`_create_file_fallback_payload`), appears if and only if both parses fail, and it is then the only record |
| AgentPayloadBuilder.JsNoDeclarations | builder/agent_payload_builder.py:152-160 | a parse with no records gives nothing for a blank file, or else one whole-file `.js` record |
| AgentPayloadBuilder.BuildPayloads | builder/agent_payload_builder.py:17-44 | the method returns `AgentPayloads`, the in-order concatenation of each path's records |
| AgentPayloadBuilder.AgentPayloadsAppend | builder/agent_payload_builder.py:20-44 | input order is kept: the records of `a + b` are those of `a`, then those of `b` |
| AgentPayloadBuilder.PyBodyRecordsPath | builder/agent_payload_builder.py:86-87 | every definition record carries the file's path |
| AgentPayloadBuilder.FilePayloadsPath | builder/agent_payload_builder.py:20-42 | a path's records all carry that path, and a path contributes only if it is a regular `.py`/`.js` file |
| AgentPayloadBuilder.AgentPayloadsOrigin | builder/agent_payload_builder.py:20-27 | every record comes from an input that is a regular file with lower-cased suffix `.py` or `.js` |
| AgentPayloadBuilder.FileContribution | builder/agent_payload_builder.py:20-44 | one path's records sit between those of the paths before and after it |
| AgentPayloadBuilder.SkippedFile | builder/agent_payload_builder.py:21-27 | a non-file, or a file with an unsupported suffix, contributes nothing |
| AgentPayloadBuilder.UnreadableFile | builder/agent_payload_builder.py:29-36 | an unreadable file contributes exactly one `{file_path, error}` record with the exception's class name and message |
| RagPayloadBuilder.BuildPayloads | builder/rag_payload_builder.py:17-45 | the method returns `RagPayloads` and never more records than inputs |
| RagPayloadBuilder.OneRecordPerRegularFile | builder/rag_payload_builder.py:22-45 | the k-th record belongs to the k-th regular file. It is a whole-file record with name, line count and lower-cased suffix, or a "File read error: " record |
| RagPayloadBuilder.RagPayloadsAppend | builder/rag_payload_builder.py:22-45 | input order is kept across concatenation |
| Ingestor.DotStemJudgedByName | ingestion/ingestor.py:118-129 | `IsUsefulFile` (`_is_useful_file`) judges a name with no extension, such as a dotfile like ".gitignore", by the ignored names alone |
| Ingestor.DefaultsJudgeDotStemsByName | ingestion/ingestor.py:100-129 | with the installed lists, such a name is skipped exactly when it is one of the ignored names |
| Ingestor.DefaultsSkipGitignore | ingestion/ingestor.py:100-129 | ".gitignore" is skipped |
| Ingestor.DefaultsKeepDotLock | ingestion/ingestor.py:100-129 | ".lock" is kept: it has no extension |
| Ingestor.DefaultsSkipLockFile | ingestion/ingestor.py:100-129 | "x.lock" is skipped by its extension |
| Ingestor.IngestFile | ingestion/ingestor.py:131-148 | the result is `{basename: text}` exactly when the file is useful and readable, else `{}`; no other key |
| Ingestor.JoinPathEndsWithLast | ingestion/ingestor.py:161-162 | the base name of a joined relative path is its last component |
| Ingestor.RelPathJudgedByName | ingestion/ingestor.py:118-129 | the filter `IsUsefulFile` (`_is_useful_file`) judges a walked file by its own name, wherever it lies in the tree |
| Ingestor.IngestFiles | ingestion/ingestor.py:160-174 | the per-directory file loop stores each useful, readable file under its relative path, in listing order (as `Collect` over the hits); a new path is added last to the key order and a stored path keeps its place (`KeyOrder`) |
| Ingestor.PushSubdirectories | ingestion/ingestor.py:156-158 | resuming the walk pushes the kept sub-directories so the first one is walked next (pending files = their walks, then the rest) |
| Ingestor.IngestFolder | ingestion/ingestor.py:150-175 | the stack-driven walk with in-place pruning gives `Collect` of `Walk`, the top-down pruned traversal, and the dictionary's key order `KeyOrder` of `Walk` |
| Ingestor.IngestGithubRepo | ingestion/ingestor.py:200-213 | a failed clone gives `{}`; otherwise the result, with its key order, is the folder ingestion of the cloned tree |
| Ingestor.WalkIsVisibleTree | ingestion/ingestor.py:156-158 | pruning while walking yields exactly the files of the whole tree that lie beneath no ignored directory, in the same order |
| Ingestor.WalkMembership | ingestion/ingestor.py:156-158 | a file is walked if and only if it is in the tree and no directory on its path is ignored |
| Ingestor.WalkWithoutIgnoredDirectories | ingestion/ingestor.py:156-158 | with no ignored directory names, the walk visits every file of the tree |
| Ingestor.CollectKeys | ingestion/ingestor.py:160-172 | the keys of the dictionary are exactly the relative paths of walked files that are useful and readable |
| Ingestor.CollectLastWins | ingestion/ingestor.py:165-169 | a stored file's text is what the dictionary holds under its path unless a later stored file has the same path |
| Ingestor.KeyOrderIsKeys | ingestion/ingestor.py:155-169 | the dictionary's ordered keys are exactly its keys, each once |
| Ingestor.KeyOrderPrefix | ingestion/ingestor.py:155-169 | the keys stored by the first `n` walked files come first, in the same order |
| Ingestor.FolderKeys | ingestion/ingestor.py:150-175 | `ingest_folder`'s keys are the relative paths of the useful, readable files of the tree that lie beneath no ignored directory |
| AgentRunner.SafeRun | app.py:342-359 | the method returns `{name: value}` with the attempts and waits of `RunFrom`; in this sequential model it has no failing outcome |
| AgentRunner.BackoffDoubles | app.py:352-355 | there are `k - i` waits, and the wait after attempt `j` is `2 ** j` |
| AgentRunner.RunStopsAtFirstSettled | app.py:344-359 | after rate-limited attempts `0..k-1`, attempt `k`'s value is kept. Any other error at `k` gives `[]` after `k + 1` attempts. If every attempt is rate-limited there are exactly `retries` attempts and waits, and the result is `[]` |
| AgentRunner.RunBounds | app.py:342-359 | for any backend, at most `retries` attempts, the wait after attempt `j` is `2 ** j`, at most one wait per attempt, and a wait after every attempt only when all were rate-limited and the result is `[]` |
| AgentRunner.PassResults | app.py:361-370 | one single-key result per pass, keyed by the pass name, in the order given |
| AgentRunner.RunAllAgents | app.py:361-370 | the method returns one result per pass, in the order Performance, Duplication, Complexity, Reliability, Security |
| AgentRunner.Dispatched | app.py:388-392 | payload `k`'s entry is the pass results for the one-element batch `[payload k]` |
| AgentRunner.DispatchAll | app.py:388-392 | the dispatch loop's list equals `Dispatched` |
| AgentRunner.MergeDict | app.py:398-403 | the inner merge loop extends by a list, appends a truthy value, and ignores falsy values and unknown names (`MergeItems`) |
| AgentRunner.MergePayload | app.py:397-403 | merging one payload's results is merging their items in order |
| AgentRunner.MergeReports | app.py:395-403 | the merge loop, from the empty five-pass report, equals `MergeItems` over all items in order |
| AgentRunner.MergeItemsAppend | app.py:395-403 | merging `a + b` is merging `a`, then `b` |
| AgentRunner.MergePerKey | app.py:395-403 | the merge keeps the report's names. Under each name it appends, in order, the findings of the items carrying that name |
| AgentRunner.UnknownNamesIgnored | app.py:399 | an item whose name is not in the report changes nothing |
| AgentRunner.AgentNamesDistinct | app.py:362-368 | the five pass names are distinct |
| AgentRunner.PassContribution | app.py:395-403 | among one batch's pass results, a pass's name collects exactly that pass's findings |
| AgentRunner.DispatchContribution | app.py:384-403 | over all payloads, a pass collects its findings payload by payload, in payload order |
| AgentRunner.WorkflowReport | app.py:384-403 | the final report has exactly the five pass names. Each holds its findings for every payload, earlier payloads first |
| AgentRunner.RunWorkflow | app.py:384-403 | the dispatch loop and the merge loop together produce that report |

## Left out

- The Streamlit UI, session state, temporary directories, zip extraction, writing ingested files back to disk, and the rmtree error handler are left out. They are user interface and file-system I/O.
- The commented-out earlier versions of the app and the ingestor are left out. They are dead code.
- The five analysis agents, the general agent and the final report builder are left out. Each is a wrapper over a remote model call. A pass's answers are the `Backend` input.
- The `asyncio.Semaphore` and `gather` concurrency is left out. The passes run in sequence. `gather` returns the results in task order, which is the order modelled.
- SafeRun: "no failing outcome" holds only for the sequential model. The semaphore (app.py:340) is created once at module level, while each payload gets a fresh event loop from `asyncio.run` (app.py:391). Once a task has had to wait for the semaphore, it is bound to that loop. A later payload whose task has to wait then gets a `RuntimeError` at `async with semaphore` (app.py:343), outside the `try`. The error passes through `gather` and `asyncio.run`, and no report is produced.
- Backend: a pass's answer is a function of the batch's contents, so two equal payload records always get the same answers. Two identical top-level definitions in one file give equal records, because a record carries no line number. In the program, separate calls for them may answer differently.
- `Path.is_file()` raising (for example on a permission error) is not modelled. A path is either a regular file or not.
- `random.random()` jitter, real sleeping and the timing shown to the user are left out. Floats and clocks are not modelled.
- SafeRun: each wait is recorded as its whole-second part `2 ** i`. The added fraction below one second is not modelled.
- SafeRun: `retries` is a natural number. A negative count behaves like zero in the source and is not modelled.
- The `ast`, `esprima` and `astor` parsers are left out. They are foreign code, and their results are inputs. esprima's tolerant mode and its error list are not modelled.
- `os.walk` internals are left out: symbolic links, `onerror`, and directories that cannot be listed. A folder is the tree the walk would list.
- The `git clone` subprocess and its error messages are left out. A clone is its outcome.
- File decoding is left out: UTF-8 with errors ignored. The read outcome is an input.
- `print` and `st.write` logging are left out. They have no effect on results.
- Python's full Unicode set of line boundaries for `splitlines` is not modelled. Only '\n' is a line boundary. `read_text` opens files with universal newlines, so '\r' and "\r\n" arrive as '\n' and '\r' never reaches `splitlines`. `splitlines` also breaks at '\x0b', '\x0c', '\x1c' to '\x1e' and '\x85', which are line boundaries for neither `ast` nor `esprima`. There the source's own unit text is the wrong lines: for "import os\n\x0c\ndef f():\n    pass\n", `ast` puts `f` at lines 3 to 4, `splitlines` gives five lines, and the unit text is "\ndef f():". U+2028 and U+2029 break lines for `splitlines` and for `esprima` but not for `ast`. So in a JavaScript file that contains them, the source's unit text is the lines `esprima` reports, and the model's, which breaks at '\n' alone, disagrees with the source on the line numbers. In a Python file they put the source's own unit text off, as above. `LineSpanIsVerbatim` holds for '\n'-only files.
- `lower()` is modelled on ASCII letters only.
- Suffix: `PurePath.suffix` is modelled as in Python 3.13 and earlier, where a name ending in '.' has no suffix. Python 3.14 counts a trailing '.' as a suffix.
- Paths are modelled as normalised '/'-separated strings. `os.path.join`, `relpath` and `Path` normalisation of other forms are not modelled.
- JSON numbers are integers in the model. A float finding is not modelled.
- MergeReports: the report is a map, so its key order is not recorded. In the source it is the order of the report literal, which is the order of `AgentNames`.
- A finding's severity is not inspected: the code does not inspect it either.
