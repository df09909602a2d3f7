# Missing-module installer: a verified model

`src.py` scans Python source files for `import` and `from` lines and asks the interpreter which
of the named modules it can load. It then lists the missing ones, waits for the user, and runs
`pip install` for each. It works in two modes:

- Single-file mode, `-f name.py`.
- Directory mode: every `.py` file beside the script, except the script itself.

This project models the sequential logic of the script in Dafny and proves what that logic
promises:

- **The import extractor.** It models the regex `^\s*(?:import|from)\s+([\w\.]+)` under
  `re.MULTILINE`, which `re.findall` applies to the file content.
  - `MatchAt` is a greedy scanner at one position; `PatternMatches` states the pattern
    declaratively.
  - `Findall.FindAll` is the `findall` search loop for any pattern.
  - `\s` and `\w` are abstract: `ImportScan.Classes` holds them as two predicates, and
    `WellFormed` states only what every Unicode reading of them shares.
- **The file filter.** This is `list_python_files`.
- **The missing-module list and the install flow of both modes.** Prompts, printed lists and
  install attempts are recorded as `Orchestrator.Event`s of a trace.
- **The argument check of `main`.**

The environment enters as parameters (`Orchestrator.Env`):

- the directory listing;
- which entries are regular files;
- the text of each file as Python's text-mode `open` delivers it (decoded from UTF-8, with newlines translated), or none when reading fails;
- which modules `__import__` loads;
- which `pip install` calls exit with status 0.

Modules:

- `Wrappers`: the `Option` type.
- `Seqs`: order-preserving filtering, the model of a list comprehension.
- `Findall`: the `findall` search loop.
- `ImportScan`: the pattern and the extractor.
- `ImportLines`: facts about whole lines of text.
- `ImportExamples`: concrete texts under the ASCII classes.
- `FileEnumerator`: the file filter.
- `Orchestrator`: the per-mode flow.
- `Cli`: `main`.
- `RunExamples`: a concrete run.

## Model

| member | source | states |
|---|---|---|
| ImportScan.PatternMatches | src.py:13 | defines a match of `^\s*(?:import\|from)\s+([\w\.]+)` under `re.MULTILINE` at a position: a line start, white space, a keyword, at least one white-space character, then the group as a non-empty run of `[\w\.]` characters |
| ImportScan.MatchAt | src.py:13 | a match starts at the given position; its group is a non-empty run of `[\w\.]` characters that cannot be extended |
| ImportScan.MatchAtSound | src.py:13 | every match the scanner reports is a match of `^\s*(?:import\|from)\s+([\w\.]+)` (`^` at the text start or after a newline) |
| ImportScan.MatchAtComplete | src.py:13 | every match of the pattern at a position is found by the scanner, with the same group start and the longest group |
| ImportScan.Pattern | src.py:13 | the pattern is a matcher: every match starts where it is tried, is non-empty and stays within the text |
| Findall.FindAll | src.py:13 | defines the `findall` search loop: try the pattern at each position; after a match, resume where it ended |
| Findall.FindAllSound | src.py:13 | each match `findall` reports is the pattern's match at its start, found at or after the search start |
| Findall.FindAllOrdered | src.py:13 | the reported matches do not overlap and come in text order; the search resumes at each match's end |
| Findall.FindAllComplete | src.py:13 | every position not covered by a reported match is one where the pattern does not match |
| Findall.FindAllSkips | src.py:13 | positions where the pattern does not match contribute nothing |
| ImportScan.Scan | src.py:13 | defines `re.findall` of the import pattern over a text, from a given position |
| ImportScan.ScanMatches | src.py:13 | each span `findall` reports is `MatchAt`'s match at its start; the result is empty exactly when the pattern matches nowhere |
| ImportScan.Captures | src.py:13-14 | one captured name per match |
| ImportScan.CapturesAreNames | src.py:13 | a capture of a group that is a name run is a non-empty string of `[\w\.]` |
| ImportScan.CapturesAt | src.py:13-14 | the i-th capture is the text of the i-th group |
| ImportScan.FindImports | src.py:13-14 | every extracted name is non-empty and made only of word characters and dots |
| ImportScan.FindImportsInTextOrder | src.py:13-14 | the i-th name is the group of the i-th match, and matches come in text order without overlap, so repeats are kept as repeats |
| ImportScan.FindImportsSingle | src.py:13-14 | a text with one match yields exactly that match's group |
| ImportScan.FindImportsTwo | src.py:13-14 | a text with two matches yields their groups, in text order |
| ImportScan.FindImportsThree | src.py:13-14 | a text with three matches yields their groups, in text order |
| ImportScan.FindImportsEmpty | src.py:13-14 | the name list is empty exactly when the pattern matches at no position |
| ImportScan.ImportsInFile | src.py:8-17 | an unreadable file (no content) yields `[]`; otherwise every name is a non-empty `[\w\.]` run |
| ImportLines.ScanSkipsLine | src.py:13 | the search passes positions that are not line starts |
| ImportLines.ScanAtMatch | src.py:13 | at a match whose group cannot be extended, the scan reports it and resumes at its end |
| ImportLines.ScanImportLine | src.py:13 | at the start of an import line, the scan reports the line's name once and resumes at the next line; the rest of the line is never reported |
| ImportLines.ScanOtherLine | src.py:13 | a line at whose start the pattern does not match contributes nothing |
| ImportLines.OtherLine | src.py:13 | a one-line text at whose start the pattern does not match yields `[]` |
| ImportLines.LineLayout | src.py:13 | the parts of `ws + kw + gap + name + rest` lie where the pattern expects them |
| ImportLines.LineAt | src.py:13 | an import line keeps its parts wherever it stands between a line start and a newline |
| ImportLines.ImportLine | src.py:13 | white space, `import`/`from`, white space, NAME, then a rest that does not continue NAME yields exactly `[NAME]` |
| ImportLines.OneLine | src.py:13 | a text that is one import line yields its name |
| ImportLines.NoImportsIffNoMatch | src.py:13-14 | the result is empty exactly when no (line start, spaces, keyword, spaces, name) layout exists in the text |
| ImportExamples.AsciiWellFormed | src.py:13 | the ASCII classes meet the assumptions on `\s`/`\w` |
| ImportExamples.ThreeLines | src.py:13-14 | `import os\nimport requests\nfrom foo.bar import baz\n` yields `["os", "requests", "foo.bar"]` |
| ImportExamples.FirstNameOnly | src.py:13 | `import a, b` yields `["a"]` |
| ImportExamples.RepeatsKeptText | src.py:13-14 | `import os\nimport os\n` yields `["os", "os"]` |
| ImportExamples.KeywordNeedsSpace | src.py:13 | `importlib` yields `[]` |
| ImportExamples.KeywordAtLineStart | src.py:13 | `x = 1; import os` yields `[]` |
| ImportExamples.SpaceCrossesNewline | src.py:13 | `import\n  foo` yields `["foo"]`, because `\s+` crosses the newline |
| ImportExamples.MatchHidesLineStart | src.py:13 | `import\nimport os` yields `["import"]`: a match over a newline hides the next line start |
| Seqs.Filter | src.py:48 | a list comprehension keeps exactly the elements that pass its test |
| Seqs.FilterIsSublist | src.py:48 | a comprehension keeps the order of the elements it keeps |
| Seqs.FilterCounts | src.py:54 | a comprehension keeps every occurrence of a kept element and none of a dropped one |
| Seqs.FilterNoDuplicates | src.py:48 | a comprehension over distinct elements gives distinct elements |
| FileEnumerator.PySuffixIff | src.py:48 | `endswith('.py')` holds exactly for some stem followed by `.py` |
| FileEnumerator.ListPythonFiles | src.py:46-48 | an entry is kept exactly when it ends in `.py`, differs from the excluded file and is a regular file; the excluded file is never kept |
| FileEnumerator.ListPythonFilesOrder | src.py:48 | the result is an order-preserving sublist of the listing, each kept entry as often as it is listed |
| FileEnumerator.ListPythonFilesNoDuplicates | src.py:48 | a listing without repeats gives a result without repeats |
| FileEnumerator.ListPythonFilesExample | src.py:48 | from `a.py, notes.txt, src.py, pkg.py (a directory), b.py` with `src.py` excluded, the result is `a.py, b.py` |
| Orchestrator.Missing | src.py:54 | a module is missing exactly when it is imported and not loadable |
| Orchestrator.MissingOrderAndRepeats | src.py:53-54 | the single-file missing list keeps the import order and every repeat of a missing module |
| Orchestrator.InstallEvents | src.py:62-63 | one install attempt per listed module, in list order, each with its own outcome |
| Orchestrator.InstallAll | src.py:62-63 | the install loop produces exactly `InstallEvents`; a failed install does not stop the loop |
| Orchestrator.InstallEventsAttempts | src.py:62-63 | the loop attempts exactly the listed modules, in order, and prompts nothing |
| Orchestrator.InstallPhase | src.py:56-65 | defines the `if missing_modules:` tail shared by both modes (also src.py:84-93): the all-installed notice, or the list, one prompt and one install per entry |
| Orchestrator.InstallPhaseProtocol | src.py:56-65 | for the install tail of both modes (the same code stands at src.py:84-93): an empty list gives the all-installed notice, no prompt and no install; otherwise there is one prompt, before every install, then one attempt per entry in order |
| Orchestrator.ReadErrors | src.py:15-16 | defines the error notices: one per file that cannot be read, in file order |
| Orchestrator.ReadErrorsQuiet | src.py:15-17 | a read error neither prompts nor installs |
| Orchestrator.SingleFileTrace | src.py:50-65 | defines the single-file trace: the processing notice, a read error if the file cannot be read, then the install phase for its missing list |
| Orchestrator.ProcessFile | src.py:50-65 | the missing list is the extracted names that fail the probe, duplicates and order kept; the trace is the single-file trace |
| Orchestrator.SingleFileProtocol | src.py:50-65 | in single-file mode the attempts are exactly the missing list, and there is one install prompt exactly when it is non-empty; an unreadable file gives its error and the all-installed notice only |
| Orchestrator.Elements | src.py:80 | `set(names)` holds exactly the listed names |
| Orchestrator.AllImports | src.py:77-80 | defines `all_imports` after the loop: the union of every listed file's imports |
| Orchestrator.AllImportsMember | src.py:77-80 | a module is in the accumulated set exactly when some listed file imports it |
| Orchestrator.CollectImports | src.py:77-80 | the accumulating loop yields the union of all files' imports, plus one read error per unreadable file, in file order |
| Orchestrator.MissingOf | src.py:82 | the directory-mode missing list has no duplicates and holds exactly the set's elements that fail the probe, in some order |
| Orchestrator.DirectoryTrace | src.py:67-93 | defines the directory trace: the file list, the analysis prompt, the read errors in file order, then the install phase |
| Orchestrator.ProcessAllFiles | src.py:67-93 | the files are `list_python_files`'s; the missing list has no duplicates and holds exactly the imports of some file that fail the probe; the trace is the directory trace |
| Orchestrator.DirectoryProtocol | src.py:67-93 | in directory mode the analysis prompt comes first, then one install prompt exactly when something is missing; the attempts are exactly the missing list, in its order |
| Cli.Dispatch | src.py:109-118 | a non-empty `-f` argument that is not a regular file or lacks `.py` is rejected; one that is both selects single-file mode; no argument or an empty one selects directory mode excluding the script's own name |
| Cli.Run | src.py:95-118 | a rejected argument yields only its error event and an empty missing list; single-file mode gives the `process_file` model; directory mode gives `process_all_files` with the script excluded |
| Cli.RunAttemptsMissing | src.py:95-118 | in every mode the install attempts of a run are exactly its missing list, and an install prompt occurs exactly when that list is non-empty |
| RunExamples.SingleFileRun | src.py:50-65 | with `os` loadable and `foo.bar` failing to install, the run lists `requests, foo.bar`, prompts once, and attempts both in order |
| RunExamples.MainMissing | src.py:53-54 | for the three-line file with only `os` loadable, the missing list is `requests, foo.bar`, in line order |
| RunExamples.DispatchExamples | src.py:109-118 | `notes.txt` and a non-existent `other.py` are rejected, `""` and no argument give directory mode, and `main.py` gives single-file mode |

## Left out

- The pip subprocess, the spinner's poll/sleep loop, and the exit-code and stderr reporting (src.py:27-44). They are process I/O and timing. An install's outcome is an input (`Env.installs`), recorded in each `Install` event.
- `__import__` (src.py:19-25) executes arbitrary code. It is the predicate `Env.installed`. Exceptions other than `ImportError`, which would end the run, are not modelled. Installs made during a run do not change its value; probing happens before any install.
- `os.listdir`, `os.path.isfile`, `os.path.join`, `abspath`, `basename` and `argparse` (src.py:48, src.py:97-107). Their results are parameters. A file is named by its entry or argument string, whatever directory it is joined to.
- Printing and `input()` (src.py:57-61, src.py:71-75, src.py:85-89). They are trace events.
  - The numbering `1.`, `2.`, … of the missing list is not modelled; the event carries the list itself.
  - The text of the error messages is not modelled.
- The exact Unicode classes of `\s` and `\w`. They are abstract predicates constrained by `ImportScan.WellFormed`. The examples read them as ASCII.
- Python `set` iteration order (src.py:82). `Orchestrator.MissingOf` picks any remaining element at each step, so only membership and the absence of duplicates are stated.
- File decoding (src.py:11-12): `Env.read` returns the text after UTF-8 decoding and universal-newline translation, so `\r\n` and a lone `\r` already arrive as `\n`. The raw bytes and the translation are not modelled, and `ImportScan.IsLineStart` knows only `\n`. Any failure to open or decode a file is the single case "no content" (`None`).
- Every `Prompt` event assumes `input()` (src.py:61, src.py:75, src.py:89) returns. An `EOFError` (standard input at end of file) or a `KeyboardInterrupt` at a prompt ends the script before any install; this is not modelled, so `Orchestrator.InstallPhaseProtocol`, `Orchestrator.SingleFileProtocol`, `Orchestrator.DirectoryProtocol` and `Cli.RunAttemptsMissing` describe runs in which every prompt is answered.
- Orchestrator.InstallAll: "a failed install does not stop the loop" assumes every `install_module` call returns. In the script, `stderr.decode()` (src.py:42) can raise on a non-UTF-8 error text and end the run. The poll loop (src.py:34) never reads the piped output, so it can wait forever once pip fills the pipe. Neither is modelled.

Three behaviours of the code that the model keeps:

- In single-file mode the missing list is not deduplicated (src.py:54): a module imported twice is listed, and installed, twice. `Orchestrator.MissingOrderAndRepeats` states this.
- `list_python_files` returns a list in listing order (src.py:48), not a set.
- The group is the greedy `[\w\.]+`, so it includes dots and any trailing dot: `import a..b.` yields `a..b.`.
