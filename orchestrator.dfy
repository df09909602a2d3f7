/**
 * `process_file` and `process_all_files` of src.py: the missing-module list and the install
 * flow. Printing and `input()` become events of a trace; the environment (the directory
 * listing, file contents, the installed-module test and the outcome of each pip install) is a
 * parameter.
 */
module Orchestrator {
  import opened Wrappers
  import opened Seqs
  import opened ImportScan
  import opened FileEnumerator

  /** The two `input()` prompts: before the analysis (directory mode) and before installing. */
  datatype Purpose = AnalyzePrompt | InstallPrompt

  /** What the script shows or does, in order. */
  datatype Event =
    | InvalidFile(arg: string)               // the `-f` argument is not a Python file
    | Processing(file: string)               // "Processing file: ..."
    | ReadError(file: string)                // a file that could not be read
    | FilesDetected(files: seq<string>)      // "Python files detected:" and the list
    | Prompt(purpose: Purpose)               // `input(...)`
    | ModulesToInstall(modules: seq<string>) // the numbered list of missing modules
    | Install(name: string, ok: bool)        // one `install_module` call; `ok` when pip exits with 0
    | AllInstalled                           // "All required modules are already installed."

  /**
   * The world the script runs in: the directory listing, which names are regular files, the
   * text of each file after UTF-8 decoding and newline translation (None when reading fails),
   * which modules import, and which pip installs succeed.
   */
  datatype Env = Env(
    listing: seq<string>,
    isFile: string -> bool,
    read: string -> Option<string>,
    installed: string -> bool,
    installs: string -> bool)

  /** `[module for module in imports if not is_module_installed(module)]`. */
  function Missing(imports: seq<string>, installed: string -> bool): (missing: seq<string>)
    ensures forall m :: m in missing <==> m in imports && !installed(m)
  {
    Filter(imports, m => !installed(m))
  }

  /** The missing list keeps the text order of the imports and every repeat of a missing module. */
  lemma MissingOrderAndRepeats(imports: seq<string>, installed: string -> bool)
    ensures IsSublist(Missing(imports, installed), imports)
    ensures forall m :: multiset(Missing(imports, installed))[m] == (if installed(m) then 0 else multiset(imports)[m])
  {
    FilterIsSublist(imports, m => !installed(m));
    FilterCounts(imports, m => !installed(m));
  }

  /** One install attempt per module, in order, whatever the outcome of the earlier ones. */
  function InstallEvents(modules: seq<string>, installs: string -> bool): (events: seq<Event>)
    ensures |events| == |modules|
    ensures forall i :: 0 <= i < |modules| ==> events[i] == Install(modules[i], installs(modules[i]))
    decreases |modules|
  {
    if modules == [] then []
    else
      var last := modules[|modules| - 1];
      InstallEvents(modules[..|modules| - 1], installs) + [Install(last, installs(last))]
  }

  /** `for module in missing_modules: install_module(module)`. */
  method InstallAll(modules: seq<string>, installs: string -> bool) returns (events: seq<Event>)
    ensures events == InstallEvents(modules, installs)
  {
    events := [];
    for i := 0 to |modules|
      invariant events == InstallEvents(modules[..i], installs)
    {
      assert modules[..i + 1][..i] == modules[..i];
      events := events + [Install(modules[i], installs(modules[i]))];
    }
    assert modules[..|modules|] == modules;
  }

  /** The tail shared by both modes: the list, the prompt and the installs, or the all-installed notice. */
  function InstallPhase(missing: seq<string>, installs: string -> bool): (events: seq<Event>) {
    if missing == [] then [AllInstalled]
    else [ModulesToInstall(missing), Prompt(InstallPrompt)] + InstallEvents(missing, installs)
  }

  /** The modules of the install attempts of a trace, in order. */
  function Attempts(t: seq<Event>): (names: seq<string>) {
    if t == [] then []
    else (if t[0].Install? then [t[0].name] else []) + Attempts(t[1..])
  }

  /** The prompts of a trace, in order. */
  function Prompts(t: seq<Event>): (purposes: seq<Purpose>) {
    if t == [] then []
    else (if t[0].Prompt? then [t[0].purpose] else []) + Prompts(t[1..])
  }

  lemma {:induction false} AttemptsAppend(a: seq<Event>, b: seq<Event>)
    ensures Attempts(a + b) == Attempts(a) + Attempts(b)
    decreases |a|
  {
    if a != [] {
      assert (a + b)[0] == a[0] && (a + b)[1..] == a[1..] + b;
      AttemptsAppend(a[1..], b);
      var h := if a[0].Install? then [a[0].name] else [];
      assert Attempts(a) == h + Attempts(a[1..]);
      assert Attempts(a + b) == h + Attempts(a[1..] + b);
      assert h + (Attempts(a[1..]) + Attempts(b)) == (h + Attempts(a[1..])) + Attempts(b);
    } else {
      assert a + b == b;
    }
  }

  lemma {:induction false} PromptsAppend(a: seq<Event>, b: seq<Event>)
    ensures Prompts(a + b) == Prompts(a) + Prompts(b)
    decreases |a|
  {
    if a != [] {
      assert (a + b)[0] == a[0] && (a + b)[1..] == a[1..] + b;
      PromptsAppend(a[1..], b);
      var h := if a[0].Prompt? then [a[0].purpose] else [];
      assert Prompts(a) == h + Prompts(a[1..]);
      assert Prompts(a + b) == h + Prompts(a[1..] + b);
      assert h + (Prompts(a[1..]) + Prompts(b)) == (h + Prompts(a[1..])) + Prompts(b);
    } else {
      assert a + b == b;
    }
  }

  /** The install loop attempts exactly the listed modules, in order, and asks nothing. */
  lemma {:induction false} InstallEventsAttempts(modules: seq<string>, installs: string -> bool)
    ensures Attempts(InstallEvents(modules, installs)) == modules
    ensures Prompts(InstallEvents(modules, installs)) == []
    decreases |modules|
  {
    if modules != [] {
      var init := modules[..|modules| - 1];
      var last := modules[|modules| - 1];
      InstallEventsAttempts(init, installs);
      AttemptsAppend(InstallEvents(init, installs), [Install(last, installs(last))]);
      PromptsAppend(InstallEvents(init, installs), [Install(last, installs(last))]);
      assert modules == init + [last];
    }
  }

  /**
   * An empty missing list gives no prompt and no install; otherwise there is one prompt, it
   * comes before every install, and every listed module is attempted once, in list order.
   */
  lemma InstallPhaseProtocol(missing: seq<string>, installs: string -> bool)
    ensures Attempts(InstallPhase(missing, installs)) == missing
    ensures Prompts(InstallPhase(missing, installs)) == if missing == [] then [] else [InstallPrompt]
    ensures AllInstalled in InstallPhase(missing, installs) <==> missing == []
    ensures missing != [] ==> (InstallPhase(missing, installs)[1] == Prompt(InstallPrompt) &&
      forall i :: 0 <= i < |InstallPhase(missing, installs)| && InstallPhase(missing, installs)[i].Install? ==> 2 <= i)
  {
    InstallEventsAttempts(missing, installs);
    if missing != [] {
      var head := [ModulesToInstall(missing), Prompt(InstallPrompt)];
      AttemptsAppend(head, InstallEvents(missing, installs));
      PromptsAppend(head, InstallEvents(missing, installs));
      assert head[1..][1..] == [];
      assert AllInstalled !in InstallPhase(missing, installs);
    }
  }

  /** The read-error notices of the files, in order: one per file that cannot be read. */
  function ReadErrors(files: seq<string>, read: string -> Option<string>): (events: seq<Event>)
    decreases |files|
  {
    if files == [] then []
    else
      var last := files[|files| - 1];
      ReadErrors(files[..|files| - 1], read) + (if read(last).None? then [ReadError(last)] else [])
  }

  /** Read errors neither prompt nor install. */
  lemma {:induction false} ReadErrorsQuiet(files: seq<string>, read: string -> Option<string>)
    ensures Attempts(ReadErrors(files, read)) == [] && Prompts(ReadErrors(files, read)) == []
    decreases |files|
  {
    if files != [] {
      var last := files[|files| - 1];
      ReadErrorsQuiet(files[..|files| - 1], read);
      var tail := if read(last).None? then [ReadError(last)] else [];
      AttemptsAppend(ReadErrors(files[..|files| - 1], read), tail);
      PromptsAppend(ReadErrors(files[..|files| - 1], read), tail);
    }
  }

  /** The trace of `process_file`. */
  function SingleFileTrace(cc: Classes, env: Env, name: string): (events: seq<Event>) {
    [Processing(name)] + ReadErrors([name], env.read)
      + InstallPhase(Missing(ImportsInFile(cc, env.read(name)), env.installed), env.installs)
  }

  /** `process_file`: the missing modules of one file, duplicates and text order kept, and its trace. */
  method ProcessFile(cc: Classes, env: Env, name: string) returns (missing: seq<string>, trace: seq<Event>)
    ensures missing == Missing(ImportsInFile(cc, env.read(name)), env.installed)
    ensures trace == SingleFileTrace(cc, env, name)
  {
    trace := [Processing(name)];
    var imports := ImportsInFile(cc, env.read(name));
    if env.read(name).None? {
      trace := trace + [ReadError(name)];
    }
    assert [name][..0] == [];
    assert trace == [Processing(name)] + ReadErrors([name], env.read);
    missing := Missing(imports, env.installed);
    if missing != [] {
      trace := trace + [ModulesToInstall(missing), Prompt(InstallPrompt)];
      var installed := InstallAll(missing, env.installs);
      trace := trace + installed;
    } else {
      trace := trace + [AllInstalled];
    }
  }

  /**
   * In single-file mode every missing module is attempted once, in the order of its imports, after
   * the one install prompt; an unreadable file gives its error, no prompt and no install.
   */
  lemma SingleFileProtocol(cc: Classes, env: Env, name: string)
    ensures Attempts(SingleFileTrace(cc, env, name)) == Missing(ImportsInFile(cc, env.read(name)), env.installed)
    ensures Prompts(SingleFileTrace(cc, env, name)) ==
      if Missing(ImportsInFile(cc, env.read(name)), env.installed) == [] then [] else [InstallPrompt]
    ensures env.read(name).None? ==> SingleFileTrace(cc, env, name) == [Processing(name), ReadError(name), AllInstalled]
  {
    var missing := Missing(ImportsInFile(cc, env.read(name)), env.installed);
    var head := [Processing(name)] + ReadErrors([name], env.read);
    assert [name][..0] == [];
    InstallPhaseProtocol(missing, env.installs);
    ReadErrorsQuiet([name], env.read);
    AttemptsAppend([Processing(name)], ReadErrors([name], env.read));
    PromptsAppend([Processing(name)], ReadErrors([name], env.read));
    AttemptsAppend(head, InstallPhase(missing, env.installs));
    PromptsAppend(head, InstallPhase(missing, env.installs));
  }

  /** `set(names)`. */
  function Elements(names: seq<string>): (r: set<string>)
    ensures forall m :: m in r <==> m in names
  {
    set m | m in names
  }

  /** `find_imports_in_file` on each path, the content of a path coming from `read`. */
  function FileImports(cc: Classes, read: string -> Option<string>): (importsOf: string -> seq<string>) {
    f => ImportsInFile(cc, read(f))
  }

  /** The union of the imports of the files, as `all_imports` holds it after the loop. */
  function AllImports(importsOf: string -> seq<string>, files: seq<string>): (all: set<string>)
    decreases |files|
  {
    if files == [] then {}
    else AllImports(importsOf, files[..|files| - 1]) + Elements(importsOf(files[|files| - 1]))
  }

  /** A module is in the union exactly when some file imports it. */
  lemma {:induction false} AllImportsMember(importsOf: string -> seq<string>, files: seq<string>, m: string)
    ensures m in AllImports(importsOf, files) <==> exists i :: 0 <= i < |files| && m in importsOf(files[i])
    decreases |files|
  {
    if files != [] {
      var init := files[..|files| - 1];
      var last := |files| - 1;
      AllImportsMember(importsOf, init, m);
      if m in AllImports(importsOf, init) {
        var i :| 0 <= i < |init| && m in importsOf(init[i]);
        assert files[i] == init[i];
      } else if m !in importsOf(files[last]) {
        forall i | 0 <= i < |files| ensures m !in importsOf(files[i]) {
          if i < last {
            assert files[i] == init[i];
          }
        }
      }
    }
  }

  /** The loop of `process_all_files` that adds every file's imports to `all_imports`. */
  method CollectImports(cc: Classes, read: string -> Option<string>, files: seq<string>)
    returns (all: set<string>, errors: seq<Event>)
    ensures all == AllImports(FileImports(cc, read), files)
    ensures errors == ReadErrors(files, read)
  {
    all := {};
    errors := [];
    for i := 0 to |files|
      invariant all == AllImports(FileImports(cc, read), files[..i])
      invariant errors == ReadErrors(files[..i], read)
    {
      assert files[..i + 1][..i] == files[..i];
      var names := ImportsInFile(cc, read(files[i]));
      if read(files[i]).None? {
        errors := errors + [ReadError(files[i])];
      }
      all := all + Elements(names);
    }
    assert files[..|files|] == files;
  }

  /**
   * `[module for module in all_imports if not is_module_installed(module)]`: the set is walked
   * in an order the model leaves open (each step picks any remaining element).
   */
  method MissingOf(all: set<string>, installed: string -> bool) returns (missing: seq<string>)
    ensures NoDuplicates(missing)
    ensures forall m :: m in missing <==> m in all && !installed(m)
  {
    missing := [];
    var remaining := all;
    while remaining != {}
      invariant remaining <= all
      invariant NoDuplicates(missing)
      invariant forall m :: m in missing ==> m !in remaining
      invariant forall m :: m in missing <==> m in all - remaining && !installed(m)
      decreases |remaining|
    {
      var m :| m in remaining;
      if !installed(m) {
        missing := missing + [m];
      }
      remaining := remaining - {m};
    }
  }

  /** The trace of `process_all_files` for a given walk `missing` of the missing set. */
  function DirectoryTrace(files: seq<string>, read: string -> Option<string>, missing: seq<string>, installs: string -> bool): (events: seq<Event>) {
    [FilesDetected(files), Prompt(AnalyzePrompt)] + ReadErrors(files, read) + InstallPhase(missing, installs)
  }

  /** `process_all_files`: the Python files, the missing modules (each once, in some order) and the trace. */
  method ProcessAllFiles(cc: Classes, env: Env, exclude: string) returns (files: seq<string>, missing: seq<string>, trace: seq<Event>)
    ensures files == ListPythonFiles(env.listing, exclude, env.isFile)
    ensures NoDuplicates(missing)
    ensures forall m :: m in missing <==> m in AllImports(FileImports(cc, env.read), files) && !env.installed(m)
    ensures forall m :: m in missing <==>
      !env.installed(m) && exists i :: 0 <= i < |files| && m in ImportsInFile(cc, env.read(files[i]))
    ensures trace == DirectoryTrace(files, env.read, missing, env.installs)
  {
    files := ListPythonFiles(env.listing, exclude, env.isFile);
    trace := [FilesDetected(files), Prompt(AnalyzePrompt)];
    var all, errors := CollectImports(cc, env.read, files);
    trace := trace + errors;
    missing := MissingOf(all, env.installed);
    if missing != [] {
      trace := trace + [ModulesToInstall(missing), Prompt(InstallPrompt)];
      var installed := InstallAll(missing, env.installs);
      trace := trace + installed;
    } else {
      trace := trace + [AllInstalled];
    }
    forall m {
      AllImportsMember(FileImports(cc, env.read), files, m);
    }
  }

  /**
   * In directory mode the analysis prompt comes first; then, when something is missing, one
   * install prompt and one attempt per missing module, in the order of the list.
   */
  lemma DirectoryProtocol(files: seq<string>, read: string -> Option<string>, missing: seq<string>, installs: string -> bool)
    ensures Attempts(DirectoryTrace(files, read, missing, installs)) == missing
    ensures Prompts(DirectoryTrace(files, read, missing, installs)) ==
      [AnalyzePrompt] + if missing == [] then [] else [InstallPrompt]
  {
    var head := [FilesDetected(files), Prompt(AnalyzePrompt)];
    InstallPhaseProtocol(missing, installs);
    ReadErrorsQuiet(files, read);
    AttemptsAppend(head, ReadErrors(files, read));
    PromptsAppend(head, ReadErrors(files, read));
    AttemptsAppend(head + ReadErrors(files, read), InstallPhase(missing, installs));
    PromptsAppend(head + ReadErrors(files, read), InstallPhase(missing, installs));
    assert head[1..][1..] == [];
  }
}
