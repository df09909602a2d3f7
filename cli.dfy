/**
 * `main` of src.py: the `-f` argument decides between one file and the whole directory, and a
 * `-f` argument that is not a Python file stops the script with an error.
 */
module Cli {
  import opened Wrappers
  import opened Seqs
  import opened ImportScan
  import opened FileEnumerator
  import opened Orchestrator

  /** What `main` goes on to do. */
  datatype Mode =
    | Reject(arg: string)        // print the error and return
    | SingleFile(name: string)   // process_file on the argument
    | Directory(exclude: string) // process_all_files, leaving out the script itself

  /**
   * The decision of `main`. `fileArg` is `args.file` (None when `-f` is absent), `isFile` is
   * os.path.isfile on the argument joined to the script's directory, `scriptName` is the base
   * name of the script. An empty argument is false in Python, so `-f ""` means directory mode.
   */
  function Dispatch(fileArg: Option<string>, isFile: string -> bool, scriptName: string): (mode: Mode)
    ensures mode.Reject? <==> fileArg.Some? && fileArg.value != "" && !(isFile(fileArg.value) && HasPySuffix(fileArg.value))
    ensures mode.SingleFile? <==> fileArg.Some? && fileArg.value != "" && isFile(fileArg.value) && HasPySuffix(fileArg.value)
    ensures mode.Directory? <==> fileArg.None? || fileArg.value == ""
    ensures mode.Reject? ==> mode.arg == fileArg.value
    ensures mode.SingleFile? ==> mode.name == fileArg.value
    ensures mode.Directory? ==> mode.exclude == scriptName
  {
    if fileArg.Some? && fileArg.value != "" then
      var arg := fileArg.value;
      if !isFile(arg) || !HasPySuffix(arg) then Reject(arg) else SingleFile(arg)
    else Directory(scriptName)
  }

  /**
   * One run of the script: the mode, the missing modules found and the trace. A rejected
   * argument yields only its error: nothing is read, probed, prompted or installed.
   */
  method Run(cc: Classes, env: Env, fileArg: Option<string>, scriptName: string)
    returns (mode: Mode, missing: seq<string>, trace: seq<Event>)
    ensures mode == Dispatch(fileArg, env.isFile, scriptName)
    ensures mode.Reject? ==> missing == [] && trace == [InvalidFile(mode.arg)]
    ensures mode.SingleFile? ==>
      missing == Missing(ImportsInFile(cc, env.read(mode.name)), env.installed) &&
      trace == SingleFileTrace(cc, env, mode.name)
    ensures mode.Directory? ==>
      NoDuplicates(missing) &&
      (forall m :: m in missing <==> m in AllImports(FileImports(cc, env.read), ListPythonFiles(env.listing, scriptName, env.isFile)) && !env.installed(m)) &&
      trace == DirectoryTrace(ListPythonFiles(env.listing, scriptName, env.isFile), env.read, missing, env.installs)
  {
    mode := Dispatch(fileArg, env.isFile, scriptName);
    match mode
    case Reject(arg) =>
      missing, trace := [], [InvalidFile(arg)];
    case SingleFile(name) =>
      missing, trace := ProcessFile(cc, env, name);
    case Directory(exclude) =>
      var files;
      files, missing, trace := ProcessAllFiles(cc, env, exclude);
  }

  /** Every install attempt of a run is of a module on its missing list, in list order. */
  lemma RunAttemptsMissing(cc: Classes, env: Env, fileArg: Option<string>, scriptName: string, mode: Mode, missing: seq<string>, trace: seq<Event>)
    requires mode == Dispatch(fileArg, env.isFile, scriptName)
    requires mode.Reject? ==> missing == [] && trace == [InvalidFile(mode.arg)]
    requires mode.SingleFile? ==> missing == Missing(ImportsInFile(cc, env.read(mode.name)), env.installed) && trace == SingleFileTrace(cc, env, mode.name)
    requires mode.Directory? ==> trace == DirectoryTrace(ListPythonFiles(env.listing, scriptName, env.isFile), env.read, missing, env.installs)
    ensures Attempts(trace) == missing
    ensures InstallPrompt in Prompts(trace) <==> missing != []
  {
    match mode
    case Reject(arg) =>
      assert Attempts(trace[1..]) == [] && Prompts(trace[1..]) == [] by { assert trace[1..] == []; }
    case SingleFile(name) =>
      SingleFileProtocol(cc, env, name);
    case Directory(exclude) =>
      DirectoryProtocol(ListPythonFiles(env.listing, scriptName, env.isFile), env.read, missing, env.installs);
  }
}
