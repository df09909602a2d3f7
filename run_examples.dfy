/** Runs of the script on a small concrete world. */
module RunExamples {
  import opened Wrappers
  import opened Seqs
  import opened ImportScan
  import opened ImportExamples
  import opened FileEnumerator
  import opened Orchestrator
  import opened Cli

  /** `main.py` holds the three import lines; `os` imports; pip installs `requests` but fails on `foo.bar`. */
  function World(): (env: Env) {
    Env(["main.py", "src.py"], f => f == "main.py" || f == "src.py",
        f => if f == "main.py" then Some(ThreeLineText) else None,
        m => m == "os", m => m == "requests")
  }

  lemma {:induction false} MissingOfThree(a: string, b: string, c: string, installed: string -> bool)
    requires installed(a) && !installed(b) && !installed(c)
    ensures Missing([a, b, c], installed) == [b, c]
  {
    var keep := (m: string) => !installed(m);
    FilterCons(c, [], keep);
    assert [b, c] == [b] + [c];
    FilterCons(b, [c], keep);
    assert [a, b, c] == [a] + [b, c];
    FilterCons(a, [b, c], keep);
  }

  /** The installed module is not listed; the failed install of `foo.bar` comes after that of `requests`. */
  lemma SingleFileRun()
    ensures SingleFileTrace(Ascii, World(), "main.py") == [
      Processing("main.py"), ModulesToInstall(["requests", "foo.bar"]), Prompt(InstallPrompt),
      Install("requests", true), Install("foo.bar", false)]
  {
    MainMissing();
    assert ["main.py"][..0] == [];
    var ev := InstallEvents(["requests", "foo.bar"], World().installs);
    assert ev == [Install("requests", true), Install("foo.bar", false)];
  }

  /** `os` imports, so only `requests` and `foo.bar` are missing, in the order of the lines. */
  lemma MainMissing()
    ensures Missing(ImportsInFile(Ascii, World().read("main.py")), World().installed) == ["requests", "foo.bar"]
  {
    ThreeLines();
    MissingOfThree("os", "requests", "foo.bar", World().installed);
  }

  /** `-f` with a file that is not a Python file, with the empty string, and with a Python file. */
  lemma DispatchExamples()
    ensures Dispatch(Some("notes.txt"), World().isFile, "src.py") == Reject("notes.txt")
    ensures Dispatch(Some("other.py"), World().isFile, "src.py") == Reject("other.py")
    ensures Dispatch(Some(""), World().isFile, "src.py") == Directory("src.py")
    ensures Dispatch(None, World().isFile, "src.py") == Directory("src.py")
    ensures Dispatch(Some("main.py"), World().isFile, "src.py") == SingleFile("main.py")
  {
    assert !HasPySuffix("notes.txt") by { assert "notes.txt"[6..][0] == 't'; }
    assert HasPySuffix("main.py");
  }
}
