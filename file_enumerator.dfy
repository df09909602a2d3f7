/** `list_python_files` of src.py: the Python files of a directory listing, one file excluded. */
module FileEnumerator {
  import opened Seqs

  /** `f.endswith('.py')`. */
  predicate HasPySuffix(f: string) {
    |f| >= 3 && f[|f| - 3..] == ".py"
  }

  /** Exactly the names made of some stem followed by `.py` (the stem may be empty, as for `.py`). */
  lemma PySuffixIff(f: string)
    ensures HasPySuffix(f) <==> exists stem: string :: f == stem + ".py"
  {
    if HasPySuffix(f) {
      assert f == f[..|f| - 3] + ".py";
    }
    if exists stem: string :: f == stem + ".py" {
      var stem: string :| f == stem + ".py";
      assert f[|f| - 3..] == ".py";
    }
  }

  /** An entry of the listing that list_python_files keeps. */
  predicate IsCandidate(f: string, exclude: string, isFile: string -> bool) {
    HasPySuffix(f) && f != exclude && isFile(f)
  }

  /**
   * The entries of `listing` that end in `.py`, differ from `exclude` and name a regular file
   * (`isFile`, the result of os.path.isfile on the entry joined to the directory), in listing order.
   */
  function ListPythonFiles(listing: seq<string>, exclude: string, isFile: string -> bool): (files: seq<string>)
    ensures forall f :: f in files <==> f in listing && HasPySuffix(f) && f != exclude && isFile(f)
    ensures exclude !in files
  {
    Filter(listing, f => IsCandidate(f, exclude, isFile))
  }

  /** The kept files stay in listing order, each as often as it is listed. */
  lemma ListPythonFilesOrder(listing: seq<string>, exclude: string, isFile: string -> bool)
    ensures IsSublist(ListPythonFiles(listing, exclude, isFile), listing)
    ensures forall f :: multiset(ListPythonFiles(listing, exclude, isFile))[f] == (if IsCandidate(f, exclude, isFile) then multiset(listing)[f] else 0)
  {
    FilterIsSublist(listing, f => IsCandidate(f, exclude, isFile));
    FilterCounts(listing, f => IsCandidate(f, exclude, isFile));
  }

  /** A listing without repeated names (as os.listdir returns) gives a file list without repeats. */
  lemma ListPythonFilesNoDuplicates(listing: seq<string>, exclude: string, isFile: string -> bool)
    requires NoDuplicates(listing)
    ensures NoDuplicates(ListPythonFiles(listing, exclude, isFile))
  {
    FilterNoDuplicates(listing, f => IsCandidate(f, exclude, isFile));
  }

  lemma {:induction false} FilterKeepsTwo(a: string, t: string, x: string, d: string, b: string, keep: string -> bool)
    requires keep(a) && !keep(t) && !keep(x) && !keep(d) && keep(b)
    ensures Filter([a, t, x, d, b], keep) == [a, b]
  {
    FilterCons(b, [], keep);
    assert [d, b] == [d] + [b];
    FilterCons(d, [b], keep);
    assert [x, d, b] == [x] + [d, b];
    FilterCons(x, [d, b], keep);
    assert [t, x, d, b] == [t] + [x, d, b];
    FilterCons(t, [x, d, b], keep);
    assert [a, t, x, d, b] == [a] + [t, x, d, b];
    FilterCons(a, [t, x, d, b], keep);
  }

  /** The script itself, a text file and a directory named like a module are all dropped. */
  lemma ListPythonFilesExample()
    ensures ListPythonFiles(["a.py", "notes.txt", "src.py", "pkg.py", "b.py"], "src.py", f => f != "pkg.py") == ["a.py", "b.py"]
  {
    var isFile := (f: string) => f != "pkg.py";
    var keep := (f: string) => IsCandidate(f, "src.py", isFile);
    assert !keep("notes.txt") by { assert "notes.txt"[6..][0] == 't'; }
    FilterKeepsTwo("a.py", "notes.txt", "src.py", "pkg.py", "b.py", keep);
  }
}
