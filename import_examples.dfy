/**
 * The import extractor on concrete texts, with `\s` and `\w` read as their ASCII classes.
 */
module ImportExamples {
  import opened Wrappers
  import opened Findall
  import opened ImportScan
  import opened ImportLines

  /** `\s` and `\w` restricted to ASCII, as under re.ASCII. */
  const Ascii := Classes(IsAsciiSpace, IsAsciiWord)

  lemma AsciiWellFormed()
    ensures WellFormed(Ascii)
  {
  }

  const LineOs := "import os"
  const LineRequests := "import requests"
  const LineFooBar := "from foo.bar import baz"
  const ThreeLineText := LineOs + "\n" + LineRequests + "\n" + LineFooBar + "\n"

  lemma LineOsShape()
    ensures ImportLineAt(Ascii, LineOs, 0, 0, 6, 7, 9, 9) && LineOs[7..9] == "os"
  {
    assert LineOs[0..6] == "import";
  }

  lemma LineRequestsShape()
    ensures ImportLineAt(Ascii, LineRequests, 0, 0, 6, 7, 15, 15) && LineRequests[7..15] == "requests"
  {
    assert LineRequests[0..6] == "import";
  }

  lemma LineFooBarShape()
    ensures ImportLineAt(Ascii, LineFooBar, 0, 0, 4, 5, 12, 23) && LineFooBar[5..12] == "foo.bar"
  {
    assert LineFooBar[0..4] == "from";
  }

  /** The text laid out as the three lines of ThreeLineText. */
  predicate IsThreeLineText(s: string) {
    && |s| == 50
    && s[0..9] == LineOs && s[9] == '\n'
    && s[10..25] == LineRequests && s[25] == '\n'
    && s[26..49] == LineFooBar && s[49] == '\n'
  }

  lemma ScanLineOs(s: string)
    requires IsThreeLineText(s)
    ensures Scan(Ascii, s, 0) == [Span(0, 7, 9)] + Scan(Ascii, s, 10)
  {
    AsciiWellFormed();
    LineOsShape();
    LineAt(Ascii, s, 0, 9, LineOs, 0, 6, 7, 9);
    ScanImportLine(Ascii, s, 0, 0, 6, 7, 9, 9);
  }

  lemma ScanLineRequests(s: string)
    requires IsThreeLineText(s)
    ensures Scan(Ascii, s, 10) == [Span(10, 17, 25)] + Scan(Ascii, s, 26)
  {
    AsciiWellFormed();
    LineRequestsShape();
    LineAt(Ascii, s, 10, 25, LineRequests, 0, 6, 7, 15);
    ScanImportLine(Ascii, s, 10, 10, 16, 17, 25, 25);
  }

  lemma ScanLineFooBar(s: string)
    requires IsThreeLineText(s)
    ensures Scan(Ascii, s, 26) == [Span(26, 31, 38)]
  {
    AsciiWellFormed();
    LineFooBarShape();
    LineAt(Ascii, s, 26, 49, LineFooBar, 0, 4, 5, 12);
    ScanImportLine(Ascii, s, 26, 26, 30, 31, 38, 49);
  }

  lemma ThreeLineNames(s: string)
    requires IsThreeLineText(s)
    ensures s[7..9] == "os" && s[17..25] == "requests" && s[31..38] == "foo.bar"
  {
    assert s[7..9] == s[0..9][7..9] == LineOs[7..9];
    assert s[17..25] == s[10..25][7..15] == LineRequests[7..15];
    assert forall i :: 0 <= i < 7 ==> s[31..38][i] == s[26..49][5 + i];
    assert s[31..38] == LineFooBar[5..12];
  }

  /** The scan of the three lines, put together from the scan of each. */
  lemma {:induction false} ScanChain(cc: Classes, s: string, b: nat, c: nat, m1: Span, m2: Span, m3: Span)
    requires b <= c <= |s|
    requires Scan(cc, s, 0) == [m1] + Scan(cc, s, b)
    requires Scan(cc, s, b) == [m2] + Scan(cc, s, c)
    requires Scan(cc, s, c) == [m3]
    ensures Scan(cc, s, 0) == [m1, m2, m3]
  {
  }

  lemma {:induction false} ScanChain2(cc: Classes, s: string, b: nat, m1: Span, m2: Span)
    requires b <= |s|
    requires Scan(cc, s, 0) == [m1] + Scan(cc, s, b)
    requires Scan(cc, s, b) == [m2] + Scan(cc, s, |s|)
    ensures Scan(cc, s, 0) == [m1, m2]
  {
  }

  lemma ThreeLinesOf(s: string)
    requires IsThreeLineText(s)
    ensures FindImports(Ascii, s) == ["os", "requests", "foo.bar"]
  {
    ScanLineOs(s);
    ScanLineRequests(s);
    ScanLineFooBar(s);
    ScanChain(Ascii, s, 10, 26, Span(0, 7, 9), Span(10, 17, 25), Span(26, 31, 38));
    FindImportsThree(Ascii, s, Span(0, 7, 9), Span(10, 17, 25), Span(26, 31, 38));
    ThreeLineNames(s);
  }

  /** One name per import line, in the order of the lines; `from foo.bar import baz` gives `foo.bar`. */
  lemma ThreeLines()
    ensures FindImports(Ascii, ThreeLineText) == ["os", "requests", "foo.bar"]
  {
    assert forall i :: 0 <= i < 9 ==> ThreeLineText[i] == LineOs[i];
    assert forall i :: 10 <= i < 25 ==> ThreeLineText[i] == LineRequests[i - 10];
    assert forall i :: 26 <= i < 49 ==> ThreeLineText[i] == LineFooBar[i - 26];
    ThreeLinesOf(ThreeLineText);
  }

  /** `import a, b` yields only `a`: the group stops at the first character outside `[\w\.]`. */
  lemma FirstNameOnly()
    ensures FindImports(Ascii, "import a, b") == ["a"]
  {
    AsciiWellFormed();
    FirstNameShape();
    OneLine(Ascii, "import a, b", 0, 6, 7, 8);
  }

  lemma FirstNameShape()
    ensures ImportLineAt(Ascii, "import a, b", 0, 0, 6, 7, 8, 11) && "import a, b"[7..8] == "a"
  {
    assert "import a, b"[0..6] == "import";
  }

  /** A module imported twice is reported twice. */
  lemma RepeatsKept(s: string)
    requires |s| == 20 && s[0..9] == LineOs && s[9] == '\n' && s[10..19] == LineOs && s[19] == '\n'
    ensures FindImports(Ascii, s) == ["os", "os"]
  {
    RepeatedLineScan(s, 0);
    RepeatedLineScan(s, 10);
    ScanChain2(Ascii, s, 10, Span(0, 7, 9), Span(10, 17, 19));
    FindImportsTwo(Ascii, s, Span(0, 7, 9), Span(10, 17, 19));
    RepeatedNames(s);
  }

  lemma RepeatedNames(s: string)
    requires |s| == 20 && s[0..9] == LineOs && s[10..19] == LineOs
    ensures s[7..9] == "os" && s[17..19] == "os"
  {
    LineOsShape();
    assert s[7..9] == s[0..9][7..9];
    assert s[17..19] == s[10..19][7..9];
  }

  lemma RepeatedLineScan(s: string, p: nat)
    requires p == 0 || p == 10
    requires |s| == 20 && s[p..p + 9] == LineOs && s[p + 9] == '\n'
    requires p == 10 ==> s[9] == '\n'
    ensures Scan(Ascii, s, p) == [Span(p, p + 7, p + 9)] + Scan(Ascii, s, if p == 10 then |s| else p + 10)
  {
    AsciiWellFormed();
    LineOsShape();
    LineAt(Ascii, s, p, p + 9, LineOs, 0, 6, 7, 9);
    ScanImportLine(Ascii, s, p, p, p + 6, p + 7, p + 9, p + 9);
  }

  lemma RepeatsKeptText()
    ensures FindImports(Ascii, LineOs + "\n" + LineOs + "\n") == ["os", "os"]
  {
    var s := LineOs + "\n" + LineOs + "\n";
    assert forall i :: 0 <= i < 9 ==> s[i] == LineOs[i];
    assert forall i :: 10 <= i < 19 ==> s[i] == LineOs[i - 10];
    RepeatsKept(s);
  }

  /** The keyword must be followed by white space: `importlib` yields nothing. */
  lemma KeywordNeedsSpace()
    ensures FindImports(Ascii, "importlib") == []
  {
    var s := "importlib";
    assert RunEnd(s, 0, Ascii.isSpace) == 0 by { assert s[0] == 'i'; }
    assert OccursAt(s, 0, "import");
    assert RunEnd(s, 6, Ascii.isSpace) == 6 by { assert s[6] == 'l'; }
    OtherLine(Ascii, s);
  }

  /** A match starts only at a line start: `x = 1; import os` yields nothing. */
  lemma KeywordAtLineStart()
    ensures FindImports(Ascii, "x = 1; import os") == []
  {
    var s := "x = 1; import os";
    assert RunEnd(s, 0, Ascii.isSpace) == 0 by { assert s[0] == 'x'; }
    assert !OccursAt(s, 0, "import") by { assert s[0..6][0] == 'x'; }
    assert !OccursAt(s, 0, "from") by { assert s[0..4][0] == 'x'; }
    OtherLine(Ascii, s);
  }

  /** `\s+` crosses newlines: `import` followed by a name on the next line still yields it. */
  lemma SpaceCrossesNewline()
    ensures FindImports(Ascii, "import\n  foo") == ["foo"]
  {
    AsciiWellFormed();
    CrossingShape();
    OneLine(Ascii, "import\n  foo", 0, 6, 9, 12);
  }

  lemma CrossingShape()
    ensures ImportLineAt(Ascii, "import\n  foo", 0, 0, 6, 9, 12, 12) && "import\n  foo"[9..12] == "foo"
  {
    assert "import\n  foo"[0..6] == "import";
  }

  /**
   * A match that runs over a newline hides the line start inside it: in `import\nimport os`
   * the first match takes the second `import` as its name, and `os` is not reported.
   */
  lemma MatchHidesLineStart()
    ensures FindImports(Ascii, "import\nimport os") == ["import"]
  {
    var s := "import\nimport os";
    HiddenLineScan();
    HiddenLineShape();
    FindImportsSingle(Ascii, s, Span(0, 7, 13));
  }

  lemma HiddenLineScan()
    ensures Scan(Ascii, "import\nimport os", 0) == [Span(0, 7, 13)]
  {
    var s := "import\nimport os";
    AsciiWellFormed();
    HiddenLineShape();
    ScanAtMatch(Ascii, s, 0, 0, 6, 7, 13);
    ScanSkipsLine(Ascii, s, 13, 16);
  }

  lemma HiddenLineShape()
    ensures PatternMatches(Ascii, "import\nimport os", 0, 0, 6, 7, 13)
    ensures !Ascii.IsNameChar("import\nimport os"[13])
    ensures forall i :: 12 <= i < 15 ==> "import\nimport os"[i] != '\n'
    ensures "import\nimport os"[7..13] == "import"
  {
    var s := "import\nimport os";
    assert s[0..6] == "import";
    assert s[13] == ' ';
  }
}
