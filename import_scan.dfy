/**
 * The import extractor of src.py: `re.findall(r'^\s*(?:import|from)\s+([\w\.]+)', content, re.MULTILINE)`.
 *
 * The pattern is modelled as a greedy scanner at one position (MatchAt) and `findall` as a
 * left-to-right search that resumes at the end of each match (Scan). The character classes
 * `\s` and `\w` are parameters; PatternMatches states the pattern declaratively, and
 * MatchAtSound / MatchAtComplete prove that the scanner finds exactly the longest match
 * of the pattern at a position.
 */
module ImportScan {
  import opened Wrappers
  import opened Findall

  /** The two character classes of the pattern: `\s` (isSpace) and `\w` (isWord). */
  datatype Classes = Classes(isSpace: char -> bool, isWord: char -> bool)
  {
    /** `[\w\.]`: a character of a captured module name. */
    predicate IsNameChar(c: char) {
      isWord(c) || c == '.'
    }
  }

  predicate IsAsciiWord(c: char) {
    'a' <= c <= 'z' || 'A' <= c <= 'Z' || '0' <= c <= '9' || c == '_'
  }

  predicate IsAsciiSpace(c: char) {
    c == ' ' || c == '\t' || c == '\n' || c == '\r' || c == '\U{000B}' || c == '\U{000C}'
  }

  /**
   * What every Unicode reading of `\s` and `\w` has in common: the classes are disjoint,
   * ASCII letters, digits and `_` are word characters, ASCII white space (newline included)
   * is white space, and `.` is neither.
   */
  ghost predicate WellFormed(cc: Classes) {
    && (forall c :: !(cc.isSpace(c) && cc.isWord(c)))
    && (forall c :: IsAsciiWord(c) ==> cc.isWord(c))
    && (forall c :: IsAsciiSpace(c) ==> cc.isSpace(c))
    && !cc.isSpace('.') && !cc.isWord('.')
  }

  /** `^` under re.MULTILINE: the start of the text or the position right after a newline. */
  predicate IsLineStart(s: string, p: nat) {
    p == 0 || (p <= |s| && s[p - 1] == '\n')
  }

  predicate IsKeyword(w: string) {
    w == "import" || w == "from"
  }

  /** `w` occurs in `s` at position `q`. */
  predicate OccursAt(s: string, q: nat, w: string) {
    q + |w| <= |s| && s[q..q + |w|] == w
  }

  /** End of the longest run of `inRun` characters from `i`: a greedy `*` over one class. */
  function RunEnd(s: string, i: nat, inRun: char -> bool): (j: nat)
    requires i <= |s|
    ensures i <= j <= |s|
    ensures forall k :: i <= k < j ==> inRun(s[k])
    ensures j == |s| || !inRun(s[j])
    decreases |s| - i
  {
    if i < |s| && inRun(s[i]) then RunEnd(s, i + 1, inRun) else i
  }

  /** Where the alternation `(?:import|from)` ends when it matches at `q`. */
  function KeywordEnd(s: string, q: nat): (k: Option<nat>)
    requires q <= |s|
    ensures k.Some? ==> q < k.value <= |s| && IsKeyword(s[q..k.value])
    ensures k.None? ==> forall j :: q <= j <= |s| ==> !IsKeyword(s[q..j])
  {
    if OccursAt(s, q, "import") then Some(q + 6)
    else if OccursAt(s, q, "from") then Some(q + 4)
    else None
  }

  /**
   * The pattern `^\s*(?:import|from)\s+([\w\.]+)` matches at `p` with the keyword at s[q..k]
   * and the group at s[r..e].
   */
  ghost predicate PatternMatches(cc: Classes, s: string, p: nat, q: nat, k: nat, r: nat, e: nat) {
    && p <= q <= k < r < e <= |s|
    && IsLineStart(s, p)
    && (forall i :: p <= i < q ==> cc.isSpace(s[i]))
    && IsKeyword(s[q..k])
    && (forall i :: k <= i < r ==> cc.isSpace(s[i]))
    && (forall i :: r <= i < e ==> cc.IsNameChar(s[i]))
  }

  /** The match of the pattern that starts at `p`, if any; each quantifier is greedy. */
  function MatchAt(cc: Classes, s: string, p: nat): (m: Option<Span>)
    requires p <= |s|
    ensures m.Some? ==> p == m.value.start < m.value.nameStart < m.value.nameEnd <= |s|
    ensures m.Some? ==> forall i :: m.value.nameStart <= i < m.value.nameEnd ==> cc.IsNameChar(s[i])
    ensures m.Some? ==> m.value.nameEnd == |s| || !cc.IsNameChar(s[m.value.nameEnd])
  {
    if !IsLineStart(s, p) then None
    else
      var q := RunEnd(s, p, cc.isSpace);
      match KeywordEnd(s, q)
      case None => None
      case Some(k) =>
        var r := RunEnd(s, k, cc.isSpace);
        var e := RunEnd(s, r, cc.IsNameChar);
        if r == k || e == r then None else Some(Span(p, r, e))
  }

  /** Every match the scanner reports is a match of the pattern. */
  lemma MatchAtSound(cc: Classes, s: string, p: nat)
    requires p <= |s| && MatchAt(cc, s, p).Some?
    ensures exists q, k :: PatternMatches(cc, s, p, q, k, MatchAt(cc, s, p).value.nameStart, MatchAt(cc, s, p).value.nameEnd)
  {
    var m := MatchAt(cc, s, p).value;
    var q := RunEnd(s, p, cc.isSpace);
    var k := KeywordEnd(s, q).value;
    assert PatternMatches(cc, s, p, q, k, m.nameStart, m.nameEnd);
  }

  /**
   * Every match of the pattern at `p` is found by the scanner, with the same group start and a
   * group end at least as far (the greedy `+` takes the longest run).
   */
  lemma MatchAtComplete(cc: Classes, s: string, p: nat, q: nat, k: nat, r: nat, e: nat)
    requires WellFormed(cc)
    requires PatternMatches(cc, s, p, q, k, r, e)
    ensures MatchAt(cc, s, p).Some?
    ensures MatchAt(cc, s, p).value.nameStart == r && e <= MatchAt(cc, s, p).value.nameEnd
  {
    var q0 := RunEnd(s, p, cc.isSpace);
    assert IsAsciiWord(s[q]) by {
      assert s[q] == s[q..k][0];
    }
    assert !cc.isSpace(s[q]);
    assert q0 == q;
    assert s[q..k] == "import" ==> OccursAt(s, q, "import");
    assert s[q..k] == "from" ==> s[q] == 'f' && OccursAt(s, q, "from");
    assert s[q] == 'f' ==> !OccursAt(s, q, "import") by {
      if OccursAt(s, q, "import") {
        assert s[q] == s[q..q + 6][0];
      }
    }
    assert KeywordEnd(s, q) == Some(k);
    var r0 := RunEnd(s, k, cc.isSpace);
    assert cc.IsNameChar(s[r]);
    assert !cc.isSpace(s[r]);
    assert r0 == r;
    var e0 := RunEnd(s, r, cc.IsNameChar);
    assert e <= e0;
  }

  /** The pattern as a matcher over every position of `s`. */
  function Pattern(cc: Classes, s: string): (find: nat -> Option<Span>)
    ensures IsMatcher(|s|, find)
  {
    (q: nat) => if q <= |s| then MatchAt(cc, s, q) else None
  }

  /** `findall` of the pattern over `s`, from position `p`. */
  function Scan(cc: Classes, s: string, p: nat): (spans: seq<Span>)
    requires p <= |s|
  {
    FindAll(|s|, p, Pattern(cc, s))
  }

  /** The group of `m` is a non-empty run of name characters of `s`. */
  ghost predicate GroupIsName(cc: Classes, s: string, m: Span) {
    m.nameStart < m.nameEnd <= |s| && forall i :: m.nameStart <= i < m.nameEnd ==> cc.IsNameChar(s[i])
  }

  /** The text of each span's group, in order. */
  function Captures(s: string, spans: seq<Span>): (names: seq<string>)
    requires forall i :: 0 <= i < |spans| ==> spans[i].nameStart <= spans[i].nameEnd <= |s|
    ensures |names| == |spans|
  {
    if spans == [] then []
    else [s[spans[0].nameStart..spans[0].nameEnd]] + Captures(s, spans[1..])
  }

  /** What `findall` of the pattern reports, stated in terms of MatchAt. */
  lemma ScanMatches(cc: Classes, s: string)
    ensures forall i :: 0 <= i < |Scan(cc, s, 0)| ==>
      Scan(cc, s, 0)[i].start < |s| && MatchAt(cc, s, Scan(cc, s, 0)[i].start) == Some(Scan(cc, s, 0)[i])
    ensures forall i :: 0 <= i < |Scan(cc, s, 0)| ==> GroupIsName(cc, s, Scan(cc, s, 0)[i])
    ensures Scan(cc, s, 0) == [] <==> forall q :: 0 <= q < |s| ==> MatchAt(cc, s, q).None?
  {
    var spans := Scan(cc, s, 0);
    FindAllSound(|s|, 0, Pattern(cc, s));
    FindAllComplete(|s|, 0, Pattern(cc, s));
    forall i | 0 <= i < |spans| ensures GroupIsName(cc, s, spans[i]) {
      assert MatchAt(cc, s, spans[i].start) == Some(spans[i]);
    }
    if spans == [] {
      forall q | 0 <= q < |s| ensures MatchAt(cc, s, q).None? {
        assert !Covered(spans, q);
        assert Pattern(cc, s)(q).None?;
      }
    } else {
      assert MatchAt(cc, s, spans[0].start).Some?;
    }
  }

  /** The group of each span is a non-empty run of name characters. */
  lemma {:induction false} CapturesAreNames(cc: Classes, s: string, spans: seq<Span>)
    requires forall i :: 0 <= i < |spans| ==> spans[i].nameStart <= spans[i].nameEnd <= |s|
    requires forall i :: 0 <= i < |spans| ==> GroupIsName(cc, s, spans[i])
    ensures forall n :: n in Captures(s, spans) ==> n != [] && forall c :: c in n ==> cc.IsNameChar(c)
  {
    if spans != [] {
      var m := spans[0];
      assert GroupIsName(cc, s, m);
      CapturesAreNames(cc, s, spans[1..]);
      var n0 := s[m.nameStart..m.nameEnd];
      forall c | c in n0 ensures cc.IsNameChar(c) {
        var j :| 0 <= j < |n0| && n0[j] == c;
        assert n0[j] == s[m.nameStart + j];
      }
    }
  }

  /**
   * The import list of a text: the group of every match `findall` finds. Each name is a
   * non-empty run of `[\w\.]`.
   */
  function FindImports(cc: Classes, s: string): (names: seq<string>)
    ensures forall n :: n in names ==> n != [] && forall c :: c in n ==> cc.IsNameChar(c)
  {
    ScanMatches(cc, s);
    CapturesAreNames(cc, s, Scan(cc, s, 0));
    Captures(s, Scan(cc, s, 0))
  }

  /** The i-th capture is the group of the i-th span. */
  lemma {:induction false} CapturesAt(s: string, spans: seq<Span>)
    requires forall i :: 0 <= i < |spans| ==> spans[i].nameStart <= spans[i].nameEnd <= |s|
    ensures forall i :: 0 <= i < |spans| ==> Captures(s, spans)[i] == s[spans[i].nameStart..spans[i].nameEnd]
  {
    if spans != [] {
      CapturesAt(s, spans[1..]);
      forall i | 0 < i < |spans| ensures Captures(s, spans)[i] == s[spans[i].nameStart..spans[i].nameEnd] {
        assert spans[1..][i - 1] == spans[i];
      }
    }
  }

  /**
   * The names come in the order of their matches in the text: the i-th name is the group of
   * the i-th match, and each match ends before the next one starts. A module imported twice is
   * reported twice.
   */
  lemma FindImportsInTextOrder(cc: Classes, s: string)
    ensures |FindImports(cc, s)| == |Scan(cc, s, 0)|
    ensures forall i :: 0 <= i < |Scan(cc, s, 0)| ==>
      Scan(cc, s, 0)[i].nameStart < Scan(cc, s, 0)[i].nameEnd <= |s| &&
      FindImports(cc, s)[i] == s[Scan(cc, s, 0)[i].nameStart..Scan(cc, s, 0)[i].nameEnd]
    ensures forall i, j :: 0 <= i < j < |Scan(cc, s, 0)| ==> Scan(cc, s, 0)[i].nameEnd <= Scan(cc, s, 0)[j].start
  {
    ScanMatches(cc, s);
    CapturesAt(s, Scan(cc, s, 0));
    FindAllOrdered(|s|, 0, Pattern(cc, s));
  }

  /** A text on which `findall` finds one match yields that match's group alone. */
  lemma FindImportsSingle(cc: Classes, s: string, m: Span)
    requires Scan(cc, s, 0) == [m]
    ensures m.nameStart <= m.nameEnd <= |s| && FindImports(cc, s) == [s[m.nameStart..m.nameEnd]]
  {
    ScanMatches(cc, s);
    assert GroupIsName(cc, s, Scan(cc, s, 0)[0]);
    assert Scan(cc, s, 0)[1..] == [];
  }

  /** A text on which `findall` finds two matches yields their groups, in order. */
  lemma FindImportsTwo(cc: Classes, s: string, m1: Span, m2: Span)
    requires Scan(cc, s, 0) == [m1, m2]
    ensures m1.nameStart <= m1.nameEnd <= |s| && m2.nameStart <= m2.nameEnd <= |s|
    ensures FindImports(cc, s) == [s[m1.nameStart..m1.nameEnd], s[m2.nameStart..m2.nameEnd]]
  {
    FindImportsInTextOrder(cc, s);
    var spans := Scan(cc, s, 0);
    assert spans[0] == m1 && spans[1] == m2;
  }

  /** A text on which `findall` finds three matches yields their groups, in order. */
  lemma FindImportsThree(cc: Classes, s: string, m1: Span, m2: Span, m3: Span)
    requires Scan(cc, s, 0) == [m1, m2, m3]
    ensures m1.nameStart <= m1.nameEnd <= |s| && m2.nameStart <= m2.nameEnd <= |s| && m3.nameStart <= m3.nameEnd <= |s|
    ensures FindImports(cc, s) == [s[m1.nameStart..m1.nameEnd], s[m2.nameStart..m2.nameEnd], s[m3.nameStart..m3.nameEnd]]
  {
    FindImportsInTextOrder(cc, s);
    var spans := Scan(cc, s, 0);
    assert spans[0] == m1 && spans[1] == m2 && spans[2] == m3;
  }

  /** The import list is empty exactly when the pattern matches at no position of the text. */
  lemma FindImportsEmpty(cc: Classes, s: string)
    ensures FindImports(cc, s) == [] <==> forall q :: 0 <= q < |s| ==> MatchAt(cc, s, q).None?
  {
    ScanMatches(cc, s);
  }

  /** `find_imports_in_file`: an unreadable file (`None`) gives no names. */
  function ImportsInFile(cc: Classes, content: Option<string>): (names: seq<string>)
    ensures content.None? ==> names == []
    ensures forall n :: n in names ==> n != [] && forall c :: c in n ==> cc.IsNameChar(c)
  {
    match content
    case None => []
    case Some(s) => FindImports(cc, s)
  }
}
