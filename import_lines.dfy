/**
 * What the import extractor yields for whole lines of text: a line of the form
 * `<spaces>import|from<spaces><name>...` yields exactly `<name>`, the next line is scanned
 * afresh, and a text in which the pattern matches nowhere yields nothing.
 */
module ImportLines {
  import opened Wrappers
  import opened Findall
  import opened ImportScan

  /**
   * The parts of an import line: leading white space, the keyword, at least one white-space
   * character, a non-empty name, and a remainder that neither continues the name nor holds a
   * newline (`rest` is ` import baz` in `from foo.bar import baz`, `, b` in `import a, b`).
   */
  ghost predicate IsImportLine(cc: Classes, ws: string, kw: string, gap: string, name: string, rest: string) {
    && (forall i :: 0 <= i < |ws| ==> cc.isSpace(ws[i]))
    && IsKeyword(kw)
    && gap != [] && (forall i :: 0 <= i < |gap| ==> cc.isSpace(gap[i]))
    && name != [] && (forall i :: 0 <= i < |name| ==> cc.IsNameChar(name[i]))
    && (rest == [] || !cc.IsNameChar(rest[0]))
    && '\n' !in rest
  }

  /** The scan passes over positions that are not line starts. */
  lemma ScanSkipsLine(cc: Classes, s: string, p: nat, j: nat)
    requires 0 < p <= j <= |s|
    requires forall i :: p - 1 <= i < j - 1 ==> s[i] != '\n'
    ensures Scan(cc, s, p) == Scan(cc, s, j)
  {
    forall q | p <= q < j ensures Pattern(cc, s)(q).None? {
      assert !IsLineStart(s, q);
    }
    FindAllSkips(|s|, p, j, Pattern(cc, s));
  }

  /** A match of the pattern that the scan reaches is reported with its longest group; the scan resumes after it. */
  lemma ScanAtMatch(cc: Classes, s: string, p: nat, q: nat, k: nat, r: nat, e: nat)
    requires WellFormed(cc)
    requires PatternMatches(cc, s, p, q, k, r, e)
    requires e == |s| || !cc.IsNameChar(s[e])
    ensures Scan(cc, s, p) == [Span(p, r, e)] + Scan(cc, s, e)
  {
    MatchAtComplete(cc, s, p, q, k, r, e);
    assert Pattern(cc, s)(p) == Some(Span(p, r, e));
  }

  /**
   * The import line standing at line start `p` and ending at `n`: white space s[p..q], the
   * keyword s[q..k], white space s[k..r], the name s[r..e] and a remainder s[e..n] that does
   * not continue the name and holds no newline.
   */
  ghost predicate ImportLineAt(cc: Classes, s: string, p: nat, q: nat, k: nat, r: nat, e: nat, n: nat) {
    && PatternMatches(cc, s, p, q, k, r, e)
    && e <= n <= |s|
    && (e == |s| || !cc.IsNameChar(s[e]))
    && (forall i :: e <= i < n ==> s[i] != '\n')
    && (n == |s| || s[n] == '\n')
  }

  /**
   * When the scan reaches the start of an import line, it reports one match whose group is
   * exactly the line's name, and it resumes at the start of the next line: nothing else on the
   * line is reported, even another `import` (`from foo.bar import baz` yields only `foo.bar`).
   */
  lemma ScanImportLine(cc: Classes, s: string, p: nat, q: nat, k: nat, r: nat, e: nat, n: nat)
    requires WellFormed(cc)
    requires ImportLineAt(cc, s, p, q, k, r, e, n)
    ensures Scan(cc, s, p) == [Span(p, r, e)] + Scan(cc, s, if n == |s| then |s| else n + 1)
  {
    ScanAtMatch(cc, s, p, q, k, r, e);
    assert !cc.isWord('\n');
    assert s[e - 1] != '\n';
    ScanSkipsLine(cc, s, e, if n == |s| then |s| else n + 1);
  }

  /**
   * When the pattern does not match at the start `p` of a line that ends at `n`, the scan
   * passes the whole line (`x = 1; import os` yields nothing).
   */
  lemma ScanOtherLine(cc: Classes, s: string, p: nat, n: nat)
    requires p <= n <= |s| && MatchAt(cc, s, p).None?
    requires forall i :: p <= i < n ==> s[i] != '\n'
    requires n == |s| || s[n] == '\n'
    ensures Scan(cc, s, p) == Scan(cc, s, if n == |s| then |s| else n + 1)
  {
    var j := if n == |s| then |s| else n + 1;
    forall q | p <= q < j ensures Pattern(cc, s)(q).None? {
      if q > p {
        assert !IsLineStart(s, q);
      }
    }
    FindAllSkips(|s|, p, j, Pattern(cc, s));
  }

  /** A one-line text on whose start the pattern does not match yields nothing. */
  lemma OtherLine(cc: Classes, s: string)
    requires '\n' !in s && MatchAt(cc, s, 0).None?
    ensures FindImports(cc, s) == []
  {
    ScanOtherLine(cc, s, 0, |s|);
    FindImportsInTextOrder(cc, s);
  }

  /** Where the parts of a text that is one import line lie. */
  lemma LineLayout(cc: Classes, ws: string, kw: string, gap: string, name: string, rest: string)
    requires WellFormed(cc)
    requires IsImportLine(cc, ws, kw, gap, name, rest)
    ensures var s := ws + kw + gap + name + rest;
      var r := |ws| + |kw| + |gap|;
      ImportLineAt(cc, s, 0, |ws|, |ws| + |kw|, r, r + |name|, |s|) && s[r..r + |name|] == name
  {
    var s := ws + kw + gap + name + rest;
    var q := |ws|;
    var k := q + |kw|;
    var r := k + |gap|;
    var e := r + |name|;
    assert s[q..k] == kw;
    assert s[r..e] == name;
    assert forall i :: 0 <= i < q ==> s[i] == ws[i];
    assert forall i :: k <= i < r ==> s[i] == gap[i - k];
    assert forall i :: r <= i < e ==> s[i] == name[i - r];
    assert forall i :: e <= i < |s| ==> s[i] == rest[i - e];
    assert !cc.isWord('\n');
  }

  /**
   * An import line is one wherever it stands: the line `t` placed between a line start `p` and
   * a newline (or the end) `n` of a longer text keeps its parts, shifted by `p`.
   */
  lemma LineAt(cc: Classes, s: string, p: nat, n: nat, t: string, q: nat, k: nat, r: nat, e: nat)
    requires WellFormed(cc)
    requires ImportLineAt(cc, t, 0, q, k, r, e, |t|)
    requires p <= n <= |s| && s[p..n] == t
    requires IsLineStart(s, p) && (n == |s| || s[n] == '\n')
    ensures ImportLineAt(cc, s, p, p + q, p + k, p + r, p + e, n) && s[p + r..p + e] == t[r..e]
  {
    assert forall i :: p <= i < n ==> s[i] == t[i - p] by {
      forall i | p <= i < n ensures s[i] == t[i - p] {
        assert s[p..n][i - p] == s[i];
      }
    }
    assert s[p + q..p + k] == t[q..k];
    assert s[p + r..p + e] == t[r..e];
    assert !cc.isWord('\n');
  }

  /** A text that is one import line yields exactly that line's name. */
  lemma ImportLine(cc: Classes, ws: string, kw: string, gap: string, name: string, rest: string)
    requires WellFormed(cc)
    requires IsImportLine(cc, ws, kw, gap, name, rest)
    ensures FindImports(cc, ws + kw + gap + name + rest) == [name]
  {
    var s := ws + kw + gap + name + rest;
    var r := |ws| + |kw| + |gap|;
    LineLayout(cc, ws, kw, gap, name, rest);
    OneLine(cc, s, |ws|, |ws| + |kw|, r, r + |name|);
  }

  /** An import line that fills the whole text yields its name. */
  lemma OneLine(cc: Classes, s: string, q: nat, k: nat, r: nat, e: nat)
    requires WellFormed(cc)
    requires ImportLineAt(cc, s, 0, q, k, r, e, |s|)
    ensures FindImports(cc, s) == [s[r..e]]
  {
    ScanImportLine(cc, s, 0, q, k, r, e, |s|);
    FindImportsSingle(cc, s, Span(0, r, e));
  }

  /**
   * The import list is empty exactly when the pattern matches at no position of the text, so a
   * text without a line of the pattern's form yields nothing.
   */
  lemma NoImportsIffNoMatch(cc: Classes, s: string)
    requires WellFormed(cc)
    ensures FindImports(cc, s) == [] <==> forall p, q, k, r, e :: !PatternMatches(cc, s, p, q, k, r, e)
  {
    forall p: nat, q: nat, k: nat, r: nat, e: nat | PatternMatches(cc, s, p, q, k, r, e) ensures p < |s| && MatchAt(cc, s, p).Some? {
      MatchAtComplete(cc, s, p, q, k, r, e);
    }
    FindImportsEmpty(cc, s);
    if FindImports(cc, s) != [] {
      var p :| 0 <= p < |s| && MatchAt(cc, s, p).Some?;
      MatchAtSound(cc, s, p);
    }
  }
}
