/**
 * The search loop of Python's `re.findall`, for any pattern: try the pattern at a position;
 * after a match resume where it ended, otherwise one position further on. The pattern is a
 * parameter (`find`), so the facts proved here hold whatever the pattern is.
 */
module Findall {
  import opened Wrappers

  /** One match: the pattern matched t[start..nameEnd], and its group is t[nameStart..nameEnd]. */
  datatype Span = Span(start: nat, nameStart: nat, nameEnd: nat)

  /**
   * `find` behaves like a pattern on a text of length `n`: a match found at `q` starts at `q`,
   * is non-empty and stays within the text.
   */
  ghost predicate IsMatcher(n: nat, find: nat -> Option<Span>) {
    forall q: nat :: find(q).Some? ==>
      find(q).value.start == q <= find(q).value.nameStart <= find(q).value.nameEnd <= n && q < find(q).value.nameEnd
  }

  /** Position `q` lies inside one of the matches. */
  predicate Covered(spans: seq<Span>, q: nat) {
    spans != [] && (spans[0].start <= q < spans[0].nameEnd || Covered(spans[1..], q))
  }

  /** All matches from position `p` on, as `findall` finds them. */
  function FindAll(n: nat, p: nat, find: nat -> Option<Span>): (spans: seq<Span>)
    requires p <= n && IsMatcher(n, find)
    decreases n - p
  {
    if p == n then []
    else
      match find(p)
      case None => FindAll(n, p + 1, find)
      case Some(m) => [m] + FindAll(n, m.nameEnd, find)
  }

  /** Every reported span is what the pattern matches at its start, at or after `p`, within the text. */
  lemma {:induction false} FindAllSound(n: nat, p: nat, find: nat -> Option<Span>)
    requires p <= n && IsMatcher(n, find)
    ensures forall i :: 0 <= i < |FindAll(n, p, find)| ==>
      && p <= FindAll(n, p, find)[i].start < n
      && find(FindAll(n, p, find)[i].start) == Some(FindAll(n, p, find)[i])
    decreases n - p
  {
    if p < n {
      match find(p)
      case None =>
        FindAllSound(n, p + 1, find);
      case Some(m) =>
        FindAllSound(n, m.nameEnd, find);
        var rest := FindAll(n, m.nameEnd, find);
        var spans := FindAll(n, p, find);
        assert spans == [m] + rest;
        forall i | 0 < i < |spans| ensures p <= spans[i].start < n && find(spans[i].start) == Some(spans[i]) {
          assert spans[i] == rest[i - 1];
        }
    }
  }

  /** The spans come in text order and do not overlap. */
  lemma {:induction false} FindAllOrdered(n: nat, p: nat, find: nat -> Option<Span>)
    requires p <= n && IsMatcher(n, find)
    ensures forall i, j :: 0 <= i < j < |FindAll(n, p, find)| ==> FindAll(n, p, find)[i].nameEnd <= FindAll(n, p, find)[j].start
    decreases n - p
  {
    if p < n {
      match find(p)
      case None =>
        FindAllOrdered(n, p + 1, find);
      case Some(m) =>
        FindAllOrdered(n, m.nameEnd, find);
        FindAllSound(n, m.nameEnd, find);
        var rest := FindAll(n, m.nameEnd, find);
        var spans := FindAll(n, p, find);
        assert spans == [m] + rest;
        forall i, j | 0 <= i < j < |spans| ensures spans[i].nameEnd <= spans[j].start {
          assert spans[j] == rest[j - 1];
          if i > 0 {
            assert spans[i] == rest[i - 1];
          }
        }
    }
  }

  /** No position from `p` on outside every span starts a match: the search skips none. */
  lemma {:induction false} FindAllComplete(n: nat, p: nat, find: nat -> Option<Span>)
    requires p <= n && IsMatcher(n, find)
    ensures forall q :: p <= q < n && !Covered(FindAll(n, p, find), q) ==> find(q).None?
    decreases n - p
  {
    if p < n {
      match find(p)
      case None =>
        FindAllComplete(n, p + 1, find);
      case Some(m) =>
        FindAllComplete(n, m.nameEnd, find);
        var rest := FindAll(n, m.nameEnd, find);
        var spans := FindAll(n, p, find);
        assert spans == [m] + rest;
        assert spans[1..] == rest;
        forall q | m.nameEnd <= q < n && !Covered(spans, q) ensures find(q).None? {
          assert !Covered(rest, q);
        }
    }
  }

  /** The search skips positions where the pattern does not match. */
  lemma {:induction false} FindAllSkips(n: nat, p: nat, j: nat, find: nat -> Option<Span>)
    requires p <= j <= n && IsMatcher(n, find)
    requires forall q :: p <= q < j ==> find(q).None?
    ensures FindAll(n, p, find) == FindAll(n, j, find)
    decreases j - p
  {
    if p < j {
      FindAllSkips(n, p + 1, j, find);
    }
  }
}
