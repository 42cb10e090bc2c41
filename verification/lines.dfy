/**
 * Source lines: the newline count that the lexer's row tracks, and the
 * `getline(n)` slicing that gives each token the text of its line.
 */
module SourceLines {

  /** The number of newline characters in `s[..i]`. */
  function NewlinesBefore(s: string, i: nat): (r: nat)
    requires i <= |s|
    ensures r <= i
  {
    if i == 0 then 0 else NewlinesBefore(s, i - 1) + (if s[i - 1] == '\n' then 1 else 0)
  }

  lemma {:induction false} NewlinesMonotone(s: string, i: nat, j: nat)
    requires i <= j <= |s|
    ensures NewlinesBefore(s, i) <= NewlinesBefore(s, j)
    decreases j - i
  {
    if i < j {
      NewlinesMonotone(s, i, j - 1);
    }
  }

  /**
   * A newline `getline` treats as a line boundary: every newline except one
   * in the last position of the buffer, where the terminator test fires first.
   */
  predicate IsBreak(s: string, q: nat)
  {
    q + 1 < |s| && s[q] == '\n'
  }

  /** `q` is the boundary that opens line `n` (the (n-1)-th newline). */
  predicate OpensLine(s: string, n: int, q: nat)
  {
    IsBreak(s, q) && NewlinesBefore(s, q) == n - 2
  }

  /** `q` is the boundary that closes line `n` (the n-th newline). */
  predicate ClosesLine(s: string, n: int, q: nat)
  {
    IsBreak(s, q) && NewlinesBefore(s, q) == n - 1
  }

  /**
   * The span `[a, b)` that `getline(n)` returns: `a` is just after the
   * boundary opening line `n`, or 0 when there is none; `b` is the boundary
   * closing line `n`, or the end of the buffer when there is none.
   */
  ghost predicate IsLineSpan(s: string, n: int, a: nat, b: nat)
  {
    && a <= b <= |s|
    && ((a == 0 && forall q: nat :: !OpensLine(s, n, q)) || (0 < a && OpensLine(s, n, a - 1)))
    && ((b == |s| && forall q: nat :: !ClosesLine(s, n, q)) || ClosesLine(s, n, b))
  }

  /**
   * The loop of `getline(n)`, one iteration per call: `line` is the line
   * counter, `start` the start found so far. The loop's only exits are the
   * terminator test at the last index and the n-th boundary; for an empty
   * buffer it does not run and `end` keeps its initial 0.
   */
  function LineScan(s: string, n: int, i: nat, line: int, start: nat): (nat, nat)
    decreases |s| - i
  {
    if i >= |s| then (start, 0)
    else if i + 1 == |s| then (start, i + 1)
    else if s[i] == '\n' then
      if line + 1 == n then LineScan(s, n, i + 1, line + 1, i + 1)
      else if line + 1 == n + 1 then (start, i)
      else LineScan(s, n, i + 1, line + 1, start)
    else
      LineScan(s, n, i + 1, line, start)
  }

  /**
   * The loop computes the line span: with the line counter tracking the
   * newlines seen and `start` summarising the boundaries before `i`, the
   * pair it stops with is the span of line `n`.
   */
  lemma {:induction false} LineScanSpan(s: string, n: int, i: nat, line: int, start: nat)
    requires i < |s| || i == 0
    requires line == 1 + NewlinesBefore(s, i)
    requires (start == 0 && forall q: nat :: q < i ==> !OpensLine(s, n, q))
          || (0 < start <= i && OpensLine(s, n, start - 1))
    requires forall q: nat :: q < i ==> !ClosesLine(s, n, q)
    ensures IsLineSpan(s, n, LineScan(s, n, i, line, start).0, LineScan(s, n, i, line, start).1)
    decreases |s| - i
  {
    if i >= |s| || i + 1 == |s| {
    } else if s[i] == '\n' {
      if line + 1 == n {
        LineScanSpan(s, n, i + 1, line + 1, i + 1);
      } else if line + 1 == n + 1 {
        NoLaterOpening(s, n, i);
      } else {
        LineScanSpan(s, n, i + 1, line + 1, start);
      }
    } else {
      LineScanSpan(s, n, i + 1, line, start);
    }
  }

  /** Once line `n` is closed at `i`, no later boundary opens it. */
  lemma NoLaterOpening(s: string, n: int, i: nat)
    requires ClosesLine(s, n, i)
    ensures forall q: nat :: q >= i ==> !OpensLine(s, n, q)
  {
    forall q: nat | q > i && OpensLine(s, n, q)
      ensures false
    {
      NewlinesMonotone(s, i + 1, q);
    }
  }

  /** `getline(n)`: the text of line `n` of `s`, as the lexer slices it. */
  function GetLine(s: string, n: int): string
  {
    var (a, b) := LineScan(s, n, 0, 1, 0);
    if a <= b <= |s| then s[a..b] else ""
  }

  /**
   * `getline(n)` returns `s[a..b]`: `a` is 0 for line 1 or a missing line,
   * else just after the (n-1)-th boundary; `b` is the n-th boundary, or `|s|`.
   */
  lemma GetLineIsSpan(s: string, n: int)
    ensures exists a: nat, b: nat :: IsLineSpan(s, n, a, b) && GetLine(s, n) == s[a..b]
  {
    LineScanSpan(s, n, 0, 1, 0);
    var (a, b) := LineScan(s, n, 0, 1, 0);
    assert IsLineSpan(s, n, a, b);
  }

  /** The span is determined by the buffer and the line number. */
  lemma {:induction false} LineSpanUnique(s: string, n: int, a: nat, b: nat, a': nat, b': nat)
    requires IsLineSpan(s, n, a, b) && IsLineSpan(s, n, a', b')
    ensures a == a' && b == b'
  {
    if 0 < a && 0 < a' && a != a' {
      BoundaryCountsDiffer(s, a - 1, a' - 1);
    }
    if b < |s| && b' < |s| && b != b' {
      BoundaryCountsDiffer(s, b, b');
    }
  }

  /** Two distinct boundaries have distinct newline counts before them. */
  lemma BoundaryCountsDiffer(s: string, p: nat, q: nat)
    requires IsBreak(s, p) && IsBreak(s, q) && p != q
    ensures NewlinesBefore(s, p) != NewlinesBefore(s, q)
  {
    if p < q {
      NewlinesMonotone(s, p + 1, q);
    } else {
      NewlinesMonotone(s, q + 1, p);
    }
  }
}
