/**
 * Version extraction from an archive name: `os.path.basename` followed by
 * `re.search(r'(\d+\.\d+[._]\d+)', name)`, with `Unknown` when nothing matches.
 *
 * The regex engine tries start positions from the left; at a start position
 * each greedy `\d+` must be followed by the literal that comes next, so
 * backtracking into a shorter digit run never helps, and the match is the
 * whole run, `.`, the whole next run, `.` or `_`, and the whole final run.
 */
module Version {
  import opened Text

  datatype Option<T> = None | Some(value: T)

  /** `s[i..j]` is a non-empty run of digits. */
  predicate DigitRun(s: string, i: int, j: int)
  {
    0 <= i < j <= |s| && forall k :: i <= k < j ==> IsDigit(s[k])
  }

  /** `s[i..j]` is digits `.` digits (`.` or `_`) digits, with the separators at `a` and `b`. */
  predicate ShapeAt(s: string, i: int, a: int, b: int, j: int)
  {
    && DigitRun(s, i, a) && a < |s| && s[a] == '.'
    && DigitRun(s, a + 1, b) && b < |s| && (s[b] == '.' || s[b] == '_')
    && DigitRun(s, b + 1, j)
  }

  /** `s[i..j]` is matched by the pattern `\d+\.\d+[._]\d+`. */
  ghost predicate IsMatch(s: string, i: int, j: int)
  {
    exists a, b :: ShapeAt(s, i, a, b, j)
  }

  /** The end of the digit run that starts at `i`. */
  function RunEnd(s: string, i: nat): (k: nat)
    requires i <= |s|
    ensures i <= k <= |s|
    ensures forall m :: i <= m < k ==> IsDigit(s[m])
    ensures k == |s| || !IsDigit(s[k])
    decreases |s| - i
  {
    if i < |s| && IsDigit(s[i]) then RunEnd(s, i + 1) else i
  }

  /** Where the greedy match that starts at `i` ends, if there is one. */
  function MatchEndAt(s: string, i: nat): (r: Option<nat>)
    requires i <= |s|
    ensures r.Some? ==> i < r.value <= |s|
  {
    var a := RunEnd(s, i);
    if a == i || a == |s| || s[a] != '.' then None
    else
      var b := RunEnd(s, a + 1);
      if b == a + 1 || b == |s| || !(s[b] == '.' || s[b] == '_') then None
      else
        var j := RunEnd(s, b + 1);
        if j == b + 1 then None else Some(j)
  }

  /** The leftmost start at or after `i` where a match exists, with the match's end. */
  function SearchFrom(s: string, i: nat): (r: Option<(nat, nat)>)
    requires i <= |s|
    ensures r.Some? ==> i <= r.value.0 < r.value.1 <= |s|
    decreases |s| - i
  {
    if i == |s| then None
    else match MatchEndAt(s, i)
      case Some(j) => Some((i, j))
      case None => SearchFrom(s, i + 1)
  }

  /** The version shown for an archive name: the leftmost match, or `Unknown`. */
  function ExtractVersion(name: string): string
  {
    match SearchFrom(name, 0)
    case Some((i, j)) => name[i..j]
    case None => "Unknown"
  }

  /** The index of the last `/` in `path`, or -1 when there is none. */
  function LastSlash(path: string): (k: int)
    ensures -1 <= k < |path|
    ensures k >= 0 ==> path[k] == '/'
    ensures forall m :: k < m < |path| ==> path[m] != '/'
    decreases |path|
  {
    if path == [] then -1
    else if path[|path| - 1] == '/' then |path| - 1
    else LastSlash(path[..|path| - 1])
  }

  /** `os.path.basename`: what follows the last `/`. */
  function Basename(path: string): (r: string)
    ensures forall k :: 0 <= k < |r| ==> r[k] != '/'
    ensures |r| <= |path| && r == path[|path| - |r|..]
    ensures |r| < |path| ==> path[|path| - |r| - 1] == '/'
  {
    path[LastSlash(path) + 1..]
  }

  /** The match found at a start is a match, and its final digit run is maximal. */
  lemma MatchEndAtSound(s: string, i: nat)
    requires i <= |s|
    ensures MatchEndAt(s, i).Some? ==>
      var j := MatchEndAt(s, i).value;
      IsMatch(s, i, j) && (j == |s| || !IsDigit(s[j]))
  {
    if MatchEndAt(s, i).Some? {
      var a := RunEnd(s, i);
      var b := RunEnd(s, a + 1);
      assert ShapeAt(s, i, a, b, MatchEndAt(s, i).value);
    }
  }

  /** A digit run that is followed by a non-digit ends where `RunEnd` says. */
  lemma RunEndOf(s: string, i: nat, k: nat)
    requires DigitRun(s, i, k) && k < |s| && !IsDigit(s[k])
    ensures RunEnd(s, i) == k
    decreases k - i
  {
    if i + 1 < k {
      RunEndOf(s, i + 1, k);
    }
  }

  /** Wherever the pattern matches, the scan at that start finds a match reaching at least as far. */
  lemma MatchEndAtComplete(s: string, i: nat, j: int)
    requires i <= |s| && IsMatch(s, i, j)
    ensures MatchEndAt(s, i).Some? && j <= MatchEndAt(s, i).value
  {
    var a, b :| ShapeAt(s, i, a, b, j);
    RunEndOf(s, i, a);
    RunEndOf(s, a + 1, b);
    RunEndReaches(s, b + 1, j);
  }

  lemma RunEndReaches(s: string, i: nat, j: int)
    requires DigitRun(s, i, j)
    ensures j <= RunEnd(s, i)
    decreases j - i
  {
    if i + 1 < j {
      RunEndReaches(s, i + 1, j);
    }
  }

  /** No match starts outside the name or at its end. */
  lemma NoMatchOutside(s: string, i: int, j: int)
    requires i < 0 || i >= |s|
    ensures !IsMatch(s, i, j)
  {
    forall a, b
      ensures !ShapeAt(s, i, a, b, j)
    {
    }
  }

  /** No match starts anywhere in `lo..hi`. */
  ghost predicate NoMatchIn(s: string, lo: int, hi: int)
  {
    forall x, y :: lo <= x < hi ==> !IsMatch(s, x, y)
  }

  /** A start where the greedy scan fails has no match at all. */
  lemma NoMatchAt(s: string, i: nat)
    requires i <= |s|
    requires i == |s| || MatchEndAt(s, i).None?
    ensures forall y :: !IsMatch(s, i, y)
  {
    forall y
      ensures !IsMatch(s, i, y)
    {
      if i == |s| {
        NoMatchOutside(s, i, y);
      } else if IsMatch(s, i, y) {
        MatchEndAtComplete(s, i, y);
      }
    }
  }

  lemma NoMatchExtend(s: string, i: int, hi: int)
    requires NoMatchIn(s, i + 1, hi) && forall y :: !IsMatch(s, i, y)
    ensures NoMatchIn(s, i, hi)
  {
  }

  /** The search returns the first start from `i` on at which a match exists. */
  lemma {:induction false} SearchFromLeftmost(s: string, i: nat)
    requires i <= |s|
    ensures SearchFrom(s, i).None? ==> NoMatchIn(s, i, |s| + 1)
    ensures SearchFrom(s, i).Some? ==>
      var (x, y) := SearchFrom(s, i).value;
      i <= x < |s| && MatchEndAt(s, x) == Some(y) && NoMatchIn(s, i, x)
    decreases |s| - i
  {
    if i == |s| {
      NoMatchAt(s, i);
      NoMatchExtend(s, i, |s| + 1);
    } else if MatchEndAt(s, i).None? {
      SearchFromLeftmost(s, i + 1);
      NoMatchAt(s, i);
      if SearchFrom(s, i).None? {
        NoMatchExtend(s, i, |s| + 1);
      } else {
        NoMatchExtend(s, i, SearchFrom(s, i).value.0);
      }
    }
  }

  /** A match contains a `.`, so it is never the text `Unknown`. */
  lemma MatchNotUnknown(s: string, x: int, y: int)
    requires 0 <= x <= y <= |s| && IsMatch(s, x, y)
    ensures s[x..y] != "Unknown"
  {
    var a, b :| ShapeAt(s, x, a, b, y);
    var v := s[x..y];
    assert v[a - x] == '.';
    assert "Unknown"[0] != '.' && "Unknown"[1] != '.' && "Unknown"[2] != '.' && "Unknown"[3] != '.';
    assert "Unknown"[4] != '.' && "Unknown"[5] != '.' && "Unknown"[6] != '.';
  }

  /**
   * The extracted version is `Unknown` exactly when no substring of the name
   * has the shape digits `.` digits (`.` or `_`) digits; otherwise it is the
   * leftmost such substring, extended to the end of its last digit run.
   */
  lemma VersionSpec(name: string)
    ensures ExtractVersion(name) == "Unknown" <==> forall i, j :: !IsMatch(name, i, j)
    ensures ExtractVersion(name) != "Unknown" ==>
      exists i, j :: 0 <= i <= j <= |name| && ExtractVersion(name) == name[i..j]
        && IsMatch(name, i, j) && (j == |name| || !IsDigit(name[j]))
        && forall i', j' :: i' < i ==> !IsMatch(name, i', j')
  {
    SearchFromLeftmost(name, 0);
    forall i, j | i < 0 || i > |name|
      ensures !IsMatch(name, i, j)
    {
      NoMatchOutside(name, i, j);
    }
    match SearchFrom(name, 0)
    case None =>
    case Some((x, y)) =>
      MatchEndAtSound(name, x);
      MatchNotUnknown(name, x, y);
  }
}
