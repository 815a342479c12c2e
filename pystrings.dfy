/**
 * The Python string operations the extractor relies on, with their documented semantics:
 * `str.find`, the prefix slice `s[:stop]` and `str.split(sep)`; `sep.join` is given as the
 * reference inverse of `split`.
 */
module PyStrings {

  function Min(a: int, b: int): (m: int) { if a <= b then a else b }

  function Max(a: int, b: int): (m: int) { if a <= b then b else a }

  /** `pat` occurs in `s` starting at index `i`. */
  predicate OccursAt(s: string, pat: string, i: int)
  {
    0 <= i && i + |pat| <= |s| && s[i..i + |pat|] == pat
  }

  /** `pat` occurs somewhere in `s`. */
  ghost predicate Contains(s: string, pat: string)
  {
    exists i :: OccursAt(s, pat, i)
  }

  /** `i` is the lowest index at which `pat` occurs in `s`. */
  ghost predicate FirstOccurrence(s: string, pat: string, i: int)
  {
    OccursAt(s, pat, i) && forall j :: 0 <= j < i ==> !OccursAt(s, pat, j)
  }

  /** The scan behind `s.find(pat)`, starting at index `from`. */
  function FindFrom(s: string, pat: string, from: nat): (r: int)
    ensures r == -1 || (from <= r && OccursAt(s, pat, r))
    ensures forall j :: from <= j && (r == -1 || j < r) ==> !OccursAt(s, pat, j)
    decreases |s| - from
  {
    if from + |pat| > |s| then -1
    else if s[from..from + |pat|] == pat then from
    else FindFrom(s, pat, from + 1)
  }

  /** `s.find(pat)`: the lowest index of `pat` in `s`, or -1 when it does not occur. */
  function Find(s: string, pat: string): (r: int)
    ensures r == -1 <==> !Contains(s, pat)
    ensures r != -1 ==> FirstOccurrence(s, pat, r)
  {
    FindFrom(s, pat, 0)
  }

  /**
   * `s[:stop]`: a negative `stop` counts from the end, and `stop` is clamped to
   * `0..len(s)`, so the slice never fails.
   */
  function SliceTo(s: string, stop: int): (r: string)
    ensures r <= s
    ensures 0 <= stop ==> |r| == Min(stop, |s|)
    ensures stop < 0 ==> |r| == Max(0, |s| + stop)
  {
    if stop < 0 then s[..Max(0, |s| + stop)] else s[..Min(stop, |s|)]
  }

  /** The last element of a non-empty list, Python's `xs[-1]`. */
  function Last<T>(xs: seq<T>): (x: T)
    requires |xs| >= 1
  {
    xs[|xs| - 1]
  }

  /**
   * `s.split(sep)` for a one-character separator: the pieces between separators, in order;
   * always at least one piece (`"".split("/") == [""]`).
   */
  function Split(s: string, sep: char): (parts: seq<string>)
    ensures |parts| >= 1
    decreases |s|
  {
    if s == [] then [""]
    else
      var init := Split(s[..|s| - 1], sep);
      if s[|s| - 1] == sep then init + [""]
      else init[..|init| - 1] + [Last(init) + [s[|s| - 1]]]
  }

  /**
   * `sep.join(parts)` for a non-empty list (the only kind `split` produces): the pieces
   * glued back together with one separator between neighbours.
   */
  function Join(parts: seq<string>, sep: char): (s: string)
    requires |parts| >= 1
  {
    if |parts| == 1 then parts[0] else Join(parts[..|parts| - 1], sep) + [sep] + Last(parts)
  }

  /** Joining the pieces of a split restores the original string. */
  lemma {:induction false} JoinSplit(s: string, sep: char)
    ensures Join(Split(s, sep), sep) == s
    decreases |s|
  {
    if s != [] {
      var init := s[..|s| - 1];
      var c := s[|s| - 1];
      var p := Split(init, sep);
      JoinSplit(init, sep);
      assert s == init + [c];
      if c == sep {
        JoinAppendPiece(p, "", sep);
      } else {
        JoinExtendLast(p, c, sep);
      }
    }
  }

  /** Adding a piece adds a separator and the piece. */
  lemma JoinAppendPiece(p: seq<string>, piece: string, sep: char)
    requires |p| >= 1
    ensures Join(p + [piece], sep) == Join(p, sep) + [sep] + piece
  {
    assert (p + [piece])[..|p|] == p;
  }

  /** Extending the last piece by a character extends the joined string by it. */
  lemma JoinExtendLast(p: seq<string>, c: char, sep: char)
    requires |p| >= 1
    ensures Join(p[..|p| - 1] + [Last(p) + [c]], sep) == Join(p, sep) + [c]
  {
    var q := p[..|p| - 1] + [Last(p) + [c]];
    if |p| > 1 {
      assert q[..|q| - 1] == p[..|p| - 1];
    }
  }

  /** No piece of a split contains the separator. */
  lemma {:induction false} SplitPiecesFree(s: string, sep: char)
    ensures forall i :: 0 <= i < |Split(s, sep)| ==> sep !in Split(s, sep)[i]
    decreases |s|
  {
    if s != [] {
      SplitPiecesFree(s[..|s| - 1], sep);
    }
  }

  /** A string without the separator splits into itself alone. */
  lemma {:induction false} SplitWithoutSep(s: string, sep: char)
    requires sep !in s
    ensures Split(s, sep) == [s]
    decreases |s|
  {
    if s != [] {
      var init := s[..|s| - 1];
      assert sep !in init by {
        forall k | 0 <= k < |init| ensures init[k] != sep { assert init[k] == s[k]; }
      }
      SplitWithoutSep(init, sep);
      assert s == init + [s[|s| - 1]];
    }
  }

  /** The last piece of `p + [sep] + n`, when `n` has no separator, is `n`. */
  lemma {:induction false} LastPieceAfterSep(p: string, n: string, sep: char)
    requires sep !in n
    ensures Last(Split(p + [sep] + n, sep)) == n
    decreases |n|
  {
    if n == [] {
      assert (p + [sep] + n)[..|p + [sep] + n| - 1] == p;
    } else {
      var n' := n[..|n| - 1];
      assert sep !in n' by {
        forall k | 0 <= k < |n'| ensures n'[k] != sep { assert n'[k] == n[k]; }
      }
      LastPieceAfterSep(p, n', sep);
      assert (p + [sep] + n)[..|p + [sep] + n| - 1] == p + [sep] + n';
      assert n == n' + [n[|n| - 1]];
    }
  }
}
