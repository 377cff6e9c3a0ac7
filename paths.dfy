/**
 * The two POSIX path helpers of Node's `path` module that the shell's `download`
 * command uses, following Node's scanning algorithm character by character.
 */
module Paths {

  /** No '/' occurs in `s`. */
  predicate NoSlash(s: string) {
    forall k :: 0 <= k < |s| ==> s[k] != '/'
  }

  /**
   * Scan of `basename` from index `i` down to 0. `end` is -1 while only trailing
   * slashes were seen, otherwise one past the last character of the final segment.
   * Returns the segment's bounds (start, end).
   */
  function BaseBounds(p: string, i: int, end: int): (b: (int, int))
    requires -1 <= i < |p|
    requires end == -1 || i < end <= |p|
    ensures b.1 == -1 || 0 <= b.0 <= b.1 <= |p|
    decreases i + 1
  {
    if i < 0 then (0, end)
    else if p[i] == '/' then
      if end != -1 then (i + 1, end) else BaseBounds(p, i - 1, end)
    else BaseBounds(p, i - 1, if end == -1 then i + 1 else end)
  }

  /** `path.posix.basename(p)`: the last non-empty segment, trailing slashes ignored. */
  function Basename(p: string): string {
    var b := BaseBounds(p, |p| - 1, -1);
    if b.1 == -1 then "" else p[b.0..b.1]
  }

  /**
   * Scan of `dirname` from index `i` down to 1: the index of the slash that ends the
   * directory part, or -1 when there is none.
   */
  function DirEnd(p: string, i: int, matchedSlash: bool): (end: int)
    requires i < |p|
    ensures end == -1 || 1 <= end <= i
    decreases i
  {
    if i < 1 then -1
    else if p[i] == '/' then
      if !matchedSlash then i else DirEnd(p, i - 1, true)
    else DirEnd(p, i - 1, false)
  }

  /** `path.posix.dirname(p)`. */
  function Dirname(p: string): string {
    if |p| == 0 then "."
    else
      var end := DirEnd(p, |p| - 1, true);
      if end == -1 then (if p[0] == '/' then "/" else ".")
      else if p[0] == '/' && end == 1 then "//"
      else p[..end]
  }

  lemma {:induction false} BaseBoundsNoSlash(p: string, i: int, end: int)
    requires -1 <= i < |p|
    requires end == -1 || i < end <= |p|
    requires end != -1 ==> NoSlash(p[i + 1..end])
    ensures var b := BaseBounds(p, i, end); b.1 != -1 ==> NoSlash(p[b.0..b.1])
    decreases i + 1
  {
    if i >= 0 && p[i] != '/' {
      var e := if end == -1 then i + 1 else end;
      forall k | 0 <= k < e - i
        ensures p[i..e][k] != '/'
      {
        if k > 0 { assert p[i..e][k] == p[i + 1..e][k - 1]; }
      }
      BaseBoundsNoSlash(p, i - 1, e);
    } else if i >= 0 && end == -1 {
      BaseBoundsNoSlash(p, i - 1, end);
    }
  }

  /** A basename never contains a path separator. */
  lemma BasenameNoSlash(p: string)
    ensures NoSlash(Basename(p))
  {
    BaseBoundsNoSlash(p, |p| - 1, -1);
  }

  lemma {:induction false} DirEndNoSlash(p: string, i: int, matchedSlash: bool)
    requires i < |p| && NoSlash(p)
    ensures DirEnd(p, i, matchedSlash) == -1
    decreases i
  {
    if i >= 1 {
      DirEndNoSlash(p, i - 1, false);
    }
  }

  /** The directory of a name without separators is the current directory. */
  lemma DirnameOfPlainName(p: string)
    requires NoSlash(p)
    ensures Dirname(p) == "."
  {
    if |p| > 0 {
      DirEndNoSlash(p, |p| - 1, true);
    }
  }

  /** The directory of a basename is always ".". */
  lemma DirnameOfBasename(p: string)
    ensures Dirname(Basename(p)) == "."
  {
    BasenameNoSlash(p);
    DirnameOfPlainName(Basename(p));
  }
}
