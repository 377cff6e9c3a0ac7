/** String helpers with the semantics of the JavaScript built-ins the source uses. */
module Text {

  /** Index of the first occurrence of `c` in `s`. */
  function IndexOf(s: string, c: char): (i: nat)
    requires c in s
    ensures i < |s| && s[i] == c && c !in s[..i]
  {
    if s[0] == c then 0 else
      var j := IndexOf(s[1..], c);
      assert s[1..][..j] == s[1..j + 1];
      1 + j
  }

  /** The text before the first `c` (all of `s` when there is none). */
  function Before(s: string, c: char): string {
    if c in s then s[..IndexOf(s, c)] else s
  }

  /** The text after the first `c` (empty when there is none). */
  function After(s: string, c: char): string {
    if c in s then s[IndexOf(s, c) + 1..] else ""
  }

  /** `s.split(c)` for a one-character separator and no limit. */
  function Split(s: string, c: char): (parts: seq<string>)
    ensures |parts| >= 1
    decreases |s|
  {
    if c in s then [Before(s, c)] + Split(After(s, c), c) else [s]
  }

  /** `parts.join(sep)`. */
  function Join(parts: seq<string>, sep: string): string {
    if |parts| == 0 then ""
    else if |parts| == 1 then parts[0]
    else parts[0] + sep + Join(parts[1..], sep)
  }

  lemma JoinFour(a: string, b: string, c: string, d: string, sep: string)
    ensures Join([a, b, c, d], sep) == a + sep + b + sep + c + sep + d
  {
    assert [a, b, c, d][1..] == [b, c, d] && [b, c, d][1..] == [c, d] && [c, d][1..] == [d];
    assert Join([c, d], sep) == c + sep + d;
    assert Join([b, c, d], sep) == b + sep + (c + sep + d);
    assert Join([a, b, c, d], sep) == a + sep + (b + sep + (c + sep + d));
  }

  predicate StartsWith(s: string, prefix: string) {
    |prefix| <= |s| && s[..|prefix|] == prefix
  }

  predicate EndsWith(s: string, suffix: string) {
    |suffix| <= |s| && s[|s| - |suffix|..] == suffix
  }

  predicate IsDigit(ch: char) {
    '0' <= ch <= '9'
  }

  predicate IsLowerAlnum(ch: char) {
    'a' <= ch <= 'z' || IsDigit(ch)
  }

  function DigitValue(ch: char): nat
    requires IsDigit(ch)
  {
    ch as int - '0' as int
  }

  predicate AllDigits(s: string) {
    forall k :: 0 <= k < |s| ==> IsDigit(s[k])
  }

  /** The value of a string of decimal digits, most significant first. */
  function DigitsNat(s: string): nat
    requires AllDigits(s)
  {
    if |s| == 0 then 0 else DigitsNat(s[..|s| - 1]) * 10 + DigitValue(s[|s| - 1])
  }

  /** The length of the longest prefix of `s` made of digits. */
  function DigitRun(s: string): (n: nat)
    ensures n <= |s| && AllDigits(s[..n]) && (n < |s| ==> !IsDigit(s[n]))
  {
    if |s| == 0 || !IsDigit(s[0]) then 0
    else
      var n := 1 + DigitRun(s[1..]);
      assert forall k :: 1 <= k < n ==> s[..n][k] == s[1..][..n - 1][k - 1];
      n
  }

  function LowerChar(ch: char): char {
    if 'A' <= ch <= 'Z' then (ch as int + 32) as char else ch
  }

  /** `s.toLowerCase()` restricted to the ASCII letters. */
  function LowerAscii(s: string): (r: string)
    ensures |r| == |s|
    ensures forall i :: 0 <= i < |s| ==> r[i] == LowerChar(s[i])
  {
    if |s| == 0 then "" else [LowerChar(s[0])] + LowerAscii(s[1..])
  }

  /** Only the first part of a split is the text before the separator. */
  lemma SplitFirst(s: string, c: char)
    ensures Split(s, c)[0] == Before(s, c)
    ensures |Split(s, c)| == 1 <==> c !in s
  {
  }

  /** The second part of a split is the text between the first and second separator. */
  lemma SplitSecond(s: string, c: char)
    requires c in s
    ensures |Split(s, c)| >= 2
    ensures Split(s, c)[1] == Before(After(s, c), c)
  {
    SplitFirst(After(s, c), c);
  }

  /** The first two parts of a split, in terms of the text around the first two separators. */
  lemma SplitFirstTwo(s: string, c: char)
    ensures Split(s, c)[0] == Before(s, c)
    ensures |Split(s, c)| >= 2 <==> c in s
    ensures c in s ==> Split(s, c)[1] == Before(After(s, c), c)
  {
    SplitFirst(s, c);
    if c in s {
      SplitSecond(s, c);
    }
  }

  /** No part of a split contains the separator. */
  lemma {:induction false} SplitPartsFree(s: string, c: char)
    ensures forall k :: 0 <= k < |Split(s, c)| ==> c !in Split(s, c)[k]
    decreases |s|
  {
    if c in s {
      SplitPartsFree(After(s, c), c);
      var parts := Split(s, c);
      assert parts == [Before(s, c)] + Split(After(s, c), c);
      forall k | 0 <= k < |parts| ensures c !in parts[k] {
        if k > 0 { assert parts[k] == Split(After(s, c), c)[k - 1]; }
      }
    }
  }

  /** Joining the parts of a split with the separator gives back the text. */
  lemma {:induction false} JoinSplit(s: string, c: char)
    ensures Join(Split(s, c), [c]) == s
    decreases |s|
  {
    if c in s {
      var rest := After(s, c);
      var tail := Split(rest, c);
      JoinSplit(rest, c);
      JoinCons(Before(s, c), tail, [c]);
      AroundFirst(s, c);
    }
  }

  /** The text is what comes before its first `c`, that `c`, and what comes after. */
  lemma AroundFirst(s: string, c: char)
    requires c in s
    ensures s == Before(s, c) + [c] + After(s, c)
  {
    var i := IndexOf(s, c);
    assert s == s[..i] + [s[i]] + s[i + 1..];
  }

  lemma JoinCons(head: string, tail: seq<string>, sep: string)
    requires |tail| >= 1
    ensures Join([head] + tail, sep) == head + sep + Join(tail, sep)
  {
    assert ([head] + tail)[1..] == tail;
  }

  /** The first separator of `p + [c] + q` is right after `p` when `p` has none. */
  lemma IndexOfAfterPrefix(p: string, c: char, q: string)
    requires c !in p
    ensures c in p + [c] + q
    ensures IndexOf(p + [c] + q, c) == |p|
  {
    var s := p + [c] + q;
    assert s[|p|] == c;
    assert s[..|p|] == p;
  }

  /** Splitting at a first separator right after a separator-free prefix. */
  lemma SplitAfterPrefix(p: string, c: char, q: string)
    requires c !in p
    ensures Split(p + [c] + q, c) == [p] + Split(q, c)
  {
    var s := p + [c] + q;
    IndexOfAfterPrefix(p, c, q);
    assert s[..|p|] == p;
    assert s[|p| + 1..] == q;
  }

  /** Splitting a join of separator-free parts gives back the parts. */
  lemma {:induction false} SplitJoin(parts: seq<string>, c: char)
    requires |parts| >= 1
    requires forall k :: 0 <= k < |parts| ==> c !in parts[k]
    ensures Split(Join(parts, [c]), c) == parts
    decreases |parts|
  {
    if |parts| > 1 {
      var tail := parts[1..];
      assert forall k :: 0 <= k < |tail| ==> c !in tail[k] by {
        forall k | 0 <= k < |tail| ensures c !in tail[k] {
          assert tail[k] == parts[k + 1];
        }
      }
      SplitJoin(tail, c);
      assert c !in parts[0];
      SplitAfterPrefix(parts[0], c, Join(tail, [c]));
      assert parts == [parts[0]] + tail;
    }
  }

}
