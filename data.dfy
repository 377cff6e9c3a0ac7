/** `combineUniqueArrays` of src/lib/data.ts. */
module Data {

  predicate NoDuplicates(s: seq<string>) {
    forall i, j :: 0 <= i < j < |s| ==> s[i] != s[j]
  }

  /**
   * The length and first character of a string, as one number. Not part of the source:
   * a proof aid, so that the distinctness of the fixed column lists of the payment
   * commands follows from comparing numbers instead of whole strings.
   */
  function Shape(s: string): int {
    if |s| == 0 then 0 else |s| * 0x11_0000 + s[0] as int
  }

  /** Strings of pairwise different shapes are pairwise different (a proof aid as well). */
  lemma NoDuplicatesByShape(s: seq<string>)
    requires forall i, j :: 0 <= i < j < |s| ==> Shape(s[i]) != Shape(s[j])
    ensures NoDuplicates(s)
  {
  }

  /** Position of the first occurrence of `x` in `s`. */
  function FirstIndex(s: seq<string>, x: string): (k: nat)
    requires x in s
    ensures k < |s| && s[k] == x && x !in s[..k]
  {
    if s[0] == x then 0 else
      var j := FirstIndex(s[1..], x);
      assert s[1..][..j] == s[1..j + 1];
      1 + j
  }

  /** `[...new Set(s)]`: the elements of `s`, each once, in order of first insertion. */
  function Unique(s: seq<string>): (r: seq<string>)
    ensures NoDuplicates(r)
    ensures forall x :: x in r <==> x in s
    decreases |s|
  {
    if |s| == 0 then []
    else
      var r := Unique(s[..|s| - 1]);
      assert forall x :: x in s <==> x in s[..|s| - 1] || x == s[|s| - 1] by {
        assert s == s[..|s| - 1] + [s[|s| - 1]];
      }
      if s[|s| - 1] in r then r else r + [s[|s| - 1]]
  }

  /** Adding one element to the end adds it to the unique list unless it is already there. */
  lemma UniqueSnoc(s: seq<string>, x: string)
    ensures Unique(s + [x]) == if x in Unique(s) then Unique(s) else Unique(s) + [x]
  {
    assert (s + [x])[..|s|] == s;
  }

  /** The source's `combineUniqueArrays(left, right)`. */
  function CombineUniqueArrays(left: seq<string>, right: seq<string>): (r: seq<string>)
    ensures NoDuplicates(r)
    ensures forall x :: x in r <==> x in left || x in right
  {
    Unique(left + right)
  }

  /** A sequence without duplicates is its own unique list. */
  lemma {:induction false} UniqueOfDistinct(s: seq<string>)
    requires NoDuplicates(s)
    ensures Unique(s) == s
    decreases |s|
  {
    if |s| > 0 {
      var init := s[..|s| - 1];
      assert NoDuplicates(init);
      UniqueOfDistinct(init);
      assert s[|s| - 1] !in init;
      assert s == init + [s[|s| - 1]];
    }
  }

  /** Appending never disturbs the unique list of what came before. */
  lemma {:induction false} UniquePrefix(a: seq<string>, b: seq<string>)
    ensures Unique(a) <= Unique(a + b)
    decreases |b|
  {
    if |b| > 0 {
      var b' := b[..|b| - 1];
      UniquePrefix(a, b');
      assert (a + b)[..|a + b| - 1] == a + b';
      var u0, u1, u2 := Unique(a), Unique(a + b'), Unique(a + b);
      assert u1 <= u2;
      assert u1 == u2[..|u1|] && u0 == u1[..|u0|];
      assert u2[..|u1|][..|u0|] == u2[..|u0|];
    } else {
      assert a + b == a;
    }
  }

  /** Appending elements that are all present already changes nothing. */
  lemma {:induction false} UniqueAbsorbs(r: seq<string>, b: seq<string>)
    requires forall x :: x in b ==> x in r
    ensures Unique(r + b) == Unique(r)
    decreases |b|
  {
    if |b| > 0 {
      var b' := b[..|b| - 1];
      assert forall x :: x in b' ==> x in b;
      UniqueAbsorbs(r, b');
      assert (r + b)[..|r + b| - 1] == r + b';
      assert (r + b)[|r + b| - 1] == b[|b| - 1];
    } else {
      assert r + b == r;
    }
  }

  /** First occurrences in a prefix are first occurrences in the whole. */
  lemma FirstIndexExtend(s: seq<string>, x: string, y: string)
    requires x in s
    ensures x in s + [y] && FirstIndex(s + [y], x) == FirstIndex(s, x)
  {
    var k := FirstIndex(s, x);
    assert (s + [y])[k] == x;
    assert (s + [y])[..k] == s[..k];
  }

  /** Elements appear in the order of their first occurrence in the input. */
  lemma {:induction false} UniqueOrder(s: seq<string>)
    ensures forall i, j :: 0 <= i < j < |Unique(s)| ==>
      FirstIndex(s, Unique(s)[i]) < FirstIndex(s, Unique(s)[j])
    decreases |s|
  {
    if |s| > 0 {
      var init, last := s[..|s| - 1], s[|s| - 1];
      assert s == init + [last];
      UniqueOrder(init);
      var u, r := Unique(init), Unique(s);
      forall i, j | 0 <= i < j < |r|
        ensures FirstIndex(s, r[i]) < FirstIndex(s, r[j])
      {
        assert r[i] == u[i];
        FirstIndexExtend(init, u[i], last);
        if j < |u| {
          assert r[j] == u[j];
          FirstIndexExtend(init, u[j], last);
        } else {
          assert r[j] == last && last !in init;
          assert s[..|s| - 1] == init;
        }
      }
    }
  }

  /** If the first array has no duplicates, it is a prefix of the combination. */
  lemma CombinePrefix(left: seq<string>, right: seq<string>)
    requires NoDuplicates(left)
    ensures left <= CombineUniqueArrays(left, right)
  {
    UniqueOfDistinct(left);
    UniquePrefix(left, right);
  }

  /** Combining the result with the second array again returns the same result. */
  lemma CombineIdempotent(left: seq<string>, right: seq<string>)
    ensures CombineUniqueArrays(CombineUniqueArrays(left, right), right)
         == CombineUniqueArrays(left, right)
  {
    var r := CombineUniqueArrays(left, right);
    UniqueAbsorbs(r, right);
    UniqueOfDistinct(r);
  }

  /** The combination keeps the order of first occurrence in `left + right`. */
  lemma CombineOrder(left: seq<string>, right: seq<string>)
    ensures var r := CombineUniqueArrays(left, right);
      forall i, j :: 0 <= i < j < |r| ==>
        FirstIndex(left + right, r[i]) < FirstIndex(left + right, r[j])
  {
    UniqueOrder(left + right);
  }
}
