/** Shared vocabulary: optional values and relations between sequences. */
module Common {

  /** A value that may be absent, as `undefined` is in JavaScript. */
  datatype Option<+T> = None | Some(value: T)

  /** `s.includes(t)` for strings: `t` occurs in `s` at some offset. */
  predicate Contains<T(==)>(s: seq<T>, t: seq<T>)
  {
    exists i :: 0 <= i <= |s| && t <= s[i..]
  }

  /** Both `t` and `u` occur in `a + t + b + u + c`. */
  lemma ContainsBoth<T>(a: seq<T>, t: seq<T>, b: seq<T>, u: seq<T>, c: seq<T>)
    ensures Contains(a + t + b + u + c, t)
    ensures Contains(a + t + b + u + c, u)
  {
    var s := a + t + b + u + c;
    assert s[|a|..] == t + b + u + c;
    assert t <= s[|a|..];
    assert s[|a| + |t| + |b|..] == u + c;
    assert u <= s[|a| + |t| + |b|..];
  }

  /** `a` is `b` with some elements dropped and the rest kept in order. */
  predicate IsSubsequence<T(==)>(a: seq<T>, b: seq<T>)
    decreases |b|
  {
    if |a| == 0 then true
    else if |b| == 0 then false
    else if a[|a| - 1] == b[|b| - 1] then IsSubsequence(a[..|a| - 1], b[..|b| - 1])
    else IsSubsequence(a, b[..|b| - 1])
  }

  /** A subsequence of all but the last element is a subsequence of the whole. */
  lemma {:induction false} SubsequenceOfInit<T>(a: seq<T>, b: seq<T>)
    requires |b| > 0 && IsSubsequence(a, b[..|b| - 1])
    ensures IsSubsequence(a, b)
    decreases |b|, |a|
  {
    if |a| > 0 && a[|a| - 1] == b[|b| - 1] {
      SubsequenceDropLast(a, b[..|b| - 1]);
    }
  }

  /** Dropping the last element of a subsequence keeps it a subsequence. */
  lemma {:induction false} SubsequenceDropLast<T>(a: seq<T>, b: seq<T>)
    requires |a| > 0 && IsSubsequence(a, b)
    ensures IsSubsequence(a[..|a| - 1], b)
    decreases |b|, |a|
  {
    if |b| > 0 {
      if a[|a| - 1] == b[|b| - 1] {
        SubsequenceOfInit(a[..|a| - 1], b);
      } else {
        SubsequenceDropLast(a, b[..|b| - 1]);
        SubsequenceOfInit(a[..|a| - 1], b);
      }
    }
  }

  /** Every sequence is a subsequence of itself. */
  lemma {:induction false} SubsequenceReflexive<T>(a: seq<T>)
    ensures IsSubsequence(a, a)
    decreases |a|
  {
    if |a| > 0 {
      SubsequenceReflexive(a[..|a| - 1]);
    }
  }

  /** No element occurs twice. */
  predicate Distinct<T(==)>(s: seq<T>)
  {
    forall i, j :: 0 <= i < j < |s| ==> s[i] != s[j]
  }
}
