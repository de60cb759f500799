/** Python's `list.remove(x)`, which the strategies and the broker both use on symbol lists. */
module PyList {
  import opened Wrappers

  /** The position of the first occurrence of `x` in `s`. */
  function IndexOf<T(==)>(s: seq<T>, x: T): (i: nat)
    requires x in s
    ensures i < |s| && s[i] == x
    ensures x !in s[..i]
  {
    if s[0] == x then 0 else IndexOf(s[1..], x) + 1
  }

  /**
   * `s.remove(x)`: deletes the first occurrence of `x`; raises `ValueError`
   * (here `None`) when `x` does not occur.
   */
  function Remove<T(==)>(s: seq<T>, x: T): (r: Option<seq<T>>)
    ensures r.None? <==> x !in s
    ensures r.Some? ==> |r.value| == |s| - 1
  {
    if x in s then
      var i := IndexOf(s, x);
      assert s == s[..i] + [x] + s[i + 1..];
      Some(s[..i] + s[i + 1..])
    else None
  }

  /** What `remove` deletes is the first occurrence of `x`; all else stays, in order. */
  lemma RemoveDeletesFirstOccurrence<T>(s: seq<T>, x: T)
    requires x in s
    ensures exists i :: 0 <= i < |s| && s[i] == x && x !in s[..i] && Remove(s, x).value == s[..i] + s[i + 1..]
  {
    var i := IndexOf(s, x);
    assert Remove(s, x).value == s[..i] + s[i + 1..];
  }

  /** `remove` takes exactly one copy of `x` out of the list's multiset of elements. */
  lemma RemoveMultiset<T>(s: seq<T>, x: T)
    requires x in s
    ensures multiset(Remove(s, x).value) == multiset(s) - multiset{x}
  {
    var i := IndexOf(s, x);
    assert s == s[..i] + [x] + s[i + 1..];
  }

  /** Removing keeps nothing that was not there before. */
  lemma RemoveKeepsMembersOnly<T>(s: seq<T>, x: T, e: T)
    requires x in s && e in Remove(s, x).value
    ensures e in s
  {
    var i := IndexOf(s, x);
    assert Remove(s, x).value == s[..i] + s[i + 1..];
    assert e in s[..i] || e in s[i + 1..];
  }

  /** `sub` is `s` with some elements dropped and the rest kept in order. */
  ghost predicate IsSubsequence<T>(sub: seq<T>, s: seq<T>)
    decreases |s|
  {
    sub == [] ||
    (s != [] &&
     ((sub[0] == s[0] && IsSubsequence(sub[1..], s[1..])) || IsSubsequence(sub, s[1..])))
  }

  lemma {:induction false} SubsequenceReflexive<T>(s: seq<T>)
    ensures IsSubsequence(s, s)
    decreases |s|
  {
    if s != [] {
      SubsequenceReflexive(s[1..]);
    }
  }

  lemma {:induction false} SubsequenceTransitive<T>(a: seq<T>, b: seq<T>, c: seq<T>)
    requires IsSubsequence(a, b) && IsSubsequence(b, c)
    ensures IsSubsequence(a, c)
    decreases |c|
  {
    if a != [] {
      if b[0] == c[0] && IsSubsequence(b[1..], c[1..]) {
        if a[0] == b[0] && IsSubsequence(a[1..], b[1..]) {
          SubsequenceTransitive(a[1..], b[1..], c[1..]);
        } else {
          SubsequenceTransitive(a, b[1..], c[1..]);
        }
      } else {
        SubsequenceTransitive(a, b, c[1..]);
      }
    }
  }

  /** Dropping the element at position `i` leaves a subsequence. */
  lemma {:induction false} DeleteIsSubsequence<T>(s: seq<T>, i: nat)
    requires i < |s|
    ensures IsSubsequence(s[..i] + s[i + 1..], s)
    decreases |s|
  {
    var r := s[..i] + s[i + 1..];
    if i == 0 {
      assert r == s[1..];
      SubsequenceReflexive(s[1..]);
    } else {
      assert r[0] == s[0];
      assert r[1..] == s[1..][..i - 1] + s[1..][i..];
      DeleteIsSubsequence(s[1..], i - 1);
    }
  }
}
