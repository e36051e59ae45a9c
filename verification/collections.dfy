/**
 * The JavaScript array methods the pages use on their lists, as functions on
 * sequences: `findIndex`, `filter`, `filter` by position, and `map`.
 */
module Collections {

  /** `s.findIndex(p)`: the first position whose element satisfies `p`, or -1 when none does. */
  function FindIndex<T>(s: seq<T>, p: T -> bool): (k: int)
    ensures -1 <= k < |s|
    ensures k >= 0 ==> p(s[k]) && forall j :: 0 <= j < k ==> !p(s[j])
    ensures k < 0 ==> forall j :: 0 <= j < |s| ==> !p(s[j])
  {
    if s == [] then -1
    else if p(s[0]) then 0
    else
      var k := FindIndex(s[1..], p);
      if k < 0 then -1 else k + 1
  }

  /** `s.filter(p)`: the elements that satisfy `p`, in their original order. */
  function Filter<T>(s: seq<T>, p: T -> bool): (r: seq<T>)
    ensures |r| <= |s|
    ensures forall i :: 0 <= i < |r| ==> p(r[i]) && r[i] in s
  {
    if s == [] then []
    else Filter(s[..|s| - 1], p) + (if p(s[|s| - 1]) then [s[|s| - 1]] else [])
  }

  /** Filtering a concatenation filters each side: the kept elements stay in order. */
  lemma {:induction false} FilterAppend<T>(a: seq<T>, b: seq<T>, p: T -> bool)
    ensures Filter(a + b, p) == Filter(a, p) + Filter(b, p)
    decreases |b|
  {
    if b == [] {
      assert a + b == a;
    } else {
      assert (a + b)[..|a + b| - 1] == a + b[..|b| - 1];
      FilterAppend(a, b[..|b| - 1], p);
    }
  }

  /** An element is kept exactly when it occurs and satisfies `p`. */
  lemma {:induction false} FilterMembers<T>(s: seq<T>, p: T -> bool, x: T)
    ensures x in Filter(s, p) <==> x in s && p(x)
  {
    if s != [] {
      FilterMembers(s[..|s| - 1], p, x);
      assert x in s <==> x in s[..|s| - 1] || x == s[|s| - 1] by {
        assert s == s[..|s| - 1] + [s[|s| - 1]];
      }
    }
  }

  /** `s.filter((_, i) => i !== w)`: every element except the one at position `w`, in order. */
  function RemoveIndex<T>(s: seq<T>, w: int): (r: seq<T>)
    ensures 0 <= w < |s| ==> r == s[..w] + s[w + 1..]
    ensures !(0 <= w < |s|) ==> r == s
  {
    if s == [] then []
    else (if w == 0 then [] else [s[0]]) + RemoveIndex(s[1..], w - 1)
  }

  /** `s.map(f)`: one result per element, in the same order. */
  function Map<T, U>(s: seq<T>, f: T -> U): (r: seq<U>)
    ensures |r| == |s| && forall i :: 0 <= i < |s| ==> r[i] == f(s[i])
  {
    if s == [] then [] else Map(s[..|s| - 1], f) + [f(s[|s| - 1])]
  }

  /** Appending the next element of `s` to `a` followed by a prefix of `s` lengthens the prefix. */
  lemma PrefixSnoc<T>(a: seq<T>, s: seq<T>, j: nat)
    requires j < |s|
    ensures (a + s[..j]) + [s[j]] == a + s[..j + 1]
  {
    assert s[..j + 1] == s[..j] + [s[j]];
  }
}
