/** Value types and sequence facts shared by every component of the billing console model. */
module Common {

  /** A value that may be absent: JavaScript's `undefined`/`null` next to a real value. */
  datatype Option<+T> = None | Some(value: T) {
    /** The value, or `default` when absent (JavaScript's `x ?? default` on non-nullish values). */
    function GetOr(default: T): T {
      if Some? then value else default
    }
  }

  /** `sub` is `s` with some elements left out and the others kept in their order. */
  ghost predicate IsSubsequence<T>(sub: seq<T>, s: seq<T>)
    decreases |s|
  {
    sub == [] ||
    (s != [] &&
     ((sub[0] == s[0] && IsSubsequence(sub[1..], s[1..])) || IsSubsequence(sub, s[1..])))
  }

  /** Every sequence is a subsequence of itself. */
  lemma {:induction false} SubsequenceReflexive<T>(s: seq<T>)
    ensures IsSubsequence(s, s)
    decreases |s|
  {
    if s != [] {
      SubsequenceReflexive(s[1..]);
    }
  }

  /**
   * `Array.prototype.filter`: the elements satisfying `p`, in order. The result is characterised
   * exactly: a subsequence of `s`, no element failing `p`, and every element satisfying `p`
   * kept as many times as it occurs.
   */
  function Filter<T(==,!new)>(s: seq<T>, p: T -> bool): (r: seq<T>)
    ensures |r| <= |s|
    ensures IsSubsequence(r, s)
    ensures forall x :: x in r <==> x in s && p(x)
    ensures forall x {:trigger multiset(r)[x]} :: p(x) ==> multiset(r)[x] == multiset(s)[x]
    decreases |s|
  {
    if s == [] then []
    else
      var rest := Filter(s[1..], p);
      assert s == [s[0]] + s[1..];
      if p(s[0]) then [s[0]] + rest else rest
  }

  /** Filtering distributes over concatenation. */
  lemma {:induction false} FilterAppend<T(!new)>(a: seq<T>, b: seq<T>, p: T -> bool)
    ensures Filter(a + b, p) == Filter(a, p) + Filter(b, p)
    decreases |a|
  {
    if a == [] {
      assert a + b == b;
    } else {
      assert (a + b)[0] == a[0];
      assert (a + b)[1..] == a[1..] + b;
      FilterAppend(a[1..], b, p);
    }
  }

  /** A filter that rejects nothing leaves the sequence unchanged. */
  lemma {:induction false} FilterKeepsAll<T(!new)>(s: seq<T>, p: T -> bool)
    requires forall i :: 0 <= i < |s| ==> p(s[i])
    ensures Filter(s, p) == s
    decreases |s|
  {
    if s != [] {
      FilterKeepsAll(s[1..], p);
    }
  }

  /** A filter is idempotent. */
  lemma {:induction false} FilterIdempotent<T(!new)>(s: seq<T>, p: T -> bool)
    ensures Filter(Filter(s, p), p) == Filter(s, p)
  {
    var r := Filter(s, p);
    forall i | 0 <= i < |r|
      ensures p(r[i])
    {
      assert r[i] in r;
    }
    FilterKeepsAll(r, p);
  }

  /** `updated[index] = x` on a JavaScript array: overwrite, or grow by one at the end. */
  function Put<T>(s: seq<T>, index: nat, x: T): (r: seq<T>)
    requires index <= |s|
    ensures |r| == if index < |s| then |s| else |s| + 1
    ensures r[index] == x
    ensures forall k :: 0 <= k < |s| && k != index ==> r[k] == s[k]
  {
    if index < |s| then s[index := x] else s + [x]
  }

  /** `s.filter((_, i) => i !== index)`: the element at `index` removed, when there is one. */
  function RemoveAt<T>(s: seq<T>, index: nat): (r: seq<T>)
    ensures index < |s| ==> |r| == |s| - 1
    ensures index >= |s| ==> r == s
    ensures forall k :: 0 <= k < index && k < |s| ==> r[k] == s[k]
    ensures forall k :: index <= k < |r| ==> r[k] == s[k + 1]
  {
    if index < |s| then s[..index] + s[index + 1..] else s
  }

  /** No two elements of `s` have the same key. */
  ghost predicate DistinctKeys<T, K>(s: seq<T>, key: T -> K) {
    forall i, j :: 0 <= i < j < |s| ==> key(s[i]) != key(s[j])
  }

  /** Every element of a subsequence sits somewhere in the sequence. */
  lemma {:induction false} SubsequenceElements<T>(sub: seq<T>, s: seq<T>)
    requires IsSubsequence(sub, s)
    ensures forall i :: 0 <= i < |sub| ==> exists k :: 0 <= k < |s| && s[k] == sub[i]
    decreases |s|
  {
    if sub != [] {
      if sub[0] == s[0] && IsSubsequence(sub[1..], s[1..]) {
        SubsequenceElements(sub[1..], s[1..]);
        forall i | 1 <= i < |sub|
          ensures exists k :: 0 <= k < |s| && s[k] == sub[i]
        {
          assert sub[i] == sub[1..][i - 1];
          var k :| 0 <= k < |s| - 1 && s[1..][k] == sub[1..][i - 1];
          assert s[k + 1] == sub[i];
        }
        assert s[0] == sub[0];
      } else {
        SubsequenceElements(sub, s[1..]);
        forall i | 0 <= i < |sub|
          ensures exists k :: 0 <= k < |s| && s[k] == sub[i]
        {
          var k :| 0 <= k < |s| - 1 && s[1..][k] == sub[i];
          assert s[k + 1] == sub[i];
        }
      }
    }
  }

  /** Leaving elements out keeps keys distinct. */
  lemma {:induction false} SubsequenceDistinct<T, K>(sub: seq<T>, s: seq<T>, key: T -> K)
    requires IsSubsequence(sub, s) && DistinctKeys(s, key)
    ensures DistinctKeys(sub, key)
    decreases |s|
  {
    if sub != [] {
      assert DistinctKeys(s[1..], key) by {
        forall i, j | 0 <= i < j < |s| - 1
          ensures key(s[1..][i]) != key(s[1..][j])
        {
          assert s[1..][i] == s[i + 1] && s[1..][j] == s[j + 1];
        }
      }
      if sub[0] == s[0] && IsSubsequence(sub[1..], s[1..]) {
        SubsequenceDistinct(sub[1..], s[1..], key);
        SubsequenceElements(sub[1..], s[1..]);
        forall i, j | 0 <= i < j < |sub|
          ensures key(sub[i]) != key(sub[j])
        {
          if i == 0 {
            assert sub[j] == sub[1..][j - 1];
            var k :| 0 <= k < |s| - 1 && s[1..][k] == sub[1..][j - 1];
            assert s[k + 1] == sub[j];
          } else {
            assert sub[i] == sub[1..][i - 1] && sub[j] == sub[1..][j - 1];
          }
        }
      } else {
        SubsequenceDistinct(sub, s[1..], key);
      }
    }
  }
}
