/** Small shared vocabulary: an optional value, and the order-keeping filter
    that JavaScript's `Array.prototype.filter` performs. */
module Util {

  /** A value that may be absent (`undefined` / `null` in the source). */
  datatype Option<+T> = None | Some(value: T)

  /** JavaScript truthiness of an optional string: present and non-empty. */
  predicate Truthy(s: Option<string>)
  {
    s.Some? && s.value != ""
  }

  /** `s` is obtained from `t` by deleting elements: the order of what is kept is
      the order in `t`. Greedy matching decides it. */
  predicate IsSubsequence<T(==)>(s: seq<T>, t: seq<T>)
    decreases |t|
  {
    if s == [] then true
    else if t == [] then false
    else if s[0] == t[0] then IsSubsequence(s[1..], t[1..])
    else IsSubsequence(s, t[1..])
  }

  /** Every element of a subsequence occurs in the sequence it was taken from. */
  lemma {:induction false} SubsequenceMember<T>(s: seq<T>, t: seq<T>, i: nat)
    requires IsSubsequence(s, t) && i < |s|
    ensures s[i] in t
    decreases |t|
  {
    if s[0] == t[0] {
      if i > 0 {
        SubsequenceMember(s[1..], t[1..], i - 1);
      }
    } else {
      SubsequenceMember(s, t[1..], i);
    }
  }

  /** `s.filter(keep)`: the elements of `s` that `keep` accepts, in the order of `s`. */
  function Filter<T(==)>(s: seq<T>, keep: T -> bool): (r: seq<T>)
    ensures |r| <= |s|
    ensures forall i :: 0 <= i < |r| ==> keep(r[i]) && r[i] in s
    ensures forall i :: 0 <= i < |s| && keep(s[i]) ==> s[i] in r
    ensures IsSubsequence(r, s)
  {
    if s == [] then []
    else if keep(s[0]) then [s[0]] + Filter(s[1..], keep)
    else Filter(s[1..], keep)
  }

  /** Every kept element survives the filter as many times as it occurs in `s`. */
  lemma {:induction false} FilterCount<T>(s: seq<T>, keep: T -> bool, x: T)
    requires keep(x)
    ensures multiset(Filter(s, keep))[x] == multiset(s)[x]
  {
    if s != [] {
      assert s == [s[0]] + s[1..];
      FilterCount(s[1..], keep, x);
    }
  }

  /** Filtering with two tests that agree on every element of `s` gives the same sequence. */
  lemma {:induction false} FilterAgrees<T>(s: seq<T>, keep1: T -> bool, keep2: T -> bool)
    requires forall i :: 0 <= i < |s| ==> keep1(s[i]) == keep2(s[i])
    ensures Filter(s, keep1) == Filter(s, keep2)
  {
    if s != [] {
      FilterAgrees(s[1..], keep1, keep2);
    }
  }

  /** A filter that accepts every element gives back the sequence itself. */
  lemma {:induction false} FilterKeepsAll<T>(s: seq<T>, keep: T -> bool)
    requires forall i :: 0 <= i < |s| ==> keep(s[i])
    ensures Filter(s, keep) == s
  {
    if s != [] {
      FilterKeepsAll(s[1..], keep);
    }
  }

  /** Filtering distributes over concatenation. */
  lemma {:induction false} FilterAppend<T>(s: seq<T>, t: seq<T>, keep: T -> bool)
    ensures Filter(s + t, keep) == Filter(s, keep) + Filter(t, keep)
  {
    if s == [] {
      assert s + t == t;
    } else {
      assert (s + t)[0] == s[0];
      assert (s + t)[1..] == s[1..] + t;
      FilterAppend(s[1..], t, keep);
      if keep(s[0]) {
        assert [s[0]] + (Filter(s[1..], keep) + Filter(t, keep))
            == ([s[0]] + Filter(s[1..], keep)) + Filter(t, keep);
      }
    }
  }

  /** No element occurs twice. */
  predicate Distinct<T(==)>(s: seq<T>)
  {
    forall i, j :: 0 <= i < j < |s| ==> s[i] != s[j]
  }

  /** Deleting elements from a sequence without repetitions leaves none. */
  lemma {:induction false} SubsequenceDistinct<T>(s: seq<T>, t: seq<T>)
    requires IsSubsequence(s, t) && Distinct(t)
    ensures Distinct(s)
    decreases |t|
  {
    if s != [] {
      assert Distinct(t[1..]) by {
        forall i, j | 0 <= i < j < |t| - 1 ensures t[1..][i] != t[1..][j] {
          assert t[i + 1] != t[j + 1];
        }
      }
      if s[0] == t[0] {
        SubsequenceDistinct(s[1..], t[1..]);
        forall j | 0 < j < |s| ensures s[0] != s[j] {
          SubsequenceMember(s[1..], t[1..], j - 1);
          var k :| 0 <= k < |t| - 1 && t[1..][k] == s[j];
          assert t[0] != t[k + 1];
        }
        forall i, j | 0 <= i < j < |s| ensures s[i] != s[j] {
          if i > 0 {
            assert s[1..][i - 1] != s[1..][j - 1];
          }
        }
      } else {
        SubsequenceDistinct(s, t[1..]);
      }
    }
  }
}
