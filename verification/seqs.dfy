/**
 * The array combinators the application is written with:
 * Array.prototype.filter, find and findIndex, over immutable sequences.
 */
module Seqs {
  import opened Wrappers

  /** `s.filter(p)`: the elements satisfying p, in their original order. */
  function Filter<T>(s: seq<T>, p: T -> bool): (r: seq<T>)
    ensures |r| <= |s|
    ensures forall x :: x in r ==> x in s && p(x)
    ensures forall x :: x in s && p(x) ==> x in r
    ensures forall i :: 0 <= i < |r| ==> p(r[i])
    ensures (forall x :: x in s ==> p(x)) ==> r == s
  {
    if s == [] then []
    else
      var rest := Filter(s[1..], p);
      assert s == [s[0]] + s[1..];
      if p(s[0]) then [s[0]] + rest else rest
  }

  /** `s.findIndex(p)`: the first index whose element satisfies p, or -1. */
  function FindIndex<T>(s: seq<T>, p: T -> bool): (k: int)
    ensures -1 <= k < |s|
    ensures 0 <= k ==> p(s[k])
    ensures forall j :: 0 <= j < |s| && (k < 0 || j < k) ==> !p(s[j])
  {
    if s == [] then -1
    else if p(s[0]) then 0
    else
      var k := FindIndex(s[1..], p);
      if k < 0 then -1 else k + 1
  }

  /** `s.find(p)`: the first element satisfying p, or undefined. */
  function Find<T>(s: seq<T>, p: T -> bool): (r: Option<T>)
    ensures r.None? <==> forall x :: x in s ==> !p(x)
    ensures r.Some? ==> exists k :: 0 <= k < |s| && s[k] == r.value && p(s[k]) &&
                                    forall j :: 0 <= j < k ==> !p(s[j])
  {
    var k := FindIndex(s, p);
    if k < 0 then None else Some(s[k])
  }

  /** The last element a filter keeps is the last element of s that passes. */
  lemma FilterLast<T>(s: seq<T>, p: T -> bool)
    requires Filter(s, p) != []
    ensures exists k :: 0 <= k < |s| && s[k] == Filter(s, p)[|Filter(s, p)| - 1] && p(s[k]) &&
                        forall j :: k < j < |s| ==> !p(s[j])
  {
    var k := FilterLastIndex(s, p);
    assert 0 <= k < |s| && s[k] == Filter(s, p)[|Filter(s, p)| - 1] && p(s[k]) &&
           forall j :: k < j < |s| ==> !p(s[j]);
  }

  /** Putting an element in front of a non-empty sequence keeps its last element. */
  lemma LastOfCons<T>(x: T, r: seq<T>)
    requires r != []
    ensures ([x] + r)[|[x] + r| - 1] == r[|r| - 1]
  {
  }

  /** One step of `Filter`: the head, if it passes, in front of the filtered tail. */
  lemma FilterUnfold<T>(s: seq<T>, p: T -> bool)
    requires s != []
    ensures Filter(s, p) == if p(s[0]) then [s[0]] + Filter(s[1..], p) else Filter(s[1..], p)
  {
  }

  /** The position in s of the last element a filter keeps. */
  lemma {:induction false} FilterLastIndex<T>(s: seq<T>, p: T -> bool) returns (k: nat)
    requires Filter(s, p) != []
    ensures k < |s| && s[k] == Filter(s, p)[|Filter(s, p)| - 1] && p(s[k])
    ensures forall j :: k < j < |s| ==> !p(s[j])
  {
    var rest := Filter(s[1..], p);
    if rest != [] {
      var i := FilterLastIndex(s[1..], p);
      k := i + 1;
      FilterUnfold(s, p);
      if p(s[0]) { LastOfCons(s[0], rest); }
      assert s[k] == s[1..][i];
      forall j | k < j < |s| ensures !p(s[j]) {
        assert s[j] == s[1..][j - 1];
      }
    } else {
      k := 0;
      FilterUnfold(s, p);
      assert p(s[0]) && Filter(s, p) == [s[0]];
      forall j | 0 < j < |s| ensures !p(s[j]) {
        assert s[j] in s[1..];
      }
    }
  }

  /** Filtering twice keeps exactly what the stronger test keeps: a filter
      by a stronger condition is a filter (so a subsequence) of one by a weaker. */
  lemma {:induction false} FilterOfFilter<T>(s: seq<T>, p: T -> bool, q: T -> bool)
    requires forall x :: x in s && p(x) ==> q(x)
    ensures Filter(Filter(s, q), p) == Filter(s, p)
  {
    if s != [] {
      FilterOfFilter(s[1..], p, q);
    }
  }

  /** Filtering distributes over concatenation. */
  lemma {:induction false} FilterAppend<T>(a: seq<T>, b: seq<T>, p: T -> bool)
    ensures Filter(a + b, p) == Filter(a, p) + Filter(b, p)
  {
    if a == [] {
      assert a + b == b;
    } else {
      assert (a + b)[1..] == a[1..] + b;
      FilterAppend(a[1..], b, p);
    }
  }

  /** Filtering keeps the relative order of what it keeps. */
  lemma FilterKeepsOrder<T>(s: seq<T>, p: T -> bool, i: nat, j: nat)
    requires i < j < |s| && p(s[i]) && p(s[j])
    ensures exists a, b :: 0 <= a < b < |Filter(s, p)| && Filter(s, p)[a] == s[i] && Filter(s, p)[b] == s[j]
  {
    var before, after := s[..j], s[j..];
    assert s == before + after;
    FilterAppend(before, after, p);
    assert s[i] == before[i];
    var fb := Filter(before, p);
    assert s[i] in fb;
    var a :| 0 <= a < |fb| && fb[a] == s[i];
    assert after == [s[j]] + after[1..];
    assert Filter(after, p)[0] == s[j];
    assert Filter(s, p)[a] == s[i] && Filter(s, p)[|fb|] == s[j];
  }

  /** Filtering a sequence none of whose elements pass gives []. */
  lemma {:induction false} FilterNone<T>(s: seq<T>, p: T -> bool)
    requires forall x :: x in s ==> !p(x)
    ensures Filter(s, p) == []
  {
    if s != [] {
      FilterNone(s[1..], p);
    }
  }

  /** When an element passes only if the one before it passes, the filter
      keeps a prefix, and everything after that prefix fails. */
  lemma {:induction false} FilterPrefix<T>(s: seq<T>, p: T -> bool)
    requires forall i :: 0 < i < |s| && p(s[i]) ==> p(s[i - 1])
    ensures Filter(s, p) == s[..|Filter(s, p)|]
    ensures forall i :: |Filter(s, p)| <= i < |s| ==> !p(s[i])
  {
    if s != [] {
      var rest := s[1..];
      forall i | 0 < i < |rest| && p(rest[i]) ensures p(rest[i - 1]) {
        assert rest[i] == s[i + 1] && rest[i - 1] == s[i];
      }
      FilterPrefix(rest, p);
      if p(s[0]) {
        FilterPrefixPass(s, p);
      } else {
        FilterPrefixFail(s, p);
      }
    }
  }

  /** The inductive step of FilterPrefix when the head passes. */
  lemma FilterPrefixPass<T>(s: seq<T>, p: T -> bool)
    requires s != [] && p(s[0])
    requires Filter(s[1..], p) == s[1..][..|Filter(s[1..], p)|]
    requires forall i :: |Filter(s[1..], p)| <= i < |s| - 1 ==> !p(s[1..][i])
    ensures Filter(s, p) == s[..|Filter(s, p)|]
    ensures forall i :: |Filter(s, p)| <= i < |s| ==> !p(s[i])
  {
    var rest := s[1..];
    var f, fr := Filter(s, p), Filter(rest, p);
    assert f == [s[0]] + fr;
    assert s[..|f|] == [s[0]] + rest[..|fr|];
    forall i | |f| <= i < |s| ensures !p(s[i]) {
      assert s[i] == rest[i - 1];
    }
  }

  /** The inductive step of FilterPrefix when the head fails: nothing passes. */
  lemma FilterPrefixFail<T>(s: seq<T>, p: T -> bool)
    requires s != [] && !p(s[0])
    requires |s| > 1 && p(s[1]) ==> p(s[0])
    requires Filter(s[1..], p) == s[1..][..|Filter(s[1..], p)|]
    requires forall i :: |Filter(s[1..], p)| <= i < |s| - 1 ==> !p(s[1..][i])
    ensures Filter(s, p) == []
    ensures forall i :: 0 <= i < |s| ==> !p(s[i])
  {
    var rest := s[1..];
    var fr := Filter(rest, p);
    assert Filter(s, p) == fr;
    if |rest| > 0 {
      assert rest[0] == s[1];
    }
    assert fr == [];
    forall i | 0 <= i < |s| ensures !p(s[i]) {
      if i > 0 {
        assert s[i] == rest[i - 1];
      }
    }
  }

  /** Filtering two sequences that agree on the test position by position keeps
      the same positions of both, so a relation holding between the two
      sequences position by position holds between the two filters. */
  lemma {:induction false} FilterPointwise<T>(s: seq<T>, t: seq<T>, p: T -> bool, rel: (T, T) -> bool)
    requires |s| == |t|
    requires forall i :: 0 <= i < |s| ==> p(s[i]) == p(t[i]) && rel(s[i], t[i])
    ensures |Filter(s, p)| == |Filter(t, p)|
    ensures forall i :: 0 <= i < |Filter(s, p)| ==> rel(Filter(s, p)[i], Filter(t, p)[i])
  {
    if s != [] {
      forall i | 0 <= i < |s[1..]| ensures p(s[1..][i]) == p(t[1..][i]) && rel(s[1..][i], t[1..][i]) {
        assert s[1..][i] == s[i + 1] && t[1..][i] == t[i + 1];
      }
      FilterPointwise(s[1..], t[1..], p, rel);
      if p(s[0]) {
        FilterPointwisePass(s, t, p, rel);
      }
    }
  }

  /** The inductive step of FilterPointwise when both heads pass. */
  lemma FilterPointwisePass<T>(s: seq<T>, t: seq<T>, p: T -> bool, rel: (T, T) -> bool)
    requires |s| == |t| && s != [] && p(s[0]) && p(t[0]) && rel(s[0], t[0])
    requires |Filter(s[1..], p)| == |Filter(t[1..], p)|
    requires forall i :: 0 <= i < |Filter(s[1..], p)| ==> rel(Filter(s[1..], p)[i], Filter(t[1..], p)[i])
    ensures |Filter(s, p)| == |Filter(t, p)|
    ensures forall i :: 0 <= i < |Filter(s, p)| ==> rel(Filter(s, p)[i], Filter(t, p)[i])
  {
    var fs, ft := Filter(s[1..], p), Filter(t[1..], p);
    assert Filter(s, p) == [s[0]] + fs;
    assert Filter(t, p) == [t[0]] + ft;
    forall i | 0 <= i < |Filter(s, p)| ensures rel(Filter(s, p)[i], Filter(t, p)[i]) {
      if i > 0 {
        assert Filter(s, p)[i] == fs[i - 1] && Filter(t, p)[i] == ft[i - 1];
      }
    }
  }

  /** The element found is the element at the index found. */
  lemma FindAtFindIndex<T>(s: seq<T>, p: T -> bool)
    ensures Find(s, p) == if FindIndex(s, p) < 0 then None else Some(s[FindIndex(s, p)])
  {
  }

  /** No two positions of s carry the same key. */
  ghost predicate DistinctBy<T, K>(s: seq<T>, key: T -> K) {
    forall i, j :: 0 <= i < j < |s| ==> key(s[i]) != key(s[j])
  }

  /** The tail of a key-distinct sequence is key-distinct, and avoids the head's key. */
  lemma TailDistinctBy<T, K>(s: seq<T>, key: T -> K)
    requires s != [] && DistinctBy(s, key)
    ensures DistinctBy(s[1..], key)
    ensures forall y :: y in s[1..] ==> key(y) != key(s[0])
  {
    forall i, j | 0 <= i < j < |s[1..]| ensures key(s[1..][i]) != key(s[1..][j]) {
      assert s[1..][i] == s[i + 1] && s[1..][j] == s[j + 1];
    }
    forall y | y in s[1..] ensures key(y) != key(s[0]) {
      var m :| 0 <= m < |s[1..]| && s[1..][m] == y;
      assert s[m + 1] == y;
    }
  }

  /** An element whose key is new may go in front of a key-distinct sequence. */
  lemma ConsDistinctBy<T, K>(x: T, r: seq<T>, key: T -> K)
    requires DistinctBy(r, key) && forall y :: y in r ==> key(y) != key(x)
    ensures DistinctBy([x] + r, key)
  {
    var c := [x] + r;
    forall i, j | 0 <= i < j < |c| ensures key(c[i]) != key(c[j]) {
      assert c[j] == r[j - 1];
      if i > 0 {
        assert c[i] == r[i - 1];
      }
    }
  }

  /** Filtering keeps distinct keys distinct. */
  lemma {:induction false} FilterDistinctBy<T, K>(s: seq<T>, p: T -> bool, key: T -> K)
    requires DistinctBy(s, key)
    ensures DistinctBy(Filter(s, p), key)
  {
    if s != [] {
      FilterUnfold(s, p);
      TailDistinctBy(s, key);
      FilterDistinctBy(s[1..], p, key);
      if p(s[0]) {
        ConsDistinctBy(s[0], Filter(s[1..], p), key);
      }
    }
  }

  /** The keys of the elements of s. */
  ghost function Keys<T, K>(s: seq<T>, key: T -> K): (ks: set<K>)
    ensures forall x :: x in s ==> key(x) in ks
    ensures forall k :: k in ks ==> exists x :: x in s && key(x) == k
  {
    set x | x in s :: key(x)
  }

  /** With distinct keys there are as many keys as elements. */
  lemma {:induction false} KeySetSize<T, K>(s: seq<T>, key: T -> K)
    requires DistinctBy(s, key)
    ensures |Keys(s, key)| == |s|
  {
    if s != [] {
      var n := |s| - 1;
      var init := s[..n];
      assert DistinctBy(init, key) by {
        forall i, j | 0 <= i < j < |init| ensures key(init[i]) != key(init[j]) {
          assert init[i] == s[i] && init[j] == s[j];
        }
      }
      KeySetSize(init, key);
      var keys := Keys(s, key);
      var initKeys := Keys(init, key);
      forall x | x in init ensures key(x) != key(s[n]) {
        var m :| 0 <= m < |init| && init[m] == x;
        assert s[m] == x;
      }
      assert s == init + [s[n]];
      assert keys == initKeys + {key(s[n])};
    }
  }
}
