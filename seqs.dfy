/**
 * Sequence operations the source expresses with `Array.prototype.filter`,
 * `Array.prototype.find` and `Array.prototype.includes`, together with the
 * facts about them that the rest of the model relies on.
 */
module Seqs {
  import opened Wrappers

  /** `s.filter(keep)`: the elements of `s` that satisfy `keep`, in order. */
  function Filter<T>(s: seq<T>, keep: T -> bool): (r: seq<T>)
    ensures |r| <= |s|
    ensures forall i :: 0 <= i < |r| ==> r[i] in s && keep(r[i])
    ensures forall i :: 0 <= i < |s| && keep(s[i]) ==> s[i] in r
  {
    if |s| == 0 then []
    else (if keep(s[0]) then [s[0]] else []) + Filter(s[1..], keep)
  }

  /** `s.find(p)`: the first element of `s` that satisfies `p`, if any. */
  function FindFirst<T>(s: seq<T>, p: T -> bool): (r: Option<T>)
    ensures r.None? <==> forall i :: 0 <= i < |s| ==> !p(s[i])
    ensures r.Some? ==> exists i :: 0 <= i < |s| && s[i] == r.value && p(s[i]) &&
                                    forall j :: 0 <= j < i ==> !p(s[j])
  {
    if |s| == 0 then None
    else if p(s[0]) then Some(s[0])
    else
      var r := FindFirst(s[1..], p);
      assert forall i :: 1 <= i < |s| ==> s[i] == s[1..][i - 1];
      r
  }

  /** No element occurs twice. */
  predicate NoDuplicates<T(==)>(s: seq<T>) {
    forall i, j :: 0 <= i < j < |s| ==> s[i] != s[j]
  }

  /** `r` can be obtained from `s` by deleting elements, keeping the order of the rest. */
  predicate IsSubsequence<T(==)>(r: seq<T>, s: seq<T>)
    decreases |s|
  {
    if |r| == 0 then true
    else if |s| == 0 then false
    else if r[0] == s[0] then IsSubsequence(r[1..], s[1..])
    else IsSubsequence(r, s[1..])
  }

  /** How many elements of `s` satisfy `p`. */
  function CountIf<T>(s: seq<T>, p: T -> bool): (n: nat)
    ensures n <= |s|
  {
    if |s| == 0 then 0 else (if p(s[0]) then 1 else 0) + CountIf(s[1..], p)
  }

  lemma {:induction false} FilterConcat<T>(a: seq<T>, b: seq<T>, keep: T -> bool)
    ensures Filter(a + b, keep) == Filter(a, keep) + Filter(b, keep)
  {
    if |a| == 0 {
      assert a + b == b;
    } else {
      assert (a + b)[1..] == a[1..] + b;
      FilterConcat(a[1..], b, keep);
    }
  }

  /** Filtering keeps everything when every element passes. */
  lemma {:induction false} FilterAllKept<T>(s: seq<T>, keep: T -> bool)
    requires forall i :: 0 <= i < |s| ==> keep(s[i])
    ensures Filter(s, keep) == s
  {
    if |s| > 0 {
      FilterAllKept(s[1..], keep);
    }
  }

  /** A filter is an order-preserving selection from its input. */
  lemma {:induction false} FilterIsSubsequence<T>(s: seq<T>, keep: T -> bool)
    ensures IsSubsequence(Filter(s, keep), s)
  {
    if |s| > 0 {
      FilterIsSubsequence(s[1..], keep);
      var rest := Filter(s[1..], keep);
      if keep(s[0]) {
        assert Filter(s, keep) == [s[0]] + rest;
        assert ([s[0]] + rest)[1..] == rest;
      } else {
        assert Filter(s, keep) == rest;
        SkipHead(rest, s);
      }
    }
  }

  /** A subsequence of the tail is a subsequence of the whole. */
  lemma {:induction false} SkipHead<T>(r: seq<T>, s: seq<T>)
    requires |s| > 0 && IsSubsequence(r, s[1..])
    ensures IsSubsequence(r, s)
    decreases |s|, 1
  {
    if |r| > 0 && r[0] == s[0] {
      // IsSubsequence(r, s) unfolds to IsSubsequence(r[1..], s[1..]); obtain it from r's match in s[1..]
      DropHead(r, s[1..]);
    }
  }

  /** Dropping the first element of a subsequence keeps it a subsequence. */
  lemma {:induction false} DropHead<T>(r: seq<T>, s: seq<T>)
    requires |r| > 0 && IsSubsequence(r, s)
    ensures IsSubsequence(r[1..], s)
    decreases |s|, 2
  {
    assert |s| > 0;
    if r[0] == s[0] {
      if |r[1..]| > 0 {
        SkipHead(r[1..], s);
      }
    } else {
      DropHead(r, s[1..]);
      SkipHead(r[1..], s);
    }
  }

  /** Filtering a duplicate-free sequence leaves it duplicate-free. */
  lemma {:induction false} FilterNoDuplicates<T>(s: seq<T>, keep: T -> bool)
    requires NoDuplicates(s)
    ensures NoDuplicates(Filter(s, keep))
  {
    if |s| > 0 {
      assert NoDuplicates(s[1..]) by {
        forall i, j | 0 <= i < j < |s[1..]| ensures s[1..][i] != s[1..][j] {
          assert s[1..][i] == s[i + 1] && s[1..][j] == s[j + 1];
        }
      }
      FilterNoDuplicates(s[1..], keep);
      var rest := Filter(s[1..], keep);
      if keep(s[0]) {
        assert s[0] !in s[1..] by {
          forall k | 0 <= k < |s[1..]| ensures s[1..][k] != s[0] {
            assert s[1..][k] == s[k + 1];
          }
        }
        assert s[0] !in rest;
        var r := [s[0]] + rest;
        forall i, j | 0 <= i < j < |r| ensures r[i] != r[j] {
          if i == 0 {
            assert r[j] == rest[j - 1];
            assert r[j] in rest;
          } else {
            assert r[i] == rest[i - 1] && r[j] == rest[j - 1];
          }
        }
      }
    }
  }

  /** Those kept plus those dropped account for every element. */
  lemma {:induction false} FilterCount<T>(s: seq<T>, keep: T -> bool)
    ensures |Filter(s, keep)| + CountIf(s, x => !keep(x)) == |s|
  {
    if |s| > 0 {
      FilterCount(s[1..], keep);
    }
  }

  /** A filter keeps every copy of a kept value and no copy of a dropped one. */
  lemma {:induction false} FilterMultiset<T>(s: seq<T>, keep: T -> bool, x: T)
    ensures multiset(Filter(s, keep))[x] == if keep(x) then multiset(s)[x] else 0
  {
    if |s| > 0 {
      FilterMultiset(s[1..], keep, x);
      assert s == [s[0]] + s[1..];
    }
  }

  lemma FilterMultisetAll<T>(s: seq<T>, keep: T -> bool)
    ensures forall x :: multiset(Filter(s, keep))[x] == if keep(x) then multiset(s)[x] else 0
  {
    forall x ensures multiset(Filter(s, keep))[x] == if keep(x) then multiset(s)[x] else 0 {
      FilterMultiset(s, keep, x);
    }
  }

  /**
   * The position in `s` of the `k`-th element (counting from 0) that
   * satisfies `p`: exactly `k` such elements come before it. `|s|` when
   * there are not that many.
   */
  function NthIndex<T>(s: seq<T>, p: T -> bool, k: nat): (r: nat)
    ensures r <= |s|
  {
    if |s| == 0 then 0
    else if p(s[0]) && k == 0 then 0
    else 1 + NthIndex(s[1..], p, if p(s[0]) then k - 1 else k)
  }

  /**
   * `NthIndex` finds the `k`-th kept element, with exactly `k` kept ones
   * before it, or runs off the end when fewer than `k + 1` are kept.
   */
  lemma {:induction false} NthIndexSpec<T>(s: seq<T>, p: T -> bool, k: nat)
    ensures var r := NthIndex(s, p, k);
            k < |Filter(s, p)| ==> r < |s| && s[r] == Filter(s, p)[k] && |Filter(s[..r], p)| == k
    ensures k >= |Filter(s, p)| ==> NthIndex(s, p, k) == |s|
  {
    if |s| == 0 {
    } else if p(s[0]) && k == 0 {
      assert s[..0] == [];
    } else {
      var k' := if p(s[0]) then k - 1 else k;
      var rest := s[1..];
      NthIndexSpec(rest, p, k');
      var r' := NthIndex(rest, p, k');
      var head := if p(s[0]) then [s[0]] else [];
      assert Filter(s, p) == head + Filter(rest, p);
      if k < |Filter(s, p)| {
        assert Filter(s, p)[k] == Filter(rest, p)[k'];
        FilterPrefixCons(s, p, r');
      }
    }
  }

  lemma FilterPrefixCons<T>(s: seq<T>, p: T -> bool, n: nat)
    requires n < |s|
    ensures |Filter(s[..1 + n], p)| == (if p(s[0]) then 1 else 0) + |Filter(s[1..][..n], p)|
  {
    assert s[..1 + n][1..] == s[1..][..n];
  }
}
