/**
 * The array combinators the dashboard pages are built from (`filter`, `find`,
 * `slice`, the `Array.from(new Set(..))` deduplication and `filter(..).length`
 * counts), with the facts every page relies on: a filter keeps exactly the
 * elements that satisfy its predicate and keeps them in their original order.
 */
module Seqs {
  import opened Wrappers

  /** `a` is obtained from `b` by deleting some elements (order preserved). */
  ghost predicate IsSubsequence<T>(a: seq<T>, b: seq<T>)
    decreases |b|
  {
    if |b| == 0 then |a| == 0
    else (|a| > 0 && a[0] == b[0] && IsSubsequence(a[1..], b[1..])) || IsSubsequence(a, b[1..])
  }

  /** No element occurs twice. */
  ghost predicate NoDuplicates<T>(s: seq<T>)
  {
    forall i, j :: 0 <= i < j < |s| ==> s[i] != s[j]
  }

  /** The elements of `r` appear in `s` in order of first occurrence: each comes before any occurrence of a later one. */
  ghost predicate FirstOccurrenceOrder<T>(r: seq<T>, s: seq<T>)
  {
    forall i, j, k :: 0 <= i < j < |r| && 0 <= k < |s| && s[k] == r[j] ==> r[i] in s[..k]
  }

  /** `Array.prototype.filter`. */
  function Filter<T(!new)>(p: T -> bool, s: seq<T>): (r: seq<T>)
    ensures |r| <= |s|
    ensures forall x {:trigger x in r} :: x in r <==> x in s && p(x)
    ensures IsSubsequence(r, s)
  {
    if |s| == 0 then []
    else if p(s[0]) then [s[0]] + Filter(p, s[1..])
    else Filter(p, s[1..])
  }

  /** `s.filter(p).length`. */
  function Count<T(!new)>(p: T -> bool, s: seq<T>): nat
  {
    |Filter(p, s)|
  }

  /** `Array.prototype.some`. */
  predicate Any<T>(p: T -> bool, s: seq<T>)
  {
    exists i :: 0 <= i < |s| && p(s[i])
  }

  /** `Array.prototype.find`: the first element satisfying `p`, if any. */
  function FindFirst<T(!new)>(p: T -> bool, s: seq<T>): (r: Option<T>)
    ensures r.None? <==> forall x :: x in s ==> !p(x)
    ensures r.Some? ==> r.value in s && p(r.value)
    ensures r.Some? ==> exists i :: 0 <= i < |s| && s[i] == r.value && forall j :: 0 <= j < i ==> !p(s[j])
  {
    if |s| == 0 then None
    else if p(s[0]) then Some(s[0])
    else
      var r := FindFirst(p, s[1..]);
      assert r.Some? ==> exists i :: 0 <= i < |s| && s[i] == r.value && forall j :: 0 <= j < i ==> !p(s[j]) by {
        if r.Some? {
          var i :| 0 <= i < |s[1..]| && s[1..][i] == r.value && forall j :: 0 <= j < i ==> !p(s[1..][j]);
          assert s[i + 1] == r.value;
          assert forall j :: 0 <= j < i + 1 ==> !p(s[j]) by {
            forall j | 0 <= j < i + 1 ensures !p(s[j]) {
              if j > 0 { assert s[j] == s[1..][j - 1]; }
            }
          }
        }
      }
      r
  }

  /** `s.slice(0, n)`. */
  function Take<T>(s: seq<T>, n: nat): (r: seq<T>)
    ensures |r| <= n && |r| <= |s|
    ensures |s| <= n ==> r == s
    ensures n <= |s| ==> |r| == n
    ensures forall i :: 0 <= i < |r| ==> r[i] == s[i]
  {
    if |s| <= n then s else s[..n]
  }

  /** `Array.from(new Set(s))`: the distinct elements in order of first occurrence. */
  function Dedup<T(==,!new)>(s: seq<T>): (r: seq<T>)
    ensures NoDuplicates(r)
    ensures forall x :: x in r <==> x in s
    ensures IsSubsequence(r, s)
  {
    DedupFrom(s, {})
  }

  /** The elements of `s` not in `seen`, first occurrences only, in order. */
  function DedupFrom<T(==,!new)>(s: seq<T>, seen: set<T>): (r: seq<T>)
    ensures NoDuplicates(r)
    ensures forall x :: x in r <==> x in s && x !in seen
    ensures IsSubsequence(r, s)
    decreases |s|
  {
    if |s| == 0 then []
    else if s[0] in seen then DedupFrom(s[1..], seen)
    else
      var rest := DedupFrom(s[1..], seen + {s[0]});
      assert forall i :: 0 <= i < |rest| ==> rest[i] != s[0] by {
        forall i | 0 <= i < |rest| ensures rest[i] != s[0] {
          assert rest[i] in rest;
        }
      }
      assert ([s[0]] + rest)[1..] == rest;
      [s[0]] + rest
  }

  /** `DedupFrom` lists its elements in order of their first occurrence in `s`. */
  lemma {:induction false} DedupFromOrder<T(!new)>(s: seq<T>, seen: set<T>)
    ensures FirstOccurrenceOrder(DedupFrom(s, seen), s)
    decreases |s|
  {
    if |s| > 0 {
      var r := DedupFrom(s, seen);
      if s[0] in seen {
        DedupFromOrder(s[1..], seen);
        forall i, j, k | 0 <= i < j < |r| && 0 <= k < |s| && s[k] == r[j] ensures r[i] in s[..k] {
          assert r[j] in r;
          assert k > 0;
          assert s[1..][k - 1] == r[j];
          var m :| 0 <= m < k - 1 && s[1..][..k - 1][m] == r[i];
          assert s[..k][m + 1] == r[i];
        }
      } else {
        var rest := DedupFrom(s[1..], seen + {s[0]});
        DedupFromOrder(s[1..], seen + {s[0]});
        assert r == [s[0]] + rest;
        forall i, j, k | 0 <= i < j < |r| && 0 <= k < |s| && s[k] == r[j] ensures r[i] in s[..k] {
          assert r[j] == rest[j - 1] && rest[j - 1] in rest;
          assert k > 0;
          if i == 0 {
            assert s[..k][0] == r[i];
          } else {
            assert s[1..][k - 1] == rest[j - 1];
            var m :| 0 <= m < k - 1 && s[1..][..k - 1][m] == rest[i - 1];
            assert s[..k][m + 1] == r[i];
          }
        }
      }
    }
  }

  /** `Array.from(new Set(s))` keeps the order of first occurrence. */
  lemma DedupOrder<T(!new)>(s: seq<T>)
    ensures FirstOccurrenceOrder(Dedup(s), s)
  {
    DedupFromOrder(s, {});
  }

  /**
   * `s.flatMap((x, j) => Array.from({ length: width }, (_, i) => f(j, x, i)))`:
   * a block of `width` generated values per element, blocks in element order.
   */
  function FlatTabulate<A, B>(s: seq<A>, width: nat, f: (nat, A, nat) -> B): (r: seq<B>)
    ensures |r| == width * |s|
    decreases |s|
  {
    if |s| == 0 then []
    else
      var n := |s| - 1;
      FlatTabulate(s[..n], width, f) + seq(width, i requires 0 <= i < width => f(n, s[n], i))
  }

  /** Value `i` of element `j`'s block sits at position `width * j + i`. */
  lemma {:induction false} FlatTabulateAt<A, B>(s: seq<A>, width: nat, f: (nat, A, nat) -> B, j: nat, i: nat)
    requires j < |s| && i < width
    ensures width * j + i < |FlatTabulate(s, width, f)|
    ensures FlatTabulate(s, width, f)[width * j + i] == f(j, s[j], i)
    decreases |s|
  {
    var n := |s| - 1;
    var front := FlatTabulate(s[..n], width, f);
    MulMonotone(width, j + 1, |s|);
    if j < n {
      FlatTabulateAt(s[..n], width, f, j, i);
      assert s[..n][j] == s[j];
      MulMonotone(width, j + 1, n);
    }
  }

  /** Every generated value comes from some element and some block position. */
  lemma {:induction false} FlatTabulateFrom<A, B>(s: seq<A>, width: nat, f: (nat, A, nat) -> B, k: nat)
    requires k < |FlatTabulate(s, width, f)|
    ensures exists j, i :: 0 <= j < |s| && 0 <= i < width && FlatTabulate(s, width, f)[k] == f(j, s[j], i)
    decreases |s|
  {
    var n := |s| - 1;
    var front := FlatTabulate(s[..n], width, f);
    if k < |front| {
      FlatTabulateFrom(s[..n], width, f, k);
      var j, i :| 0 <= j < n && 0 <= i < width && front[k] == f(j, s[..n][j], i);
      assert s[..n][j] == s[j];
    } else {
      assert FlatTabulate(s, width, f)[k] == f(n, s[n], k - |front|);
    }
  }

  lemma MulMonotone(w: nat, a: nat, b: nat)
    requires a <= b
    ensures w * a <= w * b
  {
    assert w * b == w * a + w * (b - a);
  }

  /** One step of `Filter`: the head is kept exactly when it satisfies the predicate. */
  lemma FilterStep<T(!new)>(p: T -> bool, s: seq<T>)
    requires |s| > 0
    ensures Filter(p, s) == (if p(s[0]) then [s[0]] else []) + Filter(p, s[1..])
  {
  }

  lemma FilterKeep<T(!new)>(p: T -> bool, s: seq<T>)
    requires |s| > 0 && p(s[0])
    ensures Filter(p, s) == [s[0]] + Filter(p, s[1..])
  {
  }

  lemma FilterDrop<T(!new)>(p: T -> bool, s: seq<T>)
    requires |s| > 0 && !p(s[0])
    ensures Filter(p, s) == Filter(p, s[1..])
  {
  }

  lemma {:induction false} FilterConcat<T(!new)>(p: T -> bool, a: seq<T>, b: seq<T>)
    ensures Filter(p, a + b) == Filter(p, a) + Filter(p, b)
    decreases |a|
  {
    if |a| == 0 {
      assert a + b == b;
    } else {
      assert (a + b)[0] == a[0];
      assert (a + b)[1..] == a[1..] + b;
      FilterConcat(p, a[1..], b);
    }
  }

  /** A filter whose predicate holds everywhere keeps the whole sequence. */
  lemma {:induction false} FilterAll<T(!new)>(p: T -> bool, s: seq<T>)
    requires forall x :: x in s ==> p(x)
    ensures Filter(p, s) == s
    decreases |s|
  {
    if |s| > 0 {
      assert s[0] in s;
      assert forall x :: x in s[1..] ==> x in s;
      FilterAll(p, s[1..]);
      assert [s[0]] + s[1..] == s;
    }
  }

  /** A filter whose predicate holds nowhere keeps nothing. */
  lemma FilterNone<T(!new)>(p: T -> bool, s: seq<T>)
    requires forall x :: x in s ==> !p(x)
    ensures Filter(p, s) == []
  {
  }

  /** Two predicates that agree on `s` filter it identically. */
  lemma {:induction false} FilterCongruent<T(!new)>(p: T -> bool, q: T -> bool, s: seq<T>)
    requires forall x :: x in s ==> p(x) == q(x)
    ensures Filter(p, s) == Filter(q, s)
    decreases |s|
  {
    if |s| > 0 {
      assert s[0] in s;
      assert forall x :: x in s[1..] ==> x in s;
      FilterCongruent(p, q, s[1..]);
    }
  }

  /** Filtering twice is filtering once by the conjunction. */
  lemma {:induction false} FilterFilter<T(!new)>(p: T -> bool, q: T -> bool, s: seq<T>)
    ensures Filter(q, Filter(p, s)) == Filter(x => p(x) && q(x), s)
    decreases |s|
  {
    if |s| > 0 {
      FilterFilter(p, q, s[1..]);
      if p(s[0]) {
        assert ([s[0]] + Filter(p, s[1..]))[1..] == Filter(p, s[1..]);
      }
    }
  }

  /** A predicate and its complement split a sequence: `above + below == total`. */
  lemma {:induction false} CountComplement<T(!new)>(p: T -> bool, q: T -> bool, s: seq<T>)
    requires forall x :: x in s ==> (q(x) <==> !p(x))
    ensures Count(p, s) + Count(q, s) == |s|
    decreases |s|
  {
    if |s| > 0 {
      assert s[0] in s;
      assert forall x :: x in s[1..] ==> x in s;
      CountComplement(p, q, s[1..]);
    }
  }

  /** Appending one element adds one to a count exactly when it satisfies the predicate. */
  lemma CountSnoc<T(!new)>(p: T -> bool, s: seq<T>, x: T)
    ensures Count(p, s + [x]) == Count(p, s) + (if p(x) then 1 else 0)
  {
    FilterConcat(p, s, [x]);
  }

  /** The positions of `s` whose element satisfies `p`. */
  ghost function Positions<T>(p: T -> bool, s: seq<T>): set<nat>
  {
    set i: nat | i < |s| && p(s[i])
  }

  /** `Count` is the number of positions whose element satisfies the predicate. */
  lemma {:induction false} CountIsPositions<T(!new)>(p: T -> bool, s: seq<T>)
    ensures Count(p, s) == |Positions(p, s)|
    decreases |s|
  {
    if |s| > 0 {
      var n := |s| - 1;
      CountIsPositions(p, s[..n]);
      assert s == s[..n] + [s[n]];
      CountSnoc(p, s[..n], s[n]);
      assert n !in Positions(p, s[..n]);
      assert Positions(p, s) == Positions(p, s[..n]) + (if p(s[n]) then {n} else {});
    }
  }

  /** The positions of `s` whose element has key `k`. */
  ghost function KeyPositions<T>(key: T -> string, k: string, s: seq<T>): set<nat>
  {
    set i: nat | i < |s| && key(s[i]) == k
  }

  /** `s.filter((x) => key(x) === k).length`: the number of positions holding key `k`. */
  lemma WithKeyCountsPositions<T(!new)>(key: T -> string, k: string, s: seq<T>)
    ensures |WithKey(key, k, s)| == |KeyPositions(key, k, s)|
  {
    CountIsPositions(KeyIs(key, k), s);
    assert Positions(KeyIs(key, k), s) == KeyPositions(key, k, s);
  }

  /** Subsequences of subsequences are subsequences. */
  lemma {:induction false} SubsequenceTransitive<T(!new)>(a: seq<T>, b: seq<T>, c: seq<T>)
    requires IsSubsequence(a, b) && IsSubsequence(b, c)
    ensures IsSubsequence(a, c)
    decreases |c|
  {
    if |c| > 0 {
      if |b| > 0 && b[0] == c[0] && IsSubsequence(b[1..], c[1..]) {
        if |a| > 0 && a[0] == b[0] && IsSubsequence(a[1..], b[1..]) {
          SubsequenceTransitive(a[1..], b[1..], c[1..]);
        } else {
          SubsequenceTransitive(a, b[1..], c[1..]);
        }
      } else {
        SubsequenceTransitive(a, b, c[1..]);
      }
    }
  }

  /** Every element of a subsequence is an element of the sequence. */
  lemma {:induction false} SubsequenceMembers<T(!new)>(a: seq<T>, b: seq<T>)
    requires IsSubsequence(a, b)
    ensures forall x :: x in a ==> x in b
    decreases |b|
  {
    if |b| > 0 {
      if |a| > 0 && a[0] == b[0] && IsSubsequence(a[1..], b[1..]) {
        SubsequenceMembers(a[1..], b[1..]);
        assert forall x :: x in a ==> x == a[0] || x in a[1..];
      } else {
        SubsequenceMembers(a, b[1..]);
      }
    }
  }

  /** Deleting elements keeps pairwise distinct keys distinct. */
  lemma {:induction false} SubsequenceKeepsDistinct<T(!new)>(key: T -> string, a: seq<T>, b: seq<T>)
    requires IsSubsequence(a, b)
    requires forall i, j :: 0 <= i < j < |b| ==> key(b[i]) != key(b[j])
    ensures forall i, j :: 0 <= i < j < |a| ==> key(a[i]) != key(a[j])
    decreases |b|
  {
    if |b| > 0 {
      if |a| > 0 && a[0] == b[0] && IsSubsequence(a[1..], b[1..]) {
        SubsequenceKeepsDistinct(key, a[1..], b[1..]);
        SubsequenceMembers(a[1..], b[1..]);
        forall i, j | 0 <= i < j < |a| ensures key(a[i]) != key(a[j]) {
          assert a[j] == a[1..][j - 1];
          if i == 0 {
            assert a[j] in b[1..];
            var m :| 0 <= m < |b[1..]| && b[1..][m] == a[j];
            assert key(b[0]) != key(b[m + 1]);
          } else {
            assert a[i] == a[1..][i - 1];
          }
        }
      } else {
        SubsequenceKeepsDistinct(key, a, b[1..]);
      }
    }
  }

  /** A sequence without members is empty. */
  lemma NoMembersEmpty<T>(s: seq<T>)
    ensures (forall x :: x !in s) ==> s == []
  {
    if |s| > 0 {
      assert s[0] in s;
    }
  }

  /** A prefix is a subsequence. */
  lemma {:induction false} PrefixIsSubsequence<T(!new)>(s: seq<T>, n: nat)
    requires n <= |s|
    ensures IsSubsequence(s[..n], s)
    decreases |s|
  {
    if |s| > 0 {
      if n == 0 {
        PrefixIsSubsequence(s[1..], 0);
      } else {
        assert s[..n][1..] == s[1..][..n - 1];
        PrefixIsSubsequence(s[1..], n - 1);
      }
    }
  }

  /** The predicate `(x) => key(x) === k`. */
  function KeyIs<T>(key: T -> string, k: string): T -> bool
  {
    x => key(x) == k
  }

  /** The predicate `(x) => ids.includes(key(x))`. */
  function KeyAmong<T>(key: T -> string, ids: seq<string>): T -> bool
  {
    x => key(x) in ids
  }

  /** `s.filter((x) => key(x) === k)`: the records whose key is `k`, in order. */
  function WithKey<T(!new)>(key: T -> string, k: string, s: seq<T>): (r: seq<T>)
    ensures |r| <= |s|
    ensures forall x {:trigger x in r} :: x in r <==> x in s && key(x) == k
    ensures IsSubsequence(r, s)
  {
    Filter(KeyIs(key, k), s)
  }

  /** `s.filter((x) => ids.includes(key(x)))`: the records whose key is one of `ids`, in order. */
  function WithKeyAmong<T(!new)>(key: T -> string, ids: seq<string>, s: seq<T>): (r: seq<T>)
    ensures |r| <= |s|
    ensures forall x {:trigger x in r} :: x in r <==> x in s && key(x) in ids
    ensures IsSubsequence(r, s)
  {
    Filter(KeyAmong(key, ids), s)
  }

  /** The sizes of the groups `WithKey(key, ids[i], s)`, added up. */
  function GroupSizesSum<T(!new)>(key: T -> string, ids: seq<string>, s: seq<T>): nat
  {
    if |ids| == 0 then 0
    else GroupSizesSum(key, ids[..|ids| - 1], s) + |WithKey(key, ids[|ids| - 1], s)|
  }

  /** Two predicates that never hold together count their disjunction. */
  lemma {:induction false} CountDisjoint<T(!new)>(p: T -> bool, q: T -> bool, r: T -> bool, s: seq<T>)
    requires forall x :: x in s ==> (r(x) <==> p(x) || q(x)) && !(p(x) && q(x))
    ensures Count(r, s) == Count(p, s) + Count(q, s)
    decreases |s|
  {
    if |s| > 0 {
      assert s[0] in s;
      assert forall x :: x in s[1..] ==> x in s;
      CountDisjoint(p, q, r, s[1..]);
    }
  }

  /**
   * With distinct keys, the groups of the keys in `ids` partition the records
   * whose key is among `ids`: the group sizes add up to their number.
   */
  lemma {:induction false} GroupSizesPartition<T(!new)>(key: T -> string, ids: seq<string>, s: seq<T>)
    requires NoDuplicates(ids)
    ensures GroupSizesSum(key, ids, s) == |WithKeyAmong(key, ids, s)|
    decreases |ids|
  {
    if |ids| == 0 {
      FilterNone(KeyAmong(key, ids), s);
    } else {
      var n := |ids| - 1;
      var front := ids[..n];
      GroupSizesPartition(key, front, s);
      assert ids == front + [ids[n]];
      assert ids[n] !in front;
      CountDisjoint(KeyAmong(key, front), KeyIs(key, ids[n]), KeyAmong(key, ids), s);
    }
  }

  /** When every key is among `ids`, keeping the records with a key among `ids` keeps them all. */
  lemma AllKeysAmong<T(!new)>(key: T -> string, ids: seq<string>, s: seq<T>)
    requires forall x :: x in s ==> key(x) in ids
    ensures WithKeyAmong(key, ids, s) == s
  {
    FilterAll(KeyAmong(key, ids), s);
  }

  /** In a sequence with pairwise distinct keys, at most one element has a given key. */
  lemma {:induction false} DistinctKeysAtMostOne<T(!new)>(key: T -> string, s: seq<T>, k: string)
    requires forall i, j :: 0 <= i < j < |s| ==> key(s[i]) != key(s[j])
    ensures |WithKey(key, k, s)| <= 1
    decreases |s|
  {
    if |s| > 0 {
      DistinctKeysAtMostOne(key, s[1..], k);
      if key(s[0]) == k {
        FilterNone(KeyIs(key, k), s[1..]);
      }
    }
  }
}
