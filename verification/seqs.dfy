/** Generic sequence helpers used by every table operation of the dashboard:
    order-preserving filtering (a boolean row mask), the subsequence relation
    such a mask produces, and counting by key (a group-by size / value count). */
module Seqs {

  /** The elements of `s` that satisfy `p`, in their original order. */
  function Filter<T>(s: seq<T>, p: T -> bool): (r: seq<T>)
    ensures |r| <= |s|
    ensures forall x :: x in r ==> x in s && p(x)
    ensures forall x :: x in s && p(x) ==> x in r
    ensures forall i :: 0 <= i < |r| ==> p(r[i])
  {
    if s == [] then []
    else if p(s[0]) then [s[0]] + Filter(s[1..], p)
    else Filter(s[1..], p)
  }

  /** The conjunction of two row masks. */
  function Both<T>(p: T -> bool, q: T -> bool): T -> bool
  {
    x => p(x) && q(x)
  }

  /** The negation of a row mask. */
  function Not<T>(p: T -> bool): T -> bool
  {
    x => !p(x)
  }

  /** `a` can be obtained from `b` by deleting elements, keeping the order of the rest. */
  predicate IsSubsequence<T(==)>(a: seq<T>, b: seq<T>)
    decreases |b|
  {
    a == [] || (b != [] && ((a[0] == b[0] && IsSubsequence(a[1..], b[1..])) || IsSubsequence(a, b[1..])))
  }

  lemma {:induction false} SubsequenceLength<T>(a: seq<T>, b: seq<T>)
    requires IsSubsequence(a, b)
    ensures |a| <= |b|
    decreases |b|
  {
    if a != [] {
      if a[0] == b[0] && IsSubsequence(a[1..], b[1..]) {
        SubsequenceLength(a[1..], b[1..]);
      } else {
        SubsequenceLength(a, b[1..]);
      }
    }
  }

  lemma {:induction false} SubsequenceMembers<T>(a: seq<T>, b: seq<T>)
    requires IsSubsequence(a, b)
    ensures forall x :: x in a ==> x in b
    decreases |b|
  {
    if a != [] {
      if a[0] == b[0] && IsSubsequence(a[1..], b[1..]) {
        SubsequenceMembers(a[1..], b[1..]);
        assert a == [a[0]] + a[1..];
        assert b == [b[0]] + b[1..];
      } else {
        SubsequenceMembers(a, b[1..]);
        assert b == [b[0]] + b[1..];
      }
    }
  }

  lemma {:induction false} SubsequenceReflexive<T>(a: seq<T>)
    ensures IsSubsequence(a, a)
    decreases |a|
  {
    if a != [] {
      SubsequenceReflexive(a[1..]);
    }
  }

  lemma {:induction false} SubsequenceTransitive<T>(a: seq<T>, b: seq<T>, c: seq<T>)
    requires IsSubsequence(a, b) && IsSubsequence(b, c)
    ensures IsSubsequence(a, c)
    decreases |c|
  {
    if a != [] {
      assert b != [] && c != [];
      if b[0] == c[0] && IsSubsequence(b[1..], c[1..]) {
        if a[0] == b[0] && IsSubsequence(a[1..], b[1..]) {
          SubsequenceTransitive(a[1..], b[1..], c[1..]);
        } else {
          SubsequenceTransitive(a, b[1..], c[1..]);
        }
      } else {
        SubsequenceTransitive(a, b, c[1..]);
      }
    }
  }

  /** A filtered sequence keeps the order of its source. */
  lemma {:induction false} FilterIsSubsequence<T>(s: seq<T>, p: T -> bool)
    ensures IsSubsequence(Filter(s, p), s)
    decreases |s|
  {
    if s != [] {
      FilterIsSubsequence(s[1..], p);
      if p(s[0]) {
        assert ([s[0]] + Filter(s[1..], p))[1..] == Filter(s[1..], p);
      }
    }
  }

  /** A subsequence of `b` whose elements all pass `p` is a subsequence of `b` filtered by `p`. */
  lemma {:induction false} SubsequenceOfMatching<T>(a: seq<T>, b: seq<T>, p: T -> bool)
    requires IsSubsequence(a, b)
    requires forall i :: 0 <= i < |a| ==> p(a[i])
    ensures IsSubsequence(a, Filter(b, p))
    decreases |b|
  {
    if a != [] {
      var fb := Filter(b[1..], p);
      if a[0] == b[0] && IsSubsequence(a[1..], b[1..]) {
        SubsequenceOfMatching(a[1..], b[1..], p);
        assert ([b[0]] + fb)[1..] == fb;
      } else {
        SubsequenceOfMatching(a, b[1..], p);
        if p(b[0]) {
          assert ([b[0]] + fb)[1..] == fb;
        }
      }
    }
  }

  /** Filtering only depends on the values the mask takes. */
  lemma {:induction false} FilterExtensional<T>(s: seq<T>, p: T -> bool, q: T -> bool)
    requires forall x :: x in s ==> p(x) == q(x)
    ensures Filter(s, p) == Filter(s, q)
    decreases |s|
  {
    if s != [] {
      assert s[0] in s;
      assert forall x :: x in s[1..] ==> x in s;
      FilterExtensional(s[1..], p, q);
    }
  }

  /** Applying two masks one after the other is the same as applying their conjunction. */
  lemma {:induction false} FilterFilter<T>(s: seq<T>, p: T -> bool, q: T -> bool)
    ensures Filter(Filter(s, p), q) == Filter(s, Both(p, q))
    decreases |s|
  {
    if s != [] {
      FilterFilter(s[1..], p, q);
      if p(s[0]) {
        assert ([s[0]] + Filter(s[1..], p))[1..] == Filter(s[1..], p);
      }
    }
  }

  /** A weaker mask keeps every element a stronger one keeps, in the same order. */
  lemma {:induction false} FilterMonotone<T>(s: seq<T>, p: T -> bool, q: T -> bool)
    requires forall x :: x in s && p(x) ==> q(x)
    ensures IsSubsequence(Filter(s, p), Filter(s, q))
    decreases |s|
  {
    if s != [] {
      assert s[0] in s;
      assert forall x :: x in s[1..] ==> x in s;
      FilterMonotone(s[1..], p, q);
      var fp, fq := Filter(s[1..], p), Filter(s[1..], q);
      if p(s[0]) {
        assert ([s[0]] + fp)[1..] == fp;
        assert ([s[0]] + fq)[1..] == fq;
      } else if q(s[0]) {
        if fp != [] {
          assert ([s[0]] + fq)[1..] == fq;
        }
      }
    }
  }

  /** A mask every element passes keeps the whole sequence. */
  lemma {:induction false} FilterAll<T>(s: seq<T>, p: T -> bool)
    requires forall x :: x in s ==> p(x)
    ensures Filter(s, p) == s
    decreases |s|
  {
    if s != [] {
      assert s[0] in s;
      assert forall x :: x in s[1..] ==> x in s;
      FilterAll(s[1..], p);
      assert s == [s[0]] + s[1..];
    }
  }

  /** A mask no element passes keeps nothing. */
  lemma {:induction false} FilterNone<T>(s: seq<T>, p: T -> bool)
    requires forall x :: x in s ==> !p(x)
    ensures Filter(s, p) == []
    decreases |s|
  {
    if s != [] {
      assert s[0] in s;
      assert forall x :: x in s[1..] ==> x in s;
      FilterNone(s[1..], p);
    }
  }

  /** A mask and its negation split a sequence into two parts. */
  lemma {:induction false} FilterComplementLength<T>(s: seq<T>, p: T -> bool)
    ensures |Filter(s, p)| + |Filter(s, Not(p))| == |s|
    decreases |s|
  {
    if s != [] {
      FilterComplementLength(s[1..], p);
    }
  }

  /** The number of elements of `s` whose key is `k`. */
  function CountKey<T, K(==)>(s: seq<T>, key: T -> K, k: K): (n: nat)
    ensures n <= |s|
    ensures n > 0 <==> exists i :: 0 <= i < |s| && key(s[i]) == k
  {
    if s == [] then 0
    else
      var rest := CountKey(s[1..], key, k);
      assert forall i :: 0 <= i < |s[1..]| ==> s[1..][i] == s[i + 1];
      assert rest > 0 ==> exists i :: 0 < i < |s| && key(s[i]) == k;
      (if key(s[0]) == k then 1 else 0) + rest
  }

  /** Counting by key is the length of the matching filter. */
  lemma {:induction false} CountKeyIsFilterLength<T, K>(s: seq<T>, key: T -> K, k: K, p: T -> bool)
    requires forall x :: p(x) == (key(x) == k)
    ensures CountKey(s, key, k) == |Filter(s, p)|
    decreases |s|
  {
    if s != [] {
      CountKeyIsFilterLength(s[1..], key, k, p);
    }
  }

  /** The group sizes of `s` by `key`: every key that occurs maps to the number of
      its occurrences, and no other key is present. */
  function Tally<T, K(==)>(s: seq<T>, key: T -> K): (m: map<K, nat>)
    ensures forall k :: k in m ==> CountKey(s, key, k) > 0
    ensures forall i :: 0 <= i < |s| ==> key(s[i]) in m
    ensures forall k :: k in m ==> m[k] == CountKey(s, key, k)
  {
    if s == [] then map[]
    else
      var m := Tally(s[1..], key);
      var k := key(s[0]);
      m[k := (if k in m then m[k] else 0) + 1]
  }

  /** Some key of a non-empty map. */
  ghost function Pick<K>(m: map<K, nat>): (k: K)
    requires |m| > 0
    ensures k in m
  {
    var k :| k in m; k
  }

  /** The sum of the values of a map. */
  ghost function Total<K>(m: map<K, nat>): nat
    decreases |m|
  {
    if |m| == 0 then 0
    else m[Pick(m)] + Total(m - {Pick(m)})
  }

  /** Total does not depend on which key is taken out first. */
  lemma {:induction false} TotalRemove<K>(m: map<K, nat>, k: K)
    requires k in m
    ensures Total(m) == m[k] + Total(m - {k})
    decreases |m|
  {
    var j := Pick(m);
    if j != k {
      var mj, mk := m - {j}, m - {k};
      assert mj.Keys == m.Keys - {j};
      assert mk.Keys == m.Keys - {k};
      TotalRemove(mj, k);
      TotalRemove(mk, j);
      assert mj - {k} == mk - {j};
    }
  }

  /** Adding one occurrence of a key adds one to the total. */
  lemma TotalIncrement<K>(m: map<K, nat>, k: K)
    ensures Total(m[k := (if k in m then m[k] else 0) + 1]) == Total(m) + 1
  {
    var m' := m[k := (if k in m then m[k] else 0) + 1];
    TotalRemove(m', k);
    if k in m {
      TotalRemove(m, k);
      assert m' - {k} == m - {k};
    } else {
      assert m' - {k} == m;
    }
  }

  /** The group sizes of a tally add up to the length of the sequence. */
  lemma {:induction false} TallyTotal<T, K>(s: seq<T>, key: T -> K)
    ensures Total(Tally(s, key)) == |s|
    decreases |s|
  {
    if s != [] {
      TallyTotal(s[1..], key);
      TotalIncrement(Tally(s[1..], key), key(s[0]));
    }
  }
}
