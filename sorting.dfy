/**
 * The order Python 2 compares unicode strings by (code point by code point,
 * a proper prefix first) and `sorted` over the keys of a dict.
 */
module Sorting {

  /** `a < b` on Python strings. */
  predicate StrLt(a: string, b: string)
  {
    if a == [] then b != []
    else if b == [] then false
    else if a[0] == b[0] then StrLt(a[1..], b[1..])
    else a[0] < b[0]
  }

  lemma {:induction false} StrLtIrreflexive(a: string)
    ensures !StrLt(a, a)
  {
    if a != [] {
      StrLtIrreflexive(a[1..]);
    }
  }

  lemma {:induction false} StrLtTransitive(a: string, b: string, c: string)
    requires StrLt(a, b) && StrLt(b, c)
    ensures StrLt(a, c)
  {
    if a != [] && b != [] && c != [] && a[0] == b[0] && b[0] == c[0] {
      StrLtTransitive(a[1..], b[1..], c[1..]);
    }
  }

  lemma {:induction false} StrLtTotal(a: string, b: string)
    requires a != b
    ensures StrLt(a, b) || StrLt(b, a)
  {
    if a != [] && b != [] && a[0] == b[0] {
      assert a == [a[0]] + a[1..] && b == [b[0]] + b[1..];
      StrLtTotal(a[1..], b[1..]);
    }
  }

  /** Strictly increasing, hence without duplicates. */
  predicate Increasing(s: seq<string>)
  {
    forall i, j | 0 <= i < j < |s| :: StrLt(s[i], s[j])
  }

  /** `k` is the least element of `s`. */
  predicate IsMinimum(k: string, s: set<string>)
  {
    k in s && forall k' | k' in s :: k == k' || StrLt(k, k')
  }

  /** The least element of a non-empty set of strings. */
  lemma {:induction false} MinimumExists(s: set<string>)
    requires s != {}
    ensures exists k :: IsMinimum(k, s)
    decreases s
  {
    var x :| x in s;
    if s == {x} {
      assert IsMinimum(x, s);
    } else {
      MinimumExists(s - {x});
      var m :| IsMinimum(m, s - {x});
      MinimumStep(s, x, m);
    }
  }

  /** Adding `x` back to a set whose least element is `m`: the least is `x` or still `m`. */
  lemma MinimumStep(s: set<string>, x: string, m: string)
    requires x in s && IsMinimum(m, s - {x})
    ensures IsMinimum(x, s) || IsMinimum(m, s)
  {
    if StrLt(x, m) {
      forall k' | k' in s
        ensures x == k' || StrLt(x, k')
      {
        if k' != x && k' != m {
          StrLtTransitive(x, m, k');
        }
      }
    } else {
      StrLtTotal(x, m);
    }
  }

  ghost function Minimum(s: set<string>): (k: string)
    requires s != {}
    ensures k in s && forall k' | k' in s :: k == k' || StrLt(k, k')
  {
    MinimumExists(s);
    var k :| IsMinimum(k, s);
    k
  }

  /** `sorted(keys)`: the keys in increasing order. */
  ghost function SortedKeys(s: set<string>): (r: seq<string>)
    ensures |r| == |s|
    ensures forall k :: k in r <==> k in s
    decreases s
  {
    if s == {} then []
    else
      var k := Minimum(s);
      [k] + SortedKeys(s - {k})
  }

  /** The keys come out strictly increasing. */
  lemma {:induction false} SortedKeysIncreasing(s: set<string>)
    ensures Increasing(SortedKeys(s))
    decreases s
  {
    if s != {} {
      var k := Minimum(s);
      var rest := SortedKeys(s - {k});
      SortedKeysIncreasing(s - {k});
      assert forall i | 0 <= i < |rest| :: StrLt(k, rest[i]);
    }
  }

  /** The increasing sequence of a set's elements is unique. */
  lemma {:induction false} IncreasingUnique(a: seq<string>, b: seq<string>)
    requires Increasing(a) && Increasing(b)
    requires forall k :: k in a <==> k in b
    ensures a == b
  {
    if a != [] {
      assert a[0] in b;
    }
    if b != [] {
      assert b[0] in a;
    }
    if a != [] && b != [] {
      if a[0] != b[0] {
        assert b[0] in a;
        assert a[0] in b;
        var i :| 0 < i < |a| && a[i] == b[0];
        var j :| 0 < j < |b| && b[j] == a[0];
        StrLtTransitive(a[0], b[0], a[0]);
        StrLtIrreflexive(a[0]);
      }
      forall k
        ensures k in a[1..] <==> k in b[1..]
      {
        if k in a[1..] {
          var i :| 1 <= i < |a| && a[i] == k;
          assert StrLt(a[0], k);
          StrLtIrreflexive(k);
          assert k != b[0] && k in b;
          var j :| 0 <= j < |b| && b[j] == k;
          assert b[1..][j - 1] == k;
        }
        if k in b[1..] {
          var j :| 1 <= j < |b| && b[j] == k;
          assert StrLt(b[0], k);
          StrLtIrreflexive(k);
          assert k != a[0] && k in a;
          var i :| 0 <= i < |a| && a[i] == k;
          assert a[1..][i - 1] == k;
        }
      }
      IncreasingUnique(a[1..], b[1..]);
      assert a == [a[0]] + a[1..] && b == [b[0]] + b[1..];
    }
  }

  /** Python's `sorted` on the keys of a dict, by repeated selection of the least key. */
  method SortKeys(s: set<string>) returns (r: seq<string>)
    ensures r == SortedKeys(s)
  {
    r := [];
    var rest := s;
    while rest != {}
      invariant rest <= s
      invariant forall k :: k in r <==> k in s && k !in rest
      invariant Increasing(r)
      invariant forall i, k | 0 <= i < |r| && k in rest :: StrLt(r[i], k)
      decreases rest
    {
      MinimumExists(rest);
      var k :| k in rest && forall k' | k' in rest :: k == k' || StrLt(k, k');
      r := r + [k];
      rest := rest - {k};
      forall i, k' | 0 <= i < |r| && k' in rest
        ensures StrLt(r[i], k')
      {
        if i == |r| - 1 {
          assert k != k';
        }
      }
    }
    SortedKeysIncreasing(s);
    IncreasingUnique(r, SortedKeys(s));
  }
}
