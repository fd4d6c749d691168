/** Python's ordering of strings (code point by code point, a proper prefix
    first) and `sorted` over a set of distinct names. */
module Order {

  /** `a < b` between Python strings. */
  predicate LexLess(a: string, b: string)
    decreases |a|
  {
    |b| > 0 && (|a| == 0 || a[0] < b[0] || (a[0] == b[0] && LexLess(a[1..], b[1..])))
  }

  /** Two strings that agree before index `k` and differ there compare as
      their characters at `k` do. */
  lemma {:induction false} LexLessAt(a: string, b: string, k: nat)
    requires k < |a| && k < |b| && a[..k] == b[..k] && a[k] < b[k]
    ensures LexLess(a, b)
    decreases k
  {
    if k > 0 {
      assert a[0] == a[..k][0] == b[..k][0] == b[0];
      assert a[1..][..k - 1] == a[1..k] == b[1..k] == b[1..][..k - 1];
      LexLessAt(a[1..], b[1..], k - 1);
    }
  }

  lemma {:induction false} LexIrreflexive(a: string)
    ensures !LexLess(a, a)
    decreases |a|
  {
    if |a| > 0 {
      LexIrreflexive(a[1..]);
    }
  }

  lemma {:induction false} LexAsymmetric(a: string, b: string)
    ensures LexLess(a, b) ==> !LexLess(b, a)
    decreases |a|
  {
    if |a| > 0 && |b| > 0 && a[0] == b[0] {
      LexAsymmetric(a[1..], b[1..]);
    }
  }

  lemma {:induction false} LexTransitive(a: string, b: string, c: string)
    ensures LexLess(a, b) && LexLess(b, c) ==> LexLess(a, c)
    decreases |a|
  {
    if |a| > 0 && |b| > 0 && |c| > 0 && a[0] == b[0] == c[0] {
      LexTransitive(a[1..], b[1..], c[1..]);
    }
  }

  lemma {:induction false} LexTotal(a: string, b: string)
    ensures a == b || LexLess(a, b) || LexLess(b, a)
    decreases |a|
  {
    if |a| > 0 && |b| > 0 && a[0] == b[0] {
      LexTotal(a[1..], b[1..]);
      if a[1..] == b[1..] {
        assert a == [a[0]] + a[1..] && b == [b[0]] + b[1..];
      }
    }
  }

  /** Strictly increasing, hence also free of repeats. */
  predicate StrictlySorted(r: seq<string>) {
    forall i, j :: 0 <= i < j < |r| ==> LexLess(r[i], r[j])
  }

  function Elems(r: seq<string>): set<string> {
    set x | x in r
  }

  /** `m` is the least of `s`. */
  predicate IsLeast(s: set<string>, m: string) {
    m in s && forall y :: y in s && y != m ==> LexLess(m, y)
  }

  /** A non-empty set of strings has a least element. */
  lemma {:induction false} MinExists(s: set<string>)
    requires s != {}
    ensures exists m :: IsLeast(s, m)
    decreases |s|
  {
    var x :| x in s;
    if s != {x} {
      var rest := s - {x};
      MinExists(rest);
      var m :| IsLeast(rest, m);
      LexTotal(x, m);
      if LexLess(x, m) {
        forall y | y in s && y != x ensures LexLess(x, y) {
          LexTransitive(x, m, y);
        }
        assert IsLeast(s, x);
      } else {
        assert IsLeast(s, m);
      }
    } else {
      assert IsLeast(s, x);
    }
  }

  /** A set has one least element at most. */
  lemma LeastUnique(s: set<string>)
    ensures forall m, n :: IsLeast(s, m) && IsLeast(s, n) ==> m == n
  {
    forall m, n | IsLeast(s, m) && IsLeast(s, n) ensures m == n {
      LexAsymmetric(m, n);
    }
  }

  lemma LeastFirst(s: set<string>, m: string, rest: seq<string>)
    requires IsLeast(s, m) && StrictlySorted(rest) && Elems(rest) == s - {m}
    ensures StrictlySorted([m] + rest) && Elems([m] + rest) == s
  {
    var r := [m] + rest;
    forall i, j | 0 <= i < j < |r| ensures LexLess(r[i], r[j]) {
      assert r[j] == rest[j - 1] && rest[j - 1] in Elems(rest);
      if i > 0 {
        assert r[i] == rest[i - 1];
      }
    }
    assert Elems(r) == {m} + Elems(rest);
  }

  /** `sorted(names)` for a set of distinct names: the names in increasing
      order, least first. */
  function SortedList(s: set<string>): (r: seq<string>)
    ensures StrictlySorted(r) && Elems(r) == s
    ensures s != {} ==> IsLeast(s, r[0])
    decreases |s|
  {
    if s == {} then []
    else
      MinExists(s);
      LeastUnique(s);
      var m :| m in s && IsLeast(s, m);
      var rest := SortedList(s - {m});
      LeastFirst(s, m, rest);
      [m] + rest
  }

  lemma NoElems(s: seq<string>)
    ensures Elems(s) == {} ==> s == []
  {
    if s != [] {
      assert s[0] in Elems(s);
    }
  }

  /** A set has one strictly increasing listing only. */
  lemma {:induction false} SortedUnique(a: seq<string>, b: seq<string>)
    requires StrictlySorted(a) && StrictlySorted(b) && Elems(a) == Elems(b)
    ensures a == b
    decreases |a|
  {
    if |a| == 0 {
      NoElems(b);
    } else {
      assert a[0] in Elems(b);
      assert b[0] in Elems(a);
      LexAsymmetric(a[0], b[0]);
      assert a[0] == b[0];
      LexIrreflexive(a[0]);
      assert Elems(a[1..]) == Elems(a) - {a[0]};
      assert Elems(b[1..]) == Elems(b) - {b[0]};
      SortedUnique(a[1..], b[1..]);
      assert a == [a[0]] + a[1..] && b == [b[0]] + b[1..];
    }
  }
}
