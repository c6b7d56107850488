/** Lexicographic order on integer sequences, and sorting a finite set by an
    injective sequence-valued key.  Both the codec (map keys by their encoded
    bytes) and the artifact store (directory entries by name) sort this way. */
module Ordering {

  predicate LexLess(a: seq<int>, b: seq<int>)
  {
    b != [] && (a == [] || a[0] < b[0] || (a[0] == b[0] && LexLess(a[1..], b[1..])))
  }

  lemma {:induction false} LexTransitive(a: seq<int>, b: seq<int>, c: seq<int>)
    requires LexLess(a, b) && LexLess(b, c)
    ensures LexLess(a, c)
  {
    if a != [] && a[0] == b[0] == c[0] {
      LexTransitive(a[1..], b[1..], c[1..]);
    }
  }

  lemma {:induction false} LexTrichotomy(a: seq<int>, b: seq<int>)
    ensures LexLess(a, b) || a == b || LexLess(b, a)
    ensures !(LexLess(a, b) && LexLess(b, a))
    ensures !LexLess(a, a)
  {
    if a != [] {
      LexTrichotomy(a[1..], a[1..]);
      if b != [] && a[0] == b[0] {
        LexTrichotomy(a[1..], b[1..]);
        assert a == [a[0]] + a[1..] && b == [b[0]] + b[1..];
      }
    }
  }

  /** A common prefix does not affect the comparison. */
  lemma {:induction false} LexCommonPrefix(p: seq<int>, a: seq<int>, b: seq<int>)
    ensures LexLess(p + a, p + b) <==> LexLess(a, b)
  {
    if p == [] {
      assert p + a == a && p + b == b;
    } else {
      assert (p + a)[1..] == p[1..] + a && (p + b)[1..] == p[1..] + b;
      LexCommonPrefix(p[1..], a, b);
    }
  }

  /** Sequences of equal length that differ decide the comparison for every tail. */
  lemma {:induction false} LexEqualLengthHeads(p: seq<int>, q: seq<int>, a: seq<int>, b: seq<int>)
    requires |p| == |q| && LexLess(p, q)
    ensures LexLess(p + a, q + b)
  {
    assert (p + a)[0] == p[0] && (q + b)[0] == q[0];
    if p[0] == q[0] {
      assert (p + a)[1..] == p[1..] + a && (q + b)[1..] == q[1..] + b;
      LexEqualLengthHeads(p[1..], q[1..], a, b);
    }
  }

  /** A strict prefix precedes each of its extensions. */
  lemma {:induction false} LexPrefix(a: seq<int>, b: seq<int>)
    requires a < b
    ensures LexLess(a, b)
  {
    if a != [] {
      LexPrefix(a[1..], b[1..]);
    }
  }

  ghost predicate InjectiveOn<T(!new)>(s: set<T>, key: T -> seq<int>)
  {
    forall x, y :: x in s && y in s && key(x) == key(y) ==> x == y
  }

  predicate IsLeast<T(!new, ==)>(s: set<T>, key: T -> seq<int>, x: T)
  {
    x in s && forall y | y in s :: y == x || LexLess(key(x), key(y))
  }

  lemma LeastUnique<T(!new)>(s: set<T>, key: T -> seq<int>)
    ensures forall x, y :: IsLeast(s, key, x) && IsLeast(s, key, y) ==> x == y
  {
    forall x, y | IsLeast(s, key, x) && IsLeast(s, key, y) ensures x == y {
      LexTrichotomy(key(x), key(y));
    }
  }

  lemma {:induction false} LeastExists<T(!new)>(s: set<T>, key: T -> seq<int>)
    requires s != {} && InjectiveOn(s, key)
    ensures exists x :: IsLeast(s, key, x)
  {
    var x :| x in s;
    var rest := s - {x};
    if rest == {} {
      assert s == {x};
      assert IsLeast(s, key, x);
    } else {
      LeastExists(rest, key);
      var m :| IsLeast(rest, key, m);
      LexTrichotomy(key(x), key(m));
      if LexLess(key(x), key(m)) {
        forall y | y in s && y != x && y != m ensures LexLess(key(x), key(y)) {
          LexTransitive(key(x), key(m), key(y));
        }
        assert IsLeast(s, key, x);
      } else {
        assert IsLeast(s, key, m);
      }
    }
  }

  function Least<T(!new, ==)>(s: set<T>, key: T -> seq<int>): (x: T)
    requires s != {} && InjectiveOn(s, key)
    ensures IsLeast(s, key, x)
  {
    LeastExists(s, key);
    LeastUnique(s, key);
    var x :| x in s && IsLeast(s, key, x);
    x
  }

  ghost predicate Ascending<T>(xs: seq<T>, key: T -> seq<int>)
  {
    forall i, j :: 0 <= i < j < |xs| ==> LexLess(key(xs[i]), key(xs[j]))
  }

  /** The elements of `s`, each once, in ascending key order. */
  function SortBy<T(!new, ==)>(s: set<T>, key: T -> seq<int>): (xs: seq<T>)
    requires InjectiveOn(s, key)
    ensures |xs| == |s|
    ensures forall x :: x in xs <==> x in s
    ensures Ascending(xs, key)
    ensures forall i, j :: 0 <= i < j < |xs| ==> xs[i] != xs[j]
    decreases s
  {
    if s == {} then []
    else
      var x := Least(s, key);
      var rest := SortBy(s - {x}, key);
      assert forall i :: 0 <= i < |rest| ==> rest[i] in rest;
      [x] + rest
  }
}
