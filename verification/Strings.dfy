/** Splitting and stripping, as Python's `str` does. */
module Strings {
  function Split(s: string, sep: char): (parts: seq<string>)
    ensures |parts| >= 1
  {
    if s == "" then [""]
    else if s[0] == sep then [""] + Split(s[1..], sep)
    else
      var rest := Split(s[1..], sep);
      [[s[0]] + rest[0]] + rest[1..]
  }

  lemma {:induction false} PartsHoldNothingElse(s: string, sep: char, c: char)
    requires c !in s
    ensures NoneHolds(Split(s, sep), c)
  {
    if s != "" {
      PartsHoldNothingElse(s[1..], sep, c);
    }
  }

  predicate IsSpace(c: char)
  {
    var n := c as int;
    || 9 <= n <= 13 || 28 <= n <= 32 || n == 0x85 || n == 0xA0 || n == 0x1680
    || 0x2000 <= n <= 0x200A || n == 0x2028 || n == 0x2029 || n == 0x202F || n == 0x205F || n == 0x3000
  }

  function Strip(s: string): (t: string)
    ensures |t| <= |s|
  {
    if s == "" then ""
    else if IsSpace(s[0]) then Strip(s[1..])
    else if IsSpace(s[|s| - 1]) then Strip(s[..|s| - 1])
    else s
  }

  // ----- what they return -----

  function JoinWith(parts: seq<string>, sep: char): (s: string)
  {
    if parts == [] then "" else if |parts| == 1 then parts[0] else parts[0] + [sep] + JoinWith(parts[1..], sep)
  }

  predicate NoneHolds(parts: seq<string>, sep: char) { forall i | 0 <= i < |parts| :: sep !in parts[i] }

  /** The parts hold no separator, and joined by it they are the text again. */
  lemma {:induction false} SplitMeans(s: string, sep: char)
    ensures NoneHolds(Split(s, sep), sep) && JoinWith(Split(s, sep), sep) == s
  {
    if s != "" {
      SplitMeans(s[1..], sep);
      var rest := Split(s[1..], sep);
      if s[0] == sep {
        assert ([""] + rest)[1..] == rest;
        assert s == "" + [sep] + s[1..];
      } else {
        assert ([[s[0]] + rest[0]] + rest[1..])[1..] == rest[1..];
        assert s == [s[0]] + s[1..];
        if |rest| > 1 {
          var tail := JoinWith(rest[1..], sep);
          assert [s[0]] + (rest[0] + [sep] + tail) == [s[0]] + rest[0] + [sep] + tail;
        }
      }
    }
  }

  /** And no other list of parts does that. */
  lemma {:induction false} OnlySplit(parts: seq<string>, sep: char)
    requires parts != [] && NoneHolds(parts, sep)
    ensures Split(JoinWith(parts, sep), sep) == parts
  {
    if |parts| == 1 {
      SplitWhole(parts[0], sep);
    } else {
      var rest := parts[1..];
      assert forall i | 0 <= i < |rest| :: rest[i] == parts[i + 1];
      OnlySplit(rest, sep);
      SplitFirst(parts[0], JoinWith(rest, sep), sep);
      assert parts == [parts[0]] + rest;
    }
  }

  lemma {:induction false} SplitWhole(x: string, sep: char)
    requires sep !in x
    ensures Split(x, sep) == [x]
  {
    if x != "" {
      SplitWhole(x[1..], sep);
      assert [x[0]] + x[1..] == x;
    }
  }

  lemma {:induction false} SplitFirst(x: string, rest: string, sep: char)
    requires sep !in x
    ensures Split(x + [sep] + rest, sep) == [x] + Split(rest, sep)
  {
    var s := x + [sep] + rest;
    if x == "" {
      assert s[1..] == rest;
    } else {
      SplitFirst(x[1..], rest, sep);
      assert s[1..] == x[1..] + [sep] + rest;
      assert ([x[1..]] + Split(rest, sep))[1..] == Split(rest, sep);
      assert [x[0]] + x[1..] == x;
    }
  }

  /** `x` stands at `i`, between separators or the ends of the text. */
  predicate PartAt(s: string, sep: char, x: string, i: nat)
  {
    && i + |x| <= |s| && s[i..i + |x|] == x
    && (i == 0 || s[i - 1] == sep) && (i + |x| == |s| || s[i + |x|] == sep)
  }

  lemma {:induction false} CutAtFirst(s: string, sep: char) returns (n: nat)
    ensures n <= |s| && sep !in s[..n] && (n < |s| ==> s[n] == sep)
  {
    n := 0;
    if s != "" && s[0] != sep {
      var m := CutAtFirst(s[1..], sep);
      n := m + 1;
      assert s[..n] == [s[0]] + s[1..][..m];
    }
  }

  /** A text without separators is a part exactly where it stands between separators. */
  lemma {:induction false} PartIn(s: string, sep: char, x: string)
    requires sep !in x
    ensures x in Split(s, sep) <==> exists i :: PartAt(s, sep, x, i)
    decreases |s|
  {
    var n := CutAtFirst(s, sep);
    var a := s[..n];
    if n == |s| {
      SplitWhole(s, sep);
      assert a == s;
      assert forall i: nat | PartAt(s, sep, x, i) :: i == 0 && x == s;
      assert x == s ==> PartAt(s, sep, x, 0);
    } else {
      var rest := s[n + 1..];
      SplitFirst(a, rest, sep);
      assert s == a + [sep] + rest;
      PartIn(rest, sep, x);
      if i :| PartAt(rest, sep, x, i) {
        PartLater(s, sep, x, n + 1, i);
      }
      if i :| PartAt(s, sep, x, i) {
        if i <= n {
          FirstPart(s, sep, x, n, i);
        } else {
          PartLater(s, sep, x, n + 1, i - n - 1);
        }
      }
      assert x == a ==> PartAt(s, sep, x, 0);
    }
  }

  lemma PartLater(s: string, sep: char, x: string, from: nat, i: nat)
    requires 0 < from <= |s| && s[from - 1] == sep
    ensures PartAt(s[from..], sep, x, i) <==> PartAt(s, sep, x, from + i)
  {
    if from + i + |x| <= |s| {
      assert s[from..][i..i + |x|] == s[from + i..from + i + |x|];
    }
  }

  lemma FirstPart(s: string, sep: char, x: string, n: nat, i: nat)
    requires n < |s| && s[n] == sep && sep !in s[..n] && sep !in x && i <= n && PartAt(s, sep, x, i)
    ensures i == 0 && x == s[..n]
  {
    assert forall k | 0 <= k < n :: s[k] == s[..n][k];
    assert forall k | 0 <= k < |x| :: x[k] == s[i + k];
    assert i == 0;
    assert |x| == n;
  }

  /** What is left has no outer white space, and only white space is gone. */
  lemma {:induction false} StripMeans(s: string) returns (i: nat, j: nat)
    ensures i <= j <= |s| && Strip(s) == s[i..j]
    ensures forall k | 0 <= k < |s| :: k < i || j <= k ==> IsSpace(s[k])
    ensures i < j ==> !IsSpace(s[i]) && !IsSpace(s[j - 1])
  {
    if s == "" {
      i, j := 0, 0;
    } else if IsSpace(s[0]) {
      var i', j' := StripMeans(s[1..]);
      i, j := i' + 1, j' + 1;
      assert forall k | 0 < k < |s| :: s[k] == s[1..][k - 1];
    } else if IsSpace(s[|s| - 1]) {
      i, j := StripMeans(s[..|s| - 1]);
    } else {
      i, j := 0, |s|;
    }
  }
}
