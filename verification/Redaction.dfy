/** Redaction of matched spans: collect, sort, select greedily, splice. */
module Redaction {
  datatype Span = Span(start: nat, end: nat, kind: string)

  /** A pattern's label and its matches in a text, which lie inside it. */
  datatype Pattern = Pattern(kind: string, find: string -> seq<(nat, nat)>)

  predicate Inside(m: Span, n: nat) { m.start <= m.end <= n }

  predicate AllInside(ms: seq<Span>, n: nat) { forall i | 0 <= i < |ms| :: Inside(ms[i], n) }

  // ----- matches -----

  function Label(found: seq<(nat, nat)>, kind: string): (ms: seq<Span>)
    ensures |ms| == |found| && forall i | 0 <= i < |ms| :: ms[i] == Span(found[i].0, found[i].1, kind)
  {
    seq(|found|, i requires 0 <= i < |found| => Span(found[i].0, found[i].1, kind))
  }

  function Matches(content: string, patterns: seq<Pattern>): (ms: seq<Span>)
  {
    if patterns == [] then []
    else
      var last := patterns[|patterns| - 1];
      Matches(content, patterns[..|patterns| - 1]) + Label(last.find(content), last.kind)
  }

  // ----- sorting -----

  /** `a` sorts strictly before `b`: earlier, or longer from the same start. */
  predicate Precedes(a: Span, b: Span)
  {
    a.start < b.start || (a.start == b.start && a.end - a.start > b.end - b.start)
  }

  ghost predicate Sorted(ms: seq<Span>) { forall i, j | 0 <= i < j < |ms| :: !Precedes(ms[j], ms[i]) }

  function Insert(m: Span, ms: seq<Span>): (r: seq<Span>)
  {
    if ms == [] || !Precedes(ms[0], m) then [m] + ms else [ms[0]] + Insert(m, ms[1..])
  }

  function Sort(ms: seq<Span>): (r: seq<Span>)
  {
    if ms == [] then [] else Insert(ms[0], Sort(ms[1..]))
  }

  lemma {:induction false} InsertIsSorted(m: Span, ms: seq<Span>)
    requires Sorted(ms)
    ensures Sorted(Insert(m, ms)) && multiset(Insert(m, ms)) == multiset(ms) + multiset{m}
  {
    if ms != [] && Precedes(ms[0], m) {
      InsertIsSorted(m, ms[1..]);
      var rest := Insert(m, ms[1..]);
      assert ms == [ms[0]] + ms[1..];
      forall j | 0 <= j < |rest| ensures !Precedes(rest[j], ms[0]) {
        assert rest[j] in multiset(rest);
        assert rest[j] == m || rest[j] in ms[1..];
      }
    }
  }

  lemma {:induction false} SortIsSorted(ms: seq<Span>)
    ensures Sorted(Sort(ms)) && multiset(Sort(ms)) == multiset(ms)
  {
    if ms != [] {
      SortIsSorted(ms[1..]);
      InsertIsSorted(ms[0], Sort(ms[1..]));
      assert ms == [ms[0]] + ms[1..];
    }
  }

  /** Those covering exactly one stretch of text, in list order. */
  function At(ms: seq<Span>, start: nat, end: nat): (r: seq<Span>)
  {
    if ms == [] then []
    else (if ms[0].start == start && ms[0].end == end then [ms[0]] else []) + At(ms[1..], start, end)
  }

  lemma {:induction false} InsertIsStable(m: Span, ms: seq<Span>, start: nat, end: nat)
    ensures At(Insert(m, ms), start, end) == (if m.start == start && m.end == end then [m] else []) + At(ms, start, end)
  {
    if ms != [] && Precedes(ms[0], m) {
      InsertIsStable(m, ms[1..], start, end);
      AtFirst(ms[0], Insert(m, ms[1..]), start, end);
    } else {
      AtFirst(m, ms, start, end);
    }
  }

  lemma {:induction false} AtFirst(m: Span, ms: seq<Span>, start: nat, end: nat)
    ensures At([m] + ms, start, end) == (if m.start == start && m.end == end then [m] else []) + At(ms, start, end)
  {
    assert ([m] + ms)[1..] == ms;
  }

  /** Matches of the same stretch of text keep the order of their patterns. */
  lemma {:induction false} SortIsStable(ms: seq<Span>, start: nat, end: nat)
    ensures At(Sort(ms), start, end) == At(ms, start, end)
  {
    if ms != [] {
      SortIsStable(ms[1..], start, end);
      InsertIsStable(ms[0], Sort(ms[1..]), start, end);
    }
  }

  // ----- selection -----

  function Select(ms: seq<Span>, lastEnd: int): (r: seq<Span>)
  {
    if ms == [] then []
    else if ms[0].start >= lastEnd then [ms[0]] + Select(ms[1..], ms[0].end)
    else Select(ms[1..], lastEnd)
  }

  /** In text order, no two overlapping. */
  ghost predicate Disjoint(ms: seq<Span>, lastEnd: int)
  {
    && (forall i | 0 <= i < |ms| :: lastEnd <= ms[i].start)
    && (forall i, j | 0 <= i < j < |ms| :: ms[i].end <= ms[j].start)
  }

  lemma {:induction false} SelectIsDisjoint(ms: seq<Span>, lastEnd: int)
    requires forall i | 0 <= i < |ms| :: ms[i].start <= ms[i].end
    ensures Disjoint(Select(ms, lastEnd), lastEnd)
    ensures forall m :: m in Select(ms, lastEnd) ==> m in ms
  {
    if ms != [] {
      SelectIsDisjoint(ms[1..], if ms[0].start >= lastEnd then ms[0].end else lastEnd);
    }
  }

  /** `s` is why `m` was dropped. */
  predicate Shadows(s: Span, m: Span)
  {
    s.start <= m.start < s.end && (s.start == m.start ==> m.end <= s.end)
  }

  ghost predicate Shadowed(selected: seq<Span>, m: Span) { exists s | s in selected :: Shadows(s, m) }

  lemma {:induction false} DroppedIsShadowed(ms: seq<Span>, lastEnd: int, k: nat)
    requires Sorted(ms) && k < |ms| && ms[k] !in Select(ms, lastEnd) && ms[k].start >= lastEnd
    ensures Shadowed(Select(ms, lastEnd), ms[k])
  {
    var first := ms[0];
    assert k > 0;
    assert !Precedes(ms[k], first);
    if first.start < lastEnd {
      DroppedIsShadowed(ms[1..], lastEnd, k - 1);
    } else {
      var later := Select(ms[1..], first.end);
      assert Select(ms, lastEnd) == [first] + later;
      if ms[k].start < first.end {
        assert Shadows(first, ms[k]);
      } else {
        DroppedIsShadowed(ms[1..], first.end, k - 1);
        var s :| s in later && Shadows(s, ms[k]);
      }
    }
  }

  function Selected(content: string, patterns: seq<Pattern>): (r: seq<Span>)
  {
    Select(Sort(Matches(content, patterns)), -1)
  }

  /** What is redacted: matches, in order and disjoint; every other match starts inside a
      redacted one, which is at least as long when both start together. */
  lemma {:induction false} SelectionIsLeftmostLongest(content: string, patterns: seq<Pattern>)
    requires AllInside(Matches(content, patterns), |content|)
    ensures var ms, selected := Matches(content, patterns), Selected(content, patterns);
            && Disjoint(selected, 0) && AllInside(selected, |content|)
            && (forall m :: m in selected ==> m in ms)
            && (forall m | m in ms :: m in selected || Shadowed(selected, m))
  {
    var ms, sorted := Matches(content, patterns), Sort(Matches(content, patterns));
    SortIsSorted(ms);
    forall m ensures m in ms <==> m in sorted {
      assert m in ms <==> m in multiset(ms);
      assert m in sorted <==> m in multiset(sorted);
    }
    forall i | 0 <= i < |sorted| ensures Inside(sorted[i], |content|) {
      assert sorted[i] in ms;
    }
    SelectIsDisjoint(sorted, -1);
    var selected := Select(sorted, -1);
    forall i | 0 <= i < |selected| ensures Inside(selected[i], |content|) {
      assert selected[i] in sorted;
    }
    forall m | m in ms && m !in selected ensures Shadowed(selected, m) {
      var k :| 0 <= k < |sorted| && sorted[k] == m;
      DroppedIsShadowed(sorted, -1, k);
    }
  }

  // ----- splicing -----

  /** The text between the spans: one more piece than there are spans. */
  function Gaps(content: string, ms: seq<Span>, cursor: nat): (gaps: seq<string>)
    requires cursor <= |content| && AllInside(ms, |content|) && Disjoint(ms, cursor)
    ensures |gaps| == |ms| + 1
    decreases |ms|
  {
    if ms == [] then [content[cursor..]]
    else [content[cursor..ms[0].start]] + Gaps(content, ms[1..], ms[0].end)
  }

  function Weave(gaps: seq<string>, fills: seq<string>): (text: string)
    requires |gaps| == |fills| + 1
    decreases |fills|
  {
    if fills == [] then gaps[0] else gaps[0] + fills[0] + Weave(gaps[1..], fills[1..])
  }

  function Markers(ms: seq<Span>, short: string -> string): (r: seq<string>)
    ensures |r| == |ms|
  {
    seq(|ms|, i requires 0 <= i < |ms| => "[REDACTED-" + short(ms[i].kind) + "]")
  }

  function Texts(content: string, ms: seq<Span>): (r: seq<string>)
    requires AllInside(ms, |content|)
    ensures |r| == |ms|
  {
    seq(|ms|, i requires 0 <= i < |ms| => content[ms[i].start..ms[i].end])
  }

  /** Putting the matched texts back between the gaps rebuilds the original. */
  lemma {:induction false} SpansRebuild(content: string, ms: seq<Span>, cursor: nat)
    requires cursor <= |content| && AllInside(ms, |content|) && Disjoint(ms, cursor)
    ensures Weave(Gaps(content, ms, cursor), Texts(content, ms)) == content[cursor..]
    decreases |ms|
  {
    if ms != [] {
      var rest := ms[1..];
      SpansRebuild(content, rest, ms[0].end);
      assert Texts(content, ms)[1..] == Texts(content, rest);
      assert Gaps(content, ms, cursor)[1..] == Gaps(content, rest, ms[0].end);
      SliceInThree(content, cursor, ms[0].start, ms[0].end);
    }
  }

  lemma SliceInThree(content: string, i: nat, j: nat, k: nat)
    requires i <= j <= k <= |content|
    ensures content[i..] == content[i..j] + content[j..k] + content[k..]
  {
  }

  function Redacted(content: string, ms: seq<Span>, cursor: nat, short: string -> string): (text: string)
    requires cursor <= |content| && AllInside(ms, |content|) && Disjoint(ms, cursor)
  {
    Weave(Gaps(content, ms, cursor), Markers(ms, short))
  }

  lemma RedactFirst(content: string, ms: seq<Span>, cursor: nat, short: string -> string)
    requires cursor <= |content| && AllInside(ms, |content|) && Disjoint(ms, cursor) && ms != []
    ensures AllInside(ms[1..], |content|) && Disjoint(ms[1..], ms[0].end)
    ensures Redacted(content, ms, cursor, short)
            == content[cursor..ms[0].start] + ("[REDACTED-" + short(ms[0].kind) + "]")
               + Redacted(content, ms[1..], ms[0].end, short)
  {
    assert Markers(ms, short)[1..] == Markers(ms[1..], short);
    assert Gaps(content, ms, cursor)[1..] == Gaps(content, ms[1..], ms[0].end);
  }

  /** `redact_pii`: the markers stand in place of the selected spans, and the gaps between
      them are the original's, so the same gaps and the matched texts are the original. */
  method RedactPii(content: string, patterns: seq<Pattern>, short: string -> string) returns (text: string)
    requires AllInside(Matches(content, patterns), |content|)
    ensures var selected := Selected(content, patterns);
            && AllInside(selected, |content|) && Disjoint(selected, 0)
            && text == Redacted(content, selected, 0, short)
            && content == Weave(Gaps(content, selected, 0), Texts(content, selected))
  {
    var matches := [];
    for i := 0 to |patterns|
      invariant matches == Matches(content, patterns[..i])
    {
      matches := matches + Label(patterns[i].find(content), patterns[i].kind);
      assert patterns[..i + 1][..i] == patterns[..i];
    }
    assert patterns[..|patterns|] == patterns;
    matches := Sort(matches);

    var selected: seq<Span>, lastEnd: int := [], -1;
    for i := 0 to |matches|
      invariant Select(matches, -1) == selected + Select(matches[i..], lastEnd)
    {
      assert matches[i..][1..] == matches[i + 1..];
      if matches[i].start >= lastEnd {
        selected := selected + [matches[i]];
        lastEnd := matches[i].end;
      }
    }
    assert selected == Selected(content, patterns);
    SelectionIsLeftmostLongest(content, patterns);
    SpansRebuild(content, selected, 0);

    text := SpliceMarkers(content, selected, short);
  }

  lemma Regroup(a: string, b: string, c: string, d: string)
    ensures a + (b + c + d) == a + b + c + d
  {
  }

  method SpliceMarkers(content: string, selected: seq<Span>, short: string -> string) returns (text: string)
    requires AllInside(selected, |content|) && Disjoint(selected, 0)
    ensures text == Redacted(content, selected, 0, short)
  {
    text := "";
    var cursor: nat := 0;
    for i := 0 to |selected|
      invariant cursor <= |content| && AllInside(selected[i..], |content|) && Disjoint(selected[i..], cursor)
      invariant Redacted(content, selected, 0, short) == text + Redacted(content, selected[i..], cursor, short)
    {
      RedactFirst(content, selected[i..], cursor, short);
      assert selected[i..][1..] == selected[i + 1..];
      var gap, marker := content[cursor..selected[i].start], "[REDACTED-" + short(selected[i].kind) + "]";
      Regroup(text, gap, marker, Redacted(content, selected[i + 1..], selected[i].end, short));
      text := text + gap;
      text := text + marker;
      cursor := selected[i].end;
    }
    text := text + content[cursor..];
  }
}
