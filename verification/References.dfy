/** `${...}` references in step arguments and conditions. */
module References {
  import opened Strings

  /** Workflow data.  A dict keeps its insertion order, as Python's does; an `Object` is any
      value of another type. */
  datatype Data =
    | Nothing
    | Flag(flag: bool)
    | Number(number: int)
    | Str(text: string)
    | Arr(items: seq<Data>)
    | Dict(entries: seq<Entry>)
    | Object(handle: string, truth: bool)

  datatype Entry = Entry(key: string, value: Data)

  datatype Fault =
    | NeedsStepId(ref: string)
    | NotYetAvailable(stepId: string)
    | UnknownRoot(root: string)
    | MissingKey(key: string, ref: string)
    | InvalidWhen(expr: string)
    | Escaping(error: string)              // what `run` does not catch, such as AttributeError

  datatype Res<+T> = Val(value: T) | Bad(fault: Fault)

  /** The interpreter's `str` and `getattr`. */
  datatype Python = Python(show: Data -> string, attr: (Data, string) -> Res<Data>)

  // ----- paths -----

  function Lookup(entries: seq<Entry>, key: string): (r: Res<Data>)
  {
    if entries == [] then Bad(MissingKey(key, ""))
    else if entries[0].key == key then Val(entries[0].value)
    else Lookup(entries[1..], key)
  }

  function Walk(v: Data, path: seq<string>, ref: string, py: Python): (r: Res<Data>)
    decreases |path|
  {
    if path == [] then Val(v)
    else if !v.Dict? then
      match py.attr(v, path[0])
      case Bad(f) => Bad(f)
      case Val(next) => Walk(next, path[1..], ref, py)
    else
      match Lookup(v.entries, path[0])
      case Bad(_) => Bad(MissingKey(path[0], ref))
      case Val(next) => Walk(next, path[1..], ref, py)
  }

  /** `_resolve_ref`. */
  function ResolveRef(ref: string, inputs: Data, outputs: map<string, Data>, py: Python): (r: Res<Data>)
  {
    var parts := Split(ref, '.');
    if parts[0] == "inputs" then Walk(inputs, parts[1..], ref, py)
    else if parts[0] == "steps" then
      if |parts| < 2 then Bad(NeedsStepId(ref))
      else if parts[1] !in outputs then Bad(NotYetAvailable(parts[1]))
      else Walk(outputs[parts[1]], parts[2..], ref, py)
    else Bad(UnknownRoot(parts[0]))
  }

  /** The step ids a reference names. */
  function StepsOf(ref: string): (ids: set<string>)
  {
    var parts := Split(ref, '.');
    if parts[0] == "steps" && |parts| >= 2 then {parts[1]} else {}
  }

  // ----- strings -----

  predicate Opens(s: string) { |s| >= 2 && s[0] == '$' && s[1] == '{' }

  function CountOpens(s: string): (n: nat)
  {
    if s == "" then 0 else (if Opens(s) then 1 else 0) + CountOpens(s[1..])
  }

  predicate Bracketed(s: string) { |s| >= 3 && Opens(s) && s[|s| - 1] == '}' }

  /** The whole string is one reference. */
  predicate IsExact(s: string) { Strip(s) == s && Bracketed(s) && CountOpens(s) == 1 }

  function Inner(s: string): (ref: string)
    requires Bracketed(s)
  {
    s[2..|s| - 1]
  }

  /** The length of the leading run of characters other than `$`, `{` and `}`. */
  function Plain(s: string): (n: nat)
    ensures n <= |s|
  {
    if s == "" || s[0] == '$' || s[0] == '{' || s[0] == '}' then 0 else 1 + Plain(s[1..])
  }

  /** `s` starts with a match of the interpolation pattern. */
  predicate StartsMatch(s: string)
  {
    Opens(s) && var n := Plain(s[2..]); n >= 1 && 2 + n < |s| && s[2 + n] == '}'
  }

  function MatchRef(s: string): (ref: string)
    requires StartsMatch(s)
    ensures |ref| + 3 <= |s|
  {
    s[2..2 + Plain(s[2..])]
  }

  /** Each match replaced by the text of what it refers to, left to right. */
  function Interpolate(s: string, inputs: Data, outputs: map<string, Data>, py: Python): (r: Res<string>)
    decreases |s|
  {
    if s == "" then Val("")
    else if StartsMatch(s) then
      match ResolveRef(MatchRef(s), inputs, outputs, py)
      case Bad(f) => Bad(f)
      case Val(v) =>
        match Interpolate(s[|MatchRef(s)| + 3..], inputs, outputs, py)
        case Bad(f) => Bad(f)
        case Val(rest) => Val(py.show(v) + rest)
    else
      match Interpolate(s[1..], inputs, outputs, py)
      case Bad(f) => Bad(f)
      case Val(rest) => Val([s[0]] + rest)
  }

  function StepsInText(s: string): (ids: set<string>)
    decreases |s|
  {
    if s == "" then {}
    else if StartsMatch(s) then StepsOf(MatchRef(s)) + StepsInText(s[|MatchRef(s)| + 3..])
    else StepsInText(s[1..])
  }

  // ----- values -----

  /** `_resolve`. */
  function Resolve(v: Data, inputs: Data, outputs: map<string, Data>, py: Python): (r: Res<Data>)
    decreases v, 1
  {
    match v
    case Str(s) =>
      if IsExact(s) then ResolveRef(Inner(s), inputs, outputs, py)
      else (match Interpolate(s, inputs, outputs, py)
            case Bad(f) => Bad(f)
            case Val(t) => Val(Str(t)))
    case Arr(items) =>
      (match ResolveItems(items, inputs, outputs, py)
       case Bad(f) => Bad(f)
       case Val(vs) => Val(Arr(vs)))
    case Dict(entries) =>
      (match ResolveEntries(entries, inputs, outputs, py)
       case Bad(f) => Bad(f)
       case Val(es) => Val(Dict(es)))
    case _ => Val(v)
  }

  function ResolveItems(items: seq<Data>, inputs: Data, outputs: map<string, Data>,
      py: Python): (r: Res<seq<Data>>)
    decreases items, 0
  {
    if items == [] then Val([])
    else
      match Resolve(items[0], inputs, outputs, py)
      case Bad(f) => Bad(f)
      case Val(v) =>
        match ResolveItems(items[1..], inputs, outputs, py)
        case Bad(f) => Bad(f)
        case Val(vs) => Val([v] + vs)
  }

  function ResolveEntries(entries: seq<Entry>, inputs: Data, outputs: map<string, Data>,
      py: Python): (r: Res<seq<Entry>>)
    decreases entries, 0
  {
    if entries == [] then Val([])
    else
      match Resolve(entries[0].value, inputs, outputs, py)
      case Bad(f) => Bad(f)
      case Val(v) =>
        match ResolveEntries(entries[1..], inputs, outputs, py)
        case Bad(f) => Bad(f)
        case Val(es) => Val([Entry(entries[0].key, v)] + es)
  }

  /** The step ids named anywhere in a value. */
  function StepsIn(v: Data): (ids: set<string>)
    decreases v, 1
  {
    match v
    case Str(s) => if IsExact(s) then StepsOf(Inner(s)) else StepsInText(s)
    case Arr(items) => StepsInItems(items)
    case Dict(entries) => StepsInEntries(entries)
    case _ => {}
  }

  function StepsInItems(items: seq<Data>): (ids: set<string>)
    decreases items, 0
  {
    if items == [] then {} else StepsIn(items[0]) + StepsInItems(items[1..])
  }

  function StepsInEntries(entries: seq<Entry>): (ids: set<string>)
    decreases entries, 0
  {
    if entries == [] then {} else StepsIn(entries[0].value) + StepsInEntries(entries[1..])
  }

  // ----- conditions -----

  predicate Truthy(v: Data)
  {
    match v
    case Nothing => false
    case Flag(b) => b
    case Number(n) => n != 0
    case Str(s) => s != ""
    case Arr(items) => items != []
    case Dict(entries) => entries != []
    case Object(_, truth) => truth
  }

  /** `_eval_when`. */
  function EvalWhen(expr: string, inputs: Data, outputs: map<string, Data>, py: Python): (r: Res<bool>)
  {
    var e := Strip(expr);
    if !Bracketed(e) then Bad(InvalidWhen(e))
    else
      match ResolveRef(Inner(e), inputs, outputs, py)
      case Bad(f) => Bad(f)
      case Val(v) => Val(Truthy(v))
  }

  function StepsInWhen(expr: string): (ids: set<string>)
  {
    var e := Strip(expr);
    if Bracketed(e) then StepsOf(Inner(e)) else {}
  }

  // ----- only the named outputs matter -----

  /** The two sets of outputs cannot be told apart by looking at `ids`. */
  ghost predicate Agree(o: map<string, Data>, p: map<string, Data>, ids: set<string>)
  {
    forall x | x in ids :: (x in o <==> x in p) && (x in o ==> o[x] == p[x])
  }

  lemma RefDependsOnlyOn(ref: string, inputs: Data, o: map<string, Data>, p: map<string, Data>, py: Python)
    requires Agree(o, p, StepsOf(ref))
    ensures ResolveRef(ref, inputs, o, py) == ResolveRef(ref, inputs, p, py)
  {
    var parts := Split(ref, '.');
    if parts[0] == "steps" && |parts| >= 2 {
      assert parts[1] in StepsOf(ref);
    }
  }

  lemma {:induction false} TextDependsOnlyOn(s: string, inputs: Data, o: map<string, Data>, p: map<string, Data>,
      py: Python)
    requires Agree(o, p, StepsInText(s))
    ensures Interpolate(s, inputs, o, py) == Interpolate(s, inputs, p, py)
    decreases |s|
  {
    if s != "" {
      if StartsMatch(s) {
        RefDependsOnlyOn(MatchRef(s), inputs, o, p, py);
        TextDependsOnlyOn(s[|MatchRef(s)| + 3..], inputs, o, p, py);
      } else {
        TextDependsOnlyOn(s[1..], inputs, o, p, py);
      }
    }
  }

  /** A value resolves alike under outputs that agree on the steps it names. */
  lemma {:induction false} ValueDependsOnlyOn(v: Data, inputs: Data, o: map<string, Data>, p: map<string, Data>,
      py: Python)
    requires Agree(o, p, StepsIn(v))
    ensures Resolve(v, inputs, o, py) == Resolve(v, inputs, p, py)
    decreases v, 1
  {
    match v
    case Str(s) =>
      if IsExact(s) {
        RefDependsOnlyOn(Inner(s), inputs, o, p, py);
      } else {
        TextDependsOnlyOn(s, inputs, o, p, py);
      }
    case Arr(items) => ItemsDependOnlyOn(items, inputs, o, p, py);
    case Dict(entries) => EntriesDependOnlyOn(entries, inputs, o, p, py);
    case _ =>
  }

  lemma {:induction false} ItemsDependOnlyOn(items: seq<Data>, inputs: Data, o: map<string, Data>, p: map<string, Data>,
      py: Python)
    requires Agree(o, p, StepsInItems(items))
    ensures ResolveItems(items, inputs, o, py) == ResolveItems(items, inputs, p, py)
    decreases items, 0
  {
    if items != [] {
      ValueDependsOnlyOn(items[0], inputs, o, p, py);
      ItemsDependOnlyOn(items[1..], inputs, o, p, py);
    }
  }

  lemma {:induction false} EntriesDependOnlyOn(
      entries: seq<Entry>, inputs: Data, o: map<string, Data>, p: map<string, Data>, py: Python)
    requires Agree(o, p, StepsInEntries(entries))
    ensures ResolveEntries(entries, inputs, o, py) == ResolveEntries(entries, inputs, p, py)
    decreases entries, 0
  {
    if entries != [] {
      ValueDependsOnlyOn(entries[0].value, inputs, o, p, py);
      EntriesDependOnlyOn(entries[1..], inputs, o, p, py);
    }
  }

  // ----- what a reference means -----

  /** Going from a value to the one under a key: the first entry of a dict with that key, or an
      attribute of anything else. */
  ghost predicate StepTo(v: Data, key: string, x: Data, py: Python)
  {
    if v.Dict? then
      exists i | 0 <= i < |v.entries| ::
        v.entries[i] == Entry(key, x) && forall k | 0 <= k < i :: v.entries[k].key != key
    else py.attr(v, key) == Val(x)
  }

  /** Following all keys of a path leads from `v` to `x`. */
  ghost predicate Reaches(v: Data, path: seq<string>, x: Data, py: Python)
    decreases |path|
  {
    if path == [] then x == v
    else exists next :: StepTo(v, path[0], next, py) && Reaches(next, path[1..], x, py)
  }

  lemma {:induction false} LookupMeans(entries: seq<Entry>, key: string, x: Data)
    ensures Lookup(entries, key) == Val(x) <==>
              exists i | 0 <= i < |entries| ::
                entries[i] == Entry(key, x) && forall k | 0 <= k < i :: entries[k].key != key
  {
    if entries != [] && entries[0].key != key {
      var rest := entries[1..];
      LookupMeans(rest, key, x);
      if i :| 0 <= i < |rest| && rest[i] == Entry(key, x) && forall k | 0 <= k < i :: rest[k].key != key {
        assert entries[i + 1] == rest[i] && forall k | 0 < k <= i :: entries[k] == rest[k - 1];
      }
      if i :| 0 <= i < |entries| && entries[i] == Entry(key, x) && forall k | 0 <= k < i :: entries[k].key != key {
        assert rest[i - 1] == entries[i] && forall k | 0 <= k < i - 1 :: rest[k] == entries[k + 1];
      }
    } else if entries != [] && entries[0].value == x {
      assert entries[0] == Entry(key, x);
    }
  }

  lemma {:induction false} WalkMeans(v: Data, path: seq<string>, ref: string, x: Data, py: Python)
    ensures Walk(v, path, ref, py) == Val(x) <==> Reaches(v, path, x, py)
    decreases |path|
  {
    if path != [] {
      forall next ensures StepTo(v, path[0], next, py) <==> Under(v, path[0], py) == Val(next) {
        if v.Dict? {
          LookupMeans(v.entries, path[0], next);
        }
      }
      if Under(v, path[0], py).Val? {
        WalkMeans(Under(v, path[0], py).value, path[1..], ref, x, py);
      }
    }
  }

  function Under(v: Data, key: string, py: Python): (r: Res<Data>)
  {
    if v.Dict? then Lookup(v.entries, key) else py.attr(v, key)
  }

  /** The reference names an input, or the output of a step that has one, and following the
      rest of its dotted path leads to `x`. */
  ghost predicate RefersTo(ref: string, inputs: Data, outputs: map<string, Data>, x: Data, py: Python)
  {
    exists parts :: NoneHolds(parts, '.') && ref == JoinWith(parts, '.') && PathLeads(parts, inputs, outputs, x, py)
  }

  ghost predicate PathLeads(parts: seq<string>, inputs: Data, outputs: map<string, Data>, x: Data, py: Python)
  {
    || (|parts| >= 1 && parts[0] == "inputs" && Reaches(inputs, parts[1..], x, py))
    || (|parts| >= 2 && parts[0] == "steps" && parts[1] in outputs && Reaches(outputs[parts[1]], parts[2..], x, py))
  }

  lemma RefMeans(ref: string, inputs: Data, outputs: map<string, Data>, x: Data, py: Python)
    ensures ResolveRef(ref, inputs, outputs, py) == Val(x) <==> RefersTo(ref, inputs, outputs, x, py)
  {
    var parts := Split(ref, '.');
    SplitMeans(ref, '.');
    WalkMeans(inputs, parts[1..], ref, x, py);
    if |parts| >= 2 && parts[1] in outputs {
      WalkMeans(outputs[parts[1]], parts[2..], ref, x, py);
    }
    forall others | NoneHolds(others, '.') && ref == JoinWith(others, '.') && others != [] ensures others == parts {
      OnlySplit(others, '.');
    }
  }

  // ----- what a text means -----

  predicate Opening(s: string, i: nat) { i + 1 < |s| && s[i] == '$' && s[i + 1] == '{' }

  /** The text holds `${` somewhere. */
  predicate HasOpening(s: string) { exists i | 0 <= i < |s| :: Opening(s, i) }

  lemma {:induction false} CountsOpenings(s: string)
    ensures CountOpens(s) == 0 <==> !HasOpening(s)
  {
    if s != "" {
      CountsOpenings(s[1..]);
      assert Opens(s) <==> Opening(s, 0);
      assert forall i | 0 <= i < |s[1..]| :: Opening(s[1..], i) <==> Opening(s, i + 1);
      if i :| 0 <= i < |s| && Opening(s, i) {
        assert i > 0 ==> Opening(s[1..], i - 1);
      }
    }
  }

  lemma {:induction false} StripKeeps(s: string)
    requires s != "" && !IsSpace(s[0]) && !IsSpace(s[|s| - 1])
    ensures Strip(s) == s
  {
  }

  /** The text is one reference and nothing else. */
  ghost predicate ExactlyRef(s: string, ref: string) { s == "${" + ref + "}" && !HasOpening(ref) }

  lemma ExactMeans(s: string)
    ensures IsExact(s) <==> exists ref :: ExactlyRef(s, ref)
    ensures forall ref :: ExactlyRef(s, ref) ==> IsExact(s) && Inner(s) == ref
  {
    if Bracketed(s) {
      StripKeeps(s);
      var ref := Inner(s);
      assert s == "${" + ref + "}";
      CountsOpenings(s[1..]);
      assert forall i | 0 <= i < |ref| :: Opening(ref, i) ==> Opening(s[1..], i + 1);
      if i :| 0 <= i < |s[1..]| && Opening(s[1..], i) {
        assert Opening(ref, i - 1);
      }
      assert IsExact(s) <==> ExactlyRef(s, ref);
    }
  }

  predicate PlainRef(ref: string) { ref != "" && forall i | 0 <= i < |ref| :: ref[i] !in "${}" }

  /** `s` begins with a reference in brackets, and `rest` is what comes after it. */
  predicate Begins(s: string, ref: string, rest: string) { PlainRef(ref) && s == "${" + ref + "}" + rest }

  /** The text with each bracketed reference replaced by how its value is shown. */
  ghost predicate Filled(s: string, t: string, inputs: Data, outputs: map<string, Data>, py: Python)
    decreases |s|
  {
    if exists ref, rest :: Begins(s, ref, rest) then
      exists ref, rest, x, tail :: 
        && Begins(s, ref, rest) && RefersTo(ref, inputs, outputs, x, py)
        && |rest| < |s| && Filled(rest, tail, inputs, outputs, py) && t == py.show(x) + tail
    else if s == "" then t == ""
    else exists tail :: Filled(s[1..], tail, inputs, outputs, py) && t == [s[0]] + tail
  }

  lemma {:induction false} PlainIsRun(s: string)
    ensures forall i | 0 <= i < Plain(s) :: s[i] !in "${}"
    ensures Plain(s) < |s| ==> s[Plain(s)] in "${}"
  {
    if s != "" && s[0] !in "${}" {
      PlainIsRun(s[1..]);
    }
  }

  lemma BeginsMeans(s: string)
    ensures StartsMatch(s) ==> Begins(s, MatchRef(s), s[|MatchRef(s)| + 3..])
    ensures forall ref, rest :: Begins(s, ref, rest) ==>
              StartsMatch(s) && MatchRef(s) == ref && s[|ref| + 3..] == rest
  {
    if Opens(s) {
      PlainIsRun(s[2..]);
      var n := Plain(s[2..]);
      if StartsMatch(s) {
        assert s == "${" + MatchRef(s) + "}" + s[n + 3..];
      }
      forall ref, rest | Begins(s, ref, rest) ensures StartsMatch(s) && MatchRef(s) == ref && s[|ref| + 3..] == rest {
        assert forall i | 0 <= i < |ref| :: s[2..][i] == ref[i];
        assert s[2..][|ref|] == '}';
        assert n == |ref|;
      }
    }
  }

  lemma {:induction false} InterpolateMeans(s: string, t: string, inputs: Data, outputs: map<string, Data>, py: Python)
    ensures Interpolate(s, inputs, outputs, py) == Val(t) <==> Filled(s, t, inputs, outputs, py)
    decreases |s|
  {
    if StartsMatch(s) {
      var ref := MatchRef(s);
      var rest := s[|ref| + 3..];
      forall tail ensures FilledAlike(rest, tail, inputs, outputs, py) {
        InterpolateMeans(rest, tail, inputs, outputs, py);
      }
      MatchMeans(s, t, ref, rest, inputs, outputs, py);
    } else {
      if s != "" {
        forall tail ensures FilledAlike(s[1..], tail, inputs, outputs, py) {
          InterpolateMeans(s[1..], tail, inputs, outputs, py);
        }
      }
      NoMatchMeans(s, t, inputs, outputs, py);
    }
  }

  ghost predicate FilledAlike(s: string, t: string, inputs: Data, outputs: map<string, Data>, py: Python)
  {
    Interpolate(s, inputs, outputs, py) == Val(t) <==> Filled(s, t, inputs, outputs, py)
  }

  /** What is left after the first reference is read as `Filled` says. */
  lemma MatchMeans(
      s: string, t: string, ref: string, rest: string, inputs: Data, outputs: map<string, Data>, py: Python)
    requires StartsMatch(s) && ref == MatchRef(s) && rest == s[|ref| + 3..]
    requires forall tail :: FilledAlike(rest, tail, inputs, outputs, py)
    ensures FilledAlike(s, t, inputs, outputs, py)
  {
    BeginsMeans(s);
    if Interpolate(s, inputs, outputs, py) == Val(t) {
      var x := ResolveRef(ref, inputs, outputs, py).value;
      var tail := Interpolate(rest, inputs, outputs, py).value;
      RefMeans(ref, inputs, outputs, x, py);
      assert FilledAlike(rest, tail, inputs, outputs, py);
      assert Begins(s, ref, rest) && |rest| < |s|;
    }
    if Filled(s, t, inputs, outputs, py) {
      FilledIsRead(s, t, ref, rest, inputs, outputs, py);
    }
  }

  lemma FilledIsRead(
      s: string, t: string, ref: string, rest: string, inputs: Data, outputs: map<string, Data>, py: Python)
    requires StartsMatch(s) && ref == MatchRef(s) && rest == s[|ref| + 3..]
    requires forall tail :: FilledAlike(rest, tail, inputs, outputs, py)
    requires Filled(s, t, inputs, outputs, py)
    ensures Interpolate(s, inputs, outputs, py) == Val(t)
  {
    BeginsMeans(s);
    assert Begins(s, ref, rest);
    var r, q, x, tail :|
      && Begins(s, r, q) && RefersTo(r, inputs, outputs, x, py)
      && |q| < |s| && Filled(q, tail, inputs, outputs, py) && t == py.show(x) + tail;
    assert r == ref && q == rest;
    RefMeans(ref, inputs, outputs, x, py);
    assert FilledAlike(rest, tail, inputs, outputs, py);
  }

  lemma NoMatchMeans(s: string, t: string, inputs: Data, outputs: map<string, Data>, py: Python)
    requires !StartsMatch(s)
    requires s != "" ==> forall tail :: FilledAlike(s[1..], tail, inputs, outputs, py)
    ensures FilledAlike(s, t, inputs, outputs, py)
  {
    BeginsMeans(s);
    if s != "" {
      var rest := Interpolate(s[1..], inputs, outputs, py);
      if rest.Val? {
        assert FilledAlike(s[1..], rest.value, inputs, outputs, py);
      }
      if tail :| Filled(s[1..], tail, inputs, outputs, py) && t == [s[0]] + tail {
        assert FilledAlike(s[1..], tail, inputs, outputs, py);
      }
    }
  }

  // ----- what a value means -----

  /** The value with its references replaced: an exact one by the value itself, those inside a
      text by how their values are shown, everything else kept. */
  ghost predicate Becomes(v: Data, x: Data, inputs: Data, outputs: map<string, Data>, py: Python)
    decreases v
  {
    match v
    case Str(s) =>
      if exists ref :: ExactlyRef(s, ref) then exists ref :: ExactlyRef(s, ref) && RefersTo(ref, inputs, outputs, x, py)
      else x.Str? && Filled(s, x.text, inputs, outputs, py)
    case Arr(items) =>
      && x.Arr? && |x.items| == |items|
      && forall i | 0 <= i < |items| :: Becomes(items[i], x.items[i], inputs, outputs, py)
    case Dict(entries) =>
      && x.Dict? && |x.entries| == |entries|
      && forall i | 0 <= i < |entries| ::
           x.entries[i].key == entries[i].key && Becomes(entries[i].value, x.entries[i].value, inputs, outputs, py)
    case _ => x == v
  }

  lemma TextMeans(s: string, x: Data, inputs: Data, outputs: map<string, Data>, py: Python)
    ensures Resolve(Str(s), inputs, outputs, py) == Val(x) <==> Becomes(Str(s), x, inputs, outputs, py)
  {
    ExactMeans(s);
    if IsExact(s) {
      RefMeans(Inner(s), inputs, outputs, x, py);
    } else if x.Str? {
      InterpolateMeans(s, x.text, inputs, outputs, py);
    }
  }

  lemma {:induction false} ResolveMeans(v: Data, x: Data, inputs: Data, outputs: map<string, Data>, py: Python)
    ensures Resolve(v, inputs, outputs, py) == Val(x) <==> Becomes(v, x, inputs, outputs, py)
    decreases v, 1
  {
    match v
    case Str(s) => TextMeans(s, x, inputs, outputs, py);
    case Arr(items) =>
      if x.Arr? {
        ItemsMean(items, x.items, inputs, outputs, py);
      }
    case Dict(entries) =>
      if x.Dict? {
        EntriesMean(entries, x.entries, inputs, outputs, py);
      }
    case _ =>
  }

  lemma {:induction false} ItemsMean(
      items: seq<Data>, xs: seq<Data>, inputs: Data, outputs: map<string, Data>, py: Python)
    ensures ResolveItems(items, inputs, outputs, py) == Val(xs) <==>
              |xs| == |items| && forall i | 0 <= i < |items| :: Becomes(items[i], xs[i], inputs, outputs, py)
    decreases items, 0
  {
    if items != [] && xs != [] {
      ResolveMeans(items[0], xs[0], inputs, outputs, py);
      ItemsMean(items[1..], xs[1..], inputs, outputs, py);
      assert xs == [xs[0]] + xs[1..];
      assert (forall i | 0 <= i < |items| && |xs| == |items| :: Becomes(items[i], xs[i], inputs, outputs, py))
          ==> forall i | 0 <= i < |items[1..]| && |xs| == |items| ::
                Becomes(items[1..][i], xs[1..][i], inputs, outputs, py);
    }
  }

  lemma {:induction false} EntriesMean(
      entries: seq<Entry>, xs: seq<Entry>, inputs: Data, outputs: map<string, Data>, py: Python)
    ensures ResolveEntries(entries, inputs, outputs, py) == Val(xs) <==>
              && |xs| == |entries|
              && forall i | 0 <= i < |entries| ::
                   xs[i].key == entries[i].key && Becomes(entries[i].value, xs[i].value, inputs, outputs, py)
    decreases entries, 0
  {
    if entries != [] && xs != [] {
      ResolveMeans(entries[0].value, xs[0].value, inputs, outputs, py);
      EntriesMean(entries[1..], xs[1..], inputs, outputs, py);
      assert xs == [xs[0]] + xs[1..];
      assert xs[0] == Entry(xs[0].key, xs[0].value);
    }
  }

  /** No text in the value holds `${`. */
  predicate HoldsNoReference(v: Data)
    decreases v
  {
    match v
    case Str(s) => !HasOpening(s)
    case Arr(items) => forall i | 0 <= i < |items| :: HoldsNoReference(items[i])
    case Dict(entries) => forall i | 0 <= i < |entries| :: HoldsNoReference(entries[i].value)
    case _ => true
  }

  lemma {:induction false} TextIsKept(s: string, inputs: Data, outputs: map<string, Data>, py: Python)
    requires !HasOpening(s)
    ensures Filled(s, s, inputs, outputs, py)
  {
    forall ref, rest ensures !Begins(s, ref, rest) {
      if Begins(s, ref, rest) {
        assert Opening(s, 0);
      }
    }
    if s != "" {
      assert forall i | 0 <= i < |s[1..]| :: Opening(s[1..], i) ==> Opening(s, i + 1);
      TextIsKept(s[1..], inputs, outputs, py);
    }
  }

  /** A value without references is what it was. */
  lemma {:induction false} WithoutReferences(v: Data, inputs: Data, outputs: map<string, Data>, py: Python)
    requires HoldsNoReference(v)
    ensures Becomes(v, v, inputs, outputs, py)
    decreases v
  {
    match v
    case Str(s) =>
      forall ref ensures !ExactlyRef(s, ref) {
        if ExactlyRef(s, ref) {
          assert Opening(s, 0);
        }
      }
      TextIsKept(s, inputs, outputs, py);
    case Arr(items) =>
      forall i | 0 <= i < |items| ensures Becomes(items[i], items[i], inputs, outputs, py) {
        WithoutReferences(items[i], inputs, outputs, py);
      }
    case Dict(entries) =>
      forall i | 0 <= i < |entries| ensures Becomes(entries[i].value, entries[i].value, inputs, outputs, py) {
        WithoutReferences(entries[i].value, inputs, outputs, py);
      }
    case _ =>
  }

  lemma StepIsNamed(id: string, inputs: Data, outputs: map<string, Data>, py: Python)
    requires id in outputs && '.' !in id
    ensures RefersTo("steps." + id, inputs, outputs, outputs[id], py)
  {
    var parts := ["steps", id];
    assert parts[1..] == [id] && parts[2..] == [];
    assert JoinWith(parts, '.') == "steps." + id;
    assert PathLeads(parts, inputs, outputs, outputs[id], py);
  }

  /** A text that is just a reference to a step becomes that step's output, whole. */
  lemma OutputIsPassed(id: string, inputs: Data, outputs: map<string, Data>, py: Python)
    requires id in outputs && '.' !in id && !HasOpening(id)
    ensures Becomes(Str("${steps." + id + "}"), outputs[id], inputs, outputs, py)
  {
    var ref := "steps." + id;
    var s := "${steps." + id + "}";
    assert s == "${" + ref + "}";
    assert forall i | 0 <= i < |ref| :: Opening(ref, i) ==> i >= 6 && Opening(id, i - 6);
    assert ExactlyRef(s, ref);
    StepIsNamed(id, inputs, outputs, py);
  }

  /** What counts as false: none, false, zero, and whatever is empty. */
  predicate Falsy(v: Data)
  {
    v in {Nothing, Flag(false), Number(0), Str(""), Arr([]), Dict([])} || (v.Object? && !v.truth)
  }

  /** The condition's reference leads to `x`. */
  ghost predicate ConditionIs(expr: string, inputs: Data, outputs: map<string, Data>, x: Data, py: Python)
  {
    exists ref :: Strip(expr) == "${" + ref + "}" && RefersTo(ref, inputs, outputs, x, py)
  }

  lemma ConditionIsResolved(expr: string, inputs: Data, outputs: map<string, Data>, x: Data, py: Python)
    ensures var e := Strip(expr);
            ConditionIs(expr, inputs, outputs, x, py)
            <==> Bracketed(e) && ResolveRef(Inner(e), inputs, outputs, py) == Val(x)
  {
    var e := Strip(expr);
    if Bracketed(e) {
      RefMeans(Inner(e), inputs, outputs, x, py);
      assert e == "${" + Inner(e) + "}";
    }
    forall ref | e == "${" + ref + "}" ensures Bracketed(e) && Inner(e) == ref {
      assert e[2..|e| - 1] == ref;
    }
  }

  lemma TruthyMeans(v: Data)
    ensures Truthy(v) <==> !Falsy(v)
  {
  }

  lemma ConditionMeans(expr: string, inputs: Data, outputs: map<string, Data>, b: bool, py: Python)
    ensures EvalWhen(expr, inputs, outputs, py) == Val(b)
            <==> exists x :: ConditionIs(expr, inputs, outputs, x, py) && b == !Falsy(x)
  {
    var e := Strip(expr);
    forall x
      ensures ConditionIs(expr, inputs, outputs, x, py)
              <==> Bracketed(e) && ResolveRef(Inner(e), inputs, outputs, py) == Val(x)
      ensures Truthy(x) <==> !Falsy(x)
    {
      ConditionIsResolved(expr, inputs, outputs, x, py);
      TruthyMeans(x);
    }
  }
}
