/** Running a workflow's steps in order, and why the order does not matter. */
module Execution {
  import opened Options
  import opened TopologicalSort
  import opened References
  import opened Strings

  datatype Plan = Plan(uses: string, args: Data, when: Option<string>)

  datatype ToolOutcome = Returned(output: Data) | Raised(error: string)

  datatype Problem =
    | WhenFault(fault: Fault) | ArgsFault(fault: Fault)
    | NoSuchTool(uses: string) | ToolError(error: string)

  /** `Escaped` is no result the program records: the error leaves `run`. */
  datatype StepResult = Output(output: Data) | Skipped | Failed(problem: Problem) | Escaped(error: string)

  /** Deterministic tools: a registry and what each tool returns for a step and its arguments. */
  datatype Env = Env(
    py: Python,
    registered: set<string>,
    invoke: (string, string, Data) -> ToolOutcome)

  datatype State = State(outputs: map<string, Data>, results: map<string, StepResult>)

  /** Faults are recorded, unless they escape. */
  function Faulted(f: Fault, problem: Problem): (r: StepResult)
  {
    if f.Escaping? then Escaped(f.error) else Failed(problem)
  }

  /** One iteration of the loop in `Executor.run`. */
  function RunStep(step: Step<Plan>, inputs: Data, outputs: map<string, Data>, env: Env): (r: StepResult)
  {
    var proceed :=
      if step.plan.when == None then Val(true) else EvalWhen(step.plan.when.value, inputs, outputs, env.py);
    if proceed.Bad? then Faulted(proceed.fault, WhenFault(proceed.fault))
    else if !proceed.value then Skipped
    else
      match Resolve(step.plan.args, inputs, outputs, env.py)
      case Bad(f) => Faulted(f, ArgsFault(f))
      case Val(args) =>
        if step.plan.uses !in env.registered then Failed(NoSuchTool(step.plan.uses))
        else
          match env.invoke(step.plan.uses, step.id, args)
          case Raised(e) => Failed(ToolError(e))
          case Returned(v) => Output(v)
  }

  function Record(s: State, id: string, r: StepResult): (s': State)
  {
    State(if r.Output? then s.outputs[id := r.output] else s.outputs, s.results[id := r])
  }

  /** The steps in order, as if an escaping error ended only its own step. */
  function RunAll(order: seq<Step<Plan>>, inputs: Data, env: Env): (s: State)
  {
    if order == [] then State(map[], map[])
    else
      var n := |order| - 1;
      var s := RunAll(order[..n], inputs, env);
      Record(s, order[n].id, RunStep(order[n], inputs, s.outputs, env))
  }

  /** `Executor.run` after the sort: no results when an error escaped. */
  function RunUntilEscape(order: seq<Step<Plan>>, inputs: Data, env: Env): (r: Option<State>)
  {
    if order == [] then Some(State(map[], map[]))
    else
      var n := |order| - 1;
      match RunUntilEscape(order[..n], inputs, env)
      case None => None
      case Some(s) =>
        var result := RunStep(order[n], inputs, s.outputs, env);
        if result.Escaped? then None else Some(Record(s, order[n].id, result))
  }

  datatype RunOutcome =
    | Finished(results: map<string, StepResult>) | Aborted(error: string) | Refused(reason: Outcome<Plan>)

  /** `Executor.run`. */
  method RunWorkflow(steps: seq<Step<Plan>>, inputs: Data, env: Env)
    returns (r: RunOutcome, ghost order: seq<Step<Plan>>)
    ensures r.Refused? <==> !Sortable(steps)
    ensures !r.Refused? ==>
              && multiset(order) == multiset(steps)
              && TopologicalOrder(GraphOf(steps), IdsOf(order))
              && var s := RunUntilEscape(order, inputs, env);
                 if r.Finished? then s.Some? && r.results == s.value.results else s.None?
  {
    var sorted := Sort(steps);
    if !sorted.Ordered? {
      return Refused(sorted), [];
    }
    order := sorted.steps;
    r := RunInOrder(sorted.steps, inputs, env);
  }

  /** The loop over the sorted steps. */
  method RunInOrder(order: seq<Step<Plan>>, inputs: Data, env: Env) returns (r: RunOutcome)
    ensures !r.Refused?
    ensures var s := RunUntilEscape(order, inputs, env);
            if r.Finished? then s.Some? && r.results == s.value.results else s.None?
  {
    var state := State(map[], map[]);
    for k := 0 to |order|
      invariant RunUntilEscape(order[..k], inputs, env) == Some(state)
    {
      assert order[..k + 1][..k] == order[..k];
      var step := order[k];
      var result := RunStep(step, inputs, state.outputs, env);
      if result.Escaped? {
        EscapeIsFinal(order, k + 1, inputs, env);
        return Aborted(result.error);
      }
      state := Record(state, step.id, result);
    }
    assert order[..|order|] == order;
    r := Finished(state.results);
  }

  lemma {:induction false} EscapeIsFinal(order: seq<Step<Plan>>, k: nat, inputs: Data, env: Env)
    requires k <= |order| && RunUntilEscape(order[..k], inputs, env).None?
    ensures RunUntilEscape(order, inputs, env).None?
    decreases |order|
  {
    if k < |order| {
      var n := |order| - 1;
      assert order[..n][..k] == order[..k];
      EscapeIsFinal(order[..n], k, inputs, env);
    } else {
      assert order[..k] == order;
    }
  }

  // ----- what a step can see -----

  function StepsNamed(p: Plan): (ids: set<string>)
  {
    StepsIn(p.args) + if p.when == None then {} else StepsInWhen(p.when.value)
  }

  ghost predicate Reaches(g: Graph, a: string, b: string)
  {
    exists p :: |p| >= 2 && p[0] == a && p[|p| - 1] == b && IsPath(g, p)
  }

  /** Every step a step refers to is one of its transitive needs. */
  ghost predicate ReferencesDeclared(steps: seq<Step<Plan>>)
  {
    forall s, x :: s in steps && x in StepsNamed(s.plan) ==> Reaches(GraphOf(steps), s.id, x)
  }

  lemma StepDependsOnlyOn(step: Step<Plan>, inputs: Data, o: map<string, Data>, p: map<string, Data>, env: Env)
    requires Agree(o, p, StepsNamed(step.plan))
    ensures RunStep(step, inputs, o, env) == RunStep(step, inputs, p, env)
  {
    ValueDependsOnlyOn(step.plan.args, inputs, o, p, env.py);
    if step.plan.when != None {
      var e := Strip(step.plan.when.value);
      if Bracketed(e) {
        RefDependsOnlyOn(Inner(e), inputs, o, p, env.py);
      }
    }
  }

  // ----- running keeps what it recorded -----

  /** Outputs are exactly the successful results. */
  ghost predicate OutputsMatch(s: State)
  {
    forall x :: (x in s.outputs <==> x in s.results && s.results[x].Output?)
             && (x in s.outputs ==> s.outputs[x] == s.results[x].output)
  }

  lemma RecordKeeps(s: State, id: string, r: StepResult)
    requires OutputsMatch(s) && id !in s.results
    ensures OutputsMatch(Record(s, id, r))
    ensures forall x :: x in Record(s, id, r).results <==> x in s.results || x == id
  {
  }

  lemma {:induction false} RunFacts(order: seq<Step<Plan>>, inputs: Data, env: Env)
    requires UniqueIds(order)
    ensures var s := RunAll(order, inputs, env);
            OutputsMatch(s) && forall x :: x in s.results <==> x in IdsOf(order)
  {
    if order != [] {
      var n := |order| - 1;
      assert order == order[..n] + [order[n]];
      UniqueSnoc(order[..n], order[n]);
      RunFacts(order[..n], inputs, env);
      var s := RunAll(order[..n], inputs, env);
      RecordKeeps(s, order[n].id, RunStep(order[n], inputs, s.outputs, env));
      assert IdsOf(order) == IdsOf(order[..n]) + [order[n].id];
    }
  }

  /** The final result of a step is the one it got at its place in the order. */
  lemma {:induction false} ResultAtPlace(order: seq<Step<Plan>>, i: nat, inputs: Data, env: Env)
    requires UniqueIds(order) && i < |order|
    ensures var s := RunAll(order, inputs, env);
            order[i].id in s.results
            && s.results[order[i].id] == RunStep(order[i], inputs, RunAll(order[..i], inputs, env).outputs, env)
  {
    var n := |order| - 1;
    if i < n {
      assert order == order[..n] + [order[n]];
      UniqueSnoc(order[..n], order[n]);
      ResultAtPlace(order[..n], i, inputs, env);
      assert order[..n][..i] == order[..i];
    }
  }

  /** What is recorded before a place stays as it is to the end. */
  lemma {:induction false} PrefixOutputs(order: seq<Step<Plan>>, i: nat, j: nat, inputs: Data, env: Env)
    requires UniqueIds(order) && j < i <= |order|
    ensures var x := order[j].id;
            var early, late := RunAll(order[..i], inputs, env), RunAll(order, inputs, env);
            && (x in early.outputs <==> x in late.outputs)
            && (x in early.outputs ==> early.outputs[x] == late.outputs[x])
  {
    UniquePrefix(order, i);
    ResultAtPlace(order, j, inputs, env);
    ResultAtPlace(order[..i], j, inputs, env);
    assert order[..i][..j] == order[..j];
    RunFacts(order, inputs, env);
    RunFacts(order[..i], inputs, env);
  }

  lemma UniquePrefix<P>(order: seq<Step<P>>, i: nat)
    requires UniqueIds(order) && i <= |order|
    ensures UniqueIds(order[..i])
  {
    forall a, b | 0 <= a < b < i ensures order[..i][a].id != order[..i][b].id {
      assert order[a].id != order[b].id;
    }
  }

  // ----- errors that escape -----

  ghost predicate AnyEscaped(s: State)
  {
    exists x :: x in s.results && s.results[x].Escaped?
  }

  /** A run ends without results exactly when, running on regardless, some step's error would
      escape. */
  lemma {:induction false} EscapesWhenAnyDoes(order: seq<Step<Plan>>, inputs: Data, env: Env)
    requires UniqueIds(order)
    ensures RunUntilEscape(order, inputs, env)
            == if AnyEscaped(RunAll(order, inputs, env)) then None else Some(RunAll(order, inputs, env))
  {
    if order != [] {
      var n := |order| - 1;
      assert order == order[..n] + [order[n]];
      UniqueSnoc(order[..n], order[n]);
      EscapesWhenAnyDoes(order[..n], inputs, env);
      RunFacts(order[..n], inputs, env);
      var s := RunAll(order[..n], inputs, env);
      RecordEscapes(s, order[n].id, RunStep(order[n], inputs, s.outputs, env));
    }
  }

  lemma RecordEscapes(s: State, id: string, r: StepResult)
    requires id !in s.results
    ensures AnyEscaped(Record(s, id, r)) <==> AnyEscaped(s) || r.Escaped?
  {
    var t := Record(s, id, r);
    assert t.results[id] == r;
    if AnyEscaped(s) {
      var x :| x in s.results && s.results[x].Escaped?;
      assert x in t.results && t.results[x] == s.results[x];
    }
  }

  // ----- order independence -----

  ghost predicate Respects(steps: seq<Step<Plan>>, order: seq<Step<Plan>>)
  {
    && UniqueIds(order)
    && (forall x :: x in order <==> x in steps)
    && TopologicalOrder(GraphOf(steps), IdsOf(order))
  }

  /** A transitive need sits earlier in every respectful order. */
  lemma NeedIsEarlier(steps: seq<Step<Plan>>, order: seq<Step<Plan>>, i: nat, x: string) returns (j: nat)
    requires Respects(steps, order) && i < |order| && Reaches(GraphOf(steps), order[i].id, x)
    ensures j < i && order[j].id == x
  {
    var g := GraphOf(steps);
    var p :| |p| >= 2 && p[0] == order[i].id && p[|p| - 1] == x && IsPath(g, p);
    j := PathDescends(g, IdsOf(order), p, i);
  }

  lemma {:induction false} SameResult(
      steps: seq<Step<Plan>>, a: seq<Step<Plan>>, b: seq<Step<Plan>>, i: nat, inputs: Data, env: Env)
    requires ReferencesDeclared(steps) && Respects(steps, a) && Respects(steps, b) && i < |a|
    ensures var r, t := RunAll(a, inputs, env).results, RunAll(b, inputs, env).results;
            a[i].id in r && a[i].id in t && r[a[i].id] == t[a[i].id]
    decreases i
  {
    assert a[i] in b;
    var j :| 0 <= j < |b| && b[j] == a[i];
    var o, p := RunAll(a[..i], inputs, env).outputs, RunAll(b[..j], inputs, env).outputs;
    forall x | x in StepsNamed(a[i].plan) ensures (x in o <==> x in p) && (x in o ==> o[x] == p[x]) {
      SeenAlike(steps, a, b, i, j, x, inputs, env);
    }
    StepDependsOnlyOn(a[i], inputs, o, p, env);
    ResultAtPlace(a, i, inputs, env);
    ResultAtPlace(b, j, inputs, env);
  }

  /** At its place in either order, a step sees the same output of each step it names. */
  lemma {:induction false} SeenAlike(
      steps: seq<Step<Plan>>, a: seq<Step<Plan>>, b: seq<Step<Plan>>, i: nat, j: nat, x: string, inputs: Data, env: Env)
    requires ReferencesDeclared(steps) && Respects(steps, a) && Respects(steps, b)
    requires i < |a| && j < |b| && b[j] == a[i] && x in StepsNamed(a[i].plan)
    ensures var o, p := RunAll(a[..i], inputs, env).outputs, RunAll(b[..j], inputs, env).outputs;
            (x in o <==> x in p) && (x in o ==> o[x] == p[x])
    decreases i, 0
  {
    assert a[i] in steps && Reaches(GraphOf(steps), a[i].id, x);
    var i' := NeedIsEarlier(steps, a, i, x);
    var j' := NeedIsEarlier(steps, b, j, x);
    SameResult(steps, a, b, i', inputs, env);
    PrefixOutputs(a, i, i', inputs, env);
    PrefixOutputs(b, j, j', inputs, env);
    RunFacts(a, inputs, env);
    RunFacts(b, inputs, env);
  }

  lemma RanTheOrder(order: seq<Step<Plan>>, inputs: Data, env: Env, x: string)
    requires UniqueIds(order)
    ensures x in RunAll(order, inputs, env).results <==> x in IdsOf(order)
  {
    RunFacts(order, inputs, env);
  }

  lemma SameResultOf(
      steps: seq<Step<Plan>>, a: seq<Step<Plan>>, b: seq<Step<Plan>>, inputs: Data, env: Env, x: string)
    requires ReferencesDeclared(steps) && Respects(steps, a) && Respects(steps, b)
    ensures var r, t := RunAll(a, inputs, env).results, RunAll(b, inputs, env).results;
            (x in r <==> x in t) && (x in r ==> r[x] == t[x])
  {
    RanTheOrder(a, inputs, env, x);
    RanTheOrder(b, inputs, env, x);
    SameIds(steps, a, b, x);
    SameIds(steps, b, a, x);
    if x in IdsOf(a) {
      var i :| 0 <= i < |a| && IdsOf(a)[i] == x;
      SameResult(steps, a, b, i, inputs, env);
    }
  }

  lemma {:induction false} SameResults(
      steps: seq<Step<Plan>>, a: seq<Step<Plan>>, b: seq<Step<Plan>>, inputs: Data, env: Env)
    requires ReferencesDeclared(steps) && Respects(steps, a) && Respects(steps, b)
    ensures RunAll(a, inputs, env).results == RunAll(b, inputs, env).results
  {
    var r, t := RunAll(a, inputs, env).results, RunAll(b, inputs, env).results;
    forall x ensures (x in r <==> x in t) && (x in r ==> r[x] == t[x]) {
      SameResultOf(steps, a, b, inputs, env, x);
    }
    assert r.Keys == t.Keys;
  }

  ghost function ResultsOf(r: Option<State>): (results: Option<map<string, StepResult>>)
  {
    match r case None => None case Some(s) => Some(s.results)
  }

  /** Any two orders that respect the needs give every step the same result, or in both an
      error escapes. */
  lemma {:induction false} OrderIndependence(
      steps: seq<Step<Plan>>, a: seq<Step<Plan>>, b: seq<Step<Plan>>, inputs: Data, env: Env)
    requires ReferencesDeclared(steps) && Respects(steps, a) && Respects(steps, b)
    ensures ResultsOf(RunUntilEscape(a, inputs, env)) == ResultsOf(RunUntilEscape(b, inputs, env))
  {
    SameResults(steps, a, b, inputs, env);
    EscapesWhenAnyDoes(a, inputs, env);
    EscapesWhenAnyDoes(b, inputs, env);
  }

  lemma SameIds(steps: seq<Step<Plan>>, a: seq<Step<Plan>>, b: seq<Step<Plan>>, x: string)
    requires Respects(steps, a) && Respects(steps, b)
    ensures x in IdsOf(a) ==> x in IdsOf(b)
  {
    if x in IdsOf(a) {
      var i :| 0 <= i < |a| && IdsOf(a)[i] == x;
      assert a[i] in b;
      var j :| 0 <= j < |b| && b[j] == a[i];
      assert IdsOf(b)[j] == x;
    }
  }

  /** The results of a run are those of every respectful order. */
  lemma {:induction false} SortedRunIsEveryRun(steps: seq<Step<Plan>>, sorted: seq<Step<Plan>>, other: seq<Step<Plan>>,
      inputs: Data, env: Env)
    requires UniqueIds(steps) && ReferencesDeclared(steps)
    requires multiset(sorted) == multiset(steps) && TopologicalOrder(GraphOf(steps), IdsOf(sorted))
    requires multiset(other) == multiset(steps) && TopologicalOrder(GraphOf(steps), IdsOf(other))
    ensures ResultsOf(RunUntilEscape(sorted, inputs, env)) == ResultsOf(RunUntilEscape(other, inputs, env))
  {
    PermutationRespects(steps, sorted);
    PermutationRespects(steps, other);
    OrderIndependence(steps, sorted, other, inputs, env);
  }

  lemma PermutationRespects(steps: seq<Step<Plan>>, order: seq<Step<Plan>>)
    requires multiset(order) == multiset(steps) && TopologicalOrder(GraphOf(steps), IdsOf(order))
    ensures Respects(steps, order)
  {
    forall x ensures x in order <==> x in steps {
      assert x in order <==> x in multiset(order);
      assert x in steps <==> x in multiset(steps);
    }
    forall i, j | 0 <= i < j < |order| ensures order[i].id != order[j].id {
      assert IdsOf(order)[i] != IdsOf(order)[j];
    }
  }

  // ----- what a run records -----

  /** The outputs recorded by the steps before the `i`-th. */
  ghost function Seen(order: seq<Step<Plan>>, i: nat, results: map<string, StepResult>): (seen: map<string, Data>)
    requires i <= |order|
  {
    map x | x in results && results[x].Output? && x in IdsOf(order[..i]) :: results[x].output
  }

  /** The step has no condition, or one whose value is not false, zero, none or empty. */
  ghost predicate Proceeds(plan: Plan, inputs: Data, seen: map<string, Data>, py: Python)
  {
    plan.when.None? || exists x :: ConditionIs(plan.when.value, inputs, seen, x, py) && !Falsy(x)
  }

  /** The tool is called with these arguments. */
  ghost predicate Calls(plan: Plan, inputs: Data, seen: map<string, Data>, env: Env, args: Data)
  {
    && Proceeds(plan, inputs, seen, env.py) && Becomes(plan.args, args, inputs, seen, env.py)
    && plan.uses in env.registered
  }

  /** It was skipped exactly when its condition has a value that counts as false. */
  ghost predicate TellsSkip(step: Step<Plan>, inputs: Data, seen: map<string, Data>, env: Env, r: StepResult)
  {
    r.Skipped? <==>
      step.plan.when.Some? && exists x :: ConditionIs(step.plan.when.value, inputs, seen, x, env.py) && Falsy(x)
  }

  /** What it put out, or the error it failed with, is what its tool made of its arguments. */
  ghost predicate TellsTool(step: Step<Plan>, inputs: Data, seen: map<string, Data>, env: Env, r: StepResult)
  {
    && (forall v :: r == Output(v) <==>
          exists args :: Calls(step.plan, inputs, seen, env, args)
                    && env.invoke(step.plan.uses, step.id, args) == Returned(v))
    && (forall e :: r == Failed(ToolError(e)) <==>
          exists args :: Calls(step.plan, inputs, seen, env, args)
                    && env.invoke(step.plan.uses, step.id, args) == Raised(e))
  }

  /** It failed without a call exactly when its tool is not registered, its arguments refer to
      nothing, or its condition does. */
  ghost predicate TellsFault(step: Step<Plan>, inputs: Data, seen: map<string, Data>, env: Env, r: StepResult)
  {
    var plan := step.plan;
    && ((r.Failed? && r.problem.NoSuchTool?) <==>
          && Proceeds(plan, inputs, seen, env.py) && plan.uses !in env.registered
          && exists args :: Becomes(plan.args, args, inputs, seen, env.py))
    && (((r.Failed? && r.problem.ArgsFault?) || (r.Escaped? && Proceeds(plan, inputs, seen, env.py))) <==>
          Proceeds(plan, inputs, seen, env.py) && !exists args :: Becomes(plan.args, args, inputs, seen, env.py))
    && (((r.Failed? && r.problem.WhenFault?) || (r.Escaped? && !Proceeds(plan, inputs, seen, env.py))) <==>
          plan.when.Some? && !exists x :: ConditionIs(plan.when.value, inputs, seen, x, env.py))
  }

  /** What a step's recorded result says. */
  ghost predicate Tells(step: Step<Plan>, inputs: Data, seen: map<string, Data>, env: Env, r: StepResult)
  {
    && TellsSkip(step, inputs, seen, env, r) && TellsTool(step, inputs, seen, env, r)
    && TellsFault(step, inputs, seen, env, r)
  }

  lemma ProceedsMeans(plan: Plan, inputs: Data, seen: map<string, Data>, py: Python)
    ensures var proceed := if plan.when == None then Val(true) else EvalWhen(plan.when.value, inputs, seen, py);
            && (proceed == Val(true) <==> Proceeds(plan, inputs, seen, py))
            && (proceed == Val(false) <==>
                  plan.when.Some? && exists x :: ConditionIs(plan.when.value, inputs, seen, x, py) && Falsy(x))
            && (proceed.Bad? <==> plan.when.Some? && !exists x :: ConditionIs(plan.when.value, inputs, seen, x, py))
  {
    if plan.when.Some? {
      ConditionMeans(plan.when.value, inputs, seen, true, py);
      ConditionMeans(plan.when.value, inputs, seen, false, py);
    }
  }

  lemma ArgsMean(plan: Plan, inputs: Data, seen: map<string, Data>, py: Python)
    ensures forall args :: Resolve(plan.args, inputs, seen, py) == Val(args)
                           <==> Becomes(plan.args, args, inputs, seen, py)
  {
    forall args
      ensures Resolve(plan.args, inputs, seen, py) == Val(args) <==> Becomes(plan.args, args, inputs, seen, py)
    {
      ResolveMeans(plan.args, args, inputs, seen, py);
    }
  }

  lemma SkipIsTold(step: Step<Plan>, inputs: Data, seen: map<string, Data>, env: Env)
    ensures TellsSkip(step, inputs, seen, env, RunStep(step, inputs, seen, env))
  {
    ProceedsMeans(step.plan, inputs, seen, env.py);
  }

  lemma ToolIsTold(step: Step<Plan>, inputs: Data, seen: map<string, Data>, env: Env)
    ensures TellsTool(step, inputs, seen, env, RunStep(step, inputs, seen, env))
  {
    ProceedsMeans(step.plan, inputs, seen, env.py);
    ArgsMean(step.plan, inputs, seen, env.py);
  }

  lemma FaultIsTold(step: Step<Plan>, inputs: Data, seen: map<string, Data>, env: Env)
    ensures TellsFault(step, inputs, seen, env, RunStep(step, inputs, seen, env))
  {
    ProceedsMeans(step.plan, inputs, seen, env.py);
    ArgsMean(step.plan, inputs, seen, env.py);
  }

  lemma StepTells(step: Step<Plan>, inputs: Data, seen: map<string, Data>, env: Env)
    ensures Tells(step, inputs, seen, env, RunStep(step, inputs, seen, env))
  {
    SkipIsTold(step, inputs, seen, env);
    ToolIsTold(step, inputs, seen, env);
    FaultIsTold(step, inputs, seen, env);
  }

  lemma SeenOne(order: seq<Step<Plan>>, i: nat, x: string, inputs: Data, env: Env)
    requires UniqueIds(order) && i <= |order|
    ensures var early, late := RunAll(order[..i], inputs, env), RunAll(order, inputs, env);
            && (x in early.outputs <==> x in late.results && late.results[x].Output? && x in IdsOf(order[..i]))
            && (x in early.outputs ==> early.outputs[x] == late.results[x].output)
  {
    UniquePrefix(order, i);
    RunFacts(order, inputs, env);
    RunFacts(order[..i], inputs, env);
    if x in IdsOf(order[..i]) {
      var j :| 0 <= j < i && IdsOf(order[..i])[j] == x;
      PrefixOutputs(order, i, j, inputs, env);
    }
  }

  lemma SeenAtPlace(order: seq<Step<Plan>>, i: nat, inputs: Data, env: Env)
    requires UniqueIds(order) && i <= |order|
    ensures Seen(order, i, RunAll(order, inputs, env).results) == RunAll(order[..i], inputs, env).outputs
  {
    var early, seen := RunAll(order[..i], inputs, env), Seen(order, i, RunAll(order, inputs, env).results);
    forall x ensures (x in seen <==> x in early.outputs) && (x in seen ==> seen[x] == early.outputs[x]) {
      SeenOne(order, i, x, inputs, env);
    }
    assert seen.Keys == early.outputs.Keys;
  }

  /** In a finished run each step's result is what its condition, its arguments and its tool
      make of the inputs and the outputs of the steps before it. */
  lemma ResultsMean(order: seq<Step<Plan>>, i: nat, inputs: Data, env: Env, s: State)
    requires UniqueIds(order) && i < |order| && RunUntilEscape(order, inputs, env) == Some(s)
    ensures order[i].id in s.results
    ensures Tells(order[i], inputs, Seen(order, i, s.results), env, s.results[order[i].id])
  {
    EscapesWhenAnyDoes(order, inputs, env);
    ResultAtPlace(order, i, inputs, env);
    SeenAtPlace(order, i, inputs, env);
    StepTells(order[i], inputs, Seen(order, i, s.results), env);
  }
}
