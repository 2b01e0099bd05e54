/** What a user of slug scripts may rely on, and where the interpreter leaves Python. */
module SlugTheorems {
  import opened SlugAst
  import opened SlugValidator
  import opened SlugExecution
  import opened SlugLaws
  import opened PythonExpressions
  import opened PythonSemantics
  import opened SlugRefinement
  import opened SlugEvaluator

  // ---- Main theorems, for every accepted program ----

  // c and env are how the one run of a program ends.
  ghost predicate OneRun(m: Reference, watched: bool, program: seq<Stmt>, start: Env, c: Completion, env: Env) {
    && RunsBlock(m, watched, program, start, c, env)
    && forall c', env' :: RunsBlock(m, watched, program, start, c', env') ==> c' == c && env' == env
  }

  /** A run that the budget did not stop follows one watched run: it ends the same way
      exactly when that run does not part ways, and then it is the one run Python makes.
      In particular a program without such a run is always stopped by the budget. */
  lemma UnstoppedRunIsPython(py: ObjectModel, lim: Limits, program: seq<Stmt>, st: State)
    returns (c: Completion, env: Env)
    requires ValidBlock(program) && !BudgetFailure(Block(py, lim, program, st).out)
    ensures OneRun(FunctionOf(py, program), true, program, st.vars, c, env)
    ensures var r := Block(py, lim, program, st);
            (c == Decode(r.out) && env == r.st.vars) <==> !PartsWays(c)
    ensures !PartsWays(c) ==> OneRun(FunctionOf(py, program), false, program, st.vars, c, env)
  {
    var m := FunctionOf(py, program);
    c, env := BlockIsFaithful(m, lim, program, st);
    BlockIsOrderly(py, lim, program, st);
    TheOneRun(m, true, program, st.vars, c, env);
    if !PartsWays(c) {
      WatchingIsHarmless(m, program, st.vars, c, env);
    }
  }

  lemma TheOneRun(m: Reference, watched: bool, program: seq<Stmt>, start: Env, c: Completion, env: Env)
    requires RunsBlock(m, watched, program, start, c, env)
    ensures OneRun(m, watched, program, start, c, env)
  {
    forall c', env' | RunsBlock(m, watched, program, start, c', env') ensures c' == c && env' == env {
      PythonIsDeterministic(m, watched, program, start, c, env, c', env');
    }
  }

  /** A program whose watched run does not part ways has an exact cost, in statements and in
      rounds of its longest loop: the interpreter ends as that run does under every budget
      that covers the cost, and is stopped by every budget that does not. */
  lemma PythonRunIsComputed(py: ObjectModel, program: seq<Stmt>, env: Env, c: Completion, env': Env)
    returns (cost: Limits)
    requires ValidBlock(program) && !PartsWays(c)
    requires RunsBlock(FunctionOf(py, program), true, program, env, c, env')
    ensures Unbudgeted(c)
    ensures forall lim: Limits ::
      if cost.steps <= lim.steps && cost.iterations <= lim.iterations
      then Block(py, lim, program, State(env, 0)) == Run(Encode(c), State(env', cost.steps))
      else BudgetFailure(Block(py, lim, program, State(env, 0)).out)
  {
    var m := FunctionOf(py, program);
    var depth: nat :| RunsBlock#[depth](m, true, program, env, c, env');
    cost := BlockHasCost(depth, m, program, env, c, env');
    forall lim: Limits
      ensures Decided(Block(py, lim, program, State(env, 0)), Covers(lim, 0, cost), c, env', cost.steps)
    {
      assert 0 <= lim.steps && 0 + cost.steps == cost.steps;
    }
  }

  /** Whatever Python's run of a program ends with, the interpreter ends so under every
      budget that is large enough, unless the run leaves a loop's else block by break or
      continue or otherwise parts ways. */
  lemma PythonRunIsReached(py: ObjectModel, program: seq<Stmt>, env: Env, c: Completion, env': Env)
    returns (watched: Completion, cost: Limits)
    requires ValidBlock(program) && !PartsWays(c)
    requires RunsBlock(FunctionOf(py, program), false, program, env, c, env')
    ensures watched == c || watched == Departed(LeftElse)
    ensures watched == c ==> forall lim: Limits :: cost.steps <= lim.steps && cost.iterations <= lim.iterations ==>
      Block(py, lim, program, State(env, 0)) == Run(Encode(c), State(env', cost.steps))
  {
    var env1;
    watched, env1 := PythonRunIsWatched(FunctionOf(py, program), program, env, c, env');
    cost := Limits(0, 0);
    if watched == c {
      cost := PythonRunIsComputed(py, program, env, c, env');
    }
  }

  // What should_include answers when its body completes: falling off the end is an error
  // of its own in this language.
  function Answered(c: Completion): Outcome<bool>
    requires !c.Departed? && c != Broke && c != Continued
  {
    match c
    case Returned(v) => Ok(Truth(v))
    case Normal => Err(NoReturnValue)
    case Raised(f) => Err(f)
  }

  predicate Answers(c: Completion) {
    !PartsWays(c) && c != Broke && c != Continued
  }

  /** The published entry point, under the limits it runs with: an answer within the budget
      is the answer of Python's run on the normalized slug. */
  lemma EvaluateAnswersAsPython(py: ObjectModel, program: seq<Stmt>, rawSlug: string)
    returns (c: Completion, env: Env)
    requires ValidBlock(program)
    requires !BudgetFailure(Block(py, MAX_LIMITS, program, Start(py, rawSlug)).out)
    ensures OneRun(FunctionOf(py, program), true, program, Start(py, rawSlug).vars, c, env)
    ensures Answers(c) ==>
      && OneRun(FunctionOf(py, program), false, program, Start(py, rawSlug).vars, c, env)
      && Verdict(Block(py, MAX_LIMITS, program, Start(py, rawSlug)).out) == Answered(c)
  {
    c, env := UnstoppedRunIsPython(py, MAX_LIMITS, program, Start(py, rawSlug));
  }

  /** Python's answer is given exactly when its run takes no more than 50,000 statements and
      no loop in it more than 10,000 rounds. */
  lemma EvaluateAnswersExactly(py: ObjectModel, program: seq<Stmt>, rawSlug: string, c: Completion, env: Env)
    returns (cost: Limits)
    requires ValidBlock(program) && Answers(c)
    requires RunsBlock(FunctionOf(py, program), true, program, Start(py, rawSlug).vars, c, env)
    ensures var r := Block(py, MAX_LIMITS, program, Start(py, rawSlug));
            && (Verdict(r.out) == Answered(c) <==> cost.steps <= 50_000 && cost.iterations <= 10_000)
            && (Verdict(r.out) == Answered(c) <==> !BudgetFailure(r.out))
    ensures forall lim: Limits :: BudgetFailure(Block(py, lim, program, Start(py, rawSlug)).out) <==>
      lim.steps < cost.steps || lim.iterations < cost.iterations
  {
    cost := PythonRunIsComputed(py, program, Start(py, rawSlug).vars, c, env);
  }

  // ---- Where the interpreter leaves Python ----

  /** break and continue in a loop's else block, for every accepted loop: an unstopped loop
      whose parts did not part ways before ends as Python's exactly when its else block does
      not break or continue; when it does, the interpreter goes on after the loop. */
  lemma ElseBlockExactly(m: Reference, lim: Limits, s: Stmt, st: State)
    returns (c: Completion, env: Env)
    requires (s.For? || s.While?) && ValidStmt(s) && !BudgetFailure(Exec(m.py, lim, s, st).out)
    ensures RunsLoop(m, true, s, st.vars, c, env)
    ensures var r := Exec(m.py, lim, s, st);
            !PartsWays(c) ==>
              && env == r.st.vars
              && (c == Decode(r.out) <==> c != Broke && c != Continued)
              && (c == Broke || c == Continued ==> r.out == Ok(Sentinel))
  {
    LoopNeverLeaks(m.py, lim, s, st);
    c, env := LoopIsFaithful(m, lim, s, st);
  }

  /** break and continue outside every loop: the whitelist lets them through, and the
      object they leave behind is reported as an inclusion exactly when Python's block
      completes with them. */
  lemma StrayBreakExactly(py: ObjectModel, lim: Limits, program: seq<Stmt>, st: State)
    returns (c: Completion, env: Env)
    requires ValidBlock(program) && !BudgetFailure(Block(py, lim, program, st).out)
    ensures OneRun(FunctionOf(py, program), true, program, st.vars, c, env)
    ensures !PartsWays(c) ==>
      && OneRun(FunctionOf(py, program), false, program, st.vars, c, env)
      && (Leaks(Block(py, lim, program, st).out) <==> c == Broke || c == Continued)
    ensures c == Broke || c == Continued ==> Verdict(Block(py, lim, program, st).out) == Ok(true)
  {
    c, env := UnstoppedRunIsPython(py, lim, program, st);
  }
}
