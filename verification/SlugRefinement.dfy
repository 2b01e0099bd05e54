/** The interpreter against the Python Language Reference, for every accepted program. An
    unstopped run ends as Python's does unless Python's parts ways with it, and a program
    that ends in Python ends in the interpreter, at an exact cost, exactly when the budget
    covers that cost. */
module SlugRefinement {
  import opened Prelude
  import opened SlugAst
  import opened SlugValidator
  import opened SlugExpressions
  import opened SlugExecution
  import opened SlugLaws
  import opened PythonExpressions
  import opened PythonSemantics

  function Decode(out: Outcome<Signal>): Completion {
    match out
    case Ok(Sentinel) => Normal
    case Ok(BreakSignal) => Broke
    case Ok(ContinueSignal) => Continued
    case Ok(Result(v)) => Returned(v)
    case Err(f) => Raised(f)
  }

  function Encode(c: Completion): Outcome<Signal>
    requires !c.Departed?
  {
    match c
    case Normal => Ok(Sentinel)
    case Broke => Ok(BreakSignal)
    case Continued => Ok(ContinueSignal)
    case Returned(v) => Ok(Result(v))
    case Raised(f) => Err(f)
  }

  // Python does what the interpreter does not: it raises at `x += e` with x unbound, updates
  // a list in place, leaves a loop's else block by break or continue, takes a global name
  // for a value, or calls a local one.
  predicate PartsWays(c: Completion) {
    c.Departed? || (c.Raised? && (c.failure.UnboundAugmented? || Strays(c.failure)))
  }

  // What is left of a loop's completion when its else block's break and continue are dropped.
  function Swallowed(c: Completion): Completion {
    if c == Broke || c == Continued then Normal else c
  }

  // ---- An unstopped run is a Python run ----

  predicate Matches(c: Completion, env: Env, r: Run) {
    PartsWays(c) || (c == Decode(r.out) && env == r.st.vars)
  }

  lemma {:induction false} ExecIsFaithful(m: Reference, lim: Limits, s: Stmt, st: State)
    returns (c: Completion, env: Env)
    requires ValidStmt(s) && !BudgetFailure(Exec(m.py, lim, s, st).out)
    ensures Runs(m, true, s, st.vars, c, env) && Matches(c, env, Exec(m.py, lim, s, st))
    decreases s, 4, 0
  {
    hide ValidStmt, Block, RunsBlock, RunsLoop, Eval, PyEval, WhileLoop, ForLoop;
    if s.If? {
      c, env := IfIsFaithful(m, lim, s, st);
    } else if s.For? || s.While? {
      var c0;
      c0, env := LoopIsFaithful(m, lim, s, st);
      c := AtLoopEnd(true, c0);
    } else {
      SimpleIsFaithful(m, lim, s, st.(steps := st.steps + 1));
      c, env := Simple(m, s, st.vars).value.0, Simple(m, s, st.vars).value.1;
    }
  }

  lemma {:induction false} IfIsFaithful(m: Reference, lim: Limits, s: Stmt, st: State)
    returns (c: Completion, env: Env)
    requires s.If? && ValidStmt(s) && !BudgetFailure(Exec(m.py, lim, s, st).out)
    ensures Runs(m, true, s, st.vars, c, env) && Matches(c, env, Exec(m.py, lim, s, st))
    decreases s, 3, 0
  {
    hide ValidStmt, ValidExpr, Block, RunsBlock, Eval, PyEval, PlainExpr;
    ValidParts(s);
    EvalIsPython(m, st.vars, s.test);
    if PyEval(m, st.vars, s.test).Ok? {
      var branch := if Truth(PyEval(m, st.vars, s.test).value) then s.body else s.orelse;
      c, env := BlockIsFaithful(m, lim, branch, st.(steps := st.steps + 1));
    } else {
      c, env := Raised(PyEval(m, st.vars, s.test).failure), st.vars;
    }
  }

  // Up to what the loop's own else block completes with.
  lemma {:induction false} LoopIsFaithful(m: Reference, lim: Limits, s: Stmt, st: State)
    returns (c: Completion, env: Env)
    requires (s.For? || s.While?) && ValidStmt(s) && !BudgetFailure(Exec(m.py, lim, s, st).out)
    ensures RunsLoop(m, true, s, st.vars, c, env) && Matches(Swallowed(c), env, Exec(m.py, lim, s, st))
    decreases s, 3, 0
  {
    hide ValidStmt, ValidExpr, Block, RunsBlock, Eval, PyEval, WhileLoop, ForLoop, RunsWhile, RunsFor, PlainExpr;
    ValidParts(s);
    var st1 := st.(steps := st.steps + 1);
    if s.For? {
      ItemsArePython(m, st.vars, s.iter);
    }
    if s.While? {
      c, env := WhileIsFaithful(m, lim, s, 0, st1);
    } else if PyItems(m, st.vars, s.iter).Ok? {
      c, env := ForIsFaithful(m, lim, s, PyItems(m, st.vars, s.iter).value, 0, st1);
    } else {
      c, env := Raised(PyItems(m, st.vars, s.iter).failure), st.vars;
    }
  }

  lemma SimpleIsFaithful(m: Reference, lim: Limits, s: Stmt, st: State)
    requires ValidStmt(s) && !s.If? && !s.For? && !s.While?
    ensures Simple(m, s, st.vars).Some?
    ensures var (c, env) := Simple(m, s, st.vars).value;
            PartsWays(c) || Perform(m.py, lim, s, st) == Run(Encode(c), st.(vars := env))
  {
    if s.AugAssign? {
      AugAssignIsFaithful(m, s, st);
    } else {
      OptionIsPython(m, st.vars, Head(s));
    }
    hide Eval, PyEval, PlainExpr, ValidExpr, Augment, AugAssignRule;
  }

  lemma AugAssignIsFaithful(m: Reference, s: Stmt, st: State)
    requires ValidStmt(s) && s.AugAssign?
    ensures var (c, env) := AugAssignRule(m, st.vars, s.target.id, s.op, s.value);
            PartsWays(c) || Augment(m.py, s.target, s.op, s.value, st) == Run(Encode(c), st.(vars := env))
    ensures PyEval(m, st.vars, s.value).Ok? ==>
      (PartsWays(AugAssignRule(m, st.vars, s.target.id, s.op, s.value).0) <==>
         s.target.id !in st.vars || (st.vars[s.target.id].ListV? && s.op != Sub))
  {
    EvalIsPython(m, st.vars, s.value);
    hide Eval, PyEval, PlainExpr, ValidExpr;
  }

  lemma {:induction false} BlockIsFaithful(m: Reference, lim: Limits, ss: seq<Stmt>, st: State)
    returns (c: Completion, env: Env)
    requires ValidBlock(ss) && !BudgetFailure(Block(m.py, lim, ss, st).out)
    ensures RunsBlock(m, true, ss, st.vars, c, env) && Matches(c, env, Block(m.py, lim, ss, st))
    decreases ss, 0, 0
  {
    if ss == [] {
      c, env := Normal, st.vars;
    } else {
      c, env := ExecIsFaithful(m, lim, ss[0], st);
      if c == Normal {
        c, env := BlockIsFaithful(m, lim, ss[1..], Exec(m.py, lim, ss[0], st).st);
      }
    }
  }

  lemma {:induction false} WhileIsFaithful(m: Reference, lim: Limits, s: Stmt, n: nat, st: State)
    returns (c: Completion, env: Env)
    requires s.While? && ValidStmt(s) && !BudgetFailure(WhileLoop(m.py, lim, s, n, st).out)
    ensures RunsWhile(m, true, s, st.vars, c, env) && Matches(Swallowed(c), env, WhileLoop(m.py, lim, s, n, st))
    decreases s, 2, if n <= lim.iterations then lim.iterations - n + 1 else 0
  {
    hide ValidStmt, ValidExpr, WhileLoop, RunsWhile, RunsBlock, Block, Exec, Eval, PyEval, PlainExpr;
    ValidParts(s);
    EvalIsPython(m, st.vars, s.test);
    var test := PyEval(m, st.vars, s.test);
    if test.Ok? && Truth(test.value) {
      var c1, env1 := RoundIsFaithful(m, lim, s, n, st);
      c, env := AfterLoop(c1), env1;
      if c1 == Normal || c1 == Continued {
        c, env := WhileIsFaithful(m, lim, s, n + 1, Block(m.py, lim, s.body, st).st);
      }
      WhileRoundRule(m, true, s, st.vars, c1, env1, c, env);
    } else {
      c, env := NoRoundIsFaithful(m, lim, s, n, st);
    }
  }

  lemma ValidParts(s: Stmt)
    requires ValidStmt(s)
    ensures s.If? || s.While? ==> ValidExpr(s.test)
    ensures s.For? ==> ValidExpr(s.iter) && s.target.Name?
    ensures s.If? || s.While? || s.For? ==> ValidBlock(s.body) && ValidBlock(s.orelse)
  {
  }

  lemma {:induction false} NoRoundIsFaithful(m: Reference, lim: Limits, s: Stmt, n: nat, st: State)
    returns (c: Completion, env: Env)
    requires s.While? && ValidStmt(s) && !BudgetFailure(WhileLoop(m.py, lim, s, n, st).out)
    requires PyEval(m, st.vars, s.test).Ok? ==> !Truth(PyEval(m, st.vars, s.test).value)
    ensures RunsWhile(m, true, s, st.vars, c, env) && Matches(Swallowed(c), env, WhileLoop(m.py, lim, s, n, st))
    decreases s, 1
  {
    hide ValidStmt, ValidExpr, RunsWhile, RunsBlock, Block, Exec, Eval, PyEval, PlainExpr;
    ValidParts(s);
    EvalIsPython(m, st.vars, s.test);
    if PyEval(m, st.vars, s.test).Ok? {
      c, env := BlockIsFaithful(m, lim, s.orelse, st);
    } else {
      c, env := Raised(PyEval(m, st.vars, s.test).failure), st.vars;
    }
    WhileRule(m, true, s, st.vars, c, env);
  }

  // A round that is not stopped, and what the loop does after it.
  lemma {:induction false} RoundIsFaithful(m: Reference, lim: Limits, s: Stmt, n: nat, st: State)
    returns (c1: Completion, env1: Env)
    requires s.While? && ValidStmt(s) && !BudgetFailure(WhileLoop(m.py, lim, s, n, st).out)
    requires Eval(m.py, st.vars, s.test).Ok? && Truth(Eval(m.py, st.vars, s.test).value)
    ensures RunsBlock(m, true, s.body, st.vars, c1, env1) && n + 1 <= lim.iterations
    ensures var r := Block(m.py, lim, s.body, st);
            && Matches(c1, env1, r)
            && WhileLoop(m.py, lim, s, n, st) ==
               if GoesOn(r.out) then WhileLoop(m.py, lim, s, n + 1, r.st) else LoopExit(r)
    decreases s, 1
  {
    hide ValidStmt, RunsBlock, Block, Exec, Eval;
    ValidParts(s);
    c1, env1 := BlockIsFaithful(m, lim, s.body, st);
  }

  lemma {:induction false} ForIsFaithful(m: Reference, lim: Limits, s: Stmt, items: seq<Value>, n: nat, st: State)
    returns (c: Completion, env: Env)
    requires s.For? && ValidStmt(s) && !BudgetFailure(ForLoop(m.py, lim, s, items, n, st).out)
    ensures RunsFor(m, true, s, items, st.vars, c, env)
    ensures Matches(Swallowed(c), env, ForLoop(m.py, lim, s, items, n, st))
    decreases s, 1, |items|
  {
    hide ValidStmt, ValidExpr, Block, RunsBlock, Exec, Eval, PyEval;
    ValidParts(s);
    if items == [] {
      c, env := BlockIsFaithful(m, lim, s.orelse, st);
    } else {
      var st1 := st.(vars := Target(s, items[0], st.vars));
      var c1, env1 := BlockIsFaithful(m, lim, s.body, st1);
      c, env := AfterLoop(c1), env1;
      if c1 == Normal || c1 == Continued {
        c, env := ForIsFaithful(m, lim, s, items[1..], n + 1, Block(m.py, lim, s.body, st1).st);
      }
    }
  }

  // ---- A Python run is what every budget that covers it computes, and no other ----

  // A budget, of which k steps are spent, covers a cost in steps and rounds per loop.
  predicate Covers(lim: Limits, k: nat, cost: Limits) {
    k + cost.steps <= lim.steps && cost.iterations <= lim.iterations
  }

  // A run ends with c if it is covered, and is stopped by the budget if it is not.
  predicate Decided(r: Run, covered: bool, c: Completion, env: Env, steps: nat)
    requires !c.Departed?
  {
    if covered then r == Run(Encode(c), State(env, steps)) else BudgetFailure(r.out)
  }

  ghost predicate Costs(m: Reference, s: Stmt, env: Env, c: Completion, env': Env, cost: Limits)
    requires !c.Departed?
  {
    forall lim: Limits, k: nat :: k <= lim.steps ==>
      Decided(Exec(m.py, lim, s, State(env, k)), Covers(lim, k, cost), c, env', k + cost.steps)
  }

  // The statement itself, its own tick not counted.
  ghost predicate PerformCosts(m: Reference, s: Stmt, env: Env, c: Completion, env': Env, cost: Limits)
    requires !c.Departed?
  {
    forall lim: Limits, k: nat :: k <= lim.steps ==>
      Decided(Perform(m.py, lim, s, State(env, k)), Covers(lim, k, cost), c, env', k + cost.steps)
  }

  ghost predicate BlockCosts(m: Reference, ss: seq<Stmt>, env: Env, c: Completion, env': Env, cost: Limits)
    requires !c.Departed?
  {
    forall lim: Limits, k: nat :: k <= lim.steps ==>
      Decided(Block(m.py, lim, ss, State(env, k)), Covers(lim, k, cost), c, env', k + cost.steps)
  }

  // A loop that goes on: its own rounds add to those it has made, the loops inside start anew.
  datatype LoopCost = LoopCost(steps: nat, rounds: nat, inner: nat)

  predicate LoopCovers(lim: Limits, k: nat, n: nat, cost: LoopCost) {
    k + cost.steps <= lim.steps && n + cost.rounds <= lim.iterations && cost.inner <= lim.iterations
  }

  ghost predicate WhileCosts(m: Reference, s: Stmt, env: Env, c: Completion, env': Env, cost: LoopCost)
    requires s.While? && !c.Departed?
  {
    forall lim: Limits, k: nat, n: nat :: k <= lim.steps && n <= lim.iterations ==>
      Decided(WhileLoop(m.py, lim, s, n, State(env, k)), LoopCovers(lim, k, n, cost), c, env', k + cost.steps)
  }

  ghost predicate ForCosts(m: Reference, s: Stmt, items: seq<Value>, env: Env, c: Completion, env': Env, cost: LoopCost)
    requires s.For? && !c.Departed?
  {
    forall lim: Limits, k: nat, n: nat :: k <= lim.steps && n <= lim.iterations ==>
      Decided(ForLoop(m.py, lim, s, items, n, State(env, k)), LoopCovers(lim, k, n, cost), c, env', k + cost.steps)
  }

  function Larger(a: nat, b: nat): nat {
    if a >= b then a else b
  }

  function Both(a: Limits, b: Limits): Limits {
    Limits(a.steps + b.steps, Larger(a.iterations, b.iterations))
  }

  // A Python run does not fail with the interpreter's budget.
  predicate Unbudgeted(c: Completion) {
    c.Raised? ==> !c.failure.StepLimit? && !c.failure.ForLimit? && !c.failure.WhileLimit?
  }

  // One round more, with a body of the given cost.
  function RoundMore(body: Limits, rest: LoopCost): LoopCost {
    LoopCost(body.steps + rest.steps, rest.rounds + 1, Larger(body.iterations, rest.inner))
  }

  function FromStart(cost: LoopCost): Limits {
    Limits(cost.steps, Larger(cost.rounds, cost.inner))
  }

  lemma Ticked(m: Reference, s: Stmt, env: Env, c: Completion, env': Env, inner: Limits)
    requires !c.Departed? && PerformCosts(m, s, env, c, env', inner)
    ensures Costs(m, s, env, c, env', Limits(1 + inner.steps, inner.iterations))
  {
    hide Perform;
    forall lim: Limits, k: nat | k <= lim.steps
      ensures Decided(Exec(m.py, lim, s, State(env, k)), Covers(lim, k, Limits(1 + inner.steps, inner.iterations)),
                      c, env', k + 1 + inner.steps)
    {
      if k + 1 <= lim.steps {
        assert Decided(Perform(m.py, lim, s, State(env, k + 1)), Covers(lim, k + 1, inner), c, env', k + 1 + inner.steps);
        assert Exec(m.py, lim, s, State(env, k)) == Perform(m.py, lim, s, State(env, k + 1));
      }
    }
  }

  lemma {:induction false} ExecCosts(depth: nat, m: Reference, s: Stmt, env: Env, c: Completion, env': Env)
    returns (cost: Limits)
    requires Runs#[depth](m, true, s, env, c, env') && ValidStmt(s) && !PartsWays(c)
    ensures cost.steps > 0 && Costs(m, s, env, c, env', cost) && Unbudgeted(c)
    decreases depth
  {
    hide Costs, ValidStmt;
    var inner := Limits(0, 0);
    if s.If? {
      inner := IfCosts(depth, m, s, env, c, env');
    } else if s.For? || s.While? {
      inner := LoopCosts(depth, m, s, env, c, env');
    } else {
      SimpleCosts(m, s, env, c, env');
    }
    Ticked(m, s, env, c, env', inner);
    cost := Limits(1 + inner.steps, inner.iterations);
  }

  lemma {:induction false} IfCosts(depth: nat, m: Reference, s: Stmt, env: Env, c: Completion, env': Env)
    returns (inner: Limits)
    requires s.If? && depth > 0 && Runs#[depth](m, true, s, env, c, env') && ValidStmt(s) && !PartsWays(c)
    ensures PerformCosts(m, s, env, c, env', inner) && Unbudgeted(c)
    decreases depth, 0
  {
    hide ValidStmt, ValidExpr, Block, RunsBlock, Eval, PyEval, PlainExpr;
    ValidParts(s);
    inner := Limits(0, 0);
    EvalIsPython(m, env, s.test);
    EvalIsUnbudgeted(m, env, s.test);
    if PyEval(m, env, s.test).Ok? {
      var branch := if Truth(PyEval(m, env, s.test).value) then s.body else s.orelse;
      inner := BlockHasCost(depth - 1, m, branch, env, c, env');
      assert forall lim, k :: Perform(m.py, lim, s, State(env, k)) == Block(m.py, lim, branch, State(env, k));
    }
  }

  lemma WhilePerforms(m: Reference, s: Stmt, env: Env, c: Completion, env': Env, cost: LoopCost)
    requires s.While? && !c.Departed? && WhileCosts(m, s, env, c, env', cost)
    ensures PerformCosts(m, s, env, c, env', FromStart(cost))
  {
    assert forall lim, k :: Perform(m.py, lim, s, State(env, k)) == WhileLoop(m.py, lim, s, 0, State(env, k));
  }

  lemma ForPerforms(m: Reference, s: Stmt, items: seq<Value>, env: Env, c: Completion, env': Env, cost: LoopCost)
    requires s.For? && !c.Departed?
    requires ForItems(m.py, env, s.iter) == Ok(items) && ForCosts(m, s, items, env, c, env', cost)
    ensures PerformCosts(m, s, env, c, env', FromStart(cost))
  {
    assert forall lim, k :: Perform(m.py, lim, s, State(env, k)) == ForLoop(m.py, lim, s, items, 0, State(env, k));
  }

  // A loop that is left through its else block.
  lemma ElseCosts(m: Reference, s: Stmt, env: Env, c: Completion, env': Env, cost: Limits)
    requires (s.For? || s.While?) && !c.Departed? && c != Broke && c != Continued
    requires BlockCosts(m, s.orelse, env, c, env', cost)
    ensures s.For? ==> ForCosts(m, s, [], env, c, env', LoopCost(cost.steps, 0, cost.iterations))
    ensures s.While? && Eval(m.py, env, s.test).Ok? && !Truth(Eval(m.py, env, s.test).value) ==>
            WhileCosts(m, s, env, c, env', LoopCost(cost.steps, 0, cost.iterations))
  {
  }

  lemma {:induction false} LoopCosts(depth: nat, m: Reference, s: Stmt, env: Env, c: Completion, env': Env)
    returns (inner: Limits)
    requires (s.For? || s.While?) && Runs#[depth](m, true, s, env, c, env') && ValidStmt(s) && !PartsWays(c)
    ensures PerformCosts(m, s, env, c, env', inner) && Unbudgeted(c)
    decreases depth, 0
  {
    hide ValidExpr, Block, RunsBlock, Eval, PyEval, PlainExpr, WhileLoop, ForLoop, WhileCosts, ForCosts;
    ValidParts(s);
    var c0 := LoopInside(depth, m, true, s, env, c, env');
    inner := Limits(0, 0);
    if s.For? {
      ItemsArePython(m, env, s.iter);
      EvalIsUnbudgeted(m, env, s.iter);
    }
    if s.While? {
      var cost := WhileHasCost(depth - 2, m, s, env, c, env');
      WhilePerforms(m, s, env, c, env', cost);
      inner := FromStart(cost);
    } else if PyItems(m, env, s.iter).Ok? {
      var items := PyItems(m, env, s.iter).value;
      var cost := ForHasCost(depth - 2, m, s, items, env, c, env');
      ForPerforms(m, s, items, env, c, env', cost);
      inner := FromStart(cost);
    }
  }

  lemma BlockOf(m: Reference, ss: seq<Stmt>, env: Env, c1: Completion, env1: Env, c: Completion, env': Env,
                a: Limits, b: Limits)
    requires ss != [] && !c1.Departed? && !c.Departed? && Costs(m, ss[0], env, c1, env1, a)
    requires if c1 == Normal then BlockCosts(m, ss[1..], env1, c, env', b) else c == c1 && env' == env1
    ensures BlockCosts(m, ss, env, c, env', if c1 == Normal then Both(a, b) else a)
  {
    var cost := if c1 == Normal then Both(a, b) else a;
    forall lim: Limits, k: nat | k <= lim.steps
      ensures Decided(Block(m.py, lim, ss, State(env, k)), Covers(lim, k, cost), c, env', k + cost.steps)
    {
      assert Decided(Exec(m.py, lim, ss[0], State(env, k)), Covers(lim, k, a), c1, env1, k + a.steps);
      if c1 == Normal && Covers(lim, k, a) {
        assert Decided(Block(m.py, lim, ss[1..], State(env1, k + a.steps)), Covers(lim, k + a.steps, b), c, env',
                       k + a.steps + b.steps);
      }
    }
  }

  lemma WhileOf(m: Reference, s: Stmt, env: Env, c1: Completion, env1: Env, c: Completion, env': Env,
                body: Limits, rest: LoopCost)
    requires s.While? && Eval(m.py, env, s.test).Ok? && Truth(Eval(m.py, env, s.test).value)
    requires !c1.Departed? && !c.Departed? && BlockCosts(m, s.body, env, c1, env1, body)
    requires if c1 == Normal || c1 == Continued then WhileCosts(m, s, env1, c, env', rest)
             else c == AfterLoop(c1) && env' == env1 && rest == LoopCost(0, 0, 0)
    ensures WhileCosts(m, s, env, c, env', RoundMore(body, rest))
  {
    var cost := RoundMore(body, rest);
    forall lim: Limits, k: nat, n: nat | k <= lim.steps && n <= lim.iterations
      ensures Decided(WhileLoop(m.py, lim, s, n, State(env, k)), LoopCovers(lim, k, n, cost), c, env', k + cost.steps)
    {
      assert Decided(Block(m.py, lim, s.body, State(env, k)), Covers(lim, k, body), c1, env1, k + body.steps);
      if (c1 == Normal || c1 == Continued) && Covers(lim, k, body) && n + 1 <= lim.iterations {
        assert Decided(WhileLoop(m.py, lim, s, n + 1, State(env1, k + body.steps)),
                       LoopCovers(lim, k + body.steps, n + 1, rest), c, env', k + body.steps + rest.steps);
      }
    }
  }

  lemma ForOf(m: Reference, s: Stmt, items: seq<Value>, env: Env, c1: Completion, env1: Env,
              c: Completion, env': Env, body: Limits, rest: LoopCost)
    requires s.For? && s.target.Name? && items != []
    requires !c1.Departed? && !c.Departed? && BlockCosts(m, s.body, Target(s, items[0], env), c1, env1, body)
    requires if c1 == Normal || c1 == Continued then ForCosts(m, s, items[1..], env1, c, env', rest)
             else c == AfterLoop(c1) && env' == env1 && rest == LoopCost(0, 0, 0)
    ensures ForCosts(m, s, items, env, c, env', RoundMore(body, rest))
  {
    var cost := RoundMore(body, rest);
    forall lim: Limits, k: nat, n: nat | k <= lim.steps && n <= lim.iterations
      ensures Decided(ForLoop(m.py, lim, s, items, n, State(env, k)), LoopCovers(lim, k, n, cost), c, env', k + cost.steps)
    {
      assert Decided(Block(m.py, lim, s.body, State(Target(s, items[0], env), k)), Covers(lim, k, body), c1, env1,
                     k + body.steps);
      if (c1 == Normal || c1 == Continued) && Covers(lim, k, body) && n + 1 <= lim.iterations {
        assert Decided(ForLoop(m.py, lim, s, items[1..], n + 1, State(env1, k + body.steps)),
                       LoopCovers(lim, k + body.steps, n + 1, rest), c, env', k + body.steps + rest.steps);
      }
    }
  }

  lemma SimpleCosts(m: Reference, s: Stmt, env: Env, c: Completion, env': Env)
    requires ValidStmt(s) && !s.If? && !s.For? && !s.While? && !PartsWays(c)
    requires Simple(m, s, env) == Some((c, env'))
    ensures PerformCosts(m, s, env, c, env', Limits(0, 0)) && Unbudgeted(c)
  {
    SimpleIsUnbudgeted(m, s, env);
    forall lim: Limits, k: nat ensures Perform(m.py, lim, s, State(env, k)) == Run(Encode(c), State(env', k)) {
      SimpleIsFaithful(m, lim, s, State(env, k));
    }
  }

  lemma SimpleIsUnbudgeted(m: Reference, s: Stmt, env: Env)
    requires ValidStmt(s) && Simple(m, s, env).Some?
    ensures Unbudgeted(Simple(m, s, env).value.0)
  {
    OptionIsPython(m, env, Head(s));
    EvalOptionFaults(m.py, env, Head(s));
  }

  // Nor does an expression.
  lemma EvalIsUnbudgeted(m: Reference, env: Env, e: Expr)
    requires ValidExpr(e)
    ensures PyEval(m, env, e).Err? ==> Unbudgeted(Raised(PyEval(m, env, e).failure))
    ensures PyItems(m, env, e).Err? ==> Unbudgeted(Raised(PyItems(m, env, e).failure))
  {
    hide Eval, PyEval, ValidExpr, PlainExpr;
    EvalIsPython(m, env, e);
    EvalFaults(m.py, env, e);
  }

  lemma {:induction false} BlockHasCost(depth: nat, m: Reference, ss: seq<Stmt>, env: Env, c: Completion, env': Env)
    returns (cost: Limits)
    requires RunsBlock#[depth](m, true, ss, env, c, env') && ValidBlock(ss) && !PartsWays(c)
    ensures BlockCosts(m, ss, env, c, env', cost) && Unbudgeted(c)
    decreases depth
  {
    if ss == [] {
      cost := Limits(0, 0);
    } else {
      var c1, env1 := FirstOfBlock(depth, m, true, ss, env, c, env');
      var first := ExecCosts(depth - 1, m, ss[0], env, c1, env1);
      var rest := Limits(0, 0);
      if c1 == Normal {
        rest := BlockHasCost(depth - 1, m, ss[1..], env1, c, env');
      }
      BlockOf(m, ss, env, c1, env1, c, env', first, rest);
      cost := if c1 == Normal then Both(first, rest) else first;
    }
  }

  lemma {:induction false} WhileHasCost(depth: nat, m: Reference, s: Stmt, env: Env, c: Completion, env': Env)
    returns (cost: LoopCost)
    requires s.While? && RunsWhile#[depth](m, true, s, env, c, env') && ValidStmt(s)
    requires !PartsWays(c) && c != Broke && c != Continued
    ensures WhileCosts(m, s, env, c, env', cost) && Unbudgeted(c)
    decreases depth
  {
    hide ValidStmt, ValidExpr, WhileLoop, WhileCosts, BlockCosts, RunsBlock, Eval, PyEval, PlainExpr;
    ValidParts(s);
    cost := LoopCost(0, 0, 0);
    EvalIsPython(m, env, s.test);
    EvalIsUnbudgeted(m, env, s.test);
    if PyEval(m, env, s.test).Ok? {
      if !Truth(PyEval(m, env, s.test).value) {
        var orelse := BlockHasCost(depth - 1, m, s.orelse, env, c, env');
        ElseCosts(m, s, env, c, env', orelse);
        cost := LoopCost(orelse.steps, 0, orelse.iterations);
      } else {
        var c1, env1 := WhileRound(depth, m, true, s, env, c, env');
        var body := BlockHasCost(depth - 1, m, s.body, env, c1, env1);
        if c1 == Normal || c1 == Continued {
          cost := WhileHasCost(depth - 1, m, s, env1, c, env');
        }
        WhileOf(m, s, env, c1, env1, c, env', body, cost);
        cost := RoundMore(body, cost);
      }
    } else {
      FailedTestCosts(m, s, env);
    }
  }

  lemma FailedTestCosts(m: Reference, s: Stmt, env: Env)
    requires s.While? && Eval(m.py, env, s.test).Err?
    ensures WhileCosts(m, s, env, Raised(Eval(m.py, env, s.test).failure), env, LoopCost(0, 0, 0))
  {
    hide Block, Eval;
  }

  lemma {:induction false} ForHasCost(depth: nat, m: Reference, s: Stmt, items: seq<Value>, env: Env,
                                      c: Completion, env': Env)
    returns (cost: LoopCost)
    requires s.For? && ValidStmt(s) && RunsFor#[depth](m, true, s, items, env, c, env')
    requires !PartsWays(c) && c != Broke && c != Continued
    ensures ForCosts(m, s, items, env, c, env', cost) && Unbudgeted(c)
    decreases depth
  {
    hide ValidStmt, ValidExpr, ForLoop, ForCosts, BlockCosts, RunsBlock, Eval, PyEval;
    ValidParts(s);
    if items == [] {
      var orelse := BlockHasCost(depth - 1, m, s.orelse, env, c, env');
      ElseCosts(m, s, env, c, env', orelse);
      cost := LoopCost(orelse.steps, 0, orelse.iterations);
    } else {
      var round := Target(s, items[0], env);
      var c1, env1 := ForRound(depth, m, true, s, items, env, c, env');
      var body := BlockHasCost(depth - 1, m, s.body, round, c1, env1);
      cost := LoopCost(0, 0, 0);
      if c1 == Normal || c1 == Continued {
        cost := ForHasCost(depth - 1, m, s, items[1..], env1, c, env');
      }
      ForOf(m, s, items, env, c1, env1, c, env', body, cost);
      cost := RoundMore(body, cost);
    }
  }
}
