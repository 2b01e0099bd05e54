/** Programs of which it can be told before any run that the interpreter answers as Python:
    a condition on the text alone. */
module SlugStatic {
  import opened SlugAst
  import opened SlugValidator
  import opened SlugExpressions
  import opened SlugExecution
  import opened SlugLaws
  import opened PythonExpressions
  import opened PythonSemantics
  import opened SlugRefinement
  import opened SlugEvaluator
  import opened SlugTheorems

  // What a text is checked with: its local names, and the names it may update by += and -=,
  // which are only ever assigned constants otherwise.
  datatype Scope = Scope(locals: set<string>, counters: set<string>)

  // known are the names that are bound whenever the statement is reached.
  predicate Tame(sc: Scope, s: Stmt, known: set<string>, inLoop: bool) {
    match s
    case Return(o) => PlainOption(sc.locals, o)
    case If(test, body, orelse) =>
      PlainExpr(sc.locals, test) && TameBlock(sc, body, known, inLoop) && TameBlock(sc, orelse, known, inLoop)
    case Assign(targets, e) =>
      PlainExpr(sc.locals, e) && (|targets| == 1 && targets[0].Name? && targets[0].id in sc.counters ==> e.Constant?)
    case AugAssign(target, op, e) =>
      PlainExpr(sc.locals, e) && (op == Add || op == Sub) && (target.Name? ==> target.id in sc.counters * known)
    case For(target, iter, body, orelse) =>
      && PlainExpr(sc.locals, iter) && target.Name? && target.id !in sc.counters
      && TameBlock(sc, body, known + {target.id}, true) && TameBlock(sc, orelse, known, false)
    case While(test, body, orelse) =>
      PlainExpr(sc.locals, test) && TameBlock(sc, body, known, true) && TameBlock(sc, orelse, known, false)
    case Break => inLoop
    case Continue => inLoop
    case Pass => true
    case ExprStmt(e) => PlainExpr(sc.locals, e)
    case OtherStmt => true
  }

  predicate TameBlock(sc: Scope, ss: seq<Stmt>, known: set<string>, inLoop: bool) {
    ss == [] || (Tame(sc, ss[0], known, inLoop) && TameBlock(sc, ss[1..], KnownAfter(ss[0], known), inLoop))
  }

  // The names that are bound when a statement has completed normally.
  function KnownAfter(s: Stmt, known: set<string>): set<string> {
    match s
    case Assign(targets, _) => if |targets| == 1 && targets[0].Name? then known + {targets[0].id} else known
    case If(_, body, orelse) => KnownAfterBlock(body, known) * KnownAfterBlock(orelse, known)
    case _ => known
  }

  function KnownAfterBlock(ss: seq<Stmt>, known: set<string>): set<string> {
    if ss == [] then known else KnownAfterBlock(ss[1..], KnownAfter(ss[0], known))
  }

  // As in CPython: adding to, or subtracting from, what is not a list never gives a list.
  ghost predicate SumsAreNoLists(py: ObjectModel) {
    forall op: Operator, x: Value, v: Value :: (op == Add || op == Sub) && !x.ListV? && py.binary(op, x, v).Object? ==>
      !py.binary(op, x, v).obj.ListV?
  }

  // The known names are bound, and no counter is a list.
  predicate Orderly(sc: Scope, known: set<string>, env: Env) {
    known <= env.Keys && forall x :: x in sc.counters && x in env ==> !env[x].ListV?
  }

  // A completion that does not part ways, and breaks or continues in a loop only.
  predicate Stays(c: Completion, inLoop: bool) {
    !PartsWays(c) && (!inLoop ==> c != Broke && c != Continued)
  }

  lemma PlainStays(m: Reference, env: Env, e: Expr)
    requires ValidExpr(e) && PlainExpr(m.locals, e)
    ensures PyEval(m, env, e).Err? ==> !PartsWays(Raised(PyEval(m, env, e).failure))
    ensures PyItems(m, env, e).Err? ==> !PartsWays(Raised(PyItems(m, env, e).failure))
  {
    hide Eval, PyEval, ValidExpr, PlainExpr;
    EvalIsPython(m, env, e);
    EvalFaults(m.py, env, e);
  }

  lemma SimpleStays(m: Reference, sc: Scope, s: Stmt, known: set<string>, inLoop: bool, env: Env)
    requires ValidStmt(s) && Tame(sc, s, known, inLoop) && Orderly(sc, known, env) && m.locals == sc.locals
    requires SumsAreNoLists(m.py) && Simple(m, s, env).Some?
    ensures var (c, env') := Simple(m, s, env).value;
            Stays(c, inLoop) && Orderly(sc, known, env') && (c == Normal ==> Orderly(sc, KnownAfter(s, known), env'))
  {
    if s.AugAssign? {
      CountingStays(m, sc, s, known, inLoop, env);
    } else if Head(s).Some? {
      PlainStays(m, env, Head(s).value);
    }
    hide PyEval, ValidExpr, PlainExpr, SumsAreNoLists, AugAssignRule;
  }

  lemma CountingStays(m: Reference, sc: Scope, s: Stmt, known: set<string>, inLoop: bool, env: Env)
    requires ValidStmt(s) && s.AugAssign? && Tame(sc, s, known, inLoop) && Orderly(sc, known, env)
    requires m.locals == sc.locals && SumsAreNoLists(m.py)
    ensures var (c, env') := AugAssignRule(m, env, s.target.id, s.op, s.value);
            Stays(c, inLoop) && Orderly(sc, known, env')
  {
    PlainStays(m, env, s.value);
    hide PyEval, ValidExpr, PlainExpr;
  }

  lemma {:induction false} TameStays(depth: nat, m: Reference, sc: Scope, s: Stmt, known: set<string>, inLoop: bool,
                                     env: Env, c: Completion, env': Env)
    requires Runs#[depth](m, true, s, env, c, env') && ValidStmt(s) && Tame(sc, s, known, inLoop)
    requires Orderly(sc, known, env) && m.locals == sc.locals && SumsAreNoLists(m.py)
    ensures Stays(c, inLoop) && Orderly(sc, known, env')
    ensures c == Normal ==> Orderly(sc, KnownAfter(s, known), env')
    decreases depth
  {
    if s.If? {
      PlainStays(m, env, s.test);
      if PyEval(m, env, s.test).Ok? {
        var branch := if Truth(PyEval(m, env, s.test).value) then s.body else s.orelse;
        TameBlockStays(depth - 1, m, sc, branch, known, inLoop, env, c, env');
      }
    } else if s.For? || s.While? {
      var c0 := LoopInside(depth, m, true, s, env, c, env');
      TameLoopStays(depth - 1, m, sc, s, known, inLoop, env, c0, env');
    } else {
      SimpleStays(m, sc, s, known, inLoop, env);
    }
  }

  lemma {:induction false} TameLoopStays(depth: nat, m: Reference, sc: Scope, s: Stmt, known: set<string>, inLoop: bool,
                                         env: Env, c: Completion, env': Env)
    requires (s.For? || s.While?) && RunsLoop#[depth](m, true, s, env, c, env')
    requires ValidStmt(s) && Tame(sc, s, known, inLoop)
    requires Orderly(sc, known, env) && m.locals == sc.locals && SumsAreNoLists(m.py)
    ensures Stays(c, false) && Orderly(sc, known, env')
    decreases depth
  {
    if s.While? {
      TameWhileStays(depth - 1, m, sc, s, known, inLoop, env, c, env');
    } else {
      PlainStays(m, env, s.iter);
      if PyItems(m, env, s.iter).Ok? {
        TameForStays(depth - 1, m, sc, s, PyItems(m, env, s.iter).value, known, inLoop, env, c, env');
      }
    }
  }

  lemma {:induction false} TameBlockStays(depth: nat, m: Reference, sc: Scope, ss: seq<Stmt>, known: set<string>,
                                          inLoop: bool, env: Env, c: Completion, env': Env)
    requires RunsBlock#[depth](m, true, ss, env, c, env') && ValidBlock(ss) && TameBlock(sc, ss, known, inLoop)
    requires Orderly(sc, known, env) && m.locals == sc.locals && SumsAreNoLists(m.py)
    ensures Stays(c, inLoop) && Orderly(sc, known, env')
    ensures c == Normal ==> Orderly(sc, KnownAfterBlock(ss, known), env')
    decreases depth
  {
    if ss != [] {
      var c1, env1 := FirstOfBlock(depth, m, true, ss, env, c, env');
      TameStays(depth - 1, m, sc, ss[0], known, inLoop, env, c1, env1);
      if c1 == Normal {
        KnownGrows(ss[0], known);
        TameBlockStays(depth - 1, m, sc, ss[1..], KnownAfter(ss[0], known), inLoop, env1, c, env');
      }
    }
  }

  lemma {:induction false} KnownGrows(s: Stmt, known: set<string>)
    ensures known <= KnownAfter(s, known)
    decreases s
  {
    if s.If? {
      KnownBlockGrows(s.body, known);
      KnownBlockGrows(s.orelse, known);
    }
  }

  lemma {:induction false} KnownBlockGrows(ss: seq<Stmt>, known: set<string>)
    ensures known <= KnownAfterBlock(ss, known)
    decreases ss
  {
    if ss != [] {
      KnownGrows(ss[0], known);
      KnownBlockGrows(ss[1..], KnownAfter(ss[0], known));
    }
  }

  lemma {:induction false} TameWhileStays(depth: nat, m: Reference, sc: Scope, s: Stmt, known: set<string>, inLoop: bool,
                                          env: Env, c: Completion, env': Env)
    requires s.While? && RunsWhile#[depth](m, true, s, env, c, env') && ValidStmt(s) && Tame(sc, s, known, inLoop)
    requires Orderly(sc, known, env) && m.locals == sc.locals && SumsAreNoLists(m.py)
    ensures Stays(c, false) && Orderly(sc, known, env')
    decreases depth
  {
    PlainStays(m, env, s.test);
    if PyEval(m, env, s.test).Ok? {
      if !Truth(PyEval(m, env, s.test).value) {
        TameBlockStays(depth - 1, m, sc, s.orelse, known, false, env, c, env');
      } else {
        var c1, env1 := WhileRound(depth, m, true, s, env, c, env');
        TameBlockStays(depth - 1, m, sc, s.body, known, true, env, c1, env1);
        if c1 == Normal || c1 == Continued {
          TameWhileStays(depth - 1, m, sc, s, known, inLoop, env1, c, env');
        }
      }
    }
  }

  lemma {:induction false} TameForStays(depth: nat, m: Reference, sc: Scope, s: Stmt, items: seq<Value>,
                                        known: set<string>, inLoop: bool, env: Env, c: Completion, env': Env)
    requires s.For? && ValidStmt(s) && Tame(sc, s, known, inLoop) && RunsFor#[depth](m, true, s, items, env, c, env')
    requires Orderly(sc, known, env) && m.locals == sc.locals && SumsAreNoLists(m.py)
    ensures Stays(c, false) && Orderly(sc, known, env')
    decreases depth
  {
    if items == [] {
      TameBlockStays(depth - 1, m, sc, s.orelse, known, false, env, c, env');
    } else {
      var round := Target(s, items[0], env);
      var c1, env1 := ForRound(depth, m, true, s, items, env, c, env');
      TameBlockStays(depth - 1, m, sc, s.body, known + {s.target.id}, true, round, c1, env1);
      if c1 == Normal || c1 == Continued {
        TameForStays(depth - 1, m, sc, s, items[1..], known, inLoop, env1, c, env');
      }
    }
  }

  // The text of a whole function.
  predicate TameProgram(program: seq<Stmt>, counters: set<string>) {
    TameBlock(Scope({"slug"} + AssignedIn(program), counters), program, {"slug"}, false)
  }

  /** For a tame text nothing about its runs has to be known: under the published limits an
      answer is Python's one answer, and without an answer the budget was exceeded. */
  lemma TameAnswersAsPython(py: ObjectModel, program: seq<Stmt>, counters: set<string>, rawSlug: string)
    returns (c: Completion, env: Env)
    requires ValidBlock(program) && TameProgram(program, counters) && SumsAreNoLists(py)
    requires !BudgetFailure(Block(py, MAX_LIMITS, program, Start(py, rawSlug)).out)
    ensures OneRun(FunctionOf(py, program), false, program, Start(py, rawSlug).vars, c, env) && Answers(c)
    ensures Verdict(Block(py, MAX_LIMITS, program, Start(py, rawSlug)).out) == Answered(c)
  {
    c, env := EvaluateAnswersAsPython(py, program, rawSlug);
    TameRunStays(py, program, counters, rawSlug, c, env);
  }

  lemma TameRunStays(py: ObjectModel, program: seq<Stmt>, counters: set<string>, rawSlug: string, c: Completion, env: Env)
    requires ValidBlock(program) && TameProgram(program, counters) && SumsAreNoLists(py)
    requires RunsBlock(FunctionOf(py, program), true, program, Start(py, rawSlug).vars, c, env)
    ensures Answers(c)
  {
    var m := FunctionOf(py, program);
    var sc := Scope(m.locals, counters);
    var start := Start(py, rawSlug).vars;
    var depth: nat :| RunsBlock#[depth](m, true, program, start, c, env);
    TameBlockStays(depth, m, sc, program, {"slug"}, false, start, c, env);
  }

  /** And if Python's run of a tame text ends, the interpreter gives its answer exactly when
      it takes no more than 50,000 statements and no loop more than 10,000 rounds. */
  lemma TameAnswersExactly(py: ObjectModel, program: seq<Stmt>, counters: set<string>, rawSlug: string,
                           c: Completion, env: Env)
    returns (cost: Limits)
    requires ValidBlock(program) && TameProgram(program, counters) && SumsAreNoLists(py)
    requires RunsBlock(FunctionOf(py, program), false, program, Start(py, rawSlug).vars, c, env)
    ensures Answers(c)
    ensures Verdict(Block(py, MAX_LIMITS, program, Start(py, rawSlug)).out) == Answered(c) <==>
            cost.steps <= 50_000 && cost.iterations <= 10_000
  {
    var c', env' := PythonRunIsWatched(FunctionOf(py, program), program, Start(py, rawSlug).vars, c, env);
    TameRunStays(py, program, counters, rawSlug, c', env');
    cost := EvaluateAnswersExactly(py, program, rawSlug, c', env');
  }
}
