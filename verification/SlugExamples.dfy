/** Programs that show where the interpreter and Python part ways. */
module SlugExamples {
  import opened Prelude
  import opened SlugAst
  import opened SlugValidator
  import opened SlugExpressions
  import opened SlugExecution
  import opened PythonExpressions
  import opened PythonSemantics
  import opened SlugEvaluator
  import opened SlugStatic

  const TRUE := Constant(BoolV(true))
  const FALSE := Constant(BoolV(false))

  // while False: pass
  // else: break
  const INNER := While(FALSE, [Pass], [Break])

  // while True: INNER; return True
  const OUTER := While(TRUE, [INNER, Return(Some(TRUE))], [])

  const BREAK_IN_ELSE := [OUTER, Return(Some(FALSE))]

  lemma BreakInElseIsAccepted()
    ensures ValidBlock(BREAK_IN_ELSE)
  {
    assert ValidBlock([Break]) && ValidBlock([Pass]);
    assert ValidStmt(INNER);
    assert OUTER.body[1..] == [Return(Some(TRUE))];
    assert ValidBlock(OUTER.body[1..]);
    assert ValidStmt(OUTER);
    assert BREAK_IN_ELSE[1..] == [Return(Some(FALSE))];
    assert ValidBlock(BREAK_IN_ELSE[1..]);
  }

  lemma InnerBreaks(m: Reference, watched: bool, env: Env)
    ensures Runs(m, watched, INNER, env, AtLoopEnd(watched, Broke), env)
  {
    BlockRule(m, watched, [Break], env, Broke, env, Broke, env);
    assert RunsLoop(m, watched, INNER, env, Broke, env);
  }

  lemma BreakInElseInPython(m: Reference, env: Env)
    ensures RunsBlock(m, false, BREAK_IN_ELSE, env, Returned(BoolV(false)), env)
  {
    InnerBreaks(m, false, env);
    BlockRule(m, false, OUTER.body, env, Broke, env, Broke, env);
    WhileRoundRule(m, false, OUTER, env, Broke, env, Normal, env);
    assert RunsLoop(m, false, OUTER, env, Normal, env);
    assert Runs(m, false, OUTER, env, Normal, env);
    var answer := Returned(BoolV(false));
    assert BREAK_IN_ELSE[1..] == [Return(Some(FALSE))];
    BlockRule(m, false, BREAK_IN_ELSE[1..], env, answer, env, answer, env);
    BlockRule(m, false, BREAK_IN_ELSE, env, Normal, env, answer, env);
  }

  lemma BreakInElseIsSeen(m: Reference, env: Env)
    ensures RunsBlock(m, true, BREAK_IN_ELSE, env, Departed(LeftElse), env)
  {
    var left := Departed(LeftElse);
    InnerBreaks(m, true, env);
    BlockRule(m, true, OUTER.body, env, left, env, left, env);
    WhileRoundRule(m, true, OUTER, env, left, env, left, env);
    assert RunsLoop(m, true, OUTER, env, left, env);
    assert Runs(m, true, OUTER, env, left, env);
    BlockRule(m, true, BREAK_IN_ELSE, env, left, env, left, env);
  }

  lemma OuterAnswersTrue(py: ObjectModel, env: Env)
    ensures Exec(py, MAX_LIMITS, OUTER, State(env, 0)) == Run(Ok(Result(BoolV(true))), State(env, 4))
  {
    assert Block(py, MAX_LIMITS, [Break], State(env, 2)) == Run(Ok(BreakSignal), State(env, 3));
    assert Exec(py, MAX_LIMITS, INNER, State(env, 1)) == Run(Ok(Sentinel), State(env, 3));
    assert OUTER.body[1..] == [Return(Some(TRUE))];
    assert Block(py, MAX_LIMITS, OUTER.body[1..], State(env, 3)) == Run(Ok(Result(BoolV(true))), State(env, 4));
    assert Block(py, MAX_LIMITS, OUTER.body, State(env, 1)) == Run(Ok(Result(BoolV(true))), State(env, 4));
    assert WhileLoop(py, MAX_LIMITS, OUTER, 0, State(env, 1)) == Run(Ok(Result(BoolV(true))), State(env, 4));
  }

  /** A break in the else block of an inner loop: Python leaves the outer loop as well and
      answers False, the interpreter stays in it and answers True. */
  lemma BreakInElseIsSwallowed(m: Reference, env: Env)
    ensures ValidBlock(BREAK_IN_ELSE)
    ensures RunsBlock(m, false, BREAK_IN_ELSE, env, Returned(BoolV(false)), env)
    ensures RunsBlock(m, true, BREAK_IN_ELSE, env, Departed(LeftElse), env)
    ensures Block(m.py, MAX_LIMITS, BREAK_IN_ELSE, State(env, 0)).out == Ok(Result(BoolV(true)))
  {
    hide ValidBlock, RunsBlock, Exec;
    BreakInElseIsAccepted();
    BreakInElseInPython(m, env);
    BreakInElseIsSeen(m, env);
    OuterAnswersTrue(m.py, env);
  }

  /** `break` alone is accepted and answers True on every slug. */
  lemma LoneBreakAnswersTrue(py: ObjectModel, rawSlug: string)
    ensures ValidBlock([Break])
    ensures Verdict(Block(py, MAX_LIMITS, [Break], Start(py, rawSlug)).out) == Ok(true)
  {
  }

  const COUNT_UP := AugAssign(Name("x"), Add, Constant(IntV(1)))

  /** `x += 1` with x unbound raises in Python and gives 0 + 1 here. */
  lemma UnboundCountsAsZero(m: Reference, env: Env, x: Value)
    requires "x" !in env && m.py.binary(Add, IntV(0), IntV(1)) == Object(x)
    ensures ValidBlock([COUNT_UP])
    ensures RunsBlock(m, false, [COUNT_UP], env, Raised(UnboundAugmented("x")), env)
    ensures Block(m.py, MAX_LIMITS, [COUNT_UP], State(env, 0)) == Run(Ok(Sentinel), State(env["x" := x], 1))
  {
    assert Augmented(m.py, env, "x", Add, Constant(IntV(1))) == Ok(Some(x));
    hide Eval, Augmented;
    var raised := Raised(UnboundAugmented("x"));
    RunStop(m, false, COUNT_UP, [], env, raised, env);
    BlockCons(m.py, COUNT_UP, [], State(env, 0), State(env["x" := x], 1));
    assert [COUNT_UP] + [] == [COUNT_UP];
  }

  // ---- Programs of several statements, from the first on ----

  lemma ValidCons(s: Stmt, rest: seq<Stmt>)
    requires ValidStmt(s) && ValidBlock(rest)
    ensures ValidBlock([s] + rest)
  {
    assert ([s] + rest)[1..] == rest;
  }

  lemma RunCons(m: Reference, watched: bool, s: Stmt, rest: seq<Stmt>, env: Env, env1: Env, c: Completion, env': Env)
    requires Runs(m, watched, s, env, Normal, env1) && RunsBlock(m, watched, rest, env1, c, env')
    ensures RunsBlock(m, watched, [s] + rest, env, c, env')
  {
    assert ([s] + rest)[1..] == rest;
    BlockRule(m, watched, [s] + rest, env, Normal, env1, c, env');
  }

  lemma RunStop(m: Reference, watched: bool, s: Stmt, rest: seq<Stmt>, env: Env, c: Completion, env': Env)
    requires Runs(m, watched, s, env, c, env') && c != Normal
    ensures RunsBlock(m, watched, [s] + rest, env, c, env')
  {
    BlockRule(m, watched, [s] + rest, env, c, env', c, env');
  }

  lemma AssignRuns(m: Reference, watched: bool, id: string, e: Expr, env: Env, v: Value)
    requires PyEval(m, env, e) == Ok(v)
    ensures Runs(m, watched, Assign([Name(id)], e), env, Normal, env[id := v])
  {
    hide PyEval;
  }

  lemma AssignExecutes(py: ObjectModel, id: string, e: Expr, env: Env, v: Value, k: nat)
    requires Eval(py, env, e) == Ok(v) && k < 50_000
    ensures Exec(py, MAX_LIMITS, Assign([Name(id)], e), State(env, k)) == Run(Ok(Sentinel), State(env[id := v], k + 1))
  {
    hide Eval;
  }

  lemma BlockCons(py: ObjectModel, s: Stmt, rest: seq<Stmt>, st: State, st1: State)
    requires Exec(py, MAX_LIMITS, s, st) == Run(Ok(Sentinel), st1)
    ensures Block(py, MAX_LIMITS, [s] + rest, st) == Block(py, MAX_LIMITS, rest, st1)
  {
    assert ([s] + rest)[1..] == rest;
  }

  lemma BlockStop(py: ObjectModel, s: Stmt, rest: seq<Stmt>, st: State)
    requires Exec(py, MAX_LIMITS, s, st).out != Ok(Sentinel)
    ensures Block(py, MAX_LIMITS, [s] + rest, st) == Exec(py, MAX_LIMITS, s, st)
  {
  }

  lemma OneValid(e: Expr)
    ensures ValidExprs([e]) == ValidExpr(e)
  {
    assert [e][1..] == [];
    hide ValidExpr;
  }

  lemma OneEval(py: ObjectModel, env: Env, e: Expr)
    requires Eval(py, env, e).Ok?
    ensures EvalAll(py, env, [e]) == Ok([Eval(py, env, e).value])
  {
    hide Eval;
    assert [e][1..] == [] && EvalAll(py, env, []) == Ok([]);
    assert [Eval(py, env, e).value] + [] == [Eval(py, env, e).value];
  }

  lemma OnePyEval(m: Reference, env: Env, e: Expr)
    requires PyEval(m, env, e).Ok?
    ensures PyEvalAll(m, env, [e]) == Ok([PyEval(m, env, e).value])
  {
    hide PyEval;
    assert [e][1..] == [] && PyEvalAll(m, env, []) == Ok([]);
    assert [PyEval(m, env, e).value] + [] == [PyEval(m, env, e).value];
  }

  // A name that may be assigned and read.
  predicate Usable(id: string) {
    !StartsWith(id, "_") && id !in FORBIDDEN_NAMES && !StartsWith(id, "__")
  }

  lemma LenIsUsable()
    ensures Usable("len") && "len" in SAFE_BUILTINS && "len" in ALLOWED_CALLS
  {
    assert "len"[0] == 'l' && |"len"| == 3;
    assert forall id :: id in FORBIDDEN_NAMES && |id| == 3 ==> id[0] == 'd';
  }

  lemma NameIsAccepted(id: string)
    requires Usable(id)
    ensures ValidExpr(Name(id))
  {
  }

  lemma CallIsAccepted(args: seq<Expr>)
    requires ValidExprs(args)
    ensures ValidExpr(Call(Name("len"), args, 0))
  {
    LenIsUsable();
    hide ValidExprs;
  }

  lemma AssignIsAccepted(id: string, e: Expr)
    requires Usable(id) && ValidExpr(e)
    ensures ValidStmt(Assign([Name(id)], e))
  {
    hide ValidExpr;
  }

  // ---- a = [1]; b = a; a += [2]; return len(b) == 1, for any two names ----

  const ONE := Constant(IntV(1))
  const TWO := Constant(IntV(2))

  function LengthIsOne(b: string): Expr {
    Compare(Call(Name("len"), [Name(b)], 0), [Eq], [ONE])
  }

  function Set(id: string, e: Expr): Stmt {
    Assign([Name(id)], e)
  }

  function Grows(a: string): Stmt {
    AugAssign(Name(a), Add, ListDisplay([TWO]))
  }

  function Aliased(a: string, b: string): seq<Stmt> {
    [Set(a, ListDisplay([ONE]))] + ([Set(b, Name(a))] + ([Grows(a)] + ([Return(Some(LengthIsOne(b)))] + [])))
  }

  const LIST_1 := ListV([IntV(1)])
  const LIST_2 := ListV([IntV(2)])
  const LIST_12 := ListV([IntV(1), IntV(2)])

  // What CPython gives for [1] + [2], len([1]) and 1 == 1.
  ghost predicate Counts(py: ObjectModel) {
    && py.binary(Add, LIST_1, LIST_2) == Object(LIST_12)
    && py.builtin("len", [LIST_1]) == Object(IntV(1))
    && py.compare(Eq, IntV(1), IntV(1)) == Object(true)
  }

  lemma AliasedIsAccepted(a: string, b: string)
    requires Usable(a) && Usable(b)
    ensures ValidBlock(Aliased(a, b))
  {
    OneValid(ONE);
    OneValid(TWO);
    OneValid(Name(b));
    assert ValidExpr(ListDisplay([ONE])) && ValidExpr(ListDisplay([TWO]));
    NameIsAccepted(a);
    NameIsAccepted(b);
    CallIsAccepted([Name(b)]);
    hide Usable;
    assert ValidExpr(LengthIsOne(b));
    hide ValidExpr;
    AssignIsAccepted(a, ListDisplay([ONE]));
    AssignIsAccepted(b, Name(a));
    ValidCons(Return(Some(LengthIsOne(b))), []);
    ValidCons(Grows(a), [Return(Some(LengthIsOne(b)))] + []);
    hide ValidStmt, ValidBlock;
    ValidCons(Set(b, Name(a)), [Grows(a)] + ([Return(Some(LengthIsOne(b)))] + []));
    ValidCons(Set(a, ListDisplay([ONE])), [Set(b, Name(a))] + ([Grows(a)] + ([Return(Some(LengthIsOne(b)))] + [])));
  }

  lemma ListOfOne(m: Reference, env: Env, v: Value)
    ensures PyEval(m, env, ListDisplay([Constant(v)])) == Ok(ListV([v]))
    ensures Eval(m.py, env, ListDisplay([Constant(v)])) == Ok(ListV([v]))
  {
    OnePyEval(m, env, Constant(v));
    OneEval(m.py, env, Constant(v));
  }

  lemma NameOf(m: Reference, env: Env, id: string)
    requires id in env
    ensures PyEval(m, env, Name(id)) == Ok(env[id]) && Eval(m.py, env, Name(id)) == Ok(env[id])
  {
  }

  lemma AliasedDeparts(m: Reference, watched: bool, a: string, b: string, env: Env)
    ensures var env' := env[a := LIST_1][b := LIST_1];
            RunsBlock(m, watched, Aliased(a, b), env, Departed(UpdatedInPlace(a)), env')
  {
    var env1 := env[a := LIST_1];
    var env2 := env1[b := LIST_1];
    var c := Departed(UpdatedInPlace(a));
    var last := [Return(Some(LengthIsOne(b)))] + [];
    hide PyEval, Eval, RunsBlock, LengthIsOne;
    ListOfOne(m, env, IntV(1));
    ListOfOne(m, env2, IntV(2));
    NameOf(m, env1, a);
    AssignRuns(m, watched, a, ListDisplay([ONE]), env, LIST_1);
    AssignRuns(m, watched, b, Name(a), env1, LIST_1);
    assert Runs(m, watched, Grows(a), env2, c, env2);
    hide Runs, Grows;
    RunStop(m, watched, Grows(a), last, env2, c, env2);
    RunCons(m, watched, Set(b, Name(a)), [Grows(a)] + last, env1, env2, c, env2);
    RunCons(m, watched, Set(a, ListDisplay([ONE])), [Set(b, Name(a))] + ([Grows(a)] + last), env, env1, c, env2);
  }

  lemma LengthIsFound(py: ObjectModel, b: string, env: Env)
    requires Counts(py) && b in env && env[b] == LIST_1
    ensures Eval(py, env, LengthIsOne(b)) == Ok(BoolV(true))
  {
    LenIsUsable();
    hide Usable;
    OneEval(py, env, Name(b));
    assert Eval(py, env, Call(Name("len"), [Name(b)], 0)) == Ok(IntV(1));
    assert [Eq][1..] == [] && [ONE][1..] == [];
    assert EvalChain(py, env, IntV(1), [], []) == Ok(BoolV(true));
    assert EvalChain(py, env, IntV(1), [Eq], [ONE]) == Ok(BoolV(true));
  }

  lemma AliasedAnswers(py: ObjectModel, a: string, b: string, env: Env)
    requires Counts(py) && a != b
    ensures Block(py, MAX_LIMITS, Aliased(a, b), State(env, 0)).out == Ok(Result(BoolV(true)))
  {
    var env1 := env[a := LIST_1];
    var env2 := env1[b := LIST_1];
    var env3 := env2[a := LIST_12];
    var last := [Return(Some(LengthIsOne(b)))] + [];
    hide Eval, PyEval, Block, LengthIsOne;
    LengthIsFound(py, b, env3);
    ListOfOne(Reference(py, {}), env, IntV(1));
    ListOfOne(Reference(py, {}), env2, IntV(2));
    NameOf(Reference(py, {}), env1, a);
    AssignExecutes(py, a, ListDisplay([ONE]), env, LIST_1, 0);
    AssignExecutes(py, b, Name(a), env1, LIST_1, 1);
    assert Augmented(py, env2, a, Add, ListDisplay([TWO])) == Ok(Some(LIST_12));
    BlockCons(py, Set(a, ListDisplay([ONE])), [Set(b, Name(a))] + ([Grows(a)] + last), State(env, 0), State(env1, 1));
    BlockCons(py, Set(b, Name(a)), [Grows(a)] + last, State(env1, 1), State(env2, 2));
    BlockCons(py, Grows(a), last, State(env2, 2), State(env3, 3));
    BlockStop(py, Return(Some(LengthIsOne(b))), [], State(env3, 3));
  }

  /** `a += [2]` after `b = a`, with every name bound and no break or continue: Python updates
      the one list that both names stand for, the interpreter binds a to a new list, still
      finds b's length to be 1, and answers True. */
  lemma ListIsReplaced(m: Reference, a: string, b: string, env: Env)
    requires Usable(a) && Usable(b) && a != b && Counts(m.py)
    ensures ValidBlock(Aliased(a, b))
    ensures RunsBlock(m, false, Aliased(a, b), env, Departed(UpdatedInPlace(a)), env[a := LIST_1][b := LIST_1])
    ensures Block(m.py, MAX_LIMITS, Aliased(a, b), State(env, 0)).out == Ok(Result(BoolV(true)))
  {
    hide Block, RunsBlock, ValidBlock, Aliased, Usable;
    AliasedIsAccepted(a, b);
    AliasedDeparts(m, false, a, b, env);
    AliasedAnswers(m.py, a, b, env);
  }

  // ---- len = 0; return len(slug) ----

  const CALL_LEN := Call(Name("len"), [Name("slug")], 0)
  const SHADOWED := [Set("len", Constant(IntV(0)))] + ([Return(Some(CALL_LEN))] + [])

  lemma ShadowedRuns(m: Reference, env: Env)
    requires "len" in m.locals
    ensures RunsBlock(m, false, SHADOWED, env, Raised(LocalAsFunction("len")), env["len" := IntV(0)])
  {
    var env1 := env["len" := IntV(0)];
    var c := Raised(LocalAsFunction("len"));
    assert PyEval(m, env, Constant(IntV(0))) == Ok(IntV(0));
    assert PyEval(m, env1, CALL_LEN) == Err(LocalAsFunction("len"));
    hide PyEval, RunsBlock;
    AssignRuns(m, false, "len", Constant(IntV(0)), env, IntV(0));
    assert Runs(m, false, Return(Some(CALL_LEN)), env1, c, env1);
    hide Runs;
    RunStop(m, false, Return(Some(CALL_LEN)), [], env1, c, env1);
    RunCons(m, false, Set("len", Constant(IntV(0))), [Return(Some(CALL_LEN))] + [], env, env1, c, env1);
  }

  lemma ShadowedAnswers(py: ObjectModel, env: Env, v: Value)
    requires "slug" in env && py.builtin("len", [env["slug"]]) == Object(v)
    ensures Block(py, MAX_LIMITS, SHADOWED, State(env, 0)).out == Ok(Result(v))
  {
    var env1 := env["len" := IntV(0)];
    LenIsUsable();
    assert "len"[0] != "slug"[0];
    OneEval(py, env1, Name("slug"));
    assert Eval(py, env1, CALL_LEN) == Ok(v);
    assert Eval(py, env, Constant(IntV(0))) == Ok(IntV(0));
    hide Eval, EvalAll, Block, Usable;
    AssignExecutes(py, "len", Constant(IntV(0)), env, IntV(0), 0);
    BlockCons(py, Set("len", Constant(IntV(0))), [Return(Some(CALL_LEN))] + [], State(env, 0), State(env1, 1));
    BlockStop(py, Return(Some(CALL_LEN)), [], State(env1, 1));
  }

  lemma ShadowedIsAccepted()
    requires Usable("slug")
    ensures ValidBlock(SHADOWED) && "len" in AssignedIn(SHADOWED)
  {
    LenIsUsable();
    OneValid(Name("slug"));
    NameIsAccepted("slug");
    CallIsAccepted([Name("slug")]);
    AssignIsAccepted("len", Constant(IntV(0)));
    hide ValidExpr, ValidExprs, Usable;
    assert Set("len", Constant(IntV(0))).targets[0] == Name("len");
    assert "len" in Assigned(Set("len", Constant(IntV(0))));
    ValidCons(Return(Some(CALL_LEN)), []);
    ValidCons(Set("len", Constant(IntV(0))), [Return(Some(CALL_LEN))] + []);
  }

  lemma SlugIsUsable()
    ensures Usable("slug")
  {
    assert "slug"[0] == 's' && |"slug"| == 4;
    assert forall id :: id in FORBIDDEN_NAMES && |id| == 4 ==> id[0] != 's';
  }

  /** A local name that hides a builtin: Python calls the local, the interpreter the builtin. */
  lemma LocalIsNotCalled(py: ObjectModel, env: Env, v: Value)
    requires "slug" in env && py.builtin("len", [env["slug"]]) == Object(v)
    ensures ValidBlock(SHADOWED)
    ensures RunsBlock(FunctionOf(py, SHADOWED), false, SHADOWED, env, Raised(LocalAsFunction("len")), env["len" := IntV(0)])
    ensures Block(py, MAX_LIMITS, SHADOWED, State(env, 0)).out == Ok(Result(v))
  {
    hide Block, RunsBlock, ValidBlock, AssignedIn, Usable;
    SlugIsUsable();
    ShadowedIsAccepted();
    ShadowedRuns(FunctionOf(py, SHADOWED), env);
    ShadowedAnswers(py, env, v);
  }

  // ---- return len ----

  /** A builtin as a value: Python returns the function, the interpreter finds no such name. */
  lemma GlobalIsNotFound(py: ObjectModel, env: Env)
    requires "len" !in env
    ensures ValidBlock([Return(Some(Name("len")))])
    ensures var m := Reference(py, {"slug"});
            RunsBlock(m, false, [Return(Some(Name("len")))], env, Raised(GlobalAsValue("len")), env)
    ensures Block(py, MAX_LIMITS, [Return(Some(Name("len")))], State(env, 0)).out == Err(UndefinedName("len"))
  {
    LenIsUsable();
    NameIsAccepted("len");
    hide Usable, FORBIDDEN_NAMES;
    var s := Return(Some(Name("len")));
    var m, c := Reference(py, {"slug"}), Raised(GlobalAsValue("len"));
    assert "len"[0] != "True"[0] && "len"[0] != "False"[0] && "len"[0] != "None"[0] && "len"[0] == 'l' != "slug"[0];
    assert PyEval(m, env, Name("len")) == Err(GlobalAsValue("len"));
    assert Eval(py, env, Name("len")) == Err(UndefinedName("len"));
    hide Eval, PyEval, ValidExpr, Block;
    RunStop(m, false, s, [], env, c, env);
    BlockStop(py, s, [], State(env, 0));
    ValidCons(s, []);
    assert [s] + [] == [s];
  }

  // ---- n = 0; for c in slug: n += 1; return n ----

  function CountSlug(n: string, c: string): seq<Stmt> {
    [Set(n, Constant(IntV(0)))] +
    ([For(Name(c), Name("slug"), [AugAssign(Name(n), Add, ONE)], [])] + ([Return(Some(Name(n)))] + []))
  }

  lemma AssignedCons(s: Stmt, rest: seq<Stmt>)
    ensures AssignedIn([s] + rest) == Assigned(s) + AssignedIn(rest)
  {
    assert ([s] + rest)[1..] == rest;
  }

  lemma TameCons(sc: Scope, s: Stmt, rest: seq<Stmt>, known: set<string>, inLoop: bool)
    requires Tame(sc, s, known, inLoop) && TameBlock(sc, rest, KnownAfter(s, known), inLoop)
    ensures TameBlock(sc, [s] + rest, known, inLoop)
  {
    assert ([s] + rest)[1..] == rest;
  }

  /** The check on the text admits counting loops. */
  lemma CountingIsTame(n: string, c: string)
    requires n != c && n != "slug"
    ensures TameProgram(CountSlug(n, c), {n})
  {
    var zero, count, last := Set(n, Constant(IntV(0))), AugAssign(Name(n), Add, ONE), Return(Some(Name(n)));
    var loop := For(Name(c), Name("slug"), [count], []);
    AssignedCons(zero, [loop] + ([last] + []));
    assert zero.targets[0] == Name(n) && n in Assigned(zero);
    var sc := Scope({"slug"} + AssignedIn(CountSlug(n, c)), {n});
    hide AssignedIn;
    assert [count][1..] == [];
    assert TameBlock(sc, [count], {"slug", n} + {c}, true);
    assert {"slug"} + {n} == {"slug", n};
    TameCons(sc, last, [], {"slug", n}, false);
    TameCons(sc, loop, [last] + [], {"slug", n}, false);
    TameCons(sc, zero, [loop] + ([last] + []), {"slug"}, false);
  }
}
