/** What the interpreter does with statements: a budget of statements and of iterations
    per loop, and sentinel objects that carry break, continue and return outwards. */
module SlugExecution {
  import opened Prelude
  import opened SlugAst
  import opened SlugExpressions

  datatype Limits = Limits(steps: nat, iterations: nat)

  const MAX_LIMITS := Limits(50_000, 10_000)

  // What a block hands to its caller: one of the three sentinel objects, or a result.
  datatype Signal = Sentinel | BreakSignal | ContinueSignal | Result(value: Value)

  datatype State = State(vars: Env, steps: nat)

  datatype Run = Run(out: Outcome<Signal>, st: State)

  function Stop(f: Failure, st: State): Run {
    Run(Err(f), st)
  }

  function Exec(py: ObjectModel, lim: Limits, s: Stmt, st: State): Run
    decreases s, 3, 0
  {
    var st := st.(steps := st.steps + 1);
    if st.steps > lim.steps then Stop(StepLimit, st) else Perform(py, lim, s, st)
  }

  function Perform(py: ObjectModel, lim: Limits, s: Stmt, st: State): Run
    decreases s, 2, 0
  {
    match s
    case Return(None) => Run(Ok(Result(NoneV)), st)
    case Return(Some(e)) =>
      (match Eval(py, st.vars, e)
       case Ok(v) => Run(Ok(Result(v)), st)
       case Err(f) => Stop(f, st))
    case If(test, body, orelse) =>
      (match Eval(py, st.vars, test)
       case Ok(v) => Block(py, lim, if Truth(v) then body else orelse, st)
       case Err(f) => Stop(f, st))
    case Assign(targets, e) =>
      (match Eval(py, st.vars, e)
       case Ok(v) => if targets == [] then Stop(NoIdentifier, st) else Bind(targets[0], v, st)
       case Err(f) => Stop(f, st))
    case AugAssign(target, op, e) => Augment(py, target, op, e, st)
    case For(_, iter, _, _) =>
      (match ForItems(py, st.vars, iter)
       case Ok(items) => ForLoop(py, lim, s, items, 0, st)
       case Err(f) => Stop(f, st))
    case While(_, _, _) => WhileLoop(py, lim, s, 0, st)
    case Break => Run(Ok(BreakSignal), st)
    case Continue => Run(Ok(ContinueSignal), st)
    case Pass => Run(Ok(Sentinel), st)
    case ExprStmt(e) =>
      (match Eval(py, st.vars, e)
       case Ok(_) => Run(Ok(Sentinel), st)
       case Err(f) => Stop(f, st))
    case OtherStmt => Run(Ok(Sentinel), st)
  }

  function Block(py: ObjectModel, lim: Limits, ss: seq<Stmt>, st: State): Run
    decreases ss, 0, 0
  {
    if ss == [] then Run(Ok(Sentinel), st)
    else
      var r := Exec(py, lim, ss[0], st);
      if r.out == Ok(Sentinel) then Block(py, lim, ss[1..], r.st) else r
  }

  function Bind(target: Expr, v: Value, st: State): Run {
    if target.Name? then Run(Ok(Sentinel), st.(vars := st.vars[target.id := v])) else Stop(NoIdentifier, st)
  }

  // An operator other than +, -, * is ignored.
  function Augment(py: ObjectModel, target: Expr, op: Operator, e: Expr, st: State): Run {
    if !target.Name? then Stop(NoIdentifier, st)
    else match Augmented(py, st.vars, target.id, op, e)
         case Err(f) => Stop(f, st)
         case Ok(None) => Run(Ok(Sentinel), st)
         case Ok(Some(x)) => Bind(target, x, st)
  }

  // The value that is assigned, if any. A name without a value counts as 0.
  function Augmented(py: ObjectModel, env: Env, id: string, op: Operator, e: Expr): Outcome<Option<Value>> {
    var previous := if id in env then env[id] else IntV(0);
    var v :- Eval(py, env, e);
    if op != Add && op != Sub && op != Mult then Ok(None)
    else
      var x :- py.binary(op, previous, v).Lift();
      Ok(Some(x))
  }

  function ForItems(py: ObjectModel, env: Env, iter: Expr): Outcome<seq<Value>> {
    var v :- Eval(py, env, iter);
    Items(v)
  }

  // The loop over the items that are left, after n iterations.
  function ForLoop(py: ObjectModel, lim: Limits, s: Stmt, items: seq<Value>, n: nat, st: State): Run
    requires s.For?
    decreases s, 1, |items|
  {
    if items == [] then LoopElse(Block(py, lim, s.orelse, st))
    else if n + 1 > lim.iterations then Stop(ForLimit, st)
    else if !s.target.Name? then Stop(NoIdentifier, st)
    else
      var r := Block(py, lim, s.body, st.(vars := st.vars[s.target.id := items[0]]));
      if GoesOn(r.out) then ForLoop(py, lim, s, items[1..], n + 1, r.st) else LoopExit(r)
  }

  // The loop after n full iterations.
  function WhileLoop(py: ObjectModel, lim: Limits, s: Stmt, n: nat, st: State): Run
    requires s.While?
    decreases s, 1, if n <= lim.iterations then lim.iterations - n + 1 else 0
  {
    match Eval(py, st.vars, s.test)
    case Err(f) => Stop(f, st)
    case Ok(v) =>
      if !Truth(v) then LoopElse(Block(py, lim, s.orelse, st))
      else if n + 1 > lim.iterations then Stop(WhileLimit, st)
      else
        var r := Block(py, lim, s.body, st);
        if GoesOn(r.out) then WhileLoop(py, lim, s, n + 1, r.st) else LoopExit(r)
  }

  predicate GoesOn(out: Outcome<Signal>) {
    out == Ok(Sentinel) || out == Ok(ContinueSignal)
  }

  // A loop left from its body: break ends it quietly, a result or a failure goes out.
  function LoopExit(r: Run): Run {
    if r.out == Ok(BreakSignal) then Run(Ok(Sentinel), r.st) else r
  }

  // A loop left through its else block, where break and continue are swallowed.
  function LoopElse(r: Run): Run {
    if r.out == Ok(BreakSignal) || r.out == Ok(ContinueSignal) then Run(Ok(Sentinel), r.st) else r
  }

  predicate BudgetFailure(out: Outcome<Signal>) {
    out.Err? && (out.failure == StepLimit || out.failure == ForLimit || out.failure == WhileLimit)
  }
}
