/** Laws of every run of the interpreter: what loops let out, what the budget does, and
    what the whitelist rules out. */
module SlugLaws {
  import opened Prelude
  import opened SlugAst
  import opened SlugValidator
  import opened SlugExpressions
  import opened SlugExecution

  predicate Leaks(out: Outcome<Signal>) {
    out == Ok(BreakSignal) || out == Ok(ContinueSignal)
  }

  /** A loop statement never hands break or continue to the block around it. */
  lemma LoopNeverLeaks(py: ObjectModel, lim: Limits, s: Stmt, st: State)
    requires s.For? || s.While?
    ensures !Leaks(Exec(py, lim, s, st).out)
  {
    var st1 := st.(steps := st.steps + 1);
    if s.While? {
      WhileNeverLeaks(py, lim, s, 0, st1);
    } else if ForItems(py, st1.vars, s.iter).Ok? {
      ForNeverLeaks(py, lim, s, ForItems(py, st1.vars, s.iter).value, 0, st1);
    }
  }

  lemma {:induction false} WhileNeverLeaks(py: ObjectModel, lim: Limits, s: Stmt, n: nat, st: State)
    requires s.While?
    ensures !Leaks(WhileLoop(py, lim, s, n, st).out)
    decreases if n <= lim.iterations then lim.iterations - n + 1 else 0
  {
    var r := Block(py, lim, s.body, st);
    if n + 1 <= lim.iterations && GoesOn(r.out) {
      WhileNeverLeaks(py, lim, s, n + 1, r.st);
    }
  }

  lemma {:induction false} ForNeverLeaks(py: ObjectModel, lim: Limits, s: Stmt, items: seq<Value>, n: nat, st: State)
    requires s.For?
    ensures !Leaks(ForLoop(py, lim, s, items, n, st).out)
    decreases |items|
  {
    if items != [] && s.target.Name? {
      var r := Block(py, lim, s.body, st.(vars := st.vars[s.target.id := items[0]]));
      if GoesOn(r.out) {
        ForNeverLeaks(py, lim, s, items[1..], n + 1, r.st);
      }
    }
  }

  // Every break and continue has a loop around it, and none stands in the else block of
  // that loop.
  predicate Placed(s: Stmt, inLoop: bool) {
    match s
    case Break => inLoop
    case Continue => inLoop
    case If(_, body, orelse) => PlacedBlock(body, inLoop) && PlacedBlock(orelse, inLoop)
    case For(_, _, body, orelse) => PlacedBlock(body, true) && PlacedBlock(orelse, false)
    case While(_, body, orelse) => PlacedBlock(body, true) && PlacedBlock(orelse, false)
    case _ => true
  }

  predicate PlacedBlock(ss: seq<Stmt>, inLoop: bool) {
    ss == [] || (Placed(ss[0], inLoop) && PlacedBlock(ss[1..], inLoop))
  }

  /** Well placed statements outside a loop never leak. */
  lemma {:induction false} PlacedNeverLeaks(py: ObjectModel, lim: Limits, s: Stmt, st: State)
    requires Placed(s, false)
    ensures !Leaks(Exec(py, lim, s, st).out)
    decreases s
  {
    var st1 := st.(steps := st.steps + 1);
    match s {
      case If(test, body, orelse) =>
        PlacedBlockNeverLeaks(py, lim, body, st1);
        PlacedBlockNeverLeaks(py, lim, orelse, st1);
      case For(_, _, _, _) => LoopNeverLeaks(py, lim, s, st);
      case While(_, _, _) => LoopNeverLeaks(py, lim, s, st);
      case _ =>
    }
  }

  lemma {:induction false} PlacedBlockNeverLeaks(py: ObjectModel, lim: Limits, ss: seq<Stmt>, st: State)
    requires PlacedBlock(ss, false)
    ensures !Leaks(Block(py, lim, ss, st).out)
    decreases ss
  {
    if ss != [] {
      PlacedNeverLeaks(py, lim, ss[0], st);
      PlacedBlockNeverLeaks(py, lim, ss[1..], Exec(py, lim, ss[0], st).st);
    }
  }

  // ---- Budget ----

  predicate AtMost(lim: Limits, lim': Limits) {
    lim.steps <= lim'.steps && lim.iterations <= lim'.iterations
  }

  /** A run that the budget did not stop is the same under every larger budget. */
  lemma {:induction false} RaisingLimits(py: ObjectModel, lim: Limits, lim': Limits, s: Stmt, st: State)
    requires AtMost(lim, lim') && !BudgetFailure(Exec(py, lim, s, st).out)
    ensures Exec(py, lim', s, st) == Exec(py, lim, s, st)
    decreases s, 3, 0
  {
    var st1 := st.(steps := st.steps + 1);
    match s {
      case If(test, body, orelse) =>
        if Eval(py, st1.vars, test).Ok? {
          RaisingLimitsBlock(py, lim, lim', if Truth(Eval(py, st1.vars, test).value) then body else orelse, st1);
        }
      case For(_, iter, _, _) =>
        if ForItems(py, st1.vars, iter).Ok? {
          RaisingLimitsFor(py, lim, lim', s, ForItems(py, st1.vars, iter).value, 0, st1);
        }
      case While(_, _, _) => RaisingLimitsWhile(py, lim, lim', s, 0, st1);
      case _ =>
    }
  }

  lemma {:induction false} RaisingLimitsBlock(py: ObjectModel, lim: Limits, lim': Limits, ss: seq<Stmt>, st: State)
    requires AtMost(lim, lim') && !BudgetFailure(Block(py, lim, ss, st).out)
    ensures Block(py, lim', ss, st) == Block(py, lim, ss, st)
    decreases ss, 0, 0
  {
    if ss != [] {
      RaisingLimits(py, lim, lim', ss[0], st);
      var r := Exec(py, lim, ss[0], st);
      if r.out == Ok(Sentinel) {
        RaisingLimitsBlock(py, lim, lim', ss[1..], r.st);
      }
    }
  }

  lemma {:induction false} RaisingLimitsFor(py: ObjectModel, lim: Limits, lim': Limits, s: Stmt,
                                            items: seq<Value>, n: nat, st: State)
    requires s.For? && AtMost(lim, lim') && !BudgetFailure(ForLoop(py, lim, s, items, n, st).out)
    ensures ForLoop(py, lim', s, items, n, st) == ForLoop(py, lim, s, items, n, st)
    decreases s, 1, |items|
  {
    if items == [] {
      RaisingLimitsBlock(py, lim, lim', s.orelse, st);
    } else if s.target.Name? {
      var st1 := st.(vars := st.vars[s.target.id := items[0]]);
      RaisingLimitsBlock(py, lim, lim', s.body, st1);
      var r := Block(py, lim, s.body, st1);
      if GoesOn(r.out) {
        RaisingLimitsFor(py, lim, lim', s, items[1..], n + 1, r.st);
      }
    }
  }

  lemma {:induction false} RaisingLimitsWhile(py: ObjectModel, lim: Limits, lim': Limits, s: Stmt, n: nat, st: State)
    requires s.While? && AtMost(lim, lim') && !BudgetFailure(WhileLoop(py, lim, s, n, st).out)
    ensures WhileLoop(py, lim', s, n, st) == WhileLoop(py, lim, s, n, st)
    decreases s, 1, if n <= lim.iterations then lim.iterations - n + 1 else 0
  {
    if Eval(py, st.vars, s.test).Ok? {
      if !Truth(Eval(py, st.vars, s.test).value) {
        RaisingLimitsBlock(py, lim, lim', s.orelse, st);
      } else {
        RaisingLimitsBlock(py, lim, lim', s.body, st);
        var r := Block(py, lim, s.body, st);
        if GoesOn(r.out) {
          RaisingLimitsWhile(py, lim, lim', s, n + 1, r.st);
        }
      }
    }
  }

  // ---- Whitelist ----

  // What evaluating an expression may fail with; the interpreter's own complaints only
  // when the whitelist did not accept the expression.
  predicate Fault(o: Outcome, valid: bool) {
    o.Err? ==>
      || o.failure.PythonError?
      || o.failure.UndefinedName?
      || (!valid && (o.failure.UnsupportedExpression? || o.failure.UnsupportedComparison? || o.failure.UnknownFunction?))
  }

  /** An accepted expression never meets an unsupported form, operator or function. */
  lemma {:induction false} EvalFaults(py: ObjectModel, env: Env, e: Expr)
    ensures Fault(Eval(py, env, e), ValidExpr(e))
    decreases e, 1
  {
    match e {
      case Constant(_) =>
      case Name(_) =>
      case OtherExpr =>
      case BoolOp(_, values) => EvalListFaults(py, env, values);
      case ListDisplay(elts) => EvalListFaults(py, env, elts);
      case TupleDisplay(elts) => EvalListFaults(py, env, elts);
      case Compare(_, _, _) => CompareFaults(py, env, e);
      case Call(_, _, _) => CallFaults(py, env, e);
      case SliceOf(_, _, _, _) => SliceFaults(py, env, e);
      case UnaryOp(_, _) => OperandFaults(py, env, e);
      case BinOp(_, _, _) => OperandFaults(py, env, e);
      case Attribute(_, _) => OperandFaults(py, env, e);
      case Subscript(_, _) => OperandFaults(py, env, e);
      case IfExp(_, _, _) => OperandFaults(py, env, e);
    }
  }

  lemma {:induction false} OperandFaults(py: ObjectModel, env: Env, e: Expr)
    requires e.UnaryOp? || e.BinOp? || e.Attribute? || e.Subscript? || e.IfExp?
    ensures Fault(Eval(py, env, e), ValidExpr(e))
    decreases e, 0
  {
    if e.UnaryOp? {
      EvalFaults(py, env, e.operand);
    } else if e.BinOp? {
      EvalFaults(py, env, e.left);
      EvalFaults(py, env, e.right);
    } else if e.Attribute? {
      EvalFaults(py, env, e.obj);
    } else if e.Subscript? {
      EvalFaults(py, env, e.obj);
      EvalFaults(py, env, e.index);
    } else {
      EvalFaults(py, env, e.test);
      EvalFaults(py, env, e.body);
      EvalFaults(py, env, e.orelse);
    }
  }

  lemma {:induction false} CompareFaults(py: ObjectModel, env: Env, e: Expr)
    requires e.Compare?
    ensures Fault(Eval(py, env, e), ValidExpr(e))
    decreases e, 0
  {
    EvalFaults(py, env, e.first);
    if Eval(py, env, e.first).Ok? {
      EvalChainFaults(py, env, Eval(py, env, e.first).value, e.ops, e.comparators);
    }
  }

  lemma {:induction false} CallFaults(py: ObjectModel, env: Env, e: Expr)
    requires e.Call?
    ensures Fault(Eval(py, env, e), ValidExpr(e))
    decreases e, 0
  {
    EvalListFaults(py, env, e.args);
    if e.func.Attribute? {
      EvalFaults(py, env, e.func.obj);
    }
  }

  lemma {:induction false} SliceFaults(py: ObjectModel, env: Env, e: Expr)
    requires e.SliceOf?
    ensures Fault(Eval(py, env, e), ValidExpr(e))
    decreases e, 0
  {
    EvalFaults(py, env, e.obj);
    EvalOptionFaults(py, env, e.lower);
    EvalOptionFaults(py, env, e.upper);
    EvalOptionFaults(py, env, e.stride);
  }

  lemma {:induction false} EvalOptionFaults(py: ObjectModel, env: Env, o: Option<Expr>)
    ensures Fault(EvalOption(py, env, o), ValidOption(o))
    decreases o, 0
  {
    if o.Some? {
      EvalFaults(py, env, o.value);
    }
  }

  lemma {:induction false} EvalListFaults(py: ObjectModel, env: Env, es: seq<Expr>)
    ensures Fault(EvalAll(py, env, es), ValidExprs(es))
    ensures Fault(EvalAnd(py, env, es), ValidExprs(es))
    ensures Fault(EvalOr(py, env, es), ValidExprs(es))
    decreases es, 0
  {
    if es != [] {
      EvalFaults(py, env, es[0]);
      EvalListFaults(py, env, es[1..]);
    }
  }

  lemma {:induction false} EvalChainFaults(py: ObjectModel, env: Env, l: Value, ops: seq<CompareOp>, es: seq<Expr>)
    ensures Fault(EvalChain(py, env, l, ops, es), OtherCompare !in ops && ValidExprs(es))
    decreases es, 0
  {
    if ops != [] && es != [] {
      EvalFaults(py, env, es[0]);
      if Eval(py, env, es[0]).Ok? {
        EvalChainFaults(py, env, Eval(py, env, es[0]).value, ops[1..], es[1..]);
      }
    }
  }

  // The expression a statement evaluates first.
  function Head(s: Stmt): Option<Expr> {
    match s
    case Return(o) => o
    case If(test, _, _) => Some(test)
    case Assign(_, e) => Some(e)
    case AugAssign(_, _, e) => Some(e)
    case For(_, iter, _, _) => Some(iter)
    case While(test, _, _) => Some(test)
    case ExprStmt(e) => Some(e)
    case _ => None
  }

  // ---- Every run ----

  // What a run may fail with: the budget, an expression's faults, and a target that is not
  // a name when the whitelist did not accept the statements.
  predicate RunFault(out: Outcome<Signal>, valid: bool) {
    BudgetFailure(out) || Fault(out, valid) || (!valid && out == Err(NoIdentifier))
  }

  // The counter only grows, and it passes the limit, by one, exactly when the run stops there.
  predicate Counted(lim: Limits, st: State, r: Run) {
    && st.steps <= r.st.steps
    && (st.steps <= lim.steps ==> r.st.steps <= lim.steps + 1)
    && (st.steps <= lim.steps ==> (r.st.steps == lim.steps + 1 <==> r.out == Err(StepLimit)))
  }

  /** However its loops are nested, a run executes at most lim.steps statements, and
      accepted statements never meet a form the interpreter does not support. */
  lemma {:induction false} RunIsOrderly(py: ObjectModel, lim: Limits, s: Stmt, st: State)
    ensures Counted(lim, st, Exec(py, lim, s, st))
    ensures RunFault(Exec(py, lim, s, st).out, ValidStmt(s))
    decreases s, 3, 0
  {
    var st1 := st.(steps := st.steps + 1);
    if st1.steps <= lim.steps {
      if s.If? || s.For? || s.While? {
        CompoundIsOrderly(py, lim, s, st1);
      } else {
        SimpleIsOrderly(py, lim, s, st1);
      }
    }
    hide Perform, ValidStmt;
  }

  lemma SimpleIsOrderly(py: ObjectModel, lim: Limits, s: Stmt, st: State)
    requires !s.If? && !s.For? && !s.While? && st.steps <= lim.steps
    ensures Counted(lim, st, Perform(py, lim, s, st)) && RunFault(Perform(py, lim, s, st).out, ValidStmt(s))
  {
    EvalOptionFaults(py, st.vars, Head(s));
    hide Eval, ValidExpr;
  }

  lemma {:induction false} CompoundIsOrderly(py: ObjectModel, lim: Limits, s: Stmt, st: State)
    requires (s.If? || s.For? || s.While?) && st.steps <= lim.steps
    ensures Counted(lim, st, Perform(py, lim, s, st)) && RunFault(Perform(py, lim, s, st).out, ValidStmt(s))
    decreases s, 2, 0
  {
    EvalOptionFaults(py, st.vars, Head(s));
    hide Eval, ValidExpr, Block, ForLoop, WhileLoop;
    if s.While? {
      WhileIsOrderly(py, lim, s, 0, st);
    } else if s.If? {
      if Eval(py, st.vars, s.test).Ok? {
        BlockIsOrderly(py, lim, if Truth(Eval(py, st.vars, s.test).value) then s.body else s.orelse, st);
      }
    } else if ForItems(py, st.vars, s.iter).Ok? {
      ForIsOrderly(py, lim, s, ForItems(py, st.vars, s.iter).value, 0, st);
    }
  }

  lemma {:induction false} BlockIsOrderly(py: ObjectModel, lim: Limits, ss: seq<Stmt>, st: State)
    ensures Counted(lim, st, Block(py, lim, ss, st))
    ensures RunFault(Block(py, lim, ss, st).out, ValidBlock(ss))
    decreases ss, 0, 0
  {
    if ss != [] {
      RunIsOrderly(py, lim, ss[0], st);
      var r := Exec(py, lim, ss[0], st);
      if r.out == Ok(Sentinel) {
        BlockIsOrderly(py, lim, ss[1..], r.st);
      }
    }
  }

  lemma {:induction false} ForIsOrderly(py: ObjectModel, lim: Limits, s: Stmt,
                                        items: seq<Value>, n: nat, st: State)
    requires s.For?
    ensures Counted(lim, st, ForLoop(py, lim, s, items, n, st))
    ensures RunFault(ForLoop(py, lim, s, items, n, st).out, ValidStmt(s))
    decreases s, 1, |items|
  {
    if items == [] {
      BlockIsOrderly(py, lim, s.orelse, st);
    } else if n + 1 <= lim.iterations && s.target.Name? {
      var st1 := st.(vars := st.vars[s.target.id := items[0]]);
      BlockIsOrderly(py, lim, s.body, st1);
      var r := Block(py, lim, s.body, st1);
      if GoesOn(r.out) {
        ForIsOrderly(py, lim, s, items[1..], n + 1, r.st);
      }
    }
  }

  lemma {:induction false} WhileIsOrderly(py: ObjectModel, lim: Limits, s: Stmt, n: nat, st: State)
    requires s.While?
    ensures Counted(lim, st, WhileLoop(py, lim, s, n, st))
    ensures RunFault(WhileLoop(py, lim, s, n, st).out, ValidStmt(s))
    decreases s, 1, if n <= lim.iterations then lim.iterations - n + 1 else 0
  {
    EvalFaults(py, st.vars, s.test);
    if Eval(py, st.vars, s.test).Ok? {
      if !Truth(Eval(py, st.vars, s.test).value) {
        BlockIsOrderly(py, lim, s.orelse, st);
      } else if n + 1 <= lim.iterations {
        BlockIsOrderly(py, lim, s.body, st);
        var r := Block(py, lim, s.body, st);
        if GoesOn(r.out) {
          WhileIsOrderly(py, lim, s, n + 1, r.st);
        }
      }
    }
  }
}
