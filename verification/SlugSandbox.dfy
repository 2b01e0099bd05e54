/** What the whitelist keeps a script away from: private attributes of objects, and private
    variable names. */
module SlugSandbox {
  import opened Prelude
  import opened SlugAst
  import opened SlugValidator
  import opened SlugExpressions
  import opened SlugExecution
  import opened SlugLaws
  import opened SlugEvaluator

  // Two object models that differ at most in what double-underscore attributes give.
  ghost predicate SameInPublic(py: ObjectModel, py': ObjectModel) {
    && py' == py.(getattr := py'.getattr)
    && forall v, attr :: !StartsWith(attr, "__") ==> py'.getattr(v, attr) == py.getattr(v, attr)
  }

  lemma {:induction false} EvalIsPublic(py: ObjectModel, py': ObjectModel, env: Env, e: Expr)
    requires SameInPublic(py, py') && ValidExpr(e)
    ensures Eval(py', env, e) == Eval(py, env, e)
    decreases e, 1
  {
    match e {
      case Constant(_) =>
      case Name(_) =>
      case BoolOp(_, values) => ListIsPublic(py, py', env, values);
      case ListDisplay(elts) => ListIsPublic(py, py', env, elts);
      case TupleDisplay(elts) => ListIsPublic(py, py', env, elts);
      case Compare(_, _, _) => CompareIsPublic(py, py', env, e);
      case Call(_, _, _) => CallIsPublic(py, py', env, e);
      case SliceOf(_, _, _, _) => SliceIsPublic(py, py', env, e);
      case UnaryOp(_, _) => OperandsArePublic(py, py', env, e);
      case BinOp(_, _, _) => OperandsArePublic(py, py', env, e);
      case Attribute(_, _) => OperandsArePublic(py, py', env, e);
      case Subscript(_, _) => OperandsArePublic(py, py', env, e);
      case IfExp(_, _, _) => OperandsArePublic(py, py', env, e);
    }
  }

  lemma {:induction false} OperandsArePublic(py: ObjectModel, py': ObjectModel, env: Env, e: Expr)
    requires SameInPublic(py, py') && ValidExpr(e)
    requires e.UnaryOp? || e.BinOp? || e.Attribute? || e.Subscript? || e.IfExp?
    ensures Eval(py', env, e) == Eval(py, env, e)
    decreases e, 0
  {
    if e.UnaryOp? {
      EvalIsPublic(py, py', env, e.operand);
    } else if e.BinOp? {
      EvalIsPublic(py, py', env, e.left);
      EvalIsPublic(py, py', env, e.right);
    } else if e.Attribute? {
      EvalIsPublic(py, py', env, e.obj);
    } else if e.Subscript? {
      EvalIsPublic(py, py', env, e.obj);
      EvalIsPublic(py, py', env, e.index);
    } else {
      EvalIsPublic(py, py', env, e.test);
      EvalIsPublic(py, py', env, e.body);
      EvalIsPublic(py, py', env, e.orelse);
    }
  }

  lemma {:induction false} CompareIsPublic(py: ObjectModel, py': ObjectModel, env: Env, e: Expr)
    requires SameInPublic(py, py') && ValidExpr(e) && e.Compare?
    ensures Eval(py', env, e) == Eval(py, env, e)
    decreases e, 0
  {
    EvalIsPublic(py, py', env, e.first);
    if Eval(py, env, e.first).Ok? {
      ChainIsPublic(py, py', env, Eval(py, env, e.first).value, e.ops, e.comparators);
    }
  }

  lemma {:induction false} CallIsPublic(py: ObjectModel, py': ObjectModel, env: Env, e: Expr)
    requires SameInPublic(py, py') && ValidExpr(e) && e.Call?
    ensures Eval(py', env, e) == Eval(py, env, e)
    decreases e, 0
  {
    ListIsPublic(py, py', env, e.args);
    if e.func.Attribute? {
      EvalIsPublic(py, py', env, e.func.obj);
    } else if EvalAll(py, env, e.args).Ok? {
      CalleeIsPublic(py, py', e.func.id, EvalAll(py, env, e.args).value);
    }
  }

  lemma CalleeIsPublic(py: ObjectModel, py': ObjectModel, id: string, args: seq<Value>)
    requires SameInPublic(py, py')
    ensures CallNamed(py', id, args) == CallNamed(py, id, args)
  {
    assert py'.fold == py.fold && py'.search == py.search && py'.builtin == py.builtin;
    if |args| >= 2 && Items(args[1]).Ok? && FoldedArg(py, args, 0).Ok? {
      AnyIsPublic(py, py', Items(args[1]).value, FoldedArg(py, args, 0).value);
    }
  }

  lemma {:induction false} AnyIsPublic(py: ObjectModel, py': ObjectModel, ws: seq<Value>, s: string)
    requires py'.fold == py.fold
    ensures AnyOccurs(py', ws, s) == AnyOccurs(py, ws, s)
  {
    if ws != [] {
      AnyIsPublic(py, py', ws[1..], s);
    }
  }

  lemma {:induction false} SliceIsPublic(py: ObjectModel, py': ObjectModel, env: Env, e: Expr)
    requires SameInPublic(py, py') && ValidExpr(e) && e.SliceOf?
    ensures Eval(py', env, e) == Eval(py, env, e)
    decreases e, 0
  {
    EvalIsPublic(py, py', env, e.obj);
    OptionIsPublic(py, py', env, e.lower);
    OptionIsPublic(py, py', env, e.upper);
    OptionIsPublic(py, py', env, e.stride);
  }

  lemma {:induction false} OptionIsPublic(py: ObjectModel, py': ObjectModel, env: Env, o: Option<Expr>)
    requires SameInPublic(py, py') && ValidOption(o)
    ensures EvalOption(py', env, o) == EvalOption(py, env, o)
    decreases o, 0
  {
    if o.Some? {
      EvalIsPublic(py, py', env, o.value);
    }
  }

  lemma {:induction false} ListIsPublic(py: ObjectModel, py': ObjectModel, env: Env, es: seq<Expr>)
    requires SameInPublic(py, py') && ValidExprs(es)
    ensures EvalAll(py', env, es) == EvalAll(py, env, es)
    ensures EvalAnd(py', env, es) == EvalAnd(py, env, es)
    ensures EvalOr(py', env, es) == EvalOr(py, env, es)
    decreases es, 0
  {
    if es != [] {
      EvalIsPublic(py, py', env, es[0]);
      ListIsPublic(py, py', env, es[1..]);
    }
  }

  lemma {:induction false} ChainIsPublic(py: ObjectModel, py': ObjectModel, env: Env, l: Value,
                                         ops: seq<CompareOp>, es: seq<Expr>)
    requires SameInPublic(py, py') && ValidExprs(es)
    ensures EvalChain(py', env, l, ops, es) == EvalChain(py, env, l, ops, es)
    decreases es, 0
  {
    if ops != [] && es != [] {
      EvalIsPublic(py, py', env, es[0]);
      if Eval(py, env, es[0]).Ok? {
        var r := Eval(py, env, es[0]).value;
        assert CompareOnce(py', ops[0], l, r) == CompareOnce(py, ops[0], l, r);
        hide SameInPublic, Eval, ValidExpr, CompareOnce;
        ChainIsPublic(py, py', env, r, ops[1..], es[1..]);
      }
    }
  }

  lemma {:induction false} RunIsPublic(py: ObjectModel, py': ObjectModel, lim: Limits, s: Stmt, st: State)
    requires SameInPublic(py, py') && ValidStmt(s)
    ensures Exec(py', lim, s, st) == Exec(py, lim, s, st)
    decreases s, 3, 0
  {
    if s.If? || s.For? || s.While? {
      CompoundIsPublic(py, py', lim, s, st.(steps := st.steps + 1));
    } else {
      SimpleIsPublic(py, py', lim, s, st.(steps := st.steps + 1));
    }
    hide Perform;
  }

  lemma SimpleIsPublic(py: ObjectModel, py': ObjectModel, lim: Limits, s: Stmt, st: State)
    requires SameInPublic(py, py') && ValidStmt(s) && !s.If? && !s.For? && !s.While?
    ensures Perform(py', lim, s, st) == Perform(py, lim, s, st)
  {
    if Head(s).Some? {
      EvalIsPublic(py, py', st.vars, Head(s).value);
    }
    hide Eval, ValidExpr;
  }

  lemma {:induction false} CompoundIsPublic(py: ObjectModel, py': ObjectModel, lim: Limits, s: Stmt, st: State)
    requires SameInPublic(py, py') && ValidStmt(s) && (s.If? || s.For? || s.While?)
    ensures Perform(py', lim, s, st) == Perform(py, lim, s, st)
    decreases s, 2, 0
  {
    EvalIsPublic(py, py', st.vars, Head(s).value);
    hide SameInPublic, ValidExpr, Eval, Block, ForLoop, WhileLoop;
    if s.While? {
      WhileIsPublic(py, py', lim, s, 0, st);
    } else if s.If? {
      if Eval(py, st.vars, s.test).Ok? {
        BlockIsPublic(py, py', lim, if Truth(Eval(py, st.vars, s.test).value) then s.body else s.orelse, st);
      }
    } else if ForItems(py, st.vars, s.iter).Ok? {
      ForIsPublic(py, py', lim, s, ForItems(py, st.vars, s.iter).value, 0, st);
    }
  }

  lemma {:induction false} BlockIsPublic(py: ObjectModel, py': ObjectModel, lim: Limits, ss: seq<Stmt>, st: State)
    requires SameInPublic(py, py') && ValidBlock(ss)
    ensures Block(py', lim, ss, st) == Block(py, lim, ss, st)
    decreases ss, 0, 0
  {
    if ss != [] {
      RunIsPublic(py, py', lim, ss[0], st);
      BlockIsPublic(py, py', lim, ss[1..], Exec(py, lim, ss[0], st).st);
    }
  }

  lemma {:induction false} ForIsPublic(py: ObjectModel, py': ObjectModel, lim: Limits, s: Stmt,
                                       items: seq<Value>, n: nat, st: State)
    requires SameInPublic(py, py') && s.For? && ValidStmt(s)
    ensures ForLoop(py', lim, s, items, n, st) == ForLoop(py, lim, s, items, n, st)
    decreases s, 1, |items|
  {
    if items == [] {
      BlockIsPublic(py, py', lim, s.orelse, st);
    } else {
      var st1 := st.(vars := st.vars[s.target.id := items[0]]);
      BlockIsPublic(py, py', lim, s.body, st1);
      ForIsPublic(py, py', lim, s, items[1..], n + 1, Block(py, lim, s.body, st1).st);
    }
  }

  lemma ValidWhile(s: Stmt)
    requires s.While? && ValidStmt(s)
    ensures ValidExpr(s.test) && ValidBlock(s.body) && ValidBlock(s.orelse)
  {
  }

  lemma {:induction false} WhileIsPublic(py: ObjectModel, py': ObjectModel, lim: Limits, s: Stmt, n: nat, st: State)
    requires SameInPublic(py, py') && s.While? && ValidStmt(s)
    ensures WhileLoop(py', lim, s, n, st) == WhileLoop(py, lim, s, n, st)
    decreases s, 1, if n <= lim.iterations then lim.iterations - n + 1 else 0
  {
    hide SameInPublic, Eval, Block, ValidExpr, ValidStmt;
    ValidWhile(s);
    EvalIsPublic(py, py', st.vars, s.test);
    if Eval(py, st.vars, s.test).Ok? {
      if !Truth(Eval(py, st.vars, s.test).value) {
        BlockIsPublic(py, py', lim, s.orelse, st);
      } else {
        BlockIsPublic(py, py', lim, s.body, st);
        if n + 1 <= lim.iterations {
          WhileIsPublic(py, py', lim, s, n + 1, Block(py, lim, s.body, st).st);
        }
      }
    }
  }

  /** What an accepted script answers, on any slug, does not depend on what the
      double-underscore attributes of any object are. */
  lemma AnswerIsPublic(py: ObjectModel, py': ObjectModel, program: seq<Stmt>, rawSlug: string)
    requires SameInPublic(py, py') && ValidBlock(program)
    ensures Verdict(Block(py', MAX_LIMITS, program, Start(py', rawSlug)).out) ==
            Verdict(Block(py, MAX_LIMITS, program, Start(py, rawSlug)).out)
  {
    BlockIsPublic(py, py', MAX_LIMITS, program, Start(py, rawSlug));
  }
}
