/** Expressions as the Python Language Reference describes them, inside a function with
    known local names. Only names are special to the reference: a name that is assigned
    anywhere in the function is local everywhere in it, a called name is looked up like any
    other, and names that are not local may be global. */
module PythonExpressions {
  import opened Prelude
  import opened SlugAst
  import opened SlugValidator
  import opened SlugExpressions
  import opened SlugExecution

  // CPython's objects and the local names of the function.
  datatype Reference = Reference(py: ObjectModel, locals: set<string>)

  // A value comes from a global, or a function from a local, where the interpreter does not look.
  predicate Strays(f: Failure) {
    f.GlobalAsValue? || f.LocalAsFunction?
  }

  // Section 4.2.2 (resolution of names).
  function PyName(m: Reference, env: Env, id: string): Outcome<Value> {
    if id in env then Ok(env[id])
    else if id == "True" then Ok(BoolV(true))
    else if id == "False" then Ok(BoolV(false))
    else if id == "None" then Ok(NoneV)
    else if id !in m.locals && (id in ALLOWED_CALLS || m.py.isGlobal(id)) then Err(GlobalAsValue(id))
    else Err(UndefinedName(id))
  }

  // Section 6.3.4: the callee is evaluated before the arguments.
  function PyCallNamed(m: Reference, env: Env, id: string, args: seq<Expr>): Outcome<Value>
    decreases args, 2
  {
    if id in m.locals then Err(LocalAsFunction(id))
    else if id !in ALLOWED_CALLS then Err(if m.py.isGlobal(id) then GlobalAsValue(id) else UndefinedName(id))
    else
      var actuals :- PyEvalAll(m, env, args);
      CallNamed(m.py, id, actuals)
  }

  function PyEval(m: Reference, env: Env, e: Expr): Outcome<Value>
    decreases e, 1
  {
    match e
    case Constant(v) => Ok(v)
    case Name(id) => PyName(m, env, id)
    case BoolOp(And, values) => PyEvalAnd(m, env, values)
    case BoolOp(Or, values) => PyEvalOr(m, env, values)
    case UnaryOp(op, operand) =>
      var v :- PyEval(m, env, operand);
      (match op
       case Not => Ok(BoolV(!Truth(v)))
       case USub => m.py.negate(v).Lift()
       case OtherUnary => Err(UnsupportedExpression))
    case BinOp(left, op, right) =>
      var l :- PyEval(m, env, left);
      var r :- PyEval(m, env, right);
      if op == OtherOperator then Err(UnsupportedExpression) else m.py.binary(op, l, r).Lift()
    case Compare(first, ops, comparators) =>
      var l :- PyEval(m, env, first);
      PyEvalChain(m, env, l, ops, comparators)
    case Call(func, args, _) =>
      (match func
       case Attribute(receiver, attr) =>
         var self :- PyEval(m, env, receiver);
         var bound :- m.py.getattr(self, attr).Lift();
         var actuals :- PyEvalAll(m, env, args);
         m.py.invoke(bound, actuals).Lift()
       case Name(id) => PyCallNamed(m, env, id, args)
       case _ => Err(UnsupportedExpression))
    case Attribute(receiver, attr) =>
      var self :- PyEval(m, env, receiver);
      m.py.getattr(self, attr).Lift()
    case Subscript(receiver, index) =>
      var self :- PyEval(m, env, receiver);
      var i :- PyEval(m, env, index);
      m.py.getitem(self, i).Lift()
    case SliceOf(receiver, lower, upper, stride) =>
      var self :- PyEval(m, env, receiver);
      var l :- PyEvalOption(m, env, lower);
      var u :- PyEvalOption(m, env, upper);
      var s :- PyEvalOption(m, env, stride);
      m.py.getslice(self, l, u, s).Lift()
    case ListDisplay(elts) =>
      var vs :- PyEvalAll(m, env, elts);
      Ok(ListV(vs))
    case TupleDisplay(elts) =>
      var vs :- PyEvalAll(m, env, elts);
      Ok(TupleV(vs))
    case IfExp(test, body, orelse) =>
      var t :- PyEval(m, env, test);
      if Truth(t) then PyEval(m, env, body) else PyEval(m, env, orelse)
    case OtherExpr => Err(UnsupportedExpression)
  }

  function PyEvalOption(m: Reference, env: Env, o: Option<Expr>): Outcome<Value>
    decreases o, 0
  {
    match o
    case None => Ok(NoneV)
    case Some(e) => PyEval(m, env, e)
  }

  function PyEvalAll(m: Reference, env: Env, es: seq<Expr>): Outcome<seq<Value>>
    decreases es, 0
  {
    if es == [] then Ok([])
    else
      var v :- PyEval(m, env, es[0]);
      Prepend([v], PyEvalAll(m, env, es[1..]))
  }

  // Section 6.11: x and (y and ...), x or (y or ...).
  function PyEvalAnd(m: Reference, env: Env, es: seq<Expr>): Outcome<Value>
    decreases es, 0
  {
    if es == [] then Ok(BoolV(true))
    else
      var x :- PyEval(m, env, es[0]);
      if !Truth(x) || es[1..] == [] then Ok(x) else PyEvalAnd(m, env, es[1..])
  }

  function PyEvalOr(m: Reference, env: Env, es: seq<Expr>): Outcome<Value>
    decreases es, 0
  {
    if es == [] then Ok(BoolV(false))
    else
      var x :- PyEval(m, env, es[0]);
      if Truth(x) || es[1..] == [] then Ok(x) else PyEvalOr(m, env, es[1..])
  }

  // Section 6.10: l op1 b and b op2 c and ..., every operand evaluated once.
  function PyEvalChain(m: Reference, env: Env, l: Value, ops: seq<CompareOp>, es: seq<Expr>): Outcome<Value>
    decreases es, 0
  {
    if ops == [] || es == [] then Ok(BoolV(true))
    else
      var r :- PyEval(m, env, es[0]);
      var holds :- CompareOnce(m.py, ops[0], l, r);
      if holds then PyEvalChain(m, env, r, ops[1..], es[1..]) else Ok(BoolV(false))
  }

  function PyItems(m: Reference, env: Env, iter: Expr): Outcome<seq<Value>> {
    var v :- PyEval(m, env, iter);
    Items(v)
  }

  // ---- The interpreter's expressions against Python's ----

  // Every name is local where it is read and not local where it is called.
  predicate PlainExpr(locals: set<string>, e: Expr) {
    match e
    case Constant(_) => true
    case Name(id) => id in locals
    case BoolOp(_, values) => PlainExprs(locals, values)
    case UnaryOp(_, operand) => PlainExpr(locals, operand)
    case BinOp(left, _, right) => PlainExpr(locals, left) && PlainExpr(locals, right)
    case Compare(first, _, comparators) => PlainExpr(locals, first) && PlainExprs(locals, comparators)
    case Call(func, args, _) =>
      && (if func.Name? then func.id !in locals else if func.Attribute? then PlainExpr(locals, func.obj) else true)
      && PlainExprs(locals, args)
    case Attribute(obj, _) => PlainExpr(locals, obj)
    case Subscript(obj, index) => PlainExpr(locals, obj) && PlainExpr(locals, index)
    case SliceOf(obj, lower, upper, stride) =>
      PlainExpr(locals, obj) && PlainOption(locals, lower) && PlainOption(locals, upper) && PlainOption(locals, stride)
    case ListDisplay(elts) => PlainExprs(locals, elts)
    case TupleDisplay(elts) => PlainExprs(locals, elts)
    case IfExp(test, body, orelse) => PlainExpr(locals, test) && PlainExpr(locals, body) && PlainExpr(locals, orelse)
    case OtherExpr => true
  }

  predicate PlainOption(locals: set<string>, o: Option<Expr>) {
    o.Some? ==> PlainExpr(locals, o.value)
  }

  predicate PlainExprs(locals: set<string>, es: seq<Expr>) {
    es == [] || (PlainExpr(locals, es[0]) && PlainExprs(locals, es[1..]))
  }

  predicate Agrees<T(==)>(reference: Outcome<T>, interpreted: Outcome<T>, plain: bool) {
    reference == interpreted || (reference.Err? && Strays(reference.failure) && !plain)
  }

  /** An accepted expression has the value that Python gives it, unless Python looks up a
      global name as a value or calls a local one; which it does not in a plain expression. */
  lemma {:induction false} EvalIsPython(m: Reference, env: Env, e: Expr)
    requires ValidExpr(e)
    ensures Agrees(PyEval(m, env, e), Eval(m.py, env, e), PlainExpr(m.locals, e))
    decreases e, 1
  {
    match e {
      case Constant(_) =>
      case Name(_) =>
      case BoolOp(_, values) => ListIsPython(m, env, values);
      case ListDisplay(elts) => ListIsPython(m, env, elts);
      case TupleDisplay(elts) => ListIsPython(m, env, elts);
      case Compare(_, _, _) => CompareIsPython(m, env, e);
      case Call(_, _, _) => CallIsPython(m, env, e);
      case SliceOf(_, _, _, _) => SliceIsPython(m, env, e);
      case UnaryOp(_, _) => OperandsArePython(m, env, e);
      case BinOp(_, _, _) => OperandsArePython(m, env, e);
      case Attribute(_, _) => OperandsArePython(m, env, e);
      case Subscript(_, _) => OperandsArePython(m, env, e);
      case IfExp(_, _, _) => OperandsArePython(m, env, e);
    }
  }

  lemma {:induction false} OperandsArePython(m: Reference, env: Env, e: Expr)
    requires ValidExpr(e)
    requires e.UnaryOp? || e.BinOp? || e.Attribute? || e.Subscript? || e.IfExp?
    ensures Agrees(PyEval(m, env, e), Eval(m.py, env, e), PlainExpr(m.locals, e))
    decreases e, 0
  {
    if e.UnaryOp? {
      EvalIsPython(m, env, e.operand);
    } else if e.BinOp? {
      EvalIsPython(m, env, e.left);
      EvalIsPython(m, env, e.right);
    } else if e.Attribute? {
      EvalIsPython(m, env, e.obj);
    } else if e.Subscript? {
      EvalIsPython(m, env, e.obj);
      EvalIsPython(m, env, e.index);
    } else {
      EvalIsPython(m, env, e.test);
      EvalIsPython(m, env, e.body);
      EvalIsPython(m, env, e.orelse);
    }
  }

  lemma {:induction false} CompareIsPython(m: Reference, env: Env, e: Expr)
    requires ValidExpr(e) && e.Compare?
    ensures Agrees(PyEval(m, env, e), Eval(m.py, env, e), PlainExpr(m.locals, e))
    decreases e, 0
  {
    EvalIsPython(m, env, e.first);
    if Eval(m.py, env, e.first).Ok? {
      ChainIsPython(m, env, Eval(m.py, env, e.first).value, e.ops, e.comparators);
    }
  }

  lemma {:induction false} CallIsPython(m: Reference, env: Env, e: Expr)
    requires ValidExpr(e) && e.Call?
    ensures Agrees(PyEval(m, env, e), Eval(m.py, env, e), PlainExpr(m.locals, e))
    decreases e, 0
  {
    ListIsPython(m, env, e.args);
    if e.func.Attribute? {
      EvalIsPython(m, env, e.func.obj);
    }
  }

  lemma {:induction false} SliceIsPython(m: Reference, env: Env, e: Expr)
    requires ValidExpr(e) && e.SliceOf?
    ensures Agrees(PyEval(m, env, e), Eval(m.py, env, e), PlainExpr(m.locals, e))
    decreases e, 0
  {
    EvalIsPython(m, env, e.obj);
    OptionIsPython(m, env, e.lower);
    OptionIsPython(m, env, e.upper);
    OptionIsPython(m, env, e.stride);
  }

  lemma {:induction false} OptionIsPython(m: Reference, env: Env, o: Option<Expr>)
    requires ValidOption(o)
    ensures Agrees(PyEvalOption(m, env, o), EvalOption(m.py, env, o), PlainOption(m.locals, o))
    decreases o, 0
  {
    if o.Some? {
      EvalIsPython(m, env, o.value);
    }
  }

  lemma {:induction false} ListIsPython(m: Reference, env: Env, es: seq<Expr>)
    requires ValidExprs(es)
    ensures Agrees(PyEvalAll(m, env, es), EvalAll(m.py, env, es), PlainExprs(m.locals, es))
    ensures Agrees(PyEvalAnd(m, env, es), EvalAnd(m.py, env, es), PlainExprs(m.locals, es))
    ensures Agrees(PyEvalOr(m, env, es), EvalOr(m.py, env, es), PlainExprs(m.locals, es))
    decreases es, 0
  {
    if es != [] {
      EvalIsPython(m, env, es[0]);
      ListIsPython(m, env, es[1..]);
    }
  }

  lemma {:induction false} ChainIsPython(m: Reference, env: Env, l: Value, ops: seq<CompareOp>, es: seq<Expr>)
    requires ValidExprs(es)
    ensures Agrees(PyEvalChain(m, env, l, ops, es), EvalChain(m.py, env, l, ops, es), PlainExprs(m.locals, es))
    decreases es, 0
  {
    if ops != [] && es != [] {
      EvalIsPython(m, env, es[0]);
      if Eval(m.py, env, es[0]).Ok? {
        var r := Eval(m.py, env, es[0]).value;
        hide Eval, PyEval, ValidExpr, CompareOnce, PlainExpr;
        ChainIsPython(m, env, r, ops[1..], es[1..]);
      }
    }
  }

  lemma ItemsArePython(m: Reference, env: Env, iter: Expr)
    requires ValidExpr(iter)
    ensures Agrees(PyItems(m, env, iter), ForItems(m.py, env, iter), PlainExpr(m.locals, iter))
  {
    EvalIsPython(m, env, iter);
  }
}
