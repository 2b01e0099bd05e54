/** The interpreter itself: an object with a variable table and a step counter. */
module SlugEvaluator {
  import opened Prelude
  import opened SlugAst
  import opened SlugExpressions
  import opened SlugExecution

  class Evaluator {
    const py: ObjectModel
    const lim: Limits
    var vars: Env
    var totalSteps: nat

    constructor (py: ObjectModel, lim: Limits, slug: string)
      ensures this.py == py && this.lim == lim
      ensures Now() == State(map["slug" := StrV(slug)], 0)
    {
      this.py := py;
      this.lim := lim;
      vars := map["slug" := StrV(slug)];
      totalSteps := 0;
    }

    function Now(): State
      reads this
    {
      State(vars, totalSteps)
    }

    method Tick() returns (r: Outcome<()>)
      modifies this`totalSteps
      ensures totalSteps == old(totalSteps) + 1
      ensures r == if totalSteps > lim.steps then Err(StepLimit) else Ok(())
    {
      totalSteps := totalSteps + 1;
      if totalSteps > lim.steps {
        return Err(StepLimit);
      }
      return Ok(());
    }

    method RunBlock(ss: seq<Stmt>) returns (r: Outcome<Signal>)
      modifies this
      ensures Run(r, Now()) == Block(py, lim, ss, old(Now()))
      decreases ss, 0
    {
      var i := 0;
      while i < |ss|
        invariant 0 <= i <= |ss|
        invariant Block(py, lim, ss, old(Now())) == Block(py, lim, ss[i..], Now())
      {
        assert ss[i..][1..] == ss[i + 1..];
        r := ExecStmt(ss[i]);
        if r != Ok(Sentinel) {
          return;
        }
        i := i + 1;
      }
      return Ok(Sentinel);
    }

    method ExecStmt(s: Stmt) returns (r: Outcome<Signal>)
      modifies this
      ensures Run(r, Now()) == Exec(py, lim, s, old(Now()))
      decreases s, 3
    {
      var _ :- Tick();
      match s {
        case Return(None) =>
          return Ok(Result(NoneV));
        case Return(Some(e)) =>
          var v :- EvalExpr(e);
          return Ok(Result(v));
        case If(test, body, orelse) =>
          var t :- EvalExpr(test);
          r := RunBlock(if Truth(t) then body else orelse);
        case Assign(targets, e) =>
          var v :- EvalExpr(e);
          if targets == [] || !targets[0].Name? {
            return Err(NoIdentifier);
          }
          vars := vars[targets[0].id := v];
          return Ok(Sentinel);
        case AugAssign(target, op, e) =>
          r := ExecAugAssign(target, op, e);
        case For(_, iter, _, _) =>
          var iterable :- EvalExpr(iter);
          var items :- Items(iterable);
          r := ExecFor(s, items);
        case While(_, _, _) =>
          r := ExecWhile(s);
        case Break =>
          return Ok(BreakSignal);
        case Continue =>
          return Ok(ContinueSignal);
        case Pass =>
          return Ok(Sentinel);
        case ExprStmt(e) =>
          var _ :- EvalExpr(e);
          return Ok(Sentinel);
        case OtherStmt =>
          return Ok(Sentinel);
      }
    }

    method ExecAugAssign(target: Expr, op: Operator, e: Expr) returns (r: Outcome<Signal>)
      modifies this
      ensures Run(r, Now()) == Augment(py, target, op, e, old(Now()))
    {
      if !target.Name? {
        return Err(NoIdentifier);
      }
      var x :- AugmentedValue(target.id, op, e);
      if x.Some? {
        vars := vars[target.id := x.value];
      }
      return Ok(Sentinel);
    }

    method AugmentedValue(id: string, op: Operator, e: Expr) returns (r: Outcome<Option<Value>>)
      ensures r == Augmented(py, vars, id, op, e)
    {
      var previous := if id in vars then vars[id] else IntV(0);
      var v :- EvalExpr(e);
      if op != Add && op != Sub && op != Mult {
        return Ok(None);
      }
      var x :- py.binary(op, previous, v).Lift();
      return Ok(Some(x));
    }

    method ExecFor(s: Stmt, items: seq<Value>) returns (r: Outcome<Signal>)
      requires s.For?
      modifies this
      ensures Run(r, Now()) == ForLoop(py, lim, s, items, 0, old(Now()))
      decreases s, 2
    {
      var iterations := 0;
      while iterations < |items|
        invariant 0 <= iterations <= |items|
        invariant ForLoop(py, lim, s, items, 0, old(Now())) ==
                  ForLoop(py, lim, s, items[iterations..], iterations, Now())
      {
        assert items[iterations..][1..] == items[iterations + 1..];
        var item := items[iterations];
        iterations := iterations + 1;
        if iterations > lim.iterations {
          return Err(ForLimit);
        }
        if !s.target.Name? {
          return Err(NoIdentifier);
        }
        vars := vars[s.target.id := item];
        r := RunBlock(s.body);
        if r == Ok(BreakSignal) {
          return Ok(Sentinel);
        }
        if r != Ok(ContinueSignal) && r != Ok(Sentinel) {
          return;
        }
      }
      r := RunElse(s.orelse);
    }

    method ExecWhile(s: Stmt) returns (r: Outcome<Signal>)
      requires s.While?
      modifies this
      ensures Run(r, Now()) == WhileLoop(py, lim, s, 0, old(Now()))
      decreases s, 2
    {
      var iterations := 0;
      var test :- EvalExpr(s.test);
      while Truth(test)
        invariant iterations <= lim.iterations
        invariant Eval(py, vars, s.test) == Ok(test)
        invariant WhileLoop(py, lim, s, 0, old(Now())) == WhileLoop(py, lim, s, iterations, Now())
        decreases lim.iterations - iterations
      {
        iterations := iterations + 1;
        if iterations > lim.iterations {
          return Err(WhileLimit);
        }
        r := RunBlock(s.body);
        if r == Ok(BreakSignal) {
          return Ok(Sentinel);
        }
        if r != Ok(ContinueSignal) && r != Ok(Sentinel) {
          return;
        }
        test :- EvalExpr(s.test);
      }
      r := RunElse(s.orelse);
    }

    // The else block of a loop, where a break or continue object is dropped.
    method RunElse(ss: seq<Stmt>) returns (r: Outcome<Signal>)
      modifies this
      ensures Run(r, Now()) == LoopElse(Block(py, lim, ss, old(Now())))
      decreases ss, 1
    {
      r := RunBlock(ss);
      if r == Ok(BreakSignal) || r == Ok(ContinueSignal) {
        return Ok(Sentinel);
      }
    }

    method EvalExpr(e: Expr) returns (r: Outcome<Value>)
      ensures r == Eval(py, vars, e)
      decreases e, 1
    {
      match e {
        case Constant(v) =>
          return Ok(v);
        case Name(id) =>
          return Lookup(vars, id);
        case BoolOp(And, values) =>
          r := EvalConjunction(values);
        case BoolOp(Or, values) =>
          r := EvalDisjunction(values);
        case UnaryOp(op, operand) =>
          var v :- EvalExpr(operand);
          match op {
            case Not => return Ok(BoolV(!Truth(v)));
            case USub => return py.negate(v).Lift();
            case OtherUnary => return Err(UnsupportedExpression);
          }
        case BinOp(left, op, right) =>
          var l :- EvalExpr(left);
          var u :- EvalExpr(right);
          return if op == OtherOperator then Err(UnsupportedExpression) else py.binary(op, l, u).Lift();
        case Compare(first, ops, comparators) =>
          var l :- EvalExpr(first);
          r := EvalComparisons(l, ops, comparators);
        case Call(func, args, _) =>
          match func {
            case Attribute(receiver, attr) =>
              var self :- EvalExpr(receiver);
              var bound :- py.getattr(self, attr).Lift();
              var actuals :- EvalExprs(args);
              return py.invoke(bound, actuals).Lift();
            case Name(id) =>
              var actuals :- EvalExprs(args);
              return CallNamed(py, id, actuals);
            case _ =>
              return Err(UnsupportedExpression);
          }
        case Attribute(receiver, attr) =>
          var self :- EvalExpr(receiver);
          return py.getattr(self, attr).Lift();
        case Subscript(receiver, index) =>
          var self :- EvalExpr(receiver);
          var i :- EvalExpr(index);
          return py.getitem(self, i).Lift();
        case SliceOf(receiver, lower, upper, stride) =>
          var self :- EvalExpr(receiver);
          var l :- EvalExprOption(lower);
          var u :- EvalExprOption(upper);
          var s :- EvalExprOption(stride);
          return py.getslice(self, l, u, s).Lift();
        case ListDisplay(elts) =>
          var vs :- EvalExprs(elts);
          return Ok(ListV(vs));
        case TupleDisplay(elts) =>
          var vs :- EvalExprs(elts);
          return Ok(TupleV(vs));
        case IfExp(test, body, orelse) =>
          var t :- EvalExpr(test);
          if Truth(t) {
            r := EvalExpr(body);
          } else {
            r := EvalExpr(orelse);
          }
        case OtherExpr =>
          return Err(UnsupportedExpression);
      }
    }

    method EvalExprOption(o: Option<Expr>) returns (r: Outcome<Value>)
      ensures r == EvalOption(py, vars, o)
      decreases o, 0
    {
      match o {
        case None => return Ok(NoneV);
        case Some(e) => r := EvalExpr(e);
      }
    }

    method EvalConjunction(values: seq<Expr>) returns (r: Outcome<Value>)
      ensures r == EvalAnd(py, vars, values)
      decreases values, 0
    {
      r := Ok(BoolV(true));
      var i := 0;
      while i < |values|
        invariant 0 <= i <= |values|
        invariant if i == 0 then r == Ok(BoolV(true)) else r.Ok? && Truth(r.value)
        invariant EvalAnd(py, vars, values) == if 0 < i == |values| then r else EvalAnd(py, vars, values[i..])
      {
        assert values[i..][1..] == values[i + 1..];
        r := EvalExpr(values[i]);
        if r.Err? || !Truth(r.value) {
          return;
        }
        i := i + 1;
      }
    }

    method EvalDisjunction(values: seq<Expr>) returns (r: Outcome<Value>)
      ensures r == EvalOr(py, vars, values)
      decreases values, 0
    {
      r := Ok(BoolV(false));
      var i := 0;
      while i < |values|
        invariant 0 <= i <= |values|
        invariant if i == 0 then r == Ok(BoolV(false)) else r.Ok? && !Truth(r.value)
        invariant EvalOr(py, vars, values) == if 0 < i == |values| then r else EvalOr(py, vars, values[i..])
      {
        assert values[i..][1..] == values[i + 1..];
        r := EvalExpr(values[i]);
        if r.Err? || Truth(r.value) {
          return;
        }
        i := i + 1;
      }
    }

    method EvalComparisons(first: Value, ops: seq<CompareOp>, comparators: seq<Expr>) returns (r: Outcome<Value>)
      ensures r == EvalChain(py, vars, first, ops, comparators)
      decreases comparators, 0
    {
      var left := first;
      var n := if |ops| <= |comparators| then |ops| else |comparators|;
      var i := 0;
      while i < n
        invariant 0 <= i <= n
        invariant EvalChain(py, vars, first, ops, comparators) ==
                  EvalChain(py, vars, left, ops[i..], comparators[i..])
      {
        assert ops[i..][1..] == ops[i + 1..] && comparators[i..][1..] == comparators[i + 1..];
        var right :- EvalExpr(comparators[i]);
        var holds :- CompareOnce(py, ops[i], left, right);
        if !holds {
          return Ok(BoolV(false));
        }
        left := right;
        i := i + 1;
      }
      return Ok(BoolV(true));
    }

    method EvalExprs(es: seq<Expr>) returns (r: Outcome<seq<Value>>)
      ensures r == EvalAll(py, vars, es)
      decreases es, 0
    {
      var vs := [];
      var i := 0;
      PrependTwice([], [], EvalAll(py, vars, es));
      assert es[0..] == es;
      while i < |es|
        invariant 0 <= i <= |es|
        invariant EvalAll(py, vars, es) == Prepend(vs, EvalAll(py, vars, es[i..]))
      {
        assert es[i..][1..] == es[i + 1..];
        var v :- EvalExpr(es[i]);
        PrependTwice(vs, [v], EvalAll(py, vars, es[i + 1..]));
        vs := vs + [v];
        i := i + 1;
      }
      assert vs + [] == vs;
      return Ok(vs);
    }
  }

  /** One evaluation of a compiled program. A leaked break or continue object is truthy. */
  method Evaluate(py: ObjectModel, lim: Limits, program: seq<Stmt>, rawSlug: string) returns (r: Outcome<bool>)
    ensures r == Verdict(Block(py, lim, program, Start(py, rawSlug)).out)
  {
    var evaluator := new Evaluator(py, lim, py.normalize(rawSlug));
    var result :- evaluator.RunBlock(program);
    if result == Sentinel {
      return Err(NoReturnValue);
    }
    return Ok(result.Result? ==> Truth(result.value));
  }

  function Start(py: ObjectModel, rawSlug: string): State {
    State(map["slug" := StrV(py.normalize(rawSlug))], 0)
  }

  function Verdict(out: Outcome<Signal>): Outcome<bool> {
    match out
    case Err(f) => Err(f)
    case Ok(Sentinel) => Err(NoReturnValue)
    case Ok(Result(v)) => Ok(Truth(v))
    case Ok(_) => Ok(true)
  }
}
