/** What expressions evaluate to, defined by recursion over the AST. Evaluation never
    changes a variable, so one environment serves a whole expression. */
module SlugExpressions {
  import opened Prelude
  import opened SlugAst

  function Eval(py: ObjectModel, env: Env, e: Expr): Outcome<Value>
    decreases e, 1
  {
    match e
    case Constant(v) => Ok(v)
    case Name(id) => Lookup(env, id)
    case BoolOp(And, values) => EvalAnd(py, env, values)
    case BoolOp(Or, values) => EvalOr(py, env, values)
    case UnaryOp(op, operand) =>
      var v :- Eval(py, env, operand);
      (match op
       case Not => Ok(BoolV(!Truth(v)))
       case USub => py.negate(v).Lift()
       case OtherUnary => Err(UnsupportedExpression))
    case BinOp(left, op, right) =>
      var l :- Eval(py, env, left);
      var r :- Eval(py, env, right);
      if op == OtherOperator then Err(UnsupportedExpression) else py.binary(op, l, r).Lift()
    case Compare(first, ops, comparators) =>
      var l :- Eval(py, env, first);
      EvalChain(py, env, l, ops, comparators)
    case Call(func, args, _) =>
      (match func
       case Attribute(receiver, attr) =>
         var self :- Eval(py, env, receiver);
         var bound :- py.getattr(self, attr).Lift();
         var actuals :- EvalAll(py, env, args);
         py.invoke(bound, actuals).Lift()
       case Name(id) =>
         var actuals :- EvalAll(py, env, args);
         CallNamed(py, id, actuals)
       case _ => Err(UnsupportedExpression))
    case Attribute(receiver, attr) =>
      var self :- Eval(py, env, receiver);
      py.getattr(self, attr).Lift()
    case Subscript(receiver, index) =>
      var self :- Eval(py, env, receiver);
      var i :- Eval(py, env, index);
      py.getitem(self, i).Lift()
    case SliceOf(receiver, lower, upper, stride) =>
      var self :- Eval(py, env, receiver);
      var l :- EvalOption(py, env, lower);
      var u :- EvalOption(py, env, upper);
      var s :- EvalOption(py, env, stride);
      py.getslice(self, l, u, s).Lift()
    case ListDisplay(elts) =>
      var vs :- EvalAll(py, env, elts);
      Ok(ListV(vs))
    case TupleDisplay(elts) =>
      var vs :- EvalAll(py, env, elts);
      Ok(TupleV(vs))
    case IfExp(test, body, orelse) =>
      var t :- Eval(py, env, test);
      if Truth(t) then Eval(py, env, body) else Eval(py, env, orelse)
    case OtherExpr => Err(UnsupportedExpression)
  }

  function Lookup(env: Env, id: string): Outcome<Value> {
    if id in env then Ok(env[id])
    else if id == "True" then Ok(BoolV(true))
    else if id == "False" then Ok(BoolV(false))
    else if id == "None" then Ok(NoneV)
    else Err(UndefinedName(id))
  }

  function CallNamed(py: ObjectModel, id: string, actuals: seq<Value>): Outcome<Value> {
    if id in SAFE_BUILTINS then py.builtin(id, actuals).Lift()
    else if id in HELPERS then CallHelper(py, id, actuals)
    else Err(UnknownFunction(id))
  }

  predicate Occurs(w: string, s: string) {
    exists i :: 0 <= i <= |s| && OccursAt(w, s, i)
  }

  predicate OccursAt(w: string, s: string, i: nat)
    requires i <= |s|
  {
    w <= s[i..]
  }

  predicate EndsWith(s: string, w: string) {
    |w| <= |s| && s[|s| - |w|..] == w
  }

  // The helper functions; arguments beyond those they look at are ignored.
  function CallHelper(py: ObjectModel, id: string, args: seq<Value>): (r: Outcome<Value>)
    ensures r.Err? ==> r.failure.PythonError?
  {
    if id == "contains" then
      var w :- FoldedArg(py, args, 1);
      var s :- FoldedArg(py, args, 0);
      Ok(BoolV(Occurs(w, s)))
    else if id == "starts_with" then
      var s :- FoldedArg(py, args, 0);
      var w :- FoldedArg(py, args, 1);
      Ok(BoolV(w <= s))
    else if id == "ends_with" then
      var s :- FoldedArg(py, args, 0);
      var w :- FoldedArg(py, args, 1);
      Ok(BoolV(EndsWith(s, w)))
    else if id == "contains_any" then
      var s :- FoldedArg(py, args, 0);
      if |args| < 2 then Err(PythonError(INDEX_ERROR))
      else
        var ws :- Items(args[1]);
        AnyOccurs(py, ws, s)
    else if |args| < 2 then Err(PythonError(INDEX_ERROR))
    else
      var found :- py.search(args[1], args[0]).Lift();
      Ok(BoolV(found))
  }

  function FoldedArg(py: ObjectModel, args: seq<Value>, i: nat): (r: Outcome<string>)
    ensures r.Err? ==> r.failure.PythonError?
  {
    if i < |args| then py.fold(args[i]).Lift() else Err(PythonError(INDEX_ERROR))
  }

  // Looked at one after the other, up to the first that occurs.
  function AnyOccurs(py: ObjectModel, ws: seq<Value>, s: string): (r: Outcome<Value>)
    ensures r.Err? ==> r.failure.PythonError?
  {
    if ws == [] then Ok(BoolV(false))
    else
      var w :- py.fold(ws[0]).Lift();
      if Occurs(w, s) then Ok(BoolV(true)) else AnyOccurs(py, ws[1..], s)
  }

  function EvalOption(py: ObjectModel, env: Env, o: Option<Expr>): Outcome<Value>
    decreases o, 0
  {
    match o
    case None => Ok(NoneV)
    case Some(e) => Eval(py, env, e)
  }

  function EvalAll(py: ObjectModel, env: Env, es: seq<Expr>): Outcome<seq<Value>>
    decreases es, 0
  {
    if es == [] then Ok([])
    else
      var v :- Eval(py, env, es[0]);
      Prepend([v], EvalAll(py, env, es[1..]))
  }

  function Prepend(vs: seq<Value>, rest: Outcome<seq<Value>>): Outcome<seq<Value>> {
    match rest
    case Ok(ws) => Ok(vs + ws)
    case Err(f) => Err(f)
  }

  lemma PrependTwice(vs: seq<Value>, ws: seq<Value>, rest: Outcome<seq<Value>>)
    ensures Prepend([], rest) == rest
    ensures Prepend(vs, Prepend(ws, rest)) == Prepend(vs + ws, rest)
  {
    if rest.Ok? {
      assert [] + rest.value == rest.value;
      assert vs + (ws + rest.value) == vs + ws + rest.value;
    }
  }

  function EvalAnd(py: ObjectModel, env: Env, es: seq<Expr>): Outcome<Value>
    decreases es, 0
  {
    if es == [] then Ok(BoolV(true))
    else
      var v :- Eval(py, env, es[0]);
      if Truth(v) && |es| > 1 then EvalAnd(py, env, es[1..]) else Ok(v)
  }

  function EvalOr(py: ObjectModel, env: Env, es: seq<Expr>): Outcome<Value>
    decreases es, 0
  {
    if es == [] then Ok(BoolV(false))
    else
      var v :- Eval(py, env, es[0]);
      if !Truth(v) && |es| > 1 then EvalOr(py, env, es[1..]) else Ok(v)
  }

  // The rest of a comparison chain whose left operand has the value l. Operators and
  // operands are paired as zip pairs them, up to the shorter list.
  function EvalChain(py: ObjectModel, env: Env, l: Value, ops: seq<CompareOp>, es: seq<Expr>): Outcome<Value>
    decreases es, 0
  {
    if ops == [] || es == [] then Ok(BoolV(true))
    else
      var r :- Eval(py, env, es[0]);
      var holds :- CompareOnce(py, ops[0], l, r);
      if holds then EvalChain(py, env, r, ops[1..], es[1..]) else Ok(BoolV(false))
  }

  function CompareOnce(py: ObjectModel, op: CompareOp, l: Value, r: Value): Outcome<bool> {
    if op == OtherCompare then Err(UnsupportedComparison) else py.compare(op, l, r).Lift()
  }

  /** Section 6.10 of the Python Language Reference: `a op1 b op2 c ...` means
      `a op1 b and b op2 c ...`, for chains of any length. */
  lemma ChainIsConjunction(py: ObjectModel, env: Env, a: Expr, op: CompareOp, b: Expr,
                           ops: seq<CompareOp>, es: seq<Expr>)
    requires |ops| == |es|
    ensures Eval(py, env, Compare(a, [op] + ops, [b] + es)) ==
            Eval(py, env, BoolOp(And, [Compare(a, [op], [b]), Compare(b, ops, es)]))
  {
    var once, rest := Compare(a, [op], [b]), Compare(b, ops, es);
    assert [once, rest][1..] == [rest];
    assert EvalAnd(py, env, [rest]) == Eval(py, env, rest);
    assert ([op] + ops)[1..] == ops && ([b] + es)[1..] == es;
    match Eval(py, env, a) {
      case Err(f) => assert Eval(py, env, once) == Err(f);
      case Ok(l) =>
        assert Eval(py, env, once) == EvalChain(py, env, l, [op], [b]);
        ChainOfOne(py, env, l, op, b, ops, es);
    }
  }

  // Comparing once and, if that holds, going on from the middle operand.
  lemma ChainOfOne(py: ObjectModel, env: Env, l: Value, op: CompareOp, b: Expr,
                   ops: seq<CompareOp>, es: seq<Expr>)
    ensures EvalChain(py, env, l, [op], [b]).Ok? ==> EvalChain(py, env, l, [op], [b]).value.BoolV?
    ensures EvalChain(py, env, l, [op] + ops, [b] + es) ==
            (var first :- EvalChain(py, env, l, [op], [b]);
             if Truth(first) then Eval(py, env, Compare(b, ops, es)) else Ok(BoolV(false)))
  {
  }
}
