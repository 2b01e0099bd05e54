/** The AST whitelist. Each predicate holds exactly when the matching check raises nothing. */
module SlugValidator {
  import opened Prelude
  import opened SlugAst

  predicate StartsWith(s: string, prefix: string) {
    prefix <= s
  }

  predicate ValidExpr(e: Expr) {
    match e
    case Constant(v) => v.StrV? || v.IntV? || v.FloatV? || v.BoolV? || v.NoneV?
    case Name(id) => id !in FORBIDDEN_NAMES && !StartsWith(id, "__")
    case BoolOp(_, values) => ValidExprs(values)
    case UnaryOp(op, operand) => op != OtherUnary && ValidExpr(operand)
    case BinOp(left, op, right) => op != OtherOperator && ValidExpr(left) && ValidExpr(right)
    case Compare(first, ops, comparators) =>
      ValidExpr(first) && OtherCompare !in ops && ValidExprs(comparators)
    case Call(func, args, keywords) =>
      && ValidCallee(func)
      && ValidExprs(args)
      && keywords == 0
    case Attribute(obj, attr) => ValidExpr(obj) && !StartsWith(attr, "__")
    case Subscript(obj, index) => ValidExpr(obj) && ValidExpr(index)
    case SliceOf(obj, lower, upper, stride) =>
      ValidExpr(obj) && ValidOption(lower) && ValidOption(upper) && ValidOption(stride)
    case ListDisplay(elts) => ValidExprs(elts)
    case TupleDisplay(elts) => ValidExprs(elts)
    case IfExp(test, body, orelse) => ValidExpr(test) && ValidExpr(body) && ValidExpr(orelse)
    case OtherExpr => false
  }

  predicate ValidCallee(func: Expr) {
    match func
    case Name(id) => id !in FORBIDDEN_NAMES && id in ALLOWED_CALLS
    case Attribute(obj, attr) =>
      ValidExpr(obj) && !StartsWith(attr, "__") && attr in STR_METHODS
    case _ => false
  }

  predicate ValidOption(o: Option<Expr>) {
    o.Some? ==> ValidExpr(o.value)
  }

  predicate ValidExprs(es: seq<Expr>) {
    es == [] || (ValidExpr(es[0]) && ValidExprs(es[1..]))
  }

  predicate ValidStmt(s: Stmt) {
    match s
    case Return(o) => ValidOption(o)
    case If(test, body, orelse) => ValidExpr(test) && ValidBlock(body) && ValidBlock(orelse)
    case Assign(targets, value) =>
      && |targets| == 1
      && targets[0].Name?
      && !StartsWith(targets[0].id, "_")
      && targets[0].id !in FORBIDDEN_NAMES
      && ValidExpr(value)
    case For(target, iter, body, orelse) =>
      && target.Name?
      && !StartsWith(target.id, "_")
      && ValidExpr(iter)
      && ValidBlock(body)
      && ValidBlock(orelse)
    case While(test, body, orelse) => ValidExpr(test) && ValidBlock(body) && ValidBlock(orelse)
    case Break => true
    case Continue => true
    case Pass => true
    case ExprStmt(value) => ValidExpr(value)
    case AugAssign(target, op, value) =>
      target.Name? && (op == Add || op == Sub || op == Mult) && ValidExpr(value)
    case OtherStmt => false
  }

  predicate ValidBlock(ss: seq<Stmt>) {
    ss == [] || (ValidStmt(ss[0]) && ValidBlock(ss[1..]))
  }
}
