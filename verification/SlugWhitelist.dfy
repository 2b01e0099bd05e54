/** What the whitelist accepts: exactly the programs in which every statement and every
    expression, however deep, is of an admitted kind. */
module SlugWhitelist {
  import opened Prelude
  import opened SlugAst
  import opened SlugValidator
  import opened PythonSemantics

  // ---- Every node of a program ----

  function ExprNodes(e: Expr): set<Expr>
    decreases e
  {
    {e} +
    match e
    case Constant(_) => {}
    case Name(_) => {}
    case BoolOp(_, values) => ListNodes(values)
    case UnaryOp(_, operand) => ExprNodes(operand)
    case BinOp(left, _, right) => ExprNodes(left) + ExprNodes(right)
    case Compare(first, _, comparators) => ExprNodes(first) + ListNodes(comparators)
    case Call(func, args, _) => ExprNodes(func) + ListNodes(args)
    case Attribute(receiver, _) => ExprNodes(receiver)
    case Subscript(receiver, index) => ExprNodes(receiver) + ExprNodes(index)
    case SliceOf(receiver, lower, upper, stride) =>
      ExprNodes(receiver) + OptionNodes(lower) + OptionNodes(upper) + OptionNodes(stride)
    case ListDisplay(elts) => ListNodes(elts)
    case TupleDisplay(elts) => ListNodes(elts)
    case IfExp(test, body, orelse) => ExprNodes(test) + ExprNodes(body) + ExprNodes(orelse)
    case OtherExpr => {}
  }

  function OptionNodes(o: Option<Expr>): set<Expr>
    decreases o
  {
    if o.Some? then ExprNodes(o.value) else {}
  }

  function ListNodes(es: seq<Expr>): set<Expr>
    decreases es
  {
    if es == [] then {} else ExprNodes(es[0]) + ListNodes(es[1..])
  }

  function StmtNodes(ss: seq<Stmt>): set<Stmt>
    decreases ss
  {
    if ss == [] then {} else {ss[0]} + StmtsInside(ss[0]) + StmtNodes(ss[1..])
  }

  function StmtsInside(s: Stmt): set<Stmt>
    decreases s
  {
    if s.If? || s.For? || s.While? then StmtNodes(s.body) + StmtNodes(s.orelse) else {}
  }

  // The expressions that stand in a statement itself; targets are not among them.
  function OwnExprs(s: Stmt): set<Expr> {
    match s
    case Return(o) => OptionNodes(o)
    case If(test, _, _) => ExprNodes(test)
    case Assign(_, value) => ExprNodes(value)
    case AugAssign(_, _, value) => ExprNodes(value)
    case For(_, iter, _, _) => ExprNodes(iter)
    case While(test, _, _) => ExprNodes(test)
    case ExprStmt(value) => ExprNodes(value)
    case _ => {}
  }

  // ---- What is admitted, node by node ----

  predicate Private(id: string) {
    |id| >= 1 && id[0] == '_'
  }

  predicate Dunder(id: string) {
    |id| >= 2 && id[0] == '_' && id[1] == '_'
  }

  predicate AdmittedExpr(e: Expr) {
    match e
    case Constant(v) => v == NoneV || v.BoolV? || v.IntV? || v.FloatV? || v.StrV?
    case Name(id) => id !in FORBIDDEN_NAMES && !Dunder(id)
    case UnaryOp(op, _) => op == Not || op == USub
    case BinOp(_, op, _) => op == Add || op == Sub || op == Mult || op == Mod
    case Compare(_, ops, _) => forall k :: 0 <= k < |ops| ==> ops[k] != OtherCompare
    case Call(func, _, keywords) =>
      keywords == 0 && ((func.Name? && func.id in ALLOWED_CALLS) || (func.Attribute? && func.attr in STR_METHODS))
    case Attribute(_, attr) => !Dunder(attr)
    case OtherExpr => false
    case _ => true
  }

  predicate AdmittedStmt(s: Stmt) {
    match s
    case Assign(targets, _) =>
      |targets| == 1 && targets[0].Name? && !Private(targets[0].id) && targets[0].id !in FORBIDDEN_NAMES
    case AugAssign(target, op, _) => target.Name? && (op == Add || op == Sub || op == Mult)
    case For(target, _, _, _) => target.Name? && !Private(target.id)
    case OtherStmt => false
    case _ => true
  }

  ghost predicate AllAdmitted(es: set<Expr>) {
    forall e :: e in es ==> AdmittedExpr(e)
  }

  ghost predicate StmtsAdmitted(ss: set<Stmt>) {
    forall s :: s in ss ==> AdmittedStmt(s) && AllAdmitted(OwnExprs(s))
  }

  lemma StartsWithUnderscores(id: string)
    ensures StartsWith(id, "_") == Private(id) && StartsWith(id, "__") == Dunder(id)
  {
    assert StartsWith(id, "__") ==> id[0] == "__"[0] && id[1] == "__"[1];
    assert Dunder(id) ==> id[..2] == "__";
  }

  // A name that may be called may also be read.
  lemma CalleesAreAdmitted(id: string)
    requires id in ALLOWED_CALLS
    ensures id !in FORBIDDEN_NAMES && !Dunder(id)
  {
    if id in HELPERS {
    } else {
      assert id in SAFE_BUILTINS;
    }
  }

  lemma MethodsAreAdmitted(attr: string)
    requires attr in STR_METHODS
    ensures !Dunder(attr)
  {
  }

  lemma {:induction false} ExprExactly(e: Expr)
    ensures ValidExpr(e) <==> AllAdmitted(ExprNodes(e))
    decreases e, 1
  {
    match e {
      case Constant(_) =>
      case Name(id) => StartsWithUnderscores(id);
      case BoolOp(_, values) => ListExactly(values);
      case ListDisplay(elts) => ListExactly(elts);
      case TupleDisplay(elts) => ListExactly(elts);
      case UnaryOp(_, operand) => ExprExactly(operand);
      case BinOp(_, _, _) => OperandsExactly(e);
      case Compare(_, _, _) => OperandsExactly(e);
      case Call(_, _, _) => CallExactly(e);
      case Attribute(receiver, attr) =>
        ExprExactly(receiver);
        StartsWithUnderscores(attr);
      case Subscript(_, _) => OperandsExactly(e);
      case SliceOf(_, _, _, _) => OperandsExactly(e);
      case IfExp(_, _, _) => OperandsExactly(e);
      case OtherExpr =>
    }
  }

  lemma {:induction false} OperandsExactly(e: Expr)
    requires e.BinOp? || e.Compare? || e.Subscript? || e.SliceOf? || e.IfExp?
    ensures ValidExpr(e) <==> AllAdmitted(ExprNodes(e))
    decreases e, 0
  {
    if e.BinOp? {
      ExprExactly(e.left);
      ExprExactly(e.right);
    } else if e.Compare? {
      ExprExactly(e.first);
      ListExactly(e.comparators);
    } else if e.Subscript? {
      ExprExactly(e.obj);
      ExprExactly(e.index);
    } else if e.SliceOf? {
      ExprExactly(e.obj);
      OptionExactly(e.lower);
      OptionExactly(e.upper);
      OptionExactly(e.stride);
    } else {
      ExprExactly(e.test);
      ExprExactly(e.body);
      ExprExactly(e.orelse);
    }
  }

  lemma {:induction false} CallExactly(e: Expr)
    requires e.Call?
    ensures ValidExpr(e) <==> AllAdmitted(ExprNodes(e))
    decreases e, 0
  {
    ListExactly(e.args);
    if e.func.Name? {
      ExprExactly(e.func);
      if e.func.id in ALLOWED_CALLS {
        CalleesAreAdmitted(e.func.id);
      }
    } else if e.func.Attribute? {
      ExprExactly(e.func);
      StartsWithUnderscores(e.func.attr);
      if e.func.attr in STR_METHODS {
        MethodsAreAdmitted(e.func.attr);
      }
    }
  }

  lemma {:induction false} OptionExactly(o: Option<Expr>)
    ensures ValidOption(o) <==> AllAdmitted(OptionNodes(o))
    decreases o, 2
  {
    if o.Some? {
      ExprExactly(o.value);
    }
  }

  lemma {:induction false} ListExactly(es: seq<Expr>)
    ensures ValidExprs(es) <==> AllAdmitted(ListNodes(es))
    decreases es, 2
  {
    if es != [] {
      ExprExactly(es[0]);
      ListExactly(es[1..]);
    }
  }

  lemma {:induction false} StmtExactly(s: Stmt)
    ensures ValidStmt(s) <==> AdmittedStmt(s) && AllAdmitted(OwnExprs(s)) && StmtsAdmitted(StmtsInside(s))
    decreases s, 0
  {
    match s {
      case Return(o) => OptionExactly(o);
      case ExprStmt(value) => ExprExactly(value);
      case AugAssign(_, _, value) => ExprExactly(value);
      case Assign(targets, value) =>
        ExprExactly(value);
        if |targets| == 1 && targets[0].Name? {
          StartsWithUnderscores(targets[0].id);
        }
      case If(test, body, orelse) =>
        ExprExactly(test);
        BlockExactly(body);
        BlockExactly(orelse);
      case While(test, body, orelse) =>
        ExprExactly(test);
        BlockExactly(body);
        BlockExactly(orelse);
      case For(target, iter, body, orelse) =>
        ExprExactly(iter);
        BlockExactly(body);
        BlockExactly(orelse);
        if target.Name? {
          StartsWithUnderscores(target.id);
        }
      case Break =>
      case Continue =>
      case Pass =>
      case OtherStmt =>
    }
  }

  /** A program is accepted exactly when every statement in it is of an admitted kind and
      every expression in each of them is. */
  lemma {:induction false} BlockExactly(ss: seq<Stmt>)
    ensures ValidBlock(ss) <==> StmtsAdmitted(StmtNodes(ss))
    decreases ss, 0
  {
    if ss != [] {
      StmtExactly(ss[0]);
      BlockExactly(ss[1..]);
    }
  }

  // ---- Names ----

  /** By name exactly nine builtins and five helpers can be called. */
  lemma FunctionsExactly(id: string, args: seq<Expr>)
    ensures ValidExpr(Call(Name(id), args, 0)) <==>
            && ValidExprs(args)
            && (|| id == "len" || id == "str" || id == "int" || id == "float" || id == "bool"
                || id == "abs" || id == "min" || id == "max" || id == "range"
                || id == "contains" || id == "starts_with" || id == "ends_with" || id == "contains_any" || id == "matches")
  {
    if id in ALLOWED_CALLS {
      CalleesAreAdmitted(id);
      assert id in HELPERS || id in SAFE_BUILTINS;
    }
    hide ValidExprs, FORBIDDEN_NAMES;
  }

  /** Of all methods exactly twelve of strings can be called. */
  lemma MethodsExactly(receiver: Expr, attr: string, args: seq<Expr>)
    ensures ValidExpr(Call(Attribute(receiver, attr), args, 0)) <==>
            && ValidExpr(receiver) && ValidExprs(args)
            && (|| attr == "startswith" || attr == "endswith" || attr == "lower" || attr == "upper" || attr == "strip"
                || attr == "lstrip" || attr == "rstrip" || attr == "replace" || attr == "split" || attr == "count"
                || attr == "find" || attr == "rfind")
  {
    StartsWithUnderscores(attr);
    hide ValidExprs;
  }

  /** No accepted program reads a name that leads out of the language, wherever it stands. */
  lemma EscapesAreRefused(program: seq<Stmt>, s: Stmt, id: string)
    requires s in StmtNodes(program) && Name(id) in OwnExprs(s)
    requires || Dunder(id)
             || id == "exec" || id == "eval" || id == "compile" || id == "open" || id == "input" || id == "print"
             || id == "globals" || id == "locals" || id == "dir" || id == "vars" || id == "getattr" || id == "setattr"
             || id == "delattr" || id == "hasattr" || id == "type" || id == "super" || id == "__import__"
             || id == "breakpoint" || id == "exit" || id == "quit"
    ensures !ValidBlock(program)
  {
    BlockExactly(program);
    assert !AdmittedExpr(Name(id));
  }

  predicate Binds(s: Stmt, id: string) {
    match s
    case Assign(targets, _) => Name(id) in targets
    case AugAssign(target, _, _) => target == Name(id)
    case For(target, _, _, _) => target == Name(id)
    case _ => false
  }

  ghost predicate BoundIn(ss: set<Stmt>, id: string) {
    exists s :: s in ss && Binds(s, id)
  }

  /** The local names of a function are those that some statement in it binds, however deep. */
  lemma {:induction false} LocalsExactly(ss: seq<Stmt>, id: string)
    ensures id in AssignedIn(ss) <==> BoundIn(StmtNodes(ss), id)
    decreases ss, 0
  {
    if ss != [] {
      LocalsOfExactly(ss[0], id);
      LocalsExactly(ss[1..], id);
    }
  }

  lemma {:induction false} LocalsOfExactly(s: Stmt, id: string)
    ensures id in Assigned(s) <==> Binds(s, id) || BoundIn(StmtsInside(s), id)
    decreases s, 0
  {
    if s.If? || s.For? || s.While? {
      LocalsExactly(s.body, id);
      LocalsExactly(s.orelse, id);
    }
  }
}
