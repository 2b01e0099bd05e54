/** The AST that a slug script is parsed into, and the values it computes with.
    CPython's own operations (arithmetic, comparison, attribute access, method calls,
    builtins, subscripts) are the fields of an ObjectModel, so every result below holds
    for every behaviour those operations may have, floats and regular expressions included. */
module SlugAst {
  import opened Prelude

  datatype Value =
    | NoneV
    | BoolV(b: bool)
    | IntV(n: int)
    | FloatV(r: real)
    | StrV(s: string)
    | ListV(items: seq<Value>)
    | TupleV(items: seq<Value>)
    | RangeV(start: int, stop: int, step: int)
    | OpaqueV(tag: int, truthy: bool)  // bytes, Ellipsis, bound methods, ...

  // Why a run stops early. The first three are the budget, the next five are the
  // interpreter's own complaints, PythonError is anything CPython raises. The last three
  // are the reference's: UnboundAugmented is what Python, and not this interpreter, raises
  // for `x += e` with x unbound; the other two stop a derivation where Python takes a value
  // from a global name, or calls a local one.
  datatype Failure =
    | StepLimit
    | ForLimit
    | WhileLimit
    | UndefinedName(name: string)
    | UnsupportedExpression
    | UnsupportedComparison
    | UnknownFunction(name: string)
    | NoIdentifier
    | NoReturnValue
    | PythonError(code: int)
    | UnboundAugmented(name: string)
    | GlobalAsValue(name: string)
    | LocalAsFunction(name: string)

  datatype Outcome<+T> = Ok(value: T) | Err(failure: Failure) {
    predicate IsFailure() {
      Err?
    }

    function PropagateFailure<U>(): Outcome<U>
      requires Err?
    {
      Err(failure)
    }

    function Extract(): T
      requires Ok?
    {
      value
    }
  }

  // What a call into CPython gives back: an object, or an exception.
  datatype Answer<+T> = Object(obj: T) | Exception(code: int) {
    function Lift(): Outcome<T> {
      match this
      case Object(x) => Ok(x)
      case Exception(c) => Err(PythonError(c))
    }
  }

  datatype LogicOp = And | Or
  datatype UnaryOperator = Not | USub | OtherUnary
  datatype Operator = Add | Sub | Mult | Mod | OtherOperator
  datatype CompareOp = Eq | NotEq | Lt | Gt | LtE | GtE | In | NotIn | OtherCompare

  datatype Expr =
    | Constant(value: Value)
    | Name(id: string)
    | BoolOp(logic: LogicOp, values: seq<Expr>)
    | UnaryOp(unary: UnaryOperator, operand: Expr)
    | BinOp(left: Expr, op: Operator, right: Expr)
    | Compare(first: Expr, ops: seq<CompareOp>, comparators: seq<Expr>)
    | Call(func: Expr, args: seq<Expr>, keywords: nat)
    | Attribute(obj: Expr, attr: string)
    | Subscript(obj: Expr, index: Expr)
    | SliceOf(obj: Expr, lower: Option<Expr>, upper: Option<Expr>, stride: Option<Expr>)
    | ListDisplay(elts: seq<Expr>)
    | TupleDisplay(elts: seq<Expr>)
    | IfExp(test: Expr, body: Expr, orelse: Expr)
    | OtherExpr

  datatype Stmt =
    | Return(result: Option<Expr>)
    | If(test: Expr, body: seq<Stmt>, orelse: seq<Stmt>)
    | Assign(targets: seq<Expr>, value: Expr)
    | AugAssign(target: Expr, op: Operator, value: Expr)
    | For(target: Expr, iter: Expr, body: seq<Stmt>, orelse: seq<Stmt>)
    | While(test: Expr, body: seq<Stmt>, orelse: seq<Stmt>)
    | Break
    | Continue
    | Pass
    | ExprStmt(value: Expr)
    | OtherStmt

  type Env = map<string, Value>

  datatype ObjectModel = ObjectModel(
    binary: (Operator, Value, Value) -> Answer<Value>,
    negate: Value -> Answer<Value>,
    compare: (CompareOp, Value, Value) -> Answer<bool>,
    getattr: (Value, string) -> Answer<Value>,
    invoke: (Value, seq<Value>) -> Answer<Value>,
    builtin: (string, seq<Value>) -> Answer<Value>,
    fold: Value -> Answer<string>,            // str(v).lower()
    search: (Value, Value) -> Answer<bool>,   // re.search(str(pattern), str(v), IGNORECASE) finds it
    getitem: (Value, Value) -> Answer<Value>,
    getslice: (Value, Value, Value, Value) -> Answer<Value>,
    isGlobal: string -> bool,     // a builtin of Python
    normalize: string -> string)  // str(raw or "").strip().lower()

  const HELPERS: set<string> := {"contains", "starts_with", "ends_with", "contains_any", "matches"}
  const STR_METHODS: set<string> := {
    "startswith", "endswith", "lower", "upper", "strip", "lstrip", "rstrip",
    "replace", "split", "count", "find", "rfind"}
  const SAFE_BUILTINS: set<string> := {"len", "str", "int", "float", "bool", "abs", "min", "max", "range"}
  const ALLOWED_CALLS: set<string> := HELPERS + SAFE_BUILTINS
  const FORBIDDEN_NAMES: set<string> := {
    "exec", "eval", "compile", "open", "input", "print",
    "globals", "locals", "dir", "vars", "getattr", "setattr", "delattr", "hasattr",
    "type", "super", "__import__", "breakpoint", "exit", "quit"}

  // Python's truth test.
  predicate Truth(v: Value) {
    match v
    case NoneV => false
    case BoolV(b) => b
    case IntV(n) => n != 0
    case FloatV(r) => r != 0.0
    case StrV(s) => s != ""
    case ListV(items) => items != []
    case TupleV(items) => items != []
    case RangeV(start, stop, step) => RangeLength(start, stop, step) > 0
    case OpaqueV(_, truthy) => truthy
  }

  function RangeLength(start: int, stop: int, step: int): nat {
    if step > 0 && start < stop then (stop - start - 1) / step + 1
    else if step < 0 && stop < start then (start - stop - 1) / (-step) + 1
    else 0
  }

  // What `for` iterates over; TYPE_ERROR for a value that is not iterable.
  const TYPE_ERROR := 1
  const INDEX_ERROR := 2

  function Items(v: Value): Outcome<seq<Value>> {
    match v
    case StrV(s) => Ok(seq(|s|, i requires 0 <= i < |s| => StrV([s[i]])))
    case ListV(items) => Ok(items)
    case TupleV(items) => Ok(items)
    case RangeV(start, stop, step) => Ok(seq(RangeLength(start, stop, step), i => IntV(start + i * step)))
    case _ => Err(PythonError(TYPE_ERROR))
  }
}
