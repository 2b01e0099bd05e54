/** Statements as the Python Language Reference describes them, as inference rules over
    completions: no sentinel objects and no budget. The rules cover the statement forms
    that the whitelist admits; expressions mean what PythonExpressions says. */
module PythonSemantics {
  import opened Prelude
  import opened SlugAst
  import opened PythonExpressions

  // Why a derivation is not followed further: a list is updated in place, which every
  // other name for the list would see, or a loop's else block is left by break or continue.
  datatype Departure = UpdatedInPlace(name: string) | LeftElse

  // Section 7 and 8: how a statement ends.
  datatype Completion =
    | Normal
    | Broke
    | Continued
    | Returned(value: Value)
    | Raised(failure: Failure)
    | Departed(why: Departure)

  // Section 7.2.1: `x += e` reads x first, and raises UnboundLocalError if it is unbound,
  // evaluates e, and then updates in place if the old value can be. Of the values of
  // scripts only lists can, by + and *; for all others the operator gives a new value.
  function AugAssignRule(m: Reference, env: Env, id: string, op: Operator, e: Expr): (Completion, Env) {
    if id !in env then (Raised(UnboundAugmented(id)), env)
    else match PyEval(m, env, e)
         case Err(f) => (Raised(f), env)
         case Ok(v) =>
           if InPlace(op, env[id]) then (Departed(UpdatedInPlace(id)), env)
           else match m.py.binary(op, env[id], v)
                case Exception(code) => (Raised(PythonError(code)), env)
                case Object(x) => (Normal, env[id := x])
  }

  predicate InPlace(op: Operator, x: Value) {
    x.ListV? && (op == Add || op == Mult)
  }

  // Simple statements.
  function Simple(m: Reference, s: Stmt, env: Env): Option<(Completion, Env)> {
    match s
    case Return(o) =>
      (match PyEvalOption(m, env, o)
       case Ok(v) => Some((Returned(v), env))
       case Err(f) => Some((Raised(f), env)))
    case Assign(targets, e) =>
      if |targets| != 1 || !targets[0].Name? then None
      else
        (match PyEval(m, env, e)
         case Ok(v) => Some((Normal, env[targets[0].id := v]))
         case Err(f) => Some((Raised(f), env)))
    case AugAssign(target, op, e) =>
      if !target.Name? || (op != Add && op != Sub && op != Mult) then None
      else Some(AugAssignRule(m, env, target.id, op, e))
    case ExprStmt(e) =>
      (match PyEval(m, env, e)
       case Ok(_) => Some((Normal, env))
       case Err(f) => Some((Raised(f), env)))
    case Break => Some((Broke, env))
    case Continue => Some((Continued, env))
    case Pass => Some((Normal, env))
    case _ => None
  }

  // Section 8.1 (if), 8.2 (while), 8.3 (for). The rules are Python's when watched is
  // false. When it is true a loop whose else block breaks or continues departs instead of
  // handing that on to the loop around it.
  least predicate Runs[nat](m: Reference, watched: bool, s: Stmt, env: Env, c: Completion, env': Env) {
    match s
    case If(test, body, orelse) =>
      (match PyEval(m, env, test)
       case Ok(v) => RunsBlock(m, watched, if Truth(v) then body else orelse, env, c, env')
       case Err(f) => c == Raised(f) && env' == env)
    case For(_, _, _, _) => exists c0 :: RunsLoop(m, watched, s, env, c0, env') && c == AtLoopEnd(watched, c0)
    case While(_, _, _) => exists c0 :: RunsLoop(m, watched, s, env, c0, env') && c == AtLoopEnd(watched, c0)
    case _ => Simple(m, s, env) == Some((c, env'))
  }

  function AtLoopEnd(watched: bool, c: Completion): Completion {
    if watched && (c == Broke || c == Continued) then Departed(LeftElse) else c
  }

  least predicate RunsBlock[nat](m: Reference, watched: bool, ss: seq<Stmt>, env: Env, c: Completion, env': Env) {
    if ss == [] then c == Normal && env' == env
    else
      exists c1, env1 ::
        && Runs(m, watched, ss[0], env, c1, env1)
        && if c1 == Normal then RunsBlock(m, watched, ss[1..], env1, c, env') else c == c1 && env' == env1
  }

  // A loop as a whole, with what its own else block completes with.
  least predicate RunsLoop[nat](m: Reference, watched: bool, s: Stmt, env: Env, c: Completion, env': Env)
    requires s.For? || s.While?
  {
    if s.While? then RunsWhile(m, watched, s, env, c, env')
    else match PyItems(m, env, s.iter)
         case Ok(items) => s.target.Name? && RunsFor(m, watched, s, items, env, c, env')
         case Err(f) => c == Raised(f) && env' == env
  }

  // Section 8.2: the test is evaluated before every round; the else clause runs when the
  // test is false, and not after break; continue goes back to the test.
  least predicate RunsWhile[nat](m: Reference, watched: bool, s: Stmt, env: Env, c: Completion, env': Env)
    requires s.While?
  {
    match PyEval(m, env, s.test)
    case Err(f) => c == Raised(f) && env' == env
    case Ok(v) =>
      if !Truth(v) then RunsBlock(m, watched, s.orelse, env, c, env')
      else
        exists c1, env1 ::
          && RunsBlock(m, watched, s.body, env, c1, env1)
          && if c1 == Normal || c1 == Continued then RunsWhile(m, watched, s, env1, c, env')
             else c == AfterLoop(c1) && env' == env1
  }

  // Section 8.3: one round for every item; the else clause runs when the items are
  // exhausted, and not after break.
  least predicate RunsFor[nat](m: Reference, watched: bool, s: Stmt, items: seq<Value>, env: Env,
                               c: Completion, env': Env)
    requires s.For? && s.target.Name?
  {
    if items == [] then RunsBlock(m, watched, s.orelse, env, c, env')
    else
      exists c1, env1 ::
        && RunsBlock(m, watched, s.body, Target(s, items[0], env), c1, env1)
        && if c1 == Normal || c1 == Continued then RunsFor(m, watched, s, items[1..], env1, c, env')
           else c == AfterLoop(c1) && env' == env1
  }

  // The loop variable is assigned like any other.
  function Target(s: Stmt, item: Value, env: Env): Env
    requires s.For? && s.target.Name?
  {
    env[s.target.id := item]
  }

  // break ends the loop it is in and nothing else.
  function AfterLoop(c: Completion): Completion {
    if c == Broke then Normal else c
  }

  // ---- Functions ----

  function Assigned(s: Stmt): set<string> {
    match s
    case Assign(targets, _) => set t | t in targets && t.Name? :: t.id
    case AugAssign(target, _, _) => if target.Name? then {target.id} else {}
    case If(_, body, orelse) => AssignedIn(body) + AssignedIn(orelse)
    case For(target, _, body, orelse) =>
      (if target.Name? then {target.id} else {}) + AssignedIn(body) + AssignedIn(orelse)
    case While(_, body, orelse) => AssignedIn(body) + AssignedIn(orelse)
    case _ => {}
  }

  function AssignedIn(ss: seq<Stmt>): set<string> {
    if ss == [] then {} else Assigned(ss[0]) + AssignedIn(ss[1..])
  }

  // The function should_include(slug) with the given body.
  function FunctionOf(py: ObjectModel, body: seq<Stmt>): Reference {
    Reference(py, {"slug"} + AssignedIn(body))
  }

  // The rule for a block, read from its premises to its conclusion.
  lemma BlockRule(m: Reference, watched: bool, ss: seq<Stmt>, env: Env, c1: Completion, env1: Env,
                  c: Completion, env': Env)
    requires ss != [] && Runs(m, watched, ss[0], env, c1, env1)
    requires if c1 == Normal then RunsBlock(m, watched, ss[1..], env1, c, env') else c == c1 && env' == env1
    ensures RunsBlock(m, watched, ss, env, c, env')
  {
  }

  // The rules for a while loop: without a round, and with one.
  lemma WhileRule(m: Reference, watched: bool, s: Stmt, env: Env, c: Completion, env': Env)
    requires s.While?
    requires match PyEval(m, env, s.test)
             case Err(f) => c == Raised(f) && env' == env
             case Ok(v) => !Truth(v) && RunsBlock(m, watched, s.orelse, env, c, env')
    ensures RunsWhile(m, watched, s, env, c, env')
  {
  }

  lemma WhileRoundRule(m: Reference, watched: bool, s: Stmt, env: Env, c1: Completion, env1: Env,
                       c: Completion, env': Env)
    requires s.While? && PyEval(m, env, s.test).Ok? && Truth(PyEval(m, env, s.test).value)
    requires RunsBlock(m, watched, s.body, env, c1, env1)
    requires if c1 == Normal || c1 == Continued then RunsWhile(m, watched, s, env1, c, env')
             else c == AfterLoop(c1) && env' == env1
    ensures RunsWhile(m, watched, s, env, c, env')
  {
  }

  // How the first statement of a block went.
  lemma FirstOfBlock(depth: nat, m: Reference, watched: bool, ss: seq<Stmt>, env: Env, c: Completion, env': Env)
    returns (c1: Completion, env1: Env)
    requires ss != [] && RunsBlock#[depth](m, watched, ss, env, c, env')
    ensures depth > 0 && Runs#[depth - 1](m, watched, ss[0], env, c1, env1)
    ensures if c1 == Normal then RunsBlock#[depth - 1](m, watched, ss[1..], env1, c, env') else c == c1 && env' == env1
  {
    c1, env1 :|
      && Runs#[depth - 1](m, watched, ss[0], env, c1, env1)
      && if c1 == Normal then RunsBlock#[depth - 1](m, watched, ss[1..], env1, c, env') else c == c1 && env' == env1;
  }

  // What a loop statement's loop completed with.
  lemma LoopInside(depth: nat, m: Reference, watched: bool, s: Stmt, env: Env, c: Completion, env': Env)
    returns (c0: Completion)
    requires (s.For? || s.While?) && Runs#[depth](m, watched, s, env, c, env')
    ensures depth > 0 && RunsLoop#[depth - 1](m, watched, s, env, c0, env') && c == AtLoopEnd(watched, c0)
  {
    c0 :| RunsLoop#[depth - 1](m, watched, s, env, c0, env') && c == AtLoopEnd(watched, c0);
  }

  // How a round of a while loop went.
  lemma WhileRound(depth: nat, m: Reference, watched: bool, s: Stmt, env: Env, c: Completion, env': Env)
    returns (c1: Completion, env1: Env)
    requires s.While? && RunsWhile#[depth](m, watched, s, env, c, env')
    requires PyEval(m, env, s.test).Ok? && Truth(PyEval(m, env, s.test).value)
    ensures depth > 0 && RunsBlock#[depth - 1](m, watched, s.body, env, c1, env1)
    ensures if c1 == Normal || c1 == Continued then RunsWhile#[depth - 1](m, watched, s, env1, c, env')
            else c == AfterLoop(c1) && env' == env1
  {
    c1, env1 :|
      && RunsBlock#[depth - 1](m, watched, s.body, env, c1, env1)
      && if c1 == Normal || c1 == Continued then RunsWhile#[depth - 1](m, watched, s, env1, c, env')
         else c == AfterLoop(c1) && env' == env1;
  }

  // How a round of a for loop went.
  lemma ForRound(depth: nat, m: Reference, watched: bool, s: Stmt, items: seq<Value>, env: Env,
                 c: Completion, env': Env)
    returns (c1: Completion, env1: Env)
    requires s.For? && s.target.Name? && items != [] && RunsFor#[depth](m, watched, s, items, env, c, env')
    ensures depth > 0 && RunsBlock#[depth - 1](m, watched, s.body, Target(s, items[0], env), c1, env1)
    ensures if c1 == Normal || c1 == Continued then RunsFor#[depth - 1](m, watched, s, items[1..], env1, c, env')
            else c == AfterLoop(c1) && env' == env1
  {
    c1, env1 :|
      && RunsBlock#[depth - 1](m, watched, s.body, Target(s, items[0], env), c1, env1)
      && if c1 == Normal || c1 == Continued then RunsFor#[depth - 1](m, watched, s, items[1..], env1, c, env')
         else c == AfterLoop(c1) && env' == env1;
  }

  // ---- At most one run ----

  lemma {:induction false} RunsOnce(i: nat, j: nat, m: Reference, watched: bool, s: Stmt, env: Env,
                                    c: Completion, e: Env, c': Completion, e': Env)
    requires Runs#[i](m, watched, s, env, c, e) && Runs#[j](m, watched, s, env, c', e')
    ensures c == c' && e == e'
    decreases i, 0
  {
    if s.If? {
      if PyEval(m, env, s.test).Ok? {
        var branch := if Truth(PyEval(m, env, s.test).value) then s.body else s.orelse;
        BlockRunsOnce(i - 1, j - 1, m, watched, branch, env, c, e, c', e');
      }
    } else if s.For? || s.While? {
      var c0 := LoopInside(i, m, watched, s, env, c, e);
      var c0' := LoopInside(j, m, watched, s, env, c', e');
      LoopRunsOnce(i - 1, j - 1, m, watched, s, env, c0, e, c0', e');
    }
  }

  lemma {:induction false} LoopRunsOnce(i: nat, j: nat, m: Reference, watched: bool, s: Stmt, env: Env,
                                        c: Completion, e: Env, c': Completion, e': Env)
    requires (s.For? || s.While?) && RunsLoop#[i](m, watched, s, env, c, e) && RunsLoop#[j](m, watched, s, env, c', e')
    ensures c == c' && e == e'
    decreases i, 0
  {
    if s.While? {
      WhileRunsOnce(i - 1, j - 1, m, watched, s, env, c, e, c', e');
    } else if PyItems(m, env, s.iter).Ok? {
      ForRunsOnce(i - 1, j - 1, m, watched, s, PyItems(m, env, s.iter).value, env, c, e, c', e');
    }
  }

  lemma {:induction false} BlockRunsOnce(i: nat, j: nat, m: Reference, watched: bool, ss: seq<Stmt>, env: Env,
                                         c: Completion, e: Env, c': Completion, e': Env)
    requires RunsBlock#[i](m, watched, ss, env, c, e) && RunsBlock#[j](m, watched, ss, env, c', e')
    ensures c == c' && e == e'
    decreases i, 0
  {
    if ss != [] {
      var c1, e1 := FirstOfBlock(i, m, watched, ss, env, c, e);
      var c2, e2 := FirstOfBlock(j, m, watched, ss, env, c', e');
      RunsOnce(i - 1, j - 1, m, watched, ss[0], env, c1, e1, c2, e2);
      if c1 == Normal {
        BlockRunsOnce(i - 1, j - 1, m, watched, ss[1..], e1, c, e, c', e');
      }
    }
  }

  lemma {:induction false} WhileRunsOnce(i: nat, j: nat, m: Reference, watched: bool, s: Stmt, env: Env,
                                         c: Completion, e: Env, c': Completion, e': Env)
    requires s.While? && RunsWhile#[i](m, watched, s, env, c, e) && RunsWhile#[j](m, watched, s, env, c', e')
    ensures c == c' && e == e'
    decreases i, 1
  {
    hide PyEval, RunsBlock;
    if PyEval(m, env, s.test).Ok? && Truth(PyEval(m, env, s.test).value) {
      var c1, e1 := WhileRound(i, m, watched, s, env, c, e);
      var c2, e2 := WhileRound(j, m, watched, s, env, c', e');
      RoundRunsOnce(i - 1, j - 1, m, watched, s, env, c1, e1, c2, e2, c, e, c', e');
    } else {
      NoRoundRunsOnce(i, j, m, watched, s, env, c, e, c', e');
    }
  }

  lemma {:induction false} NoRoundRunsOnce(i: nat, j: nat, m: Reference, watched: bool, s: Stmt, env: Env,
                                           c: Completion, e: Env, c': Completion, e': Env)
    requires s.While? && RunsWhile#[i](m, watched, s, env, c, e) && RunsWhile#[j](m, watched, s, env, c', e')
    requires PyEval(m, env, s.test).Ok? ==> !Truth(PyEval(m, env, s.test).value)
    ensures c == c' && e == e'
    decreases i, 0
  {
    hide PyEval, RunsBlock;
    if PyEval(m, env, s.test).Ok? {
      BlockRunsOnce(i - 1, j - 1, m, watched, s.orelse, env, c, e, c', e');
    }
  }

  lemma {:induction false} RoundRunsOnce(i: nat, j: nat, m: Reference, watched: bool, s: Stmt, env: Env,
                                         c1: Completion, e1: Env, c2: Completion, e2: Env,
                                         c: Completion, e: Env, c': Completion, e': Env)
    requires s.While? && RunsBlock#[i](m, watched, s.body, env, c1, e1) && RunsBlock#[j](m, watched, s.body, env, c2, e2)
    requires if c1 == Normal || c1 == Continued then RunsWhile#[i](m, watched, s, e1, c, e)
             else c == AfterLoop(c1) && e == e1
    requires if c2 == Normal || c2 == Continued then RunsWhile#[j](m, watched, s, e2, c', e')
             else c' == AfterLoop(c2) && e' == e2
    ensures c == c' && e == e'
    decreases i, 2
  {
    BlockRunsOnce(i, j, m, watched, s.body, env, c1, e1, c2, e2);
    if c1 == Normal || c1 == Continued {
      WhileRunsOnce(i, j, m, watched, s, e1, c, e, c', e');
    }
  }

  lemma {:induction false} ForRunsOnce(i: nat, j: nat, m: Reference, watched: bool, s: Stmt, items: seq<Value>,
                                       env: Env, c: Completion, e: Env, c': Completion, e': Env)
    requires s.For? && s.target.Name?
    requires RunsFor#[i](m, watched, s, items, env, c, e) && RunsFor#[j](m, watched, s, items, env, c', e')
    ensures c == c' && e == e'
    decreases i, 0
  {
    if items == [] {
      BlockRunsOnce(i - 1, j - 1, m, watched, s.orelse, env, c, e, c', e');
    } else {
      var round := Target(s, items[0], env);
      var c1, e1 := ForRound(i, m, watched, s, items, env, c, e);
      var c2, e2 := ForRound(j, m, watched, s, items, env, c', e');
      BlockRunsOnce(i - 1, j - 1, m, watched, s.body, round, c1, e1, c2, e2);
      if c1 == Normal || c1 == Continued {
        ForRunsOnce(i - 1, j - 1, m, watched, s, items[1..], e1, c, e, c', e');
      }
    }
  }

  /** A program has one run at most. */
  lemma PythonIsDeterministic(m: Reference, watched: bool, program: seq<Stmt>, env: Env,
                              c: Completion, e: Env, c': Completion, e': Env)
    requires RunsBlock(m, watched, program, env, c, e) && RunsBlock(m, watched, program, env, c', e')
    ensures c == c' && e == e'
  {
    var i: nat :| RunsBlock#[i](m, watched, program, env, c, e);
    var j: nat :| RunsBlock#[j](m, watched, program, env, c', e');
    BlockRunsOnce(i, j, m, watched, program, env, c, e, c', e');
  }

  // ---- Watched runs against Python's ----

  // A watched run that does not leave an else block is Python's run.
  lemma {:induction false} WatchedIsPython(i: nat, m: Reference, s: Stmt, env: Env, c: Completion, e: Env)
    requires Runs#[i](m, true, s, env, c, e) && c != Departed(LeftElse)
    ensures Runs(m, false, s, env, c, e)
    decreases i, 0
  {
    if s.If? {
      if PyEval(m, env, s.test).Ok? {
        var branch := if Truth(PyEval(m, env, s.test).value) then s.body else s.orelse;
        WatchedBlockIsPython(i - 1, m, branch, env, c, e);
      }
    } else if s.For? || s.While? {
      var c0 := LoopInside(i, m, true, s, env, c, e);
      WatchedLoopIsPython(i - 1, m, s, env, c0, e);
      assert c == AtLoopEnd(false, c0);
    }
  }

  lemma {:induction false} WatchedLoopIsPython(i: nat, m: Reference, s: Stmt, env: Env, c: Completion, e: Env)
    requires (s.For? || s.While?) && RunsLoop#[i](m, true, s, env, c, e) && c != Departed(LeftElse)
    ensures RunsLoop(m, false, s, env, c, e)
    decreases i, 0
  {
    if s.While? {
      WatchedWhileIsPython(i - 1, m, s, env, c, e);
    } else if PyItems(m, env, s.iter).Ok? {
      WatchedForIsPython(i - 1, m, s, PyItems(m, env, s.iter).value, env, c, e);
    }
  }

  lemma {:induction false} WatchedBlockIsPython(i: nat, m: Reference, ss: seq<Stmt>, env: Env, c: Completion, e: Env)
    requires RunsBlock#[i](m, true, ss, env, c, e) && c != Departed(LeftElse)
    ensures RunsBlock(m, false, ss, env, c, e)
    decreases i, 0
  {
    if ss != [] {
      var c1, e1 := FirstOfBlock(i, m, true, ss, env, c, e);
      WatchedIsPython(i - 1, m, ss[0], env, c1, e1);
      if c1 == Normal {
        WatchedBlockIsPython(i - 1, m, ss[1..], e1, c, e);
      }
    }
  }

  lemma {:induction false} WatchedWhileIsPython(i: nat, m: Reference, s: Stmt, env: Env, c: Completion, e: Env)
    requires s.While? && RunsWhile#[i](m, true, s, env, c, e) && c != Departed(LeftElse)
    ensures RunsWhile(m, false, s, env, c, e)
    decreases i, 0
  {
    hide PyEval, RunsBlock;
    if PyEval(m, env, s.test).Ok? && Truth(PyEval(m, env, s.test).value) {
      var c1, e1 := WhileRound(i, m, true, s, env, c, e);
      WatchedRoundIsPython(i - 1, m, s, env, c1, e1, c, e);
    } else {
      if PyEval(m, env, s.test).Ok? {
        WatchedBlockIsPython(i - 1, m, s.orelse, env, c, e);
      }
      WhileRule(m, false, s, env, c, e);
    }
  }

  lemma {:induction false} WatchedRoundIsPython(i: nat, m: Reference, s: Stmt, env: Env, c1: Completion, e1: Env,
                                                c: Completion, e: Env)
    requires s.While? && PyEval(m, env, s.test).Ok? && Truth(PyEval(m, env, s.test).value)
    requires RunsBlock#[i](m, true, s.body, env, c1, e1) && c != Departed(LeftElse)
    requires if c1 == Normal || c1 == Continued then RunsWhile#[i](m, true, s, e1, c, e)
             else c == AfterLoop(c1) && e == e1
    ensures RunsWhile(m, false, s, env, c, e)
    decreases i, 1
  {
    WatchedBlockIsPython(i, m, s.body, env, c1, e1);
    if c1 == Normal || c1 == Continued {
      WatchedWhileIsPython(i, m, s, e1, c, e);
    }
    WhileRoundRule(m, false, s, env, c1, e1, c, e);
  }

  lemma {:induction false} WatchedForIsPython(i: nat, m: Reference, s: Stmt, items: seq<Value>, env: Env,
                                              c: Completion, e: Env)
    requires s.For? && s.target.Name? && RunsFor#[i](m, true, s, items, env, c, e) && c != Departed(LeftElse)
    ensures RunsFor(m, false, s, items, env, c, e)
    decreases i, 0
  {
    if items == [] {
      WatchedBlockIsPython(i - 1, m, s.orelse, env, c, e);
    } else {
      var c1, e1 := ForRound(i, m, true, s, items, env, c, e);
      WatchedBlockIsPython(i - 1, m, s.body, Target(s, items[0], env), c1, e1);
      if c1 == Normal || c1 == Continued {
        WatchedForIsPython(i - 1, m, s, items[1..], e1, c, e);
      }
    }
  }

  // Watching Python's run gives the same run, or shows that it leaves an else block.
  predicate Watches(c: Completion, e: Env, c': Completion, e': Env) {
    c' == Departed(LeftElse) || (c' == c && e' == e)
  }

  lemma {:induction false} PythonIsWatched(i: nat, m: Reference, s: Stmt, env: Env, c: Completion, e: Env)
    returns (c': Completion, e': Env)
    requires Runs#[i](m, false, s, env, c, e)
    ensures Runs(m, true, s, env, c', e') && Watches(c, e, c', e')
    decreases i
  {
    c', e' := c, e;
    if s.If? {
      if PyEval(m, env, s.test).Ok? {
        var branch := if Truth(PyEval(m, env, s.test).value) then s.body else s.orelse;
        c', e' := PythonBlockIsWatched(i - 1, m, branch, env, c, e);
      }
    } else if s.For? || s.While? {
      var c0 := LoopInside(i, m, false, s, env, c, e);
      c', e' := PythonLoopIsWatched(i - 1, m, s, env, c0, e);
      c' := AtLoopEnd(true, c');
    }
  }

  lemma {:induction false} PythonLoopIsWatched(i: nat, m: Reference, s: Stmt, env: Env, c: Completion, e: Env)
    returns (c': Completion, e': Env)
    requires (s.For? || s.While?) && RunsLoop#[i](m, false, s, env, c, e)
    ensures RunsLoop(m, true, s, env, c', e') && Watches(c, e, c', e')
    decreases i
  {
    c', e' := c, e;
    if s.While? {
      c', e' := PythonWhileIsWatched(i - 1, m, s, env, c, e);
    } else if PyItems(m, env, s.iter).Ok? {
      c', e' := PythonForIsWatched(i - 1, m, s, PyItems(m, env, s.iter).value, env, c, e);
    }
  }

  lemma {:induction false} PythonBlockIsWatched(i: nat, m: Reference, ss: seq<Stmt>, env: Env, c: Completion, e: Env)
    returns (c': Completion, e': Env)
    requires RunsBlock#[i](m, false, ss, env, c, e)
    ensures RunsBlock(m, true, ss, env, c', e') && Watches(c, e, c', e')
    decreases i
  {
    if ss == [] {
      c', e' := c, e;
    } else {
      var c1, e1 := FirstOfBlock(i, m, false, ss, env, c, e);
      var c2, e2 := PythonIsWatched(i - 1, m, ss[0], env, c1, e1);
      c', e' := c2, e2;
      if c2 == Normal {
        c', e' := PythonBlockIsWatched(i - 1, m, ss[1..], e1, c, e);
      }
      BlockRule(m, true, ss, env, c2, e2, c', e');
    }
  }

  lemma {:induction false} PythonWhileIsWatched(i: nat, m: Reference, s: Stmt, env: Env, c: Completion, e: Env)
    returns (c': Completion, e': Env)
    requires s.While? && RunsWhile#[i](m, false, s, env, c, e)
    ensures RunsWhile(m, true, s, env, c', e') && Watches(c, e, c', e')
    decreases i
  {
    c', e' := c, e;
    if PyEval(m, env, s.test).Ok? {
      if !Truth(PyEval(m, env, s.test).value) {
        c', e' := PythonBlockIsWatched(i - 1, m, s.orelse, env, c, e);
      } else {
        var c1, e1 := WhileRound(i, m, false, s, env, c, e);
        var c2, e2 := PythonBlockIsWatched(i - 1, m, s.body, env, c1, e1);
        c', e' := AfterLoop(c2), e2;
        if c2 == Normal || c2 == Continued {
          c', e' := PythonWhileIsWatched(i - 1, m, s, e1, c, e);
        }
      }
    }
  }

  lemma {:induction false} PythonForIsWatched(i: nat, m: Reference, s: Stmt, items: seq<Value>, env: Env,
                                              c: Completion, e: Env)
    returns (c': Completion, e': Env)
    requires s.For? && s.target.Name? && RunsFor#[i](m, false, s, items, env, c, e)
    ensures RunsFor(m, true, s, items, env, c', e') && Watches(c, e, c', e')
    decreases i
  {
    if items == [] {
      c', e' := PythonBlockIsWatched(i - 1, m, s.orelse, env, c, e);
    } else {
      var c1, e1 := ForRound(i, m, false, s, items, env, c, e);
      var c2, e2 := PythonBlockIsWatched(i - 1, m, s.body, Target(s, items[0], env), c1, e1);
      c', e' := AfterLoop(c2), e2;
      if c2 == Normal || c2 == Continued {
        c', e' := PythonForIsWatched(i - 1, m, s, items[1..], e1, c, e);
      }
    }
  }

  /** Watching changes nothing but to show where an else block is left: an unmarked watched
      run is Python's, and Python's run is the watched one unless that is marked. */
  lemma WatchingIsHarmless(m: Reference, program: seq<Stmt>, env: Env, c: Completion, e: Env)
    requires c != Departed(LeftElse)
    requires RunsBlock(m, true, program, env, c, e)
    ensures RunsBlock(m, false, program, env, c, e)
    ensures forall c', e' :: RunsBlock(m, false, program, env, c', e') ==> c' == c && e' == e
  {
    var i: nat :| RunsBlock#[i](m, true, program, env, c, e);
    WatchedBlockIsPython(i, m, program, env, c, e);
    forall c', e' | RunsBlock(m, false, program, env, c', e') ensures c' == c && e' == e {
      PythonIsDeterministic(m, false, program, env, c, e, c', e');
    }
  }

  lemma PythonRunIsWatched(m: Reference, program: seq<Stmt>, env: Env, c: Completion, e: Env)
    returns (c': Completion, e': Env)
    requires RunsBlock(m, false, program, env, c, e)
    ensures RunsBlock(m, true, program, env, c', e')
    ensures c' == Departed(LeftElse) || (c' == c && e' == e)
  {
    var i: nat :| RunsBlock#[i](m, false, program, env, c, e);
    c', e' := PythonBlockIsWatched(i, m, program, env, c, e);
  }
}
