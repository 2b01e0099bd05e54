/** What a script sees and says, in terms of strings, numbers and lists: the items a loop
    visits, the values that count as false, and what the helper functions answer. */
module SlugMeaning {
  import opened Prelude
  import opened SlugAst
  import opened SlugExpressions
  import opened SlugExecution
  import opened SlugEvaluator

  // ---- What a loop visits ----

  predicate BeforeStop(step: int, a: int, stop: int) {
    if step > 0 then a < stop else a > stop
  }

  // The items of v in their order: the characters of a string, the elements of a list or
  // tuple, and of a range the start and on in steps while that is before the stop.
  ghost predicate Visits(v: Value, items: seq<Value>) {
    match v
    case StrV(s) => |items| == |s| && forall k :: 0 <= k < |s| ==> items[k] == StrV([s[k]])
    case ListV(elements) => items == elements
    case TupleV(elements) => items == elements
    case RangeV(start, stop, step) =>
      && (forall k :: 0 <= k < |items| ==> items[k] == IntV(start + k * step) && BeforeStop(step, start + k * step, stop))
      && !BeforeStop(step, start + |items| * step, stop)
    case _ => false
  }

  lemma RangeEnds(start: int, stop: int, step: int)
    requires step != 0
    ensures var n := RangeLength(start, stop, step);
            && (forall k :: 0 <= k < n ==> BeforeStop(step, start + k * step, stop))
            && !BeforeStop(step, start + n * step, stop)
  {
    var n := RangeLength(start, stop, step);
    var stride, length := if step > 0 then step else -step, if step > 0 then stop - start else start - stop;
    if length > 0 {
      StepsFit(length, stride);
      assert n * step == if step > 0 then n * stride else -(n * stride);
      forall k | 0 <= k < n ensures BeforeStop(step, start + k * step, stop) {
        assert k * step == if step > 0 then k * stride else -(k * stride);
      }
    }
  }

  lemma StepsFit(length: int, stride: int)
    requires length > 0 && stride > 0
    ensures var n := (length - 1) / stride + 1;
            n * stride >= length && forall k :: 0 <= k < n ==> k * stride < length
  {
    var q := (length - 1) / stride;
    assert q * stride + (length - 1) % stride == length - 1;
    assert (q + 1) * stride == q * stride + stride;
    forall k | 0 <= k < q + 1 ensures k * stride < length {
      NoMoreSteps(k, q, stride);
    }
  }

  lemma NoMoreSteps(k: int, n: int, stride: int)
    requires k <= n && stride > 0
    ensures k * stride <= n * stride
  {
  }

  lemma ItemsAreVisited(v: Value)
    requires v.RangeV? ==> v.step != 0
    requires v.StrV? || v.ListV? || v.TupleV? || v.RangeV?
    ensures Items(v).Ok? && Visits(v, Items(v).value)
  {
    if v.RangeV? {
      RangeEnds(v.start, v.stop, v.step);
    }
  }

  // CPython's + on lists, and on strings.
  ghost predicate JoinsLists(py: ObjectModel) {
    forall a, b :: py.binary(Add, ListV(a), ListV(b)) == Object(ListV(a + b))
  }

  ghost predicate JoinsStrings(py: ObjectModel) {
    forall a, b :: py.binary(Add, StrV(a), StrV(b)) == Object(StrV(a + b))
  }

  // for x in iter: acc += part
  function Gather(acc: string, x: string, iter: Expr, part: Expr): Stmt {
    For(Name(x), iter, [AugAssign(Name(acc), Add, part)], [])
  }

  lemma BlockGoesOn(py: ObjectModel, lim: Limits, s: Stmt, rest: seq<Stmt>, st: State, st': State)
    requires Exec(py, lim, s, st) == Run(Ok(Sentinel), st')
    ensures Block(py, lim, [s] + rest, st) == Block(py, lim, rest, st')
  {
    assert ([s] + rest)[1..] == rest;
  }

  // One round of such a loop.
  lemma RoundGathers(py: ObjectModel, lim: Limits, acc: string, part: Expr, st: State, v: Value, sum: Value)
    requires acc in st.vars && Eval(py, st.vars, part) == Ok(v)
    requires py.binary(Add, st.vars[acc], v) == Object(sum) && st.steps < lim.steps
    ensures Block(py, lim, [AugAssign(Name(acc), Add, part)], st) ==
            Run(Ok(Sentinel), State(st.vars[acc := sum], st.steps + 1))
  {
    var s := AugAssign(Name(acc), Add, part);
    assert Augmented(py, st.vars, acc, Add, part) == Ok(Some(sum));
    hide Eval, Augmented;
    LastGoesOn(py, lim, s, st, State(st.vars[acc := sum], st.steps + 1));
  }

  // The variables after a loop over these items.
  function Bound(env: Env, x: string, items: seq<Value>): Env {
    if items == [] then env else env[x := items[|items| - 1]]
  }

  lemma {:induction false} LoopGathersItems(py: ObjectModel, lim: Limits, acc: string, x: string, iter: Expr,
                                            items: seq<Value>, n: nat, st: State, got: seq<Value>)
    requires acc != x && JoinsLists(py) && acc in st.vars && st.vars[acc] == ListV(got)
    requires n + |items| <= lim.iterations && st.steps + |items| <= lim.steps
    ensures ForLoop(py, lim, Gather(acc, x, iter, ListDisplay([Name(x)])), items, n, st) ==
            Run(Ok(Sentinel), State(Bound(st.vars, x, items)[acc := ListV(got + items)], st.steps + |items|))
    decreases |items|
  {
    var part := ListDisplay([Name(x)]);
    if items == [] {
      assert got + [] == got && st.vars[acc := ListV(got)] == st.vars;
    } else {
      var env, now := st.vars[x := items[0]], got + [items[0]];
      OneItem(py, env, x);
      hide Eval, Block;
      RoundGathers(py, lim, acc, part, State(env, st.steps), ListV([items[0]]), ListV(now));
      LoopGathersItems(py, lim, acc, x, iter, items[1..], n + 1, State(env[acc := ListV(now)], st.steps + 1), now);
      assert now + items[1..] == got + items;
      assert Bound(env[acc := ListV(now)], x, items[1..])[acc := ListV(got + items)] ==
             Bound(st.vars, x, items)[acc := ListV(got + items)];
    }
  }

  lemma EvalCons(py: ObjectModel, env: Env, e: Expr, rest: seq<Expr>, v: Value, vs: seq<Value>)
    requires Eval(py, env, e) == Ok(v) && EvalAll(py, env, rest) == Ok(vs)
    ensures EvalAll(py, env, [e] + rest) == Ok([v] + vs)
  {
    assert ([e] + rest)[1..] == rest;
  }

  lemma OneItem(py: ObjectModel, env: Env, x: string)
    requires x in env
    ensures Eval(py, env, ListDisplay([Name(x)])) == Ok(ListV([env[x]]))
  {
    EvalCons(py, env, Name(x), [], env[x], []);
    assert [Name(x)] + [] == [Name(x)] && [env[x]] + [] == [env[x]];
  }

  // acc = []; for x in iter: acc += [x]
  function Collect(acc: string, x: string, iter: Expr): seq<Stmt> {
    [Assign([Name(acc)], ListDisplay([]))] + [Gather(acc, x, iter, ListDisplay([Name(x)]))]
  }

  /** A loop visits each item of a string, list, tuple or range once, in order, and counts two
      statements and one more a round. */
  lemma LoopVisitsItems(py: ObjectModel, lim: Limits, acc: string, x: string, iter: Expr, v: Value, st: State)
    returns (items: seq<Value>)
    requires acc != x && JoinsLists(py) && Eval(py, st.vars[acc := ListV([])], iter) == Ok(v)
    requires v.StrV? || v.ListV? || v.TupleV? || (v.RangeV? && v.step != 0)
    ensures Visits(v, items)
    ensures |items| <= lim.iterations && st.steps + 2 + |items| <= lim.steps ==>
      Block(py, lim, Collect(acc, x, iter), st) ==
      Run(Ok(Sentinel), State(Bound(st.vars, x, items)[acc := ListV(items)], st.steps + 2 + |items|))
  {
    ItemsAreVisited(v);
    items := Items(v).value;
    assert ForItems(py, st.vars[acc := ListV([])], iter) == Ok(items);
    hide Eval, Items, Visits, Block, ForItems, Collect;
    if |items| <= lim.iterations && st.steps + 2 + |items| <= lim.steps {
      CollectGathers(py, lim, acc, x, iter, items, st);
    }
  }

  lemma CollectGathers(py: ObjectModel, lim: Limits, acc: string, x: string, iter: Expr, items: seq<Value>, st: State)
    requires acc != x && JoinsLists(py) && ForItems(py, st.vars[acc := ListV([])], iter) == Ok(items)
    requires |items| <= lim.iterations && st.steps + 2 + |items| <= lim.steps
    ensures Block(py, lim, Collect(acc, x, iter), st) ==
            Run(Ok(Sentinel), State(Bound(st.vars, x, items)[acc := ListV(items)], st.steps + 2 + |items|))
  {
    var empty, loop := Assign([Name(acc)], ListDisplay([])), Gather(acc, x, iter, ListDisplay([Name(x)]));
    var st1 := State(st.vars[acc := ListV([])], st.steps + 1);
    var st2 := State(Bound(st.vars, x, items)[acc := ListV(items)], st.steps + 2 + |items|);
    NothingDisplayed(py, st.vars);
    hide Eval, Block, ForItems;
    assert Exec(py, lim, empty, st) == Run(Ok(Sentinel), st1);
    LoopGathersItems(py, lim, acc, x, iter, items, 0, State(st1.vars, st.steps + 2), []);
    hide ForLoop;
    assert [] + items == items;
    assert Bound(st1.vars, x, items)[acc := ListV(items)] == Bound(st.vars, x, items)[acc := ListV(items)];
    assert Exec(py, lim, loop, st1) == Run(Ok(Sentinel), st2);
    hide Exec;
    BlockGoesOn(py, lim, empty, [loop], st, st1);
    LastGoesOn(py, lim, loop, st1, st2);
  }

  lemma LastGoesOn(py: ObjectModel, lim: Limits, s: Stmt, st: State, st': State)
    requires Exec(py, lim, s, st) == Run(Ok(Sentinel), st')
    ensures Block(py, lim, [s], st) == Run(Ok(Sentinel), st')
  {
    hide Exec;
    assert [s] + [] == [s];
    BlockGoesOn(py, lim, s, [], st, st');
  }

  lemma NothingDisplayed(py: ObjectModel, env: Env)
    ensures Eval(py, env, ListDisplay([])) == Ok(ListV([]))
  {
  }

  /** Nothing else is visited: a loop over another value fails with Python's type error. */
  lemma OthersAreNotVisited(py: ObjectModel, lim: Limits, s: Stmt, v: Value, st: State)
    requires s.For? && Eval(py, st.vars, s.iter) == Ok(v) && st.steps < lim.steps
    requires v == NoneV || v.BoolV? || v.IntV? || v.FloatV? || v.OpaqueV?
    ensures Exec(py, lim, s, st) == Run(Err(PythonError(TYPE_ERROR)), State(st.vars, st.steps + 1))
  {
  }

  lemma {:induction false} LoopGathersText(py: ObjectModel, lim: Limits, acc: string, c: string, iter: Expr,
                                           items: seq<Value>, text: string, n: nat, st: State, got: string)
    requires acc != c && JoinsStrings(py) && acc in st.vars && st.vars[acc] == StrV(got)
    requires Visits(StrV(text), items)
    requires n + |text| <= lim.iterations && st.steps + |text| <= lim.steps
    ensures ForLoop(py, lim, Gather(acc, c, iter, Name(c)), items, n, st) ==
            Run(Ok(Sentinel), State(Bound(st.vars, c, items)[acc := StrV(got + text)], st.steps + |text|))
    decreases |text|
  {
    if items == [] {
      assert got + text == got && st.vars[acc := StrV(got)] == st.vars;
    } else {
      var env, now := st.vars[c := items[0]], got + [text[0]];
      assert Eval(py, env, Name(c)) == Ok(items[0]);
      hide Eval, Block;
      RoundGathers(py, lim, acc, Name(c), State(env, st.steps), items[0], StrV(now));
      LoopGathersText(py, lim, acc, c, iter, items[1..], text[1..], n + 1, State(env[acc := StrV(now)], st.steps + 1), now);
      assert now + text[1..] == got + text;
      assert Bound(env[acc := StrV(now)], c, items[1..])[acc := StrV(got + text)] ==
             Bound(st.vars, c, items)[acc := StrV(got + text)];
    }
  }

  // acc = ""; for c in slug: acc += c
  function Respell(acc: string, c: string): seq<Stmt> {
    [Assign([Name(acc)], Constant(StrV("")))] + [Gather(acc, c, Name("slug"), Name(c))]
  }

  /** Adding up the characters of the slug gives the slug. */
  lemma RespellingGivesSlug(py: ObjectModel, lim: Limits, acc: string, c: string, rawSlug: string)
    requires acc != c && acc != "slug" && JoinsStrings(py)
    requires |py.normalize(rawSlug)| <= lim.iterations && |py.normalize(rawSlug)| + 2 <= lim.steps
    ensures var r := Block(py, lim, Respell(acc, c), Start(py, rawSlug));
            r.out == Ok(Sentinel) && acc in r.st.vars && r.st.vars[acc] == StrV(py.normalize(rawSlug))
  {
    var slug, st := py.normalize(rawSlug), Start(py, rawSlug);
    var empty, loop := Assign([Name(acc)], Constant(StrV(""))), Gather(acc, c, Name("slug"), Name(c));
    var st1 := State(st.vars[acc := StrV("")], 1);
    ItemsAreVisited(StrV(slug));
    var items := Items(StrV(slug)).value;
    assert Eval(py, st.vars, empty.value) == Ok(StrV(""));
    assert Eval(py, st1.vars, Name("slug")) == Ok(StrV(slug));
    hide Eval, Items, Visits;
    assert Exec(py, lim, empty, st) == Run(Ok(Sentinel), st1);
    LoopGathersText(py, lim, acc, c, Name("slug"), items, slug, 0, State(st1.vars, 2), "");
    assert "" + slug == slug;
    var st2 := Exec(py, lim, loop, st1).st;
    BlockGoesOn(py, lim, empty, [loop], st, st1);
    LastGoesOn(py, lim, loop, st1, st2);
  }

  // ---- What counts as false ----

  lemma ReturnAnswers(py: ObjectModel, lim: Limits, e: Expr, st: State, v: Value)
    requires Eval(py, st.vars, e) == Ok(v) && st.steps < lim.steps
    ensures Block(py, lim, [Return(Some(e))], st).out == Ok(Result(v))
    ensures Verdict(Block(py, lim, [Return(Some(e))], st).out) == Ok(Truth(v))
  {
    hide Eval;
    assert Exec(py, lim, Return(Some(e)), st).out == Ok(Result(v));
  }

  /** A returned value excludes the slug exactly when it is None, False, zero, empty, or an
      object that says so itself. */
  lemma FalseExactly(py: ObjectModel, lim: Limits, e: Expr, st: State, v: Value)
    requires Eval(py, st.vars, e) == Ok(v) && st.steps < lim.steps && (v.RangeV? ==> v.step != 0)
    ensures Verdict(Block(py, lim, [Return(Some(e))], st).out) == Ok(false) <==>
            || v == NoneV || v == BoolV(false) || v == IntV(0) || v == FloatV(0.0)
            || v == StrV("") || v == ListV([]) || v == TupleV([])
            || (v.RangeV? && !BeforeStop(v.step, v.start, v.stop))
            || (v.OpaqueV? && !v.truthy)
  {
    ReturnAnswers(py, lim, e, st, v);
    if v.RangeV? {
      RangeEnds(v.start, v.stop, v.step);
      RangeStarts(v.start, v.stop, v.step);
    }
  }

  lemma RangeStarts(start: int, stop: int, step: int)
    requires step != 0
    ensures RangeLength(start, stop, step) > 0 <==> BeforeStop(step, start, stop)
  {
    if step > 0 && start < stop {
      StepsFit(stop - start, step);
    } else if step < 0 && stop < start {
      StepsFit(start - stop, -step);
    }
  }

  // ---- Comparisons and calls ----

  // CPython's `in` on strings, and its comparisons of integers.
  ghost predicate FindsText(py: ObjectModel) {
    forall w, s :: py.compare(In, StrV(w), StrV(s)) == Object(exists i :: 0 <= i <= |s| && OccursAt(w, s, i))
  }

  ghost predicate OrdersIntegers(py: ObjectModel) {
    && (forall a, b :: py.compare(Lt, IntV(a), IntV(b)) == Object(a < b))
    && (forall a, b :: py.compare(LtE, IntV(a), IntV(b)) == Object(a <= b))
  }

  // One comparison compares its operands in the order in which they stand.
  lemma ComparedOnce(py: ObjectModel, env: Env, l: Value, op: CompareOp, e: Expr, r: Value, holds: bool)
    requires Eval(py, env, e) == Ok(r) && op != OtherCompare && py.compare(op, l, r) == Object(holds)
    ensures EvalChain(py, env, l, [op], [e]) == Ok(BoolV(holds))
  {
    assert [op][1..] == [] && [e][1..] == [];
    assert EvalChain(py, env, r, [], []) == Ok(BoolV(true));
  }

  lemma InSlugAnswers(py: ObjectModel, lim: Limits, w: string, rawSlug: string, found: bool)
    requires py.compare(In, StrV(w), StrV(py.normalize(rawSlug))) == Object(found) && lim.steps > 0
    ensures Verdict(Block(py, lim, [Return(Some(Compare(Constant(StrV(w)), [In], [Name("slug")])))], Start(py, rawSlug)).out) ==
            Ok(found)
  {
    var slug, env, e := py.normalize(rawSlug), Start(py, rawSlug).vars, Compare(Constant(StrV(w)), [In], [Name("slug")]);
    assert Eval(py, env, Name("slug")) == Ok(StrV(slug)) && Eval(py, env, Constant(StrV(w))) == Ok(StrV(w));
    hide Block;
    ComparedOnce(py, env, StrV(w), In, Name("slug"), StrV(slug), found);
    hide EvalChain;
    assert Eval(py, env, e) == Ok(BoolV(found));
    hide Eval;
    ReturnAnswers(py, lim, e, Start(py, rawSlug), BoolV(found));
  }

  /** `return w in slug` includes exactly the slugs in which w occurs. */
  lemma InSlugExactly(py: ObjectModel, lim: Limits, w: string, rawSlug: string)
    requires FindsText(py) && lim.steps > 0
    ensures var slug := py.normalize(rawSlug);
            Verdict(Block(py, lim, [Return(Some(Compare(Constant(StrV(w)), [In], [Name("slug")])))], Start(py, rawSlug)).out) ==
            Ok(exists i :: 0 <= i <= |slug| && OccursAt(w, slug, i))
  {
    hide Block, OccursAt;
    InSlugAnswers(py, lim, w, rawSlug, exists i :: 0 <= i <= |py.normalize(rawSlug)| && OccursAt(w, py.normalize(rawSlug), i));
  }

  /** `lo <= e < hi` holds exactly of the integers from lo on and below hi. */
  lemma IntervalExactly(py: ObjectModel, env: Env, lo: int, hi: int, e: Expr, n: int)
    requires OrdersIntegers(py) && Eval(py, env, e) == Ok(IntV(n))
    ensures Eval(py, env, Compare(Constant(IntV(lo)), [LtE, Lt], [e, Constant(IntV(hi))])) == Ok(BoolV(lo <= n < hi))
  {
    var top := Constant(IntV(hi));
    assert Eval(py, env, top) == Ok(IntV(hi)) && Eval(py, env, Constant(IntV(lo))) == Ok(IntV(lo));
    ComparedOnce(py, env, IntV(n), Lt, top, IntV(hi), n < hi);
    assert [LtE, Lt][1..] == [Lt] && [e, top][1..] == [top];
    assert py.compare(LtE, IntV(lo), IntV(n)) == Object(lo <= n);
  }

  // return helper(slug, e)
  function Ask(helper: string, e: Expr): seq<Stmt> {
    [Return(Some(Call(Name(helper), [Name("slug"), e], 0)))]
  }

  lemma SlugAndOne(py: ObjectModel, env: Env, slug: string, e: Expr, v: Value)
    requires "slug" in env && env["slug"] == StrV(slug) && Eval(py, env, e) == Ok(v)
    ensures EvalAll(py, env, [Name("slug"), e]) == Ok([StrV(slug), v])
  {
    EvalCons(py, env, e, [], v, []);
    assert [e] + [] == [e] && [v] + [] == [v];
    EvalCons(py, env, Name("slug"), [e], StrV(slug), [v]);
    assert [Name("slug")] + [e] == [Name("slug"), e] && [StrV(slug)] + [v] == [StrV(slug), v];
  }

  lemma AskAnswers(py: ObjectModel, lim: Limits, helper: string, e: Expr, v: Value, rawSlug: string, answer: bool)
    requires helper in HELPERS && helper !in SAFE_BUILTINS && lim.steps > 0
    requires Eval(py, Start(py, rawSlug).vars, e) == Ok(v)
    requires CallHelper(py, helper, [StrV(py.normalize(rawSlug)), v]) == Ok(BoolV(answer))
    ensures Verdict(Block(py, lim, Ask(helper, e), Start(py, rawSlug)).out) == Ok(answer)
  {
    var env, call := Start(py, rawSlug).vars, Call(Name(helper), [Name("slug"), e], 0);
    SlugAndOne(py, env, py.normalize(rawSlug), e, v);
    hide CallHelper, HELPERS, SAFE_BUILTINS;
    assert Eval(py, env, call) == Ok(BoolV(answer));
    ReturnAnswers(py, lim, call, Start(py, rawSlug), BoolV(answer));
  }

  lemma HelpersAreNoBuiltins()
    ensures forall helper :: helper in HELPERS ==> helper !in SAFE_BUILTINS
  {
    assert forall helper :: helper in HELPERS ==> |helper| >= 7;
    assert forall id :: id in SAFE_BUILTINS ==> |id| <= 5;
  }

  /** contains, starts_with and ends_with answer, with both strings folded to lower case, what
      their names say. */
  lemma HelpersAnswer(py: ObjectModel, lim: Limits, w: string, rawSlug: string, s: string, t: string)
    requires py.fold(StrV(py.normalize(rawSlug))) == Object(s) && py.fold(StrV(w)) == Object(t) && lim.steps > 0
    ensures Verdict(Block(py, lim, Ask("contains", Constant(StrV(w))), Start(py, rawSlug)).out) ==
            Ok(exists i :: 0 <= i <= |s| && OccursAt(t, s, i))
    ensures Verdict(Block(py, lim, Ask("starts_with", Constant(StrV(w))), Start(py, rawSlug)).out) ==
            Ok(|t| <= |s| && s[..|t|] == t)
    ensures Verdict(Block(py, lim, Ask("ends_with", Constant(StrV(w))), Start(py, rawSlug)).out) ==
            Ok(|t| <= |s| && s[|s| - |t|..] == t)
  {
    var args, e := [StrV(py.normalize(rawSlug)), StrV(w)], Constant(StrV(w));
    HelpersAreNoBuiltins();
    assert FoldedArg(py, args, 0) == Ok(s) && FoldedArg(py, args, 1) == Ok(t);
    assert "contains"[0] == 'c' && "starts_with"[0] == 's' && "ends_with"[0] == 'e';
    assert CallHelper(py, "contains", args) == Ok(BoolV(Occurs(t, s)));
    assert CallHelper(py, "starts_with", args) == Ok(BoolV(t <= s));
    assert CallHelper(py, "ends_with", args) == Ok(BoolV(EndsWith(s, t)));
    assert "contains" in HELPERS && "starts_with" in HELPERS && "ends_with" in HELPERS;
    assert Eval(py, Start(py, rawSlug).vars, e) == Ok(StrV(w));
    hide CallHelper, HELPERS, SAFE_BUILTINS, Eval, Block, Ask;
    AskAnswers(py, lim, "contains", e, StrV(w), rawSlug, Occurs(t, s));
    AskAnswers(py, lim, "starts_with", e, StrV(w), rawSlug, t <= s);
    AskAnswers(py, lim, "ends_with", e, StrV(w), rawSlug, EndsWith(s, t));
  }

  /** matches searches the slug for the pattern. */
  lemma MatchesAnswers(py: ObjectModel, lim: Limits, pattern: string, rawSlug: string, found: bool)
    requires py.search(StrV(pattern), StrV(py.normalize(rawSlug))) == Object(found) && lim.steps > 0
    ensures Verdict(Block(py, lim, Ask("matches", Constant(StrV(pattern))), Start(py, rawSlug)).out) == Ok(found)
  {
    var args, e := [StrV(py.normalize(rawSlug)), StrV(pattern)], Constant(StrV(pattern));
    HelpersAreNoBuiltins();
    assert "matches"[0] == 'm' && "contains"[0] == "contains_any"[0] == 'c' && "starts_with"[0] == 's' && "ends_with"[0] == 'e';
    assert CallHelper(py, "matches", args) == Ok(BoolV(found));
    assert "matches" in HELPERS;
    assert Eval(py, Start(py, rawSlug).vars, e) == Ok(StrV(pattern));
    hide CallHelper, HELPERS, SAFE_BUILTINS, Eval, Block, Ask;
    AskAnswers(py, lim, "matches", e, StrV(pattern), rawSlug, found);
  }

  /** A helper that is given fewer than two arguments fails. */
  lemma HelpersNeedTwo(py: ObjectModel, helper: string, args: seq<Value>)
    requires |args| < 2
    ensures CallHelper(py, helper, args).Err? && CallHelper(py, helper, args).failure.PythonError?
  {
  }

  /** Each of the nine builtins is called with the values of the arguments, and what it
      raises is raised. */
  lemma BuiltinIsCalled(py: ObjectModel, env: Env, id: string, es: seq<Expr>, vs: seq<Value>)
    requires || id == "len" || id == "str" || id == "int" || id == "float" || id == "bool"
             || id == "abs" || id == "min" || id == "max" || id == "range"
    requires EvalAll(py, env, es) == Ok(vs)
    ensures Eval(py, env, Call(Name(id), es, 0)) ==
            match py.builtin(id, vs)
            case Object(v) => Ok(v)
            case Exception(code) => Err(PythonError(code))
  {
    assert id in SAFE_BUILTINS;
    hide SAFE_BUILTINS;
  }

  lemma {:induction false} AnyExactly(py: ObjectModel, ws: seq<Value>, ts: seq<string>, s: string)
    requires |ws| == |ts| && forall k :: 0 <= k < |ws| ==> py.fold(ws[k]) == Object(ts[k])
    ensures AnyOccurs(py, ws, s) == Ok(BoolV(exists k :: 0 <= k < |ts| && Occurs(ts[k], s)))
  {
    if ws != [] {
      AnyExactly(py, ws[1..], ts[1..], s);
      assert forall k :: 0 < k < |ts| ==> ts[k] == ts[1..][k - 1];
    }
  }

  /** contains_any answers whether one of the words occurs. */
  lemma ContainsAnyAnswers(py: ObjectModel, lim: Limits, e: Expr, ws: seq<Value>, rawSlug: string, s: string, ts: seq<string>)
    requires py.fold(StrV(py.normalize(rawSlug))) == Object(s) && lim.steps > 0
    requires Eval(py, Start(py, rawSlug).vars, e) == Ok(ListV(ws)) || Eval(py, Start(py, rawSlug).vars, e) == Ok(TupleV(ws))
    requires |ws| == |ts| && forall k :: 0 <= k < |ws| ==> py.fold(ws[k]) == Object(ts[k])
    ensures Verdict(Block(py, lim, Ask("contains_any", e), Start(py, rawSlug)).out) ==
            Ok(exists k :: 0 <= k < |ts| && exists i :: 0 <= i <= |s| && OccursAt(ts[k], s, i))
  {
    var v := Eval(py, Start(py, rawSlug).vars, e).value;
    var args := [StrV(py.normalize(rawSlug)), v];
    var found := exists k :: 0 <= k < |ts| && Occurs(ts[k], s);
    HelpersAreNoBuiltins();
    AnyExactly(py, ws, ts, s);
    assert FoldedArg(py, args, 0) == Ok(s) && Items(v) == Ok(ws);
    assert |"contains_any"| == 12 && |"contains"| == 8 && "contains_any"[0] == 'c' != "starts_with"[0] && "ends_with"[0] == 'e';
    assert CallHelper(py, "contains_any", args) == Ok(BoolV(found));
    assert "contains_any" in HELPERS;
    assert found <==> exists k :: 0 <= k < |ts| && exists i :: 0 <= i <= |s| && OccursAt(ts[k], s, i);
    hide CallHelper, HELPERS, SAFE_BUILTINS, Eval, Block, Ask;
    AskAnswers(py, lim, "contains_any", e, v, rawSlug, found);
  }
}
